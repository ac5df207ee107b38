/** The decisions buried in the window code (gui.py): the sort-column toggle
    and ordering, the search/filter predicate, the priority tags, the
    statistics counters, the slash commands and the composition of a chat
    reply. Widgets are not modelled: each method returns what the window
    would show. */
module Gui {
  import opened Wrappers
  import opened Strings
  import opened Seqs
  import opened TaskStore
  import opened TaskService
  import opened AiHelper

  // ---------------------------------------------------------------------
  // Sorting by a column (gui.py:158-175)
  // ---------------------------------------------------------------------

  /** A tree entry as the sort sees it: the cell text in the sort column
      and the item id. */
  type Entry = (string, string)

  /** Python's tuple order on entries: by cell text, then by item id. */
  predicate EntryLe(a: Entry, b: Entry) {
    if a.0 == b.0 then StrLe(a.1, b.1) else StrLe(a.0, b.0)
  }

  lemma EntryLeTotal(a: Entry, b: Entry)
    ensures EntryLe(a, b) || EntryLe(b, a)
  {
    StrLeTotal(a.0, b.0);
    StrLeTotal(a.1, b.1);
  }

  lemma EntryLeTransitive(a: Entry, b: Entry, c: Entry)
    requires EntryLe(a, b) && EntryLe(b, c)
    ensures EntryLe(a, c)
  {
    if a.0 == b.0 && b.0 == c.0 {
      StrLeTransitive(a.1, b.1, c.1);
    } else if a.0 == b.0 {
      assert StrLe(b.0, c.0);
    } else if b.0 == c.0 {
      assert StrLe(a.0, b.0);
    } else {
      StrLeTransitive(a.0, b.0, c.0);
      if a.0 == c.0 {
        StrLeAntisymmetric(a.0, b.0);
      }
    }
  }

  ghost predicate Ascending(s: seq<Entry>) {
    forall i, j :: 0 <= i < j < |s| ==> EntryLe(s[i], s[j])
  }

  ghost predicate Descending(s: seq<Entry>) {
    forall i, j :: 0 <= i < j < |s| ==> EntryLe(s[j], s[i])
  }

  /** `x` placed before the first entry it does not exceed. */
  function InsertEntry(x: Entry, s: seq<Entry>): (r: seq<Entry>)
    ensures multiset(r) == multiset(s) + multiset{x}
    decreases |s|
  {
    if s == [] then [x]
    else if EntryLe(x, s[0]) then [x] + s
    else
      assert s == [s[0]] + s[1..];
      [s[0]] + InsertEntry(x, s[1..])
  }

  /** A lower bound of `x` and of every entry of `s` bounds every entry
      after the insertion. */
  lemma InsertEntryBounded(x: Entry, s: seq<Entry>, y: Entry)
    requires EntryLe(y, x) && forall k :: 0 <= k < |s| ==> EntryLe(y, s[k])
    ensures forall k :: 0 <= k < |InsertEntry(x, s)| ==> EntryLe(y, InsertEntry(x, s)[k])
  {
    var r := InsertEntry(x, s);
    forall k | 0 <= k < |r| ensures EntryLe(y, r[k]) {
      assert r[k] in multiset(r);
      if r[k] != x {
        assert r[k] in multiset(s);
        var m :| 0 <= m < |s| && s[m] == r[k];
      }
    }
  }

  lemma {:induction false} InsertEntryAscending(x: Entry, s: seq<Entry>)
    requires Ascending(s)
    ensures Ascending(InsertEntry(x, s))
    decreases |s|
  {
    if s != [] {
      var r := InsertEntry(x, s);
      if EntryLe(x, s[0]) {
        forall i, j | 0 <= i < j < |r| ensures EntryLe(r[i], r[j]) {
          if i == 0 {
            if j > 1 { EntryLeTransitive(x, s[0], s[j - 1]); }
          } else {
            assert r[i] == s[i - 1] && r[j] == s[j - 1];
          }
        }
      } else {
        EntryLeTotal(x, s[0]);
        var t := s[1..];
        assert Ascending(t);
        InsertEntryAscending(x, t);
        var u := InsertEntry(x, t);
        InsertEntryBounded(x, t, s[0]);
        assert r == [s[0]] + u;
        forall i, j | 0 <= i < j < |r| ensures EntryLe(r[i], r[j]) {
          if i > 0 {
            assert r[i] == u[i - 1] && r[j] == u[j - 1];
          }
        }
      }
    }
  }

  /** The entries in ascending tuple order (an insertion sort). */
  function SortEntries(s: seq<Entry>): (r: seq<Entry>)
    ensures multiset(r) == multiset(s)
    decreases |s|
  {
    if s == [] then [] else
      assert s == [s[0]] + s[1..];
      InsertEntry(s[0], SortEntries(s[1..]))
  }

  lemma {:induction false} SortEntriesAscending(s: seq<Entry>)
    ensures Ascending(SortEntries(s))
    decreases |s|
  {
    if s != [] {
      SortEntriesAscending(s[1..]);
      InsertEntryAscending(s[0], SortEntries(s[1..]));
    }
  }

  function Reverse<T>(s: seq<T>): (r: seq<T>)
    ensures |r| == |s| && forall i :: 0 <= i < |s| ==> r[i] == s[|s| - 1 - i]
    ensures multiset(r) == multiset(s)
    decreases |s|
  {
    if s == [] then [] else
      assert s == [s[0]] + s[1..];
      Reverse(s[1..]) + [s[0]]
  }

  /** `items.sort(reverse=...)`. Entries that compare equal are equal, so a
      descending sort is the ascending one read backwards. */
  function SortForView(items: seq<Entry>, reverse: bool): seq<Entry> {
    if reverse then Reverse(SortEntries(items)) else SortEntries(items)
  }

  /** The sorted view holds the same entries, ascending or descending as
      requested. */
  lemma SortForViewCorrect(items: seq<Entry>, reverse: bool)
    ensures multiset(SortForView(items, reverse)) == multiset(items)
    ensures !reverse ==> Ascending(SortForView(items, reverse))
    ensures reverse ==> Descending(SortForView(items, reverse))
  {
    SortEntriesAscending(items);
  }

  /** The item ids in view order. */
  function ItemIds(s: seq<Entry>): (r: seq<string>)
    ensures |r| == |s| && forall i :: 0 <= i < |s| ==> r[i] == s[i].1
  {
    seq(|s|, i requires 0 <= i < |s| => s[i].1)
  }

  /** The sort state of the task list (`ordem_atual`). */
  class SortState {
    var coluna: string
    var reverso: bool

    /** Initially sorted by `ID`, ascending. */
    constructor ()
      ensures coluna == "ID" && !reverso
    {
      coluna := "ID";
      reverso := false;
    }

    /** `_ordenar_coluna`: clicking the current column flips the direction,
        clicking another selects it ascending; the rows are then moved into
        sorted order. `items` pairs each row's cell in that column with its
        item id, in the tree's current order; the result is the new order. */
    method OrdenarColuna(col: string, items: seq<Entry>) returns (ordem: seq<string>)
      modifies this
      ensures coluna == col
      ensures reverso == if old(coluna) == col then !old(reverso) else false
      ensures ordem == ItemIds(SortForView(items, reverso))
    {
      if coluna == col {
        reverso := !reverso;
      } else {
        coluna := col;
        reverso := false;
      }
      var sorted := SortForView(items, reverso);
      ordem := [];
      var index := 0;
      while index < |sorted|
        invariant 0 <= index <= |sorted|
        invariant ordem == ItemIds(sorted[..index])
      {
        ordem := ordem + [sorted[index].1];
        index := index + 1;
      }
      assert sorted[..index] == sorted;
    }
  }

  // ---------------------------------------------------------------------
  // Priority tags (gui.py:689-697, gui.py:1036-1043)
  // ---------------------------------------------------------------------

  /** The row style of a priority. */
  function PriorityTag(prioridade: string): Option<string> {
    if prioridade == "Alta" then Some("alta")
    else if prioridade == "Média" then Some("media")
    else if prioridade == "Baixa" then Some("baixa")
    else None
  }

  /** A priority has a tag exactly when it is one of the three known ones,
      and the tag tells which: distinct priorities get distinct tags. */
  lemma PriorityTagExact(p: string, q: string)
    ensures PriorityTag(p).Some? <==> p in Priorities
    ensures PriorityTag(p).Some? && PriorityTag(p) == PriorityTag(q) ==> p == q
  {
  }

  // ---------------------------------------------------------------------
  // Search and filters (gui.py:1013-1052)
  // ---------------------------------------------------------------------

  /** Whether `_filtrar_tarefas` shows a task: the state filter ("Todos" or
      the same state ignoring case), the priority filter ("Todas" or the
      same priority) and the search term (empty, or found in the title
      ignoring case). `termo` is the search text already lower-cased. */
  predicate Visible(t: Task, termo: string, estadoFiltro: string, prioridadeFiltro: string) {
    && (estadoFiltro == "Todos" || Lower(t.estado) == Lower(estadoFiltro))
    && (prioridadeFiltro == "Todas" || t.prioridade == prioridadeFiltro)
    && (termo == "" || IsSubstring(termo, Lower(t.titulo)))
  }

  /** One inserted tree row: id, title, category, priority, state and due
      date, with the priority's tag. */
  datatype TreeRow = TreeRow(
    id: int, titulo: string, categoria: string, prioridade: string, estado: string,
    dataVencimento: string, tag: Option<string>)

  function RowOf(t: Task): TreeRow {
    TreeRow(t.id, t.titulo, t.categoria, t.prioridade, t.estado, t.dataVencimento, PriorityTag(t.prioridade))
  }

  /** The filter predicate with its three settings fixed. */
  function VisibleUnder(termo: string, estadoFiltro: string, prioridadeFiltro: string): Task -> bool {
    (t: Task) => Visible(t, termo, estadoFiltro, prioridadeFiltro)
  }

  /** The rows the filter inserts, in task order. */
  function Shown(ts: seq<Task>, termo: string, estadoFiltro: string, prioridadeFiltro: string): seq<TreeRow> {
    MapFilter(ts, VisibleUnder(termo, estadoFiltro, prioridadeFiltro), RowOf)
  }

  /** The shown rows are, in order, the rows of the visible tasks: each one
      comes from a visible task and every visible task has its row. */
  lemma ShownExact(ts: seq<Task>, termo: string, e: string, p: string)
    ensures var vis := Filter(ts, VisibleUnder(termo, e, p));
      && |Shown(ts, termo, e, p)| == |vis|
      && (forall i :: 0 <= i < |vis| ==> Shown(ts, termo, e, p)[i] == RowOf(vis[i]))
      && (forall i :: 0 <= i < |vis| ==> vis[i] in ts && Visible(vis[i], termo, e, p))
      && (forall i :: 0 <= i < |ts| && Visible(ts[i], termo, e, p) ==> ts[i] in vis)
  {
    MapFilterIsMapOfFilter(ts, VisibleUnder(termo, e, p), RowOf);
  }

  /** With the filters at "Todos" / "Todas" and an empty search, every task
      is shown. */
  lemma {:induction false} NoFilterShowsAll(ts: seq<Task>)
    ensures |Shown(ts, "", "Todos", "Todas")| == |ts|
    ensures forall i :: 0 <= i < |ts| ==> Shown(ts, "", "Todos", "Todas")[i] == RowOf(ts[i])
    decreases |ts|
  {
    if ts != [] {
      NoFilterShowsAll(ts[..|ts| - 1]);
    }
  }

  /** The search ignores case in both the term and the title. */
  lemma SearchIgnoresCase(t: Task, termo: string, e: string, p: string)
    ensures Visible(t, Lower(termo), e, p) <==> Visible(t.(titulo := Lower(t.titulo)), Lower(termo), e, p)
  {
    LowerIdempotent(t.titulo);
  }

  /** `_filtrar_tarefas`: the loop over all tasks with its three `continue`s. */
  method FiltrarTarefas(tm: TaskManager, pesquisa: string, estadoFiltro: string, prioridadeFiltro: string)
    returns (linhas: seq<TreeRow>)
    ensures linhas == Shown(tm.db.rows, Lower(pesquisa), estadoFiltro, prioridadeFiltro)
  {
    var tarefas := tm.ObterTodasTarefas(true);
    var termo := Lower(pesquisa);
    linhas := [];
    var i := 0;
    while i < |tarefas|
      invariant 0 <= i <= |tarefas|
      invariant linhas == Shown(tarefas[..i], termo, estadoFiltro, prioridadeFiltro)
    {
      var tarefa := tarefas[i];
      assert tarefas[..i + 1][..i] == tarefas[..i];
      i := i + 1;
      if estadoFiltro != "Todos" && Lower(tarefa.estado) != Lower(estadoFiltro) {
        continue;
      }
      if prioridadeFiltro != "Todas" && tarefa.prioridade != prioridadeFiltro {
        continue;
      }
      if termo != "" && !IsSubstring(termo, Lower(tarefa.titulo)) {
        continue;
      }
      linhas := linhas + [RowOf(tarefa)];
    }
    assert tarefas[..i] == tarefas;
  }

  // ---------------------------------------------------------------------
  // Statistics (gui.py:1064-1083)
  // ---------------------------------------------------------------------

  predicate IsPendente(t: Task) { Lower(t.estado) == "pendente" }
  predicate IsEmProgresso(t: Task) { Lower(t.estado) == "em progresso" }
  predicate IsConcluida(t: Task) { Lower(t.estado) == "concluída" }
  predicate IsAlta(t: Task) { t.prioridade == "Alta" }
  predicate IsMedia(t: Task) { t.prioridade == "Média" }
  predicate IsBaixa(t: Task) { t.prioridade == "Baixa" }

  /** A category counter in first-seen order (a Python dict's order). */
  type Tally = seq<(string, nat)>

  /** `tally[cat] = tally.get(cat, 0) + 1`. */
  function Bump(tally: Tally, cat: string): (r: Tally)
    decreases |tally|
  {
    if tally == [] then [(cat, 1)]
    else if tally[0].0 == cat then [(cat, tally[0].1 + 1)] + tally[1..]
    else [tally[0]] + Bump(tally[1..], cat)
  }

  /** The count a tally holds for `cat` (0 when absent). */
  function Lookup(tally: Tally, cat: string): nat
    decreases |tally|
  {
    if tally == [] then 0
    else if tally[0].0 == cat then tally[0].1
    else Lookup(tally[1..], cat)
  }

  function Total(tally: Tally): nat
    decreases |tally|
  {
    if tally == [] then 0 else tally[0].1 + Total(tally[1..])
  }

  ghost predicate DistinctKeys(tally: Tally) {
    forall i, j :: 0 <= i < j < |tally| ==> tally[i].0 != tally[j].0
  }

  /** Bumping never introduces a category other than the bumped one. */
  lemma {:induction false} BumpAvoids(tally: Tally, cat: string, k: string)
    requires k != cat && forall i :: 0 <= i < |tally| ==> tally[i].0 != k
    ensures forall i :: 0 <= i < |Bump(tally, cat)| ==> Bump(tally, cat)[i].0 != k
    decreases |tally|
  {
    if tally != [] && tally[0].0 != cat {
      BumpAvoids(tally[1..], cat, k);
      assert Bump(tally, cat) == [tally[0]] + Bump(tally[1..], cat);
    }
  }

  /** Bumping adds one to that category, nothing to the others, one to the
      total, and keeps one entry per category. */
  lemma {:induction false} BumpEffect(tally: Tally, cat: string)
    requires DistinctKeys(tally)
    ensures DistinctKeys(Bump(tally, cat))
    ensures forall k :: Lookup(Bump(tally, cat), k) == Lookup(tally, k) + (if k == cat then 1 else 0)
    ensures Total(Bump(tally, cat)) == Total(tally) + 1
    decreases |tally|
  {
    if tally == [] {
    } else if tally[0].0 == cat {
      var r := Bump(tally, cat);
      assert r[1..] == tally[1..];
      assert DistinctKeys(r) by {
        forall i, j | 0 <= i < j < |r| ensures r[i].0 != r[j].0 {
          assert r[j] == tally[j];
          if i > 0 { assert r[i] == tally[i]; }
        }
      }
    } else {
      var t := tally[1..];
      assert DistinctKeys(t) by {
        forall i, j | 0 <= i < j < |t| ensures t[i].0 != t[j].0 {
          assert t[i] == tally[i + 1] && t[j] == tally[j + 1];
        }
      }
      BumpEffect(t, cat);
      var b := Bump(t, cat);
      var r := Bump(tally, cat);
      assert r == [tally[0]] + b;
      assert forall i :: 0 <= i < |t| ==> t[i].0 != tally[0].0 by {
        forall i | 0 <= i < |t| ensures t[i].0 != tally[0].0 {
          assert t[i] == tally[i + 1];
        }
      }
      BumpAvoids(t, cat, tally[0].0);
      assert DistinctKeys(r) by {
        forall i, j | 0 <= i < j < |r| ensures r[i].0 != r[j].0 {
          assert r[j] == b[j - 1];
          if i > 0 { assert r[i] == b[i - 1]; }
        }
      }
    }
  }

  /** The category counter after the loop over `ts`. */
  function CategoryTally(ts: seq<Task>): Tally
    decreases |ts|
  {
    if ts == [] then [] else Bump(CategoryTally(ts[..|ts| - 1]), ts[|ts| - 1].categoria)
  }

  /** Each category's count is the number of tasks in it, every category
      appears once, and the counts add up to the number of tasks. */
  lemma {:induction false} CategoryTallyCorrect(ts: seq<Task>)
    ensures DistinctKeys(CategoryTally(ts))
    ensures forall cat :: Lookup(CategoryTally(ts), cat) == Count(ts, (t: Task) => t.categoria == cat)
    ensures Total(CategoryTally(ts)) == |ts|
    decreases |ts|
  {
    if ts != [] {
      var init := ts[..|ts| - 1];
      CategoryTallyCorrect(init);
      BumpEffect(CategoryTally(init), ts[|ts| - 1].categoria);
    }
  }

  /** The counters of the statistics window. */
  datatype Stats = Stats(
    total: nat, pendentes: nat, emProgresso: nat, concluidas: nat,
    alta: nat, media: nat, baixa: nat, categorias: Tally)

  /** The state counts and the priority counts each cover every task at
      most once. */
  lemma StatsBounded(ts: seq<Task>)
    ensures Count(ts, IsPendente) + Count(ts, IsEmProgresso) + Count(ts, IsConcluida) <= |ts|
    ensures Count(ts, IsAlta) + Count(ts, IsMedia) + Count(ts, IsBaixa) <= |ts|
  {
    DisjointCountsBounded(ts, IsPendente, IsEmProgresso, IsConcluida);
    DisjointCountsBounded(ts, IsAlta, IsMedia, IsBaixa);
  }

  /** `_mostrar_estatisticas` without the window: the six `sum` counters
      and the category loop. */
  method MostrarEstatisticas(tm: TaskManager) returns (s: Stats)
    ensures s.total == |tm.db.rows|
    ensures s.pendentes == Count(tm.db.rows, IsPendente) && s.emProgresso == Count(tm.db.rows, IsEmProgresso)
    ensures s.concluidas == Count(tm.db.rows, IsConcluida)
    ensures s.alta == Count(tm.db.rows, IsAlta) && s.media == Count(tm.db.rows, IsMedia) && s.baixa == Count(tm.db.rows, IsBaixa)
    ensures DistinctKeys(s.categorias) && Total(s.categorias) == s.total
    ensures forall cat :: Lookup(s.categorias, cat) == Count(tm.db.rows, (t: Task) => t.categoria == cat)
  {
    var tarefas := tm.ObterTodasTarefas(true);
    var categorias: Tally := [];
    var i := 0;
    while i < |tarefas|
      invariant 0 <= i <= |tarefas|
      invariant categorias == CategoryTally(tarefas[..i])
    {
      assert tarefas[..i + 1][..i] == tarefas[..i];
      categorias := Bump(categorias, tarefas[i].categoria);
      i := i + 1;
    }
    assert tarefas[..i] == tarefas;
    CategoryTallyCorrect(tarefas);
    s := Stats(|tarefas|, Count(tarefas, IsPendente), Count(tarefas, IsEmProgresso), Count(tarefas, IsConcluida),
               Count(tarefas, IsAlta), Count(tarefas, IsMedia), Count(tarefas, IsBaixa), categorias);
  }

  // ---------------------------------------------------------------------
  // Adding a task from the form (gui.py:547-660)
  // ---------------------------------------------------------------------

  /** The other fields of the add-task form. */
  datatype Form = Form(descricao: string, categoria: string, prioridade: string, dataVencimento: string)

  /** What decides an addition besides the form: today's date, the
      analyser's raw reply and the JSON parser (for `analisar_tarefa`),
      Tk's text for a suggested value that is not a JSON string, and the
      user's answer to the suggestions dialog (`aplicar` for "Yes"). */
  datatype Review = Review(hoje: Date, reply: Option<string>, parse: string -> Option<Json>,
                           render: Json -> string, aplicar: bool)

  /** Python truthiness of a JSON value, as `if analise:` sees it. */
  predicate Truthy(j: Json) {
    match j
    case JNull => false
    case JBool(b) => b
    case JNum(n) => n != 0
    case JStr(s) => s != ""
    case JArr(items) => items != []
    case JObj(fields) => fields != map[]
  }

  /** A value a `for` loop can walk through. */
  predicate Iterable(j: Json) {
    j.JArr? || j.JStr? || j.JObj?
  }

  /** The dialog text can be built: the analysis and its `justificativas`
      are objects holding every key the text reads, and the similar-task
      list, when truthy, can be iterated. Anything else raises before the
      user is asked. */
  predicate DialogReads(j: Json) {
    && Field(j, "prioridade").Some?
    && Field(j, "categoria").Some?
    && Field(j, "data_vencimento").Some?
    && Field(j, "justificativas").Some?
    && Field(Field(j, "justificativas").value, "prioridade").Some?
    && Field(Field(j, "justificativas").value, "categoria").Some?
    && Field(Field(j, "justificativas").value, "data_vencimento").Some?
    && Field(j, "tarefas_similares").Some?
    && (Truthy(Field(j, "tarefas_similares").value) ==> Iterable(Field(j, "tarefas_similares").value))
  }

  /** What a Tk string variable holds after `set(v)`. */
  function TkText(v: Json, render: Json -> string): string {
    if v.JStr? then v.s else render(v)
  }

  /** The form after the user applies the suggestions. */
  function Applied(form: Form, analise: Json, render: Json -> string): (r: Form)
    requires DialogReads(analise)
    ensures r.descricao == form.descricao
    ensures analise.fields["categoria"].JStr? ==> r.categoria == analise.fields["categoria"].s
    ensures analise.fields["prioridade"].JStr? ==> r.prioridade == analise.fields["prioridade"].s
    ensures analise.fields["data_vencimento"].JStr? ==> r.dataVencimento == analise.fields["data_vencimento"].s
  {
    form.(categoria := TkText(analise.fields["categoria"], render),
          prioridade := TkText(analise.fields["prioridade"], render),
          dataVencimento := TkText(analise.fields["data_vencimento"], render))
  }

  /** The task dictionaries `_adicionar_tarefa` hands to the analyser. */
  function Existing(rows: seq<Task>): (r: seq<map<string, string>>)
    ensures |r| == |rows|
    ensures forall i :: 0 <= i < |r| ==> "titulo" in r[i] && r[i]["titulo"] == rows[i].titulo
  {
    seq(|rows|, i requires 0 <= i < |rows| => map["titulo" := rows[i].titulo, "descricao" := rows[i].descricao])
  }

  /** The analysis `_adicionar_tarefa` receives; every existing task has a
      title, so it always comes back. */
  function Suggestion(rows: seq<Task>, review: Review): (r: Json)
    requires ValidDate(review.hoje)
    ensures AnalisarTarefa(Existing(rows), review.hoje, review.reply, review.parse) == Some(r)
  {
    var existentes := Existing(rows);
    assert forall i :: 0 <= i < |existentes| ==> "titulo" in existentes[i];
    AnalisarTarefa(existentes, review.hoje, review.reply, review.parse).value
  }

  /** The form the task is created from, or None when building the dialog
      raises (the `except` branch): a falsy analysis shows no dialog. */
  function Reviewed(form: Form, analise: Json, review: Review): Option<Form> {
    if !Truthy(analise) then Some(form)
    else if !DialogReads(analise) then None
    else if review.aplicar then Some(Applied(form, analise, review.render))
    else Some(form)
  }

  /** The table after `_adicionar_tarefa` with title `titulo`. */
  function Added(tbl: Table, titulo: string, form: Form, review: Review, now: string): Table
    requires ValidDate(review.hoje)
  {
    if titulo == "" then tbl
    else match Reviewed(form, Suggestion(tbl.rows, review), review)
      case None => tbl
      case Some(f) => Insert(tbl, NewTask(titulo, f.descricao, f.categoria, f.prioridade, f.dataVencimento, None), now)
  }

  /** The analysis is the parsed reply when the reply parses, and the
      fallback analysis otherwise. */
  lemma SuggestionIs(rows: seq<Task>, review: Review)
    requires ValidDate(review.hoje)
    ensures review.reply.Some? && review.parse(Strip(review.reply.value)).Some? ==>
      Suggestion(rows, review) == review.parse(Strip(review.reply.value)).value
    ensures review.reply.None? || review.parse(Strip(review.reply.value)).None? ==>
      Suggestion(rows, review) == DefaultAnalysis(review.hoje)
  {
    var existentes := Existing(rows);
    assert forall i :: 0 <= i < |existentes| ==> "titulo" in existentes[i];
    assert Digest(existentes).Some?;
  }

  /** `_adicionar_tarefa` with `_mostrar_sugestoes_ia`: nothing without a
      title; otherwise the analysis is asked for and, when truthy, shown,
      and the task is created from the form, with the suggestions if the
      user applies them, unless showing them raises. */
  method AdicionarTarefa(tm: TaskManager, titulo: string, form: Form, review: Review, now: string)
    returns (criada: bool)
    requires tm.Valid() && ValidDate(review.hoje)
    modifies tm.db
    ensures tm.Valid()
    ensures criada <==> titulo != "" && Reviewed(form, Suggestion(old(tm.db.rows), review), review).Some?
    ensures tm.Store() == Added(old(tm.Store()), titulo, form, review, now)
  {
    if titulo == "" {
      return false;
    }
    var tarefas := tm.ObterTodasTarefas(true);
    var existentes := Existing(tarefas);
    var analise := AnalisarTarefa(existentes, review.hoje, review.reply, review.parse).value;
    assert analise == Suggestion(tarefas, review);
    var f := form;
    if Truthy(analise) {
      if !DialogReads(analise) {
        return false;
      }
      if review.aplicar {
        f := Applied(form, analise, review.render);
      }
    }
    var _ := tm.CriarTarefa(titulo, f.descricao, f.categoria, f.prioridade, f.dataVencimento, None, now);
    criada := true;
  }

  /** Every analysis of the shape the prompt asks for (the fallback among
      them) is shown and can be applied. */
  lemma WellFormedAnalysisIsShown(j: Json)
    requires IsAnalysis(j)
    ensures Truthy(j) && DialogReads(j)
  {
    assert "prioridade" in j.fields;
  }

  /** The fallback analysis, applied, makes the task personal, of medium
      priority and due a week from today. */
  lemma FallbackReviewed(form: Form, review: Review)
    requires ValidDate(review.hoje)
    ensures Reviewed(form, DefaultAnalysis(review.hoje), review) == Some(if review.aplicar
      then form.(categoria := "Pessoal", prioridade := "Média", dataVencimento := FormatDate(PlusDays(review.hoje, 7)))
      else form)
  {
    var j := DefaultAnalysis(review.hoje);
    DefaultAnalysisWellFormed(review.hoje);
    WellFormedAnalysisIsShown(j);
    assert j.fields["categoria"] == JStr("Pessoal");
    assert j.fields["prioridade"] == JStr("Média");
    assert j.fields["data_vencimento"] == JStr(FormatDate(PlusDays(review.hoje, 7)));
  }

  /** With the analyser unreachable or its reply unparseable, a titled task
      is still created: as filled in, or, when the user applies the
      fallback suggestions, as a personal task of medium priority due a
      week from today. */
  lemma FallbackSuggestionApplied(tbl: Table, titulo: string, form: Form, review: Review, now: string)
    requires ValidDate(review.hoje) && titulo != ""
    requires review.reply.None? || review.parse(Strip(review.reply.value)).None?
    ensures var f := if review.aplicar
      then form.(categoria := "Pessoal", prioridade := "Média", dataVencimento := FormatDate(PlusDays(review.hoje, 7)))
      else form;
      Added(tbl, titulo, form, review, now)
        == Insert(tbl, NewTask(titulo, f.descricao, f.categoria, f.prioridade, f.dataVencimento, None), now)
  {
    SuggestionIs(tbl.rows, review);
    FallbackReviewed(form, review);
  }

  /** A reply that parses to a truthy value the dialog cannot read (an
      object with only a priority, say) stops the addition, whichever
      answer the user would have given. */
  lemma UnreadableSuggestionCreatesNothing(tbl: Table, titulo: string, form: Form, review: Review, now: string, j: Json)
    requires ValidDate(review.hoje)
    requires review.reply.Some? && review.parse(Strip(review.reply.value)) == Some(j)
    requires Truthy(j) && !DialogReads(j)
    ensures Added(tbl, titulo, form, review, now) == tbl
    ensures Added(tbl, titulo, form, review.(aplicar := !review.aplicar), now) == tbl
  {
    SuggestionIs(tbl.rows, review);
    SuggestionIs(tbl.rows, review.(aplicar := !review.aplicar));
  }

  /** An object holding only a priority is such a value. */
  lemma PriorityOnlyIsUnreadable()
    ensures var j := JObj(map["prioridade" := JStr("Alta")]);
      Truthy(j) && !DialogReads(j)
  {
    var j := JObj(map["prioridade" := JStr("Alta")]);
    assert "prioridade" in j.fields;
    assert "categoria" !in j.fields;
  }

  /** A reply that parses to a falsy value (`null`, `{}`, `[]`, ...) shows no
      dialog: the task is created exactly as filled in. */
  lemma FalsySuggestionKeepsForm(tbl: Table, titulo: string, form: Form, review: Review, now: string, j: Json)
    requires ValidDate(review.hoje) && titulo != ""
    requires review.reply.Some? && review.parse(Strip(review.reply.value)) == Some(j)
    requires !Truthy(j)
    ensures Added(tbl, titulo, form, review, now)
      == Insert(tbl, NewTask(titulo, form.descricao, form.categoria, form.prioridade, form.dataVencimento, None), now)
  {
    SuggestionIs(tbl.rows, review);
    assert Reviewed(form, j, review) == Some(form);
  }

  // ---------------------------------------------------------------------
  // Slash commands (gui.py:1368-1404)
  // ---------------------------------------------------------------------

  const UnpackError := "Erro ao criar tarefa: not enough values to unpack (expected 2, got 1)"
  const Created := "Tarefa criada com sucesso!"
  const NoTasks := "Não há tarefas registadas."
  const Help := "Comandos disponíveis:\n- /criar_tarefa [título]\n- /listar_tarefas\n- /ajuda\n\nVocê também pode:\n- Perguntar sobre tarefas específicas\n- Pedir sugestões de organização\n- Solicitar análise de prioridades\n- Pedir ajuda com prazos\n- Solicitar decomposição de tarefas\n"

  /** `- titulo (estado)`. */
  function ListingLine(t: Task): string {
    "- " + t.titulo + " (" + t.estado + ")"
  }

  function ListingLines(ts: seq<Task>): (ls: seq<string>)
    ensures |ls| == |ts|
  {
    seq(|ts|, i requires 0 <= i < |ts| => ListingLine(ts[i]))
  }

  /** The `/listar_tarefas` answer. */
  function Listing(ts: seq<Task>): string {
    if ts == [] then NoTasks else ContextHeader + "\n" + Unlines(ListingLines(ts))
  }

  /** The listing has its header, one line per task in order and nothing
      else, as long as no title or state spans lines. */
  lemma ListingLinesExact(ts: seq<Task>)
    requires ts != []
    requires forall i :: 0 <= i < |ts| ==> '\n' !in ts[i].titulo && '\n' !in ts[i].estado
    ensures Split(Listing(ts), '\n') == [ContextHeader] + ListingLines(ts) + [""]
  {
    var ls := ListingLines(ts);
    UnlinesAsJoin(ContextHeader, ls);
    var xs := [ContextHeader] + ls + [""];
    forall i | 0 <= i < |xs| ensures '\n' !in xs[i] {
      if 1 <= i <= |ls| {
        assert xs[i] == "- " + ts[i - 1].titulo + " (" + ts[i - 1].estado + ")";
      }
    }
    SplitJoin(xs, '\n');
  }

  /** The `/listar_tarefas` loop. */
  method ListarTarefas(tm: TaskManager) returns (resposta: string)
    ensures resposta == Listing(tm.db.rows)
  {
    var tarefas := tm.ObterTodasTarefas(true);
    if |tarefas| == 0 {
      return NoTasks;
    }
    resposta := ContextHeader + "\n";
    var i := 0;
    while i < |tarefas|
      invariant 0 <= i <= |tarefas|
      invariant resposta == ContextHeader + "\n" + Unlines(ListingLines(tarefas[..i]))
    {
      assert ListingLines(tarefas[..i + 1])[..i] == ListingLines(tarefas[..i]);
      resposta := resposta + ListingLine(tarefas[i]) + "\n";
      i := i + 1;
    }
    assert tarefas[..i] == tarefas;
  }

  /** A message the dispatcher answers itself. */
  predicate IsCommand(comando: string) {
    StartsWith(comando, "/criar_tarefa") || StartsWith(comando, "/listar_tarefas") || StartsWith(comando, "/ajuda")
  }

  /** The title `/criar_tarefa` takes: everything after the first space. */
  function CommandTitle(comando: string): Option<string> {
    match IndexOf(comando, ' ')
    case None => None
    case Some(k) => Some(comando[k + 1..])
  }

  /** The answer `_processar_comando_ia` gives to `comando` over `rows`:
      commands are matched by prefix in order and anything else gets None.
      `/criar_tarefa` without a space fails to unpack; with one it reports
      success whether or not a task was created. */
  function CommandReply(comando: string, rows: seq<Task>): (r: Option<string>)
    ensures r.Some? <==> IsCommand(comando)
  {
    if StartsWith(comando, "/criar_tarefa") then Some(if CommandTitle(comando).None? then UnpackError else Created)
    else if StartsWith(comando, "/listar_tarefas") then Some(Listing(rows))
    else if StartsWith(comando, "/ajuda") then Some(Help)
    else None
  }

  /** The table after `_processar_comando_ia`: only a `/criar_tarefa`
      with a title adds anything. */
  function CommandStore(tbl: Table, comando: string, form: Form, review: Review, now: string): Table
    requires ValidDate(review.hoje)
  {
    if StartsWith(comando, "/criar_tarefa") && CommandTitle(comando).Some?
    then Added(tbl, CommandTitle(comando).value, form, review, now)
    else tbl
  }

  /** `_processar_comando_ia`. */
  method ProcessarComando(tm: TaskManager, comando: string, form: Form, review: Review, now: string)
    returns (resposta: Option<string>)
    requires tm.Valid() && ValidDate(review.hoje)
    modifies tm.db
    ensures tm.Valid()
    ensures resposta.Some? <==> IsCommand(comando)
    ensures StartsWith(comando, "/criar_tarefa") ==>
      resposta == Some(if CommandTitle(comando).None? then UnpackError else Created)
    ensures !StartsWith(comando, "/criar_tarefa") && StartsWith(comando, "/listar_tarefas") ==>
      resposta == Some(Listing(old(tm.db.rows)))
    ensures !StartsWith(comando, "/criar_tarefa") && !StartsWith(comando, "/listar_tarefas") && StartsWith(comando, "/ajuda") ==>
      resposta == Some(Help)
    ensures resposta == CommandReply(comando, old(tm.db.rows))
    ensures !(StartsWith(comando, "/criar_tarefa") && CommandTitle(comando).Some?) ==> tm.Store() == old(tm.Store())
    ensures StartsWith(comando, "/criar_tarefa") && CommandTitle(comando).Some? ==>
      tm.Store() == Added(old(tm.Store()), CommandTitle(comando).value, form, review, now)
    ensures tm.Store() == CommandStore(old(tm.Store()), comando, form, review, now)
  {
    if StartsWith(comando, "/criar_tarefa") {
      var titulo := CommandTitle(comando);
      if titulo.None? {
        return Some(UnpackError);
      }
      var _ := AdicionarTarefa(tm, titulo.value, form, review, now);
      return Some(Created);
    } else if StartsWith(comando, "/listar_tarefas") {
      var texto := ListarTarefas(tm);
      return Some(texto);
    } else if StartsWith(comando, "/ajuda") {
      return Some(Help);
    }
    return None;
  }

  /** The title is exactly the text after the first space. Called directly,
      `/criar_tarefa ` gives the empty title, which creates nothing while
      the command still reports success; through the chat this cannot
      happen (see `ChatTitlesAreNonEmpty`). */
  lemma CommandTitleAfterFirstSpace(p: string, rest: string)
    requires ' ' !in p
    ensures CommandTitle(p + " " + rest) == Some(rest)
  {
    var c := p + " " + rest;
    assert c[|p|] == ' ';
    var k := IndexOf(c, ' ');
    assert k.Some?;
    assert c[|p| + 1..] == rest;
  }

  /** `/criar_tarefa <título>` reports success and adds exactly what the
      form would add with that title. */
  lemma CreateCommandAdds(tbl: Table, rest: string, form: Form, review: Review, now: string)
    requires ValidDate(review.hoje)
    ensures CommandReply("/criar_tarefa " + rest, tbl.rows) == Some(Created)
    ensures CommandStore(tbl, "/criar_tarefa " + rest, form, review, now) == Added(tbl, rest, form, review, now)
  {
    var p := "/criar_tarefa";
    assert p + " " + rest == "/criar_tarefa " + rest;
    assert (p + " " + rest)[..|p|] == p;
    CommandTitleAfterFirstSpace(p, rest);
  }

  /** Every command starts with a slash, so `_enviar_mensagem` hands all of
      them to the dispatcher. */
  lemma CommandsStartWithSlash(c: string)
    requires IsCommand(c)
    ensures StartsWith(c, "/")
  {
    if StartsWith(c, "/criar_tarefa") {
      assert c[..13][0] == '/';
    } else if StartsWith(c, "/listar_tarefas") {
      assert c[..15][0] == '/';
    } else {
      assert c[..6][0] == '/';
    }
  }

  // ---------------------------------------------------------------------
  // Chat (gui.py:1406-1463)
  // ---------------------------------------------------------------------

  const ActionsHeading := "Ações sugeridas:"

  /** The bullet lines `- acao`. */
  function Bullets(acoes: seq<string>): (r: seq<string>)
    ensures |r| == |acoes|
    ensures forall i :: 0 <= i < |acoes| ==> r[i] == "- " + acoes[i]
    decreases |acoes|
  {
    if acoes == [] then [] else Bullets(acoes[..|acoes| - 1]) + ["- " + acoes[|acoes| - 1]]
  }

  /** `"\n- " + acao` for each action, in order. */
  function BulletBlock(acoes: seq<string>): string
    decreases |acoes|
  {
    if acoes == [] then "" else BulletBlock(acoes[..|acoes| - 1]) + "\n- " + acoes[|acoes| - 1]
  }

  /** The text shown for an answer: the reply, then the heading and the
      bullets when there are actions. */
  function Composed(resposta: string, acoes: seq<string>): string {
    if acoes == [] then resposta else resposta + "\n\n" + ActionsHeading + BulletBlock(acoes)
  }

  /** The composition loop. */
  method ComporResposta(analise: ChatAnswer) returns (resposta: string)
    ensures resposta == Composed(analise.resposta, analise.acoesSugeridas)
  {
    resposta := analise.resposta;
    var acoes := analise.acoesSugeridas;
    if |acoes| > 0 {
      resposta := resposta + "\n\n" + ActionsHeading;
      var i := 0;
      while i < |acoes|
        invariant 0 <= i <= |acoes|
        invariant resposta == analise.resposta + "\n\n" + ActionsHeading + BulletBlock(acoes[..i])
      {
        assert acoes[..i + 1][..i] == acoes[..i];
        resposta := resposta + "\n- " + acoes[i];
        i := i + 1;
      }
      assert acoes[..i] == acoes;
    }
  }

  lemma {:induction false} BulletBlockAsJoin(h: string, acoes: seq<string>)
    ensures h + BulletBlock(acoes) == Join([h] + Bullets(acoes), '\n')
    decreases |acoes|
  {
    if acoes != [] {
      var init := acoes[..|acoes| - 1];
      BulletBlockAsJoin(h, init);
      var xs := [h] + Bullets(acoes);
      assert xs[..|xs| - 1] == [h] + Bullets(init);
    }
  }

  /** A bullet line is an action line, and its action is the stripped text. */
  lemma BulletAction(a: string)
    ensures IsActionLine("- " + a) && ActionText("- " + a) == Strip(a)
  {
    var p := "- ";
    RStripAppend(p, a);
    if AllSpace(a) {
      assert RStrip(p) == "-" by {
        assert p[..1] + p[1..] == p;
        assert IsSpace(p[1]);
      }
      LStripNonSpace("-");
      assert Strip(p + a) == "-";
      assert Strip(a) == "" by {
        assert RStrip(a) == [];
      }
    } else {
      var s := p + RStrip(a);
      LStripNonSpace(s);
      assert Strip(p + a) == s;
      assert DropTwo(s) == RStrip(a);
      RStripIdempotent(a);
    }
  }

  lemma {:induction false} BulletsActions(acoes: seq<string>)
    ensures ActionsOf(Bullets(acoes)) == Map(acoes, Strip)
    decreases |acoes|
  {
    if acoes != [] {
      var init := acoes[..|acoes| - 1];
      var last := acoes[|acoes| - 1];
      BulletsActions(init);
      BulletAction(last);
      assert Bullets(acoes) == Bullets(init) + ["- " + last];
      ActionsOfSnoc(Bullets(init), "- " + last);
    }
  }

  /** The heading and the bullets split into one line each. */
  lemma BulletBlockLines(acoes: seq<string>)
    requires forall i :: 0 <= i < |acoes| ==> '\n' !in acoes[i]
    ensures Split(ActionsHeading + BulletBlock(acoes), '\n') == [ActionsHeading] + Bullets(acoes)
  {
    HeadingIsOneLine();
    HeadedBlockLines(ActionsHeading, acoes);
  }

  lemma HeadedBlockLines(h: string, acoes: seq<string>)
    requires '\n' !in h
    requires forall i :: 0 <= i < |acoes| ==> '\n' !in acoes[i]
    ensures Split(h + BulletBlock(acoes), '\n') == [h] + Bullets(acoes)
  {
    var xs := [h] + Bullets(acoes);
    BulletBlockAsJoin(h, acoes);
    forall i | 0 <= i < |xs| ensures '\n' !in xs[i] {
      if i > 0 {
        assert xs[i] == "- " + acoes[i - 1];
      }
    }
    SplitJoin(xs, '\n');
  }

  lemma HeadingIsOneLine()
    ensures '\n' !in ActionsHeading
  {
  }

  /** The shown text splits into the reply's lines, an empty line, the
      heading and one bullet per action. */
  lemma ComposedLines(resposta: string, acoes: seq<string>)
    requires acoes != []
    requires forall i :: 0 <= i < |acoes| ==> '\n' !in acoes[i]
    ensures Split(Composed(resposta, acoes), '\n') == Split(resposta, '\n') + (([""] + [ActionsHeading]) + Bullets(acoes))
  {
    HeadingIsOneLine();
    assert Composed(resposta, acoes) == resposta + "\n\n" + (ActionsHeading + BulletBlock(acoes));
    HeadedReplyLines(resposta, ActionsHeading, acoes);
  }

  lemma HeadedReplyLines(resposta: string, h: string, acoes: seq<string>)
    requires '\n' !in h
    requires forall i :: 0 <= i < |acoes| ==> '\n' !in acoes[i]
    ensures Split(resposta + "\n\n" + (h + BulletBlock(acoes)), '\n') == Split(resposta, '\n') + (([""] + [h]) + Bullets(acoes))
  {
    HeadedBlockLines(h, acoes);
    ReplyThenBlockLines(resposta, h + BulletBlock(acoes), [h] + Bullets(acoes));
    assert [""] + ([h] + Bullets(acoes)) == ([""] + [h]) + Bullets(acoes);
  }

  /** A text followed by a blank line and a block splits into the text's
      lines, an empty line and the block's lines. */
  lemma ReplyThenBlockLines(resposta: string, tail: string, lines: seq<string>)
    requires Split(tail, '\n') == lines
    ensures Split(resposta + "\n\n" + tail, '\n') == Split(resposta, '\n') + ([""] + lines)
  {
    assert resposta + "\n\n" + tail == resposta + ['\n'] + ("" + ['\n'] + tail);
    SplitAppend(resposta, "" + ['\n'] + tail, '\n');
    SplitAppend("", tail, '\n');
    assert Split("", '\n') == [""];
  }

  /** A line that neither starts nor ends with whitespace and does not
      start with a bullet mark is not an action. */
  lemma NotActionLine(line: string)
    requires line != [] && !IsSpace(line[0]) && !IsSpace(line[|line| - 1])
    requires line[0] != '-' && line[0] != '*'
    ensures !IsActionLine(line)
  {
    assert RStrip(line) == line;
    LStripNonSpace(line);
    assert Strip(line) == line;
  }

  /** A blank line followed by a heading carries no action. */
  lemma HeadingHasNoActions(heading: string)
    requires heading != [] && !IsSpace(heading[0]) && !IsSpace(heading[|heading| - 1])
    requires heading[0] != '-' && heading[0] != '*'
    ensures ActionsOf([""] + [heading]) == []
  {
    NotActionLine(heading);
    assert !IsActionLine("");
    ActionsOfSnoc([], "");
    assert [""] == [] + [""];
    ActionsOfSnoc([""], heading);
  }

  /** Reading actions back from the shown text gives the reply's own
      actions followed by the suggested ones, stripped (single-line actions). */
  lemma ComposedActions(resposta: string, acoes: seq<string>)
    requires acoes != []
    requires forall i :: 0 <= i < |acoes| ==> '\n' !in acoes[i]
    ensures ActionsOf(Split(Composed(resposta, acoes), '\n'))
         == ActionsOf(Split(resposta, '\n')) + Map(acoes, Strip)
  {
    ComposedLines(resposta, acoes);
    HeadingHasNoActions(ActionsHeading);
    ActionsSkipSilentLines(Split(resposta, '\n'), [""] + [ActionsHeading], Bullets(acoes));
    BulletsActions(acoes);
  }

  /** Lines without actions in the middle contribute nothing. */
  lemma ActionsSkipSilentLines(head: seq<string>, silent: seq<string>, tail: seq<string>)
    requires ActionsOf(silent) == []
    ensures ActionsOf(head + (silent + tail)) == ActionsOf(head) + ActionsOf(tail)
  {
    ActionsOfAppend(head, silent + tail);
    ActionsOfAppend(silent, tail);
    assert ActionsOf(silent) + ActionsOf(tail) == ActionsOf(tail);
  }

  /** What sending a message leads to. */
  datatype ChatOutcome = Ignored | LocalAnswer(text: string) | AiAnswer(text: string)

  /** The task dictionaries the chat hands to the analyser. */
  function ChatTasks(rows: seq<Task>): seq<map<string, string>> {
    seq(|rows|, i requires 0 <= i < |rows| =>
      map["titulo" := rows[i].titulo, "descricao" := rows[i].descricao,
          "estado" := rows[i].estado, "prioridade" := rows[i].prioridade])
  }

  /** `_enviar_mensagem`: an empty message is ignored; a recognised command
      is answered locally, exactly as the dispatcher answers the stripped
      message, and never reaches the AI; anything else goes to the analyser
      (its reply is `reply`) and the composed answer is shown. */
  method EnviarMensagem(tm: TaskManager, texto: string, form: Form, review: Review,
                        now: string, reply: Option<string>) returns (out: ChatOutcome)
    requires tm.Valid() && ValidDate(review.hoje)
    modifies tm.db
    ensures tm.Valid()
    ensures out.Ignored? <==> Strip(texto) == ""
    ensures out.LocalAnswer? <==> Strip(texto) != "" && IsCommand(Strip(texto))
    ensures out.LocalAnswer? ==> CommandReply(Strip(texto), old(tm.db.rows)) == Some(out.text)
    ensures !out.LocalAnswer? ==> tm.Store() == old(tm.Store())
    ensures tm.Store() == CommandStore(old(tm.Store()), Strip(texto), form, review, now)
    ensures out.AiAnswer? ==>
      out.text == if reply.None? then Apology else Composed(reply.value, ActionsOf(Split(reply.value, '\n')))
  {
    var mensagem := Strip(texto);
    if mensagem == [] {
      return Ignored;
    }
    if StartsWith(mensagem, "/") {
      var resposta := ProcessarComando(tm, mensagem, form, review, now);
      if resposta.Some? {
        return LocalAnswer(resposta.value);
      }
    } else if IsCommand(mensagem) {
      CommandsStartWithSlash(mensagem);
      assert false;
    }
    assert !IsCommand(mensagem) && tm.Store() == old(tm.Store());
    var texto' := ResponderComIa(tm, reply);
    out := AiAnswer(texto');
  }

  /** A stripped message never ends in a space, so a `/criar_tarefa`
      typed into the chat that has a title at all has a non-empty one. */
  lemma ChatTitlesAreNonEmpty(texto: string)
    ensures CommandTitle(Strip(texto)).Some? ==> CommandTitle(Strip(texto)).value != ""
  {
    StripEndsInNonSpace(texto);
    TitleBeforeLastChar(Strip(texto));
  }

  /** In a text that does not end in a space, the first space has
      something after it. */
  lemma TitleBeforeLastChar(m: string)
    requires m == [] || !IsSpace(m[|m| - 1])
    ensures CommandTitle(m).Some? ==> CommandTitle(m).value != ""
  {
    match IndexOf(m, ' ')
    case None =>
    case Some(k) =>
      assert IsSpace(m[k]);
      assert |m[k + 1..]| > 0;
  }

  /** The AI branch of `_enviar_mensagem`: the current tasks as context, the
      analysis of the reply, and the composed text. */
  method ResponderComIa(tm: TaskManager, reply: Option<string>) returns (texto: string)
    ensures texto == if reply.None? then Apology else Composed(reply.value, ActionsOf(Split(reply.value, '\n')))
  {
    var tarefas := tm.ObterTodasTarefas(true);
    var atuais := ChatTasks(tarefas);
    assert forall i :: 0 <= i < |atuais| ==> HasContextKeys(atuais[i]);
    assert ChatContext(atuais).Some?;
    var analise := AnalisarMensagem(atuais, reply);
    assert reply.Some? ==> analise == ChatAnswer(reply.value, ActionsOf(Split(reply.value, '\n')));
    texto := ComporResposta(analise);
  }
}
