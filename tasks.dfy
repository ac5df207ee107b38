/** The service layer (tasks.py): a `TaskManager` that owns one `Database`,
    stamps completion dates, hides subtasks on request, maps rows to export
    records and imports decoded JSON / CSV records one at a time. */
module TaskService {
  import opened Wrappers
  import opened Strings
  import opened Seqs
  import opened TaskStore

  /** The state `atualizar_tarefa` treats as finished. */
  const Done := "concluída"

  /** The priority a JSON record without one is imported with. */
  const DefaultPriority := "Média"

  // ---------------------------------------------------------------------
  // Completion stamp (tasks.py:37-41)
  // ---------------------------------------------------------------------

  predicate MarksDone(kwargs: map<string, string>) {
    "estado" in kwargs && kwargs["estado"] == Done
  }

  /** The update request after the completion rule: finishing a task sets
      `data_conclusao` to the current time; any other request is passed on
      as it is. */
  function WithCompletionStamp(kwargs: map<string, string>, now: string): (kw: map<string, string>)
    ensures kw.Keys == kwargs.Keys + (if MarksDone(kwargs) then {"data_conclusao"} else {})
    ensures forall k :: k in kw ==> kw[k] == if k == "data_conclusao" && MarksDone(kwargs) then now else kwargs[k]
  {
    if MarksDone(kwargs) then kwargs["data_conclusao" := now] else kwargs
  }

  /** What the completion rule does to the stored row: a request that
      finishes the task leaves it finished and stamped with `now`; a request
      that neither finishes it nor names `data_conclusao` keeps whatever
      completion date the row had. */
  lemma CompletionEffect(rows: seq<Task>, taskId: int, kwargs: map<string, string>, now: string, i: int)
    requires 0 <= i < |rows| && rows[i].id == taskId
    ensures var r := UpdateRows(rows, taskId, Allowed(WithCompletionStamp(kwargs, now)));
      (MarksDone(kwargs) ==> r[i].estado == Done && r[i].dataConclusao == Some(now))
      && (!MarksDone(kwargs) && "data_conclusao" !in kwargs ==> r[i].dataConclusao == rows[i].dataConclusao)
  {
    var kw := WithCompletionStamp(kwargs, now);
    UpdateEffect(rows, taskId, kw, i);
    var r := UpdateRows(rows, taskId, Allowed(kw));
    assert ColumnName(Estado) == "estado" && ColumnName(DataConclusao) == "data_conclusao";
    assert ColumnValue(r[i], Estado) == Some(Text(r[i].estado));
    if r[i].dataConclusao.Some? {
      assert ColumnValue(r[i], DataConclusao) == Some(Text(r[i].dataConclusao.value));
    } else {
      assert ColumnValue(r[i], DataConclusao) == None;
    }
    if rows[i].dataConclusao.Some? {
      assert ColumnValue(rows[i], DataConclusao) == Some(Text(rows[i].dataConclusao.value));
    } else {
      assert ColumnValue(rows[i], DataConclusao) == None;
    }
  }

  // ---------------------------------------------------------------------
  // Top-level tasks (tasks.py:25-35)
  // ---------------------------------------------------------------------

  /** The comprehension's test: the fetched tuple is longer than nine
      entries and its tenth entry (the parent) is NULL. */
  predicate IsTopLevel(t: Task) {
    |Tuple(t)| > 9 && Tuple(t)[9].None?
  }

  /** The length guard always passes (every row has all ten columns), so the
      test is exactly "has no parent" and the `IndexError` fallback is never
      taken. */
  lemma TopLevelIffNoParent(t: Task)
    ensures |Tuple(t)| == 10
    ensures IsTopLevel(t) <==> t.parentId.None?
  {
    assert Tuple(t)[9] == ColumnValue(t, ParentId);
  }

  function TopLevel(rows: seq<Task>): seq<Task> {
    Filter(rows, IsTopLevel)
  }

  /** `obter_todas_tarefas(False)` keeps exactly the rows without a parent,
      and keeps them in id order. */
  lemma TopLevelExact(rows: seq<Task>)
    ensures forall t :: t in TopLevel(rows) <==> t in rows && t.parentId.None?
    ensures IncreasingBy(rows, IdOf) ==> IncreasingBy(TopLevel(rows), IdOf)
  {
    forall t ensures IsTopLevel(t) <==> t.parentId.None? {
      TopLevelIffNoParent(t);
    }
    var r := TopLevel(rows);
    forall t | t in r ensures t in rows && t.parentId.None? {
      var i :| 0 <= i < |r| && r[i] == t;
    }
    forall t | t in rows && t.parentId.None? ensures t in r {
      var i :| 0 <= i < |rows| && rows[i] == t;
    }
    if IncreasingBy(rows, IdOf) {
      FilterKeepsIncreasing(rows, IsTopLevel, IdOf);
    }
  }

  // ---------------------------------------------------------------------
  // Export (tasks.py:51-119)
  // ---------------------------------------------------------------------

  /** One exported task: the first nine columns of the row, under the JSON
      keys `id` ... `data_conclusao`. */
  datatype ExportRecord = ExportRecord(
    id: int,
    titulo: string,
    descricao: string,
    categoria: string,
    prioridade: string,
    estado: string,
    dataCriacao: string,
    dataVencimento: string,
    dataConclusao: Option<string>)

  function ExportRecordOf(t: Task): ExportRecord {
    ExportRecord(t.id, t.titulo, t.descricao, t.categoria, t.prioridade, t.estado,
                 t.dataCriacao, t.dataVencimento, t.dataConclusao)
  }

  /** An export record determines every column of its row except the
      parent, which is never exported. */
  lemma ExportForgetsOnlyParent(a: Task, b: Task)
    ensures ExportRecordOf(a) == ExportRecordOf(b) <==> a.(parentId := b.parentId) == b
  {
  }

  /** The header row of the CSV export. */
  const CsvHeader: seq<string> :=
    ["ID", "Título", "Descrição", "Categoria", "Prioridade",
     "Estado", "Data Criação", "Data Vencimento", "Data Conclusão"]

  /** One CSV data row: the same nine columns as text, the id in decimal and
      a missing completion date as an empty field. */
  function CsvCells(t: Task): (r: seq<string>)
    ensures |r| == |CsvHeader|
  {
    [IntToDecimal(t.id), t.titulo, t.descricao, t.categoria, t.prioridade,
     t.estado, t.dataCriacao, t.dataVencimento, t.dataConclusao.GetOr("")]
  }

  /** A CSV row read back the way `csv.DictReader` does: each header name
      mapped to the field below it (a later duplicate name wins). */
  function DictRow(header: seq<string>, cells: seq<string>): map<string, string>
    requires |header| == |cells|
    decreases |header|
  {
    if header == [] then map[]
    else DictRow(header[..|header| - 1], cells[..|cells| - 1])[header[|header| - 1] := cells[|cells| - 1]]
  }

  /** The names a row read back has are the header's names. */
  lemma {:induction false} DictRowKeys(header: seq<string>, cells: seq<string>)
    requires |header| == |cells|
    ensures forall k :: k in DictRow(header, cells) <==> k in header
    decreases |header|
  {
    if header != [] {
      var h', c' := header[..|header| - 1], cells[..|cells| - 1];
      DictRowKeys(h', c');
      assert header == h' + [header[|header| - 1]];
    }
  }

  /** A header name that appears only once reads back the field below it. */
  lemma {:induction false} DictRowGet(header: seq<string>, cells: seq<string>, i: int)
    requires |header| == |cells| && 0 <= i < |header|
    requires forall j :: i < j < |header| ==> header[j] != header[i]
    ensures header[i] in DictRow(header, cells) && DictRow(header, cells)[header[i]] == cells[i]
    decreases |header|
  {
    if i < |header| - 1 {
      DictRowGet(header[..|header| - 1], cells[..|cells| - 1], i);
    }
  }

  // ---------------------------------------------------------------------
  // Import (tasks.py:121-175)
  // ---------------------------------------------------------------------

  /** The table together with its AUTOINCREMENT counter. */
  datatype Table = Table(rows: seq<Task>, lastId: nat)

  /** The arguments of one `criar_tarefa` call. */
  datatype NewTask = NewTask(
    titulo: string,
    descricao: string,
    categoria: string,
    prioridade: string,
    dataVencimento: string,
    parentId: Option<Value>)

  /** `criar_tarefa` on a table value. */
  function Insert(tbl: Table, n: NewTask, now: string): Table {
    Table(tbl.rows + [NewRow(tbl.lastId + 1, n.titulo, n.descricao, n.categoria, n.prioridade,
                             n.dataVencimento, n.parentId, now)],
          tbl.lastId + 1)
  }

  /** A key a record lacks when the import reads it (`KeyError`). */
  datatype ImportError = MissingKey(key: string)

  /** What the import does with one record, given the rows at that moment. */
  datatype Decision = Skip | Create(task: NewTask) | Stop(error: ImportError)

  /** `get_tasks_by_filter(id=v)`: None asks for no constraint. */
  function ExistingRows(rows: seq<Task>, v: Option<Value>): seq<Task> {
    Select(rows, Constraints(map["id" := v]))
  }

  /** Some row's id equals `v` once SQLite has read `v` as an integer. */
  predicate HasId(rows: seq<Task>, v: Value) {
    exists i :: 0 <= i < |rows| && Int(rows[i].id) == NumericForm(v)
  }

  /** The existence check of the import: a given id finds something iff
      some row has that id; a null id constrains nothing and so finds every
      row. The query never fails, since `id` is a column. */
  lemma ExistingRowsMeaning(rows: seq<Task>, v: Option<Value>)
    ensures KnownColumns(Constraints(map["id" := v]))
    ensures v.None? ==> ExistingRows(rows, v) == rows
    ensures v.Some? ==> (ExistingRows(rows, v) != [] <==> HasId(rows, v.value))
  {
    var cons := Constraints(map["id" := v]);
    if v.None? {
      assert cons == map[];
      SelectNothing(rows);
    } else {
      assert cons == map["id" := v.value];
      var p := (t: Task) => Satisfies(t, cons);
      forall t: Task ensures p(t) <==> Int(t.id) == NumericForm(v.value) {
        assert ColumnNamed("id") == Some(Id);
      }
      var r := ExistingRows(rows, v);
      if r != [] {
        assert r[0] in rows && p(r[0]);
        var i :| 0 <= i < |rows| && rows[i] == r[0];
      }
      if HasId(rows, v.value) {
        var i :| 0 <= i < |rows| && Int(rows[i].id) == NumericForm(v.value);
        assert rows[i] in r;
      }
    }
  }

  /** The import loop: one decision per record against the table as it is
      at that moment; a missing key ends the import, and the tasks created
      before it stay. */
  function Import<R>(tbl: Table, recs: seq<R>, decide: (seq<Task>, R) -> Decision, now: string): (out: ImportOutcome)
    decreases |recs|
  {
    if recs == [] then ImportOutcome(tbl, None)
    else match decide(tbl.rows, recs[0])
      case Stop(e) => ImportOutcome(tbl, Some(e))
      case Skip => Import(tbl, recs[1..], decide, now)
      case Create(n) => Import(Insert(tbl, n, now), recs[1..], decide, now)
  }

  /** Where an import leaves the table, and the error that ended it, if any. */
  datatype ImportOutcome = ImportOutcome(table: Table, error: Option<ImportError>)

  /** `b` is `a` with zero or more new tasks appended: the old rows are kept
      as they were, every new row is pending, has no completion date and an
      id above the old counter, and the table invariant carries over. */
  ghost predicate Grows(a: Table, b: Table) {
    && |a.rows| <= |b.rows| && b.rows[..|a.rows|] == a.rows
    && a.lastId <= b.lastId
    && (forall i :: |a.rows| <= i < |b.rows| ==>
          a.lastId < b.rows[i].id <= b.lastId && b.rows[i].estado == Pending && b.rows[i].dataConclusao.None?)
    && (WellFormed(a.rows, a.lastId) ==> WellFormed(b.rows, b.lastId))
  }

  lemma InsertGrows(tbl: Table, n: NewTask, now: string)
    ensures Grows(tbl, Insert(tbl, n, now))
  {
    var t := NewRow(tbl.lastId + 1, n.titulo, n.descricao, n.categoria, n.prioridade, n.dataVencimento, n.parentId, now);
    assert (tbl.rows + [t])[..|tbl.rows|] == tbl.rows;
    if WellFormed(tbl.rows, tbl.lastId) {
      InsertWellFormed(tbl.rows, tbl.lastId, t);
    }
  }

  lemma GrowsTransitive(a: Table, b: Table, c: Table)
    requires Grows(a, b) && Grows(b, c)
    ensures Grows(a, c)
  {
    assert c.rows[..|a.rows|] == c.rows[..|b.rows|][..|a.rows|];
    forall i | |a.rows| <= i < |c.rows|
      ensures a.lastId < c.rows[i].id <= c.lastId && c.rows[i].estado == Pending && c.rows[i].dataConclusao.None?
    {
      if i < |b.rows| {
        assert c.rows[i] == c.rows[..|b.rows|][i] == b.rows[i];
      }
    }
  }

  /** Import is additive: existing rows are never modified or removed,
      each record adds at most one row, and every added row is a pending,
      never-completed task under a fresh id. */
  lemma {:induction false} ImportGrows<R>(tbl: Table, recs: seq<R>, decide: (seq<Task>, R) -> Decision, now: string)
    ensures Grows(tbl, Import(tbl, recs, decide, now).table)
    ensures |Import(tbl, recs, decide, now).table.rows| <= |tbl.rows| + |recs|
    decreases |recs|
  {
    if recs != [] {
      match decide(tbl.rows, recs[0])
      case Stop(e) =>
      case Skip =>
        ImportGrows(tbl, recs[1..], decide, now);
      case Create(n) =>
        var tbl' := Insert(tbl, n, now);
        InsertGrows(tbl, n, now);
        ImportGrows(tbl', recs[1..], decide, now);
        GrowsTransitive(tbl, tbl', Import(tbl', recs[1..], decide, now).table);
    }
  }

  /** Records that are all skipped against the table leave it as it is. */
  lemma {:induction false} ImportAllSkipped<R>(tbl: Table, recs: seq<R>, decide: (seq<Task>, R) -> Decision, now: string)
    requires forall j :: 0 <= j < |recs| ==> decide(tbl.rows, recs[j]).Skip?
    ensures Import(tbl, recs, decide, now) == ImportOutcome(tbl, None)
    decreases |recs|
  {
    if recs != [] {
      assert decide(tbl.rows, recs[0]).Skip?;
      ImportAllSkipped(tbl, recs[1..], decide, now);
    }
  }

  /** No row from position `n` on has a parent. */
  ghost predicate NoParentsFrom(tbl: Table, n: nat) {
    forall i :: n <= i < |tbl.rows| ==> tbl.rows[i].parentId.None?
  }

  /** Records that never ask for a parent produce rows without one. */
  lemma {:induction false} ImportWithoutParents<R>(tbl: Table, recs: seq<R>, decide: (seq<Task>, R) -> Decision, now: string)
    requires forall rows, j :: 0 <= j < |recs| && decide(rows, recs[j]).Create? ==> decide(rows, recs[j]).task.parentId.None?
    ensures NoParentsFrom(Import(tbl, recs, decide, now).table, |tbl.rows|)
    decreases |recs|
  {
    ImportGrows(tbl, recs, decide, now);
    if recs != [] {
      match decide(tbl.rows, recs[0])
      case Stop(e) =>
      case Skip =>
        assert Import(tbl, recs, decide, now) == Import(tbl, recs[1..], decide, now);
        ImportWithoutParents(tbl, recs[1..], decide, now);
      case Create(n) =>
        var tbl' := Insert(tbl, n, now);
        assert n.parentId.None?;
        ImportWithoutParents(tbl', recs[1..], decide, now);
        ImportGrows(tbl', recs[1..], decide, now);
        var out := Import(tbl', recs[1..], decide, now).table;
        assert out.rows[..|tbl'.rows|] == tbl'.rows;
        assert out.rows[|tbl.rows|] == tbl'.rows[|tbl.rows|];
    }
  }

  // --- JSON records ---

  /** The `id` entry of a decoded JSON record. */
  datatype JsonId = IdAbsent | IdNull | IdGiven(v: Value)

  /** The entries of a decoded JSON record that the import reads; None is
      an absent key (for `parent_id`, an absent key or null). */
  datatype JsonTask = JsonTask(
    id: JsonId,
    titulo: Option<string>,
    descricao: Option<string>,
    categoria: Option<string>,
    prioridade: Option<string>,
    dataVencimento: Option<string>,
    parentId: Option<Value>)

  /** The parameter `get_tasks_by_filter(id=...)` receives. */
  function IdArgument(id: JsonId): Option<Value>
    requires !id.IdAbsent?
  {
    if id.IdNull? then None else Some(id.v)
  }

  /** One JSON record: `tarefa['id']` first, then the existence check, then
      `tarefa['titulo']`; the other keys fall back to their defaults. */
  function JsonDecision(rows: seq<Task>, rec: JsonTask): Decision {
    if rec.id.IdAbsent? then Stop(MissingKey("id"))
    else if ExistingRows(rows, IdArgument(rec.id)) != [] then Skip
    else if rec.titulo.None? then Stop(MissingKey("titulo"))
    else Create(NewTask(rec.titulo.value, rec.descricao.GetOr(""), rec.categoria.GetOr(""),
                        rec.prioridade.GetOr(DefaultPriority), rec.dataVencimento.GetOr(""), rec.parentId))
  }

  /** When a JSON record is skipped: a given id is skipped iff some row
      already has it; a null id is skipped iff the table has any row. */
  lemma JsonSkipRule(rows: seq<Task>, rec: JsonTask)
    ensures JsonDecision(rows, rec).Skip? <==>
      match rec.id
      case IdAbsent => false
      case IdNull => rows != []
      case IdGiven(v) => HasId(rows, v)
  {
    if !rec.id.IdAbsent? {
      ExistingRowsMeaning(rows, IdArgument(rec.id));
    }
  }

  /** A new record that carries only an id and a title becomes a task with
      empty description, category and due date, priority "Média" and no
      parent. */
  lemma JsonDefaults(rows: seq<Task>, v: Value, titulo: string)
    requires !HasId(rows, v)
    ensures JsonDecision(rows, JsonTask(IdGiven(v), Some(titulo), None, None, None, None, None))
         == Create(NewTask(titulo, "", "", DefaultPriority, "", None))
  {
    ExistingRowsMeaning(rows, Some(v));
  }

  function ImportJson(tbl: Table, recs: seq<JsonTask>, now: string): ImportOutcome {
    Import(tbl, recs, JsonDecision, now)
  }

  /** The JSON record `json.load` gives back for an exported task. */
  function Reloaded(e: ExportRecord): JsonTask {
    JsonTask(IdGiven(Int(e.id)), Some(e.titulo), Some(e.descricao), Some(e.categoria),
             Some(e.prioridade), Some(e.dataVencimento), None)
  }

  function JsonExport(rows: seq<Task>): seq<JsonTask> {
    seq(|rows|, i requires 0 <= i < |rows| => Reloaded(ExportRecordOf(rows[i])))
  }

  /** Importing a store's own JSON export into it changes nothing. */
  lemma JsonReimportIsNoop(tbl: Table, now: string)
    ensures ImportJson(tbl, JsonExport(tbl.rows), now) == ImportOutcome(tbl, None)
  {
    var recs := JsonExport(tbl.rows);
    forall j | 0 <= j < |recs| ensures JsonDecision(tbl.rows, recs[j]).Skip? {
      JsonSkipRule(tbl.rows, recs[j]);
      assert Int(tbl.rows[j].id) == NumericForm(Int(tbl.rows[j].id));
    }
    ImportAllSkipped(tbl, recs, JsonDecision, now);
  }

  /** The tasks a JSON export re-creates elsewhere have lost their parents. */
  lemma JsonRoundTripLosesParents(tbl: Table, rows: seq<Task>, now: string)
    ensures NoParentsFrom(ImportJson(tbl, JsonExport(rows), now).table, |tbl.rows|)
  {
    ImportWithoutParents(tbl, JsonExport(rows), JsonDecision, now);
  }

  /** Ids are compared with the rows present at that moment, including the
      ones this import has just created: into an empty table whose counter
      stands at 5, records with ids 1 and 6 give one task, because the first
      is created under id 6 and the second then finds it. */
  lemma ImportSeesItsOwnRows(now: string)
    ensures var recs := [JsonTask(IdGiven(Int(1)), Some("a"), None, None, None, None, None),
                         JsonTask(IdGiven(Int(6)), Some("b"), None, None, None, None, None)];
      var out := ImportJson(Table([], 5), recs, now);
      out.error.None? && |out.table.rows| == 1 && out.table.rows[0].id == 6 && out.table.rows[0].titulo == "a"
  {
    var recs := [JsonTask(IdGiven(Int(1)), Some("a"), None, None, None, None, None),
                 JsonTask(IdGiven(Int(6)), Some("b"), None, None, None, None, None)];
    var t0 := Table([], 5);
    JsonDefaults([], Int(1), "a");
    var t1 := Insert(t0, NewTask("a", "", "", DefaultPriority, "", None), now);
    assert HasId(t1.rows, Int(6)) by { assert Int(t1.rows[0].id) == NumericForm(Int(6)); }
    JsonSkipRule(t1.rows, recs[1]);
    assert recs[1..][1..] == [];
  }

  // --- CSV records ---

  /** One CSV record: `row['ID']`, the existence check, then the five text
      columns in argument order; `Parent ID` is optional and kept as text
      (INTEGER affinity turns digit text into a number on insert). */
  function CsvDecision(rows: seq<Task>, row: map<string, string>): Decision {
    if "ID" !in row then Stop(MissingKey("ID"))
    else if ExistingRows(rows, Some(Text(row["ID"]))) != [] then Skip
    else if "Título" !in row then Stop(MissingKey("Título"))
    else if "Descrição" !in row then Stop(MissingKey("Descrição"))
    else if "Categoria" !in row then Stop(MissingKey("Categoria"))
    else if "Prioridade" !in row then Stop(MissingKey("Prioridade"))
    else if "Data Vencimento" !in row then Stop(MissingKey("Data Vencimento"))
    else Create(NewTask(row["Título"], row["Descrição"], row["Categoria"], row["Prioridade"],
                        row["Data Vencimento"], if "Parent ID" in row then Some(Text(row["Parent ID"])) else None))
  }

  function ImportCsv(tbl: Table, rows: seq<map<string, string>>, now: string): ImportOutcome {
    Import(tbl, rows, CsvDecision, now)
  }

  /** The CSV export of `rows`, read back row by row under its header. */
  function CsvExport(rows: seq<Task>): seq<map<string, string>> {
    seq(|rows|, i requires 0 <= i < |rows| => DictRow(CsvHeader, CsvCells(rows[i])))
  }

  /** A read-back export row has the task's id as decimal text, its title,
      and no `Parent ID`. */
  lemma CsvRowReadBack(t: Task)
    ensures var d := DictRow(CsvHeader, CsvCells(t));
      "ID" in d && d["ID"] == IntToDecimal(t.id) && "Título" in d && d["Título"] == t.titulo
      && "Descrição" in d && "Categoria" in d && "Prioridade" in d && "Data Vencimento" in d
      && "Parent ID" !in d
  {
    var h, c := CsvHeader, CsvCells(t);
    DictRowKeys(h, c);
    assert forall j :: 0 < j < |h| ==> h[j] != h[0] && (j > 1 ==> h[j] != h[1]);
    DictRowGet(h, c, 0);
    DictRowGet(h, c, 1);
    assert h[2] == "Descrição" && h[3] == "Categoria" && h[4] == "Prioridade" && h[7] == "Data Vencimento";
    assert "Parent ID" !in h;
  }

  /** Importing a store's own CSV export into it changes nothing: every id
      comes back as its decimal text, which SQLite reads as the same number. */
  lemma CsvReimportIsNoop(tbl: Table, now: string)
    requires WellFormed(tbl.rows, tbl.lastId)
    ensures ImportCsv(tbl, CsvExport(tbl.rows), now) == ImportOutcome(tbl, None)
  {
    var recs := CsvExport(tbl.rows);
    forall j | 0 <= j < |recs| ensures CsvDecision(tbl.rows, recs[j]).Skip? {
      var t := tbl.rows[j];
      CsvRowReadBack(t);
      DecimalRoundTrip(t.id);
      assert NumericForm(Text(IntToDecimal(t.id))) == Int(t.id);
      ExistingRowsMeaning(tbl.rows, Some(Text(recs[j]["ID"])));
    }
    ImportAllSkipped(tbl, recs, CsvDecision, now);
  }

  /** The tasks a CSV export re-creates elsewhere have lost their parents. */
  lemma CsvRoundTripLosesParents(tbl: Table, rows: seq<Task>, now: string)
    ensures NoParentsFrom(ImportCsv(tbl, CsvExport(rows), now).table, |tbl.rows|)
  {
    var recs := CsvExport(rows);
    forall j | 0 <= j < |recs| ensures "Parent ID" !in recs[j] {
      CsvRowReadBack(rows[j]);
    }
    ImportWithoutParents(tbl, recs, CsvDecision, now);
  }

  // ---------------------------------------------------------------------
  // The manager object
  // ---------------------------------------------------------------------

  /** `TaskManager`: the service object around one store. */
  class TaskManager {
    const db: Database

    ghost predicate Valid()
      reads this, db
    {
      db.Valid()
    }

    /** The store's table and counter as a value. */
    ghost function Store(): Table
      reads this, db
    {
      Table(db.rows, db.lastId)
    }

    constructor ()
      ensures Valid() && fresh(db) && db.rows == [] && db.lastId == 0
    {
      db := new Database();
    }

    /** `criar_tarefa`: `add_task` unchanged. */
    method CriarTarefa(titulo: string, descricao: string, categoria: string, prioridade: string,
                       dataVencimento: string, parentId: Option<Value>, now: string) returns (id: int)
      requires Valid()
      modifies db
      ensures Valid()
      ensures id == old(db.lastId) + 1 && db.lastId == id
      ensures Store() == Insert(old(Store()), NewTask(titulo, descricao, categoria, prioridade, dataVencimento, parentId), now)
    {
      id := db.AddTask(titulo, descricao, categoria, prioridade, dataVencimento, parentId, now);
    }

    /** `obter_todas_tarefas`: every row, or only the top-level ones. */
    method ObterTodasTarefas(incluirSubtarefas: bool) returns (r: seq<Task>)
      ensures incluirSubtarefas ==> r == db.rows
      ensures !incluirSubtarefas ==> r == TopLevel(db.rows)
    {
      var tarefas := db.GetAllTasks();
      if !incluirSubtarefas {
        return Filter(tarefas, IsTopLevel);
      }
      r := tarefas;
    }

    /** `atualizar_tarefa`: the completion rule, then `update_task` with the
        extended request. */
    method AtualizarTarefa(taskId: int, kwargs: map<string, string>, now: string) returns (ok: bool)
      requires Valid()
      modifies db
      ensures Valid() && db.lastId == old(db.lastId)
      ensures ok <==> exists k :: k in WithCompletionStamp(kwargs, now) && k in UpdatableColumns
      ensures db.rows == if ok then UpdateRows(old(db.rows), taskId, Allowed(WithCompletionStamp(kwargs, now))) else old(db.rows)
    {
      var kw := kwargs;
      if "estado" in kw && kw["estado"] == Done {
        kw := kw["data_conclusao" := now];
      }
      ok := db.UpdateTask(taskId, kw);
    }

    /** `eliminar_tarefa`: `delete_task` unchanged. */
    method EliminarTarefa(taskId: int) returns (removed: bool)
      requires Valid()
      modifies db
      ensures Valid() && db.lastId == old(db.lastId)
      ensures removed <==> exists i :: 0 <= i < |old(db.rows)| && old(db.rows)[i].id == taskId
      ensures db.rows == Without(old(db.rows), taskId)
    {
      removed := db.DeleteTask(taskId);
    }

    /** `filtrar_tarefas`: `get_tasks_by_filter` unchanged. */
    method FiltrarTarefas(filtros: map<string, Option<Value>>) returns (r: Result<seq<Task>, StoreError>)
      ensures r.Failure? <==> !KnownColumns(Constraints(filtros))
      ensures r.Success? ==> r.value == Select(db.rows, Constraints(filtros))
    {
      r := db.GetTasksByFilter(filtros);
    }

    /** `obter_subtarefas`: `get_subtasks` unchanged. */
    method ObterSubtarefas(taskId: int) returns (r: seq<Task>)
      ensures forall t :: t in r <==> t in db.rows && t.parentId == Some(Int(taskId))
      ensures r == Children(db.rows, taskId)
    {
      r := db.GetSubtasks(taskId);
    }

    /** `tem_subtarefas`: `has_subtasks` unchanged. */
    method TemSubtarefas(taskId: int) returns (b: bool)
      ensures b <==> exists i :: 0 <= i < |db.rows| && db.rows[i].parentId == Some(Int(taskId))
    {
      b := db.HasSubtasks(taskId);
    }

    /** `exportar_para_json`: one record per task, in storage order (the
        file write is not modelled). */
    method ExportarParaJson() returns (dados: seq<ExportRecord>)
      ensures |dados| == |db.rows|
      ensures forall i :: 0 <= i < |dados| ==> dados[i] == ExportRecordOf(db.rows[i])
    {
      var tarefas := ObterTodasTarefas(true);
      dados := [];
      var i := 0;
      while i < |tarefas|
        invariant 0 <= i <= |tarefas|
        invariant |dados| == i
        invariant forall j :: 0 <= j < i ==> dados[j] == ExportRecordOf(tarefas[j])
      {
        dados := dados + [ExportRecordOf(tarefas[i])];
        i := i + 1;
      }
    }

    /** `exportar_para_csv`: the header, then one row per task (the file
        write and CSV quoting are not modelled). */
    method ExportarParaCsv() returns (linhas: seq<seq<string>>)
      ensures |linhas| == |db.rows| + 1 && linhas[0] == CsvHeader
      ensures forall i :: 0 <= i < |db.rows| ==> linhas[i + 1] == CsvCells(db.rows[i])
    {
      var tarefas := ObterTodasTarefas(true);
      linhas := [CsvHeader];
      var i := 0;
      while i < |tarefas|
        invariant 0 <= i <= |tarefas|
        invariant |linhas| == i + 1 && linhas[0] == CsvHeader
        invariant forall j :: 0 <= j < i ==> linhas[j + 1] == CsvCells(tarefas[j])
      {
        linhas := linhas + [CsvCells(tarefas[i])];
        i := i + 1;
      }
    }

    /** `importar_de_json` over the decoded records: the store ends where
        `ImportJson` says, and the error is the key that stopped it. */
    method ImportarDeJson(dados: seq<JsonTask>, now: string) returns (error: Option<ImportError>)
      requires Valid()
      modifies db
      ensures Valid()
      ensures ImportOutcome(Store(), error) == ImportJson(old(Store()), dados, now)
    {
      var i := 0;
      while i < |dados|
        invariant 0 <= i <= |dados|
        invariant Valid()
        invariant ImportJson(Store(), dados[i..], now) == ImportJson(old(Store()), dados, now)
      {
        var tarefa := dados[i];
        assert dados[i..][0] == tarefa && dados[i..][1..] == dados[i + 1..];
        if tarefa.id.IdAbsent? {
          return Some(MissingKey("id"));
        }
        ExistingRowsMeaning(db.rows, IdArgument(tarefa.id));
        var existentes := db.GetTasksByFilter(map["id" := IdArgument(tarefa.id)]);
        if existentes.value == [] {
          if tarefa.titulo.None? {
            return Some(MissingKey("titulo"));
          }
          var _ := CriarTarefa(tarefa.titulo.value, tarefa.descricao.GetOr(""), tarefa.categoria.GetOr(""),
                               tarefa.prioridade.GetOr(DefaultPriority), tarefa.dataVencimento.GetOr(""),
                               tarefa.parentId, now);
        }
        i := i + 1;
      }
      error := None;
    }

    /** `importar_de_csv` over the rows `csv.DictReader` yields. */
    method ImportarDeCsv(linhas: seq<map<string, string>>, now: string) returns (error: Option<ImportError>)
      requires Valid()
      modifies db
      ensures Valid()
      ensures ImportOutcome(Store(), error) == ImportCsv(old(Store()), linhas, now)
    {
      var i := 0;
      while i < |linhas|
        invariant 0 <= i <= |linhas|
        invariant Valid()
        invariant ImportCsv(Store(), linhas[i..], now) == ImportCsv(old(Store()), linhas, now)
      {
        var row := linhas[i];
        assert linhas[i..][0] == row && linhas[i..][1..] == linhas[i + 1..];
        if "ID" !in row {
          return Some(MissingKey("ID"));
        }
        ExistingRowsMeaning(db.rows, Some(Text(row["ID"])));
        var existentes := db.GetTasksByFilter(map["id" := Some(Text(row["ID"]))]);
        if existentes.value == [] {
          var missing := FirstMissing(row, ["Título", "Descrição", "Categoria", "Prioridade", "Data Vencimento"]);
          if missing.Some? {
            return Some(MissingKey(missing.value));
          }
          var parent := if "Parent ID" in row then Some(Text(row["Parent ID"])) else None;
          var _ := CriarTarefa(row["Título"], row["Descrição"], row["Categoria"], row["Prioridade"],
                               row["Data Vencimento"], parent, now);
        }
        i := i + 1;
      }
      error := None;
    }
  }

  /** The first of `keys` that `row` lacks: the `KeyError` a run of
      `row[k]` lookups in that order raises. */
  function FirstMissing(row: map<string, string>, keys: seq<string>): (r: Option<string>)
    ensures r.None? <==> forall i :: 0 <= i < |keys| ==> keys[i] in row
    ensures r.Some? ==> exists i :: 0 <= i < |keys| && keys[i] == r.value && r.value !in row
                          && forall j :: 0 <= j < i ==> keys[j] in row
    decreases |keys|
  {
    if keys == [] then None
    else if keys[0] !in row then Some(keys[0])
    else
      var r := FirstMissing(row, keys[1..]);
      if r.Some? then
        var i :| 0 <= i < |keys| - 1 && keys[1..][i] == r.value && r.value !in row
                 && forall j :: 0 <= j < i ==> keys[1..][j] in row;
        assert keys[i + 1] == r.value;
        r
      else r
  }
}
