/** The deterministic side of the AI helper (ai_helper.py): the fallback
    answers, the "parsed reply or fallback" rule, the task digests put into
    the prompts, and the extraction of suggested actions from a chat reply.
    The model call itself is an input: `reply` is the text it returned, or
    None when the call raised; `json.loads` is the parameter `parse`. */
module AiHelper {
  import opened Wrappers
  import opened Strings
  import opened Seqs

  /** A decoded JSON value (objects as maps, numbers as integers). */
  datatype Json = JNull | JBool(b: bool) | JNum(n: int) | JStr(s: string) | JArr(items: seq<Json>) | JObj(fields: map<string, Json>)

  /** `j[k]` on an object. */
  function Field(j: Json, k: string): (r: Option<Json>)
    ensures r.Some? <==> j.JObj? && k in j.fields
  {
    if j.JObj? && k in j.fields then Some(j.fields[k]) else None
  }

  predicate HasStr(j: Json, k: string) {
    Field(j, k).Some? && Field(j, k).value.JStr?
  }

  predicate StrIn(j: Json, k: string, options: set<string>) {
    HasStr(j, k) && Field(j, k).value.s in options
  }

  predicate StrArray(j: Json, k: string) {
    Field(j, k).Some? && Field(j, k).value.JArr?
    && forall i :: 0 <= i < |Field(j, k).value.items| ==> Field(j, k).value.items[i].JStr?
  }

  const Priorities: set<string> := {"Alta", "Média", "Baixa"}
  const Categories: set<string> := {"Trabalho", "Estudos", "Pessoal"}

  // ---------------------------------------------------------------------
  // Calendar dates (`datetime`, `timedelta(days=7)`, `strftime('%Y-%m-%d')`)
  // ---------------------------------------------------------------------

  datatype Date = Date(year: int, month: int, day: int)

  predicate IsLeap(y: int) {
    (y % 4 == 0 && y % 100 != 0) || y % 400 == 0
  }

  function DaysInMonth(y: int, m: int): int
    requires 1 <= m <= 12
  {
    if m == 2 then (if IsLeap(y) then 29 else 28)
    else if m == 4 || m == 6 || m == 9 || m == 11 then 30
    else 31
  }

  /** A day of the proleptic Gregorian calendar from year 1 on. */
  predicate ValidDate(d: Date) {
    d.year >= 1 && 1 <= d.month <= 12 && 1 <= d.day <= DaysInMonth(d.year, d.month)
  }

  /** Calendar order. */
  predicate Before(a: Date, b: Date) {
    a.year < b.year || (a.year == b.year && (a.month < b.month || (a.month == b.month && a.day < b.day)))
  }

  /** The day after `d`. */
  function NextDay(d: Date): (r: Date)
    requires ValidDate(d)
    ensures ValidDate(r) && Before(d, r)
  {
    if d.day < DaysInMonth(d.year, d.month) then Date(d.year, d.month, d.day + 1)
    else if d.month < 12 then Date(d.year, d.month + 1, 1)
    else Date(d.year + 1, 1, 1)
  }

  /** No day lies strictly between `d` and the day after it. */
  lemma NextDayIsNext(d: Date, e: Date)
    requires ValidDate(d) && ValidDate(e) && Before(d, e)
    ensures e == NextDay(d) || Before(NextDay(d), e)
  {
  }

  /** `d + timedelta(days=n)`. */
  function PlusDays(d: Date, n: nat): (r: Date)
    requires ValidDate(d)
    ensures ValidDate(r)
    decreases n
  {
    if n == 0 then d else PlusDays(NextDay(d), n - 1)
  }

  /** Days in the years before `y`. */
  function DaysBeforeYear(y: int): int
    requires y >= 1
  {
    var p := y - 1;
    365 * p + p / 4 - p / 100 + p / 400
  }

  /** Days in the months of year `y` before month `m`. */
  function DaysBeforeMonth(y: int, m: int): int
    requires 1 <= m <= 13
    decreases m
  {
    if m == 1 then 0 else DaysBeforeMonth(y, m - 1) + DaysInMonth(y, m - 1)
  }

  /** `date.toordinal()`: 0001-01-01 is day 1. */
  function Ordinal(d: Date): int
    requires ValidDate(d)
  {
    DaysBeforeYear(d.year) + DaysBeforeMonth(d.year, d.month) + d.day
  }

  /** Month lengths add up to the year's length. */
  lemma MonthsOfYear(y: int)
    ensures DaysBeforeMonth(y, 13) == if IsLeap(y) then 366 else 365
  {
    assert DaysBeforeMonth(y, 13) == DaysBeforeMonth(y, 12) + 31;
    assert DaysBeforeMonth(y, 12) == DaysBeforeMonth(y, 11) + 30;
    assert DaysBeforeMonth(y, 11) == DaysBeforeMonth(y, 10) + 31;
    assert DaysBeforeMonth(y, 10) == DaysBeforeMonth(y, 9) + 30;
    assert DaysBeforeMonth(y, 9) == DaysBeforeMonth(y, 8) + 31;
    assert DaysBeforeMonth(y, 8) == DaysBeforeMonth(y, 7) + 31;
    assert DaysBeforeMonth(y, 7) == DaysBeforeMonth(y, 6) + 30;
    assert DaysBeforeMonth(y, 6) == DaysBeforeMonth(y, 5) + 31;
    assert DaysBeforeMonth(y, 5) == DaysBeforeMonth(y, 4) + 30;
    assert DaysBeforeMonth(y, 4) == DaysBeforeMonth(y, 3) + 31;
    assert DaysBeforeMonth(y, 3) == DaysBeforeMonth(y, 2) + DaysInMonth(y, 2);
    assert DaysBeforeMonth(y, 2) == 31;
  }

  /** Stepping from `y - 1` to `y` adds one multiple of 4, 100 or 400
      exactly when `y` is one. */
  lemma QuotientStep4(y: int)
    requires y >= 1
    ensures y / 4 == (y - 1) / 4 + (if y % 4 == 0 then 1 else 0)
  {
    var p := y - 1;
    assert p == 4 * (p / 4) + p % 4 && y == 4 * (y / 4) + y % 4;
  }

  lemma QuotientStep100(y: int)
    requires y >= 1
    ensures y / 100 == (y - 1) / 100 + (if y % 100 == 0 then 1 else 0)
  {
    var p := y - 1;
    assert p == 100 * (p / 100) + p % 100 && y == 100 * (y / 100) + y % 100;
  }

  lemma QuotientStep400(y: int)
    requires y >= 1
    ensures y / 400 == (y - 1) / 400 + (if y % 400 == 0 then 1 else 0)
  {
    var p := y - 1;
    assert p == 400 * (p / 400) + p % 400 && y == 400 * (y / 400) + y % 400;
  }

  /** The leap-day count of `DaysBeforeYear` grows by one exactly after a leap year. */
  lemma LeapDaysStep(y: int)
    requires y >= 1
    ensures DaysBeforeYear(y + 1) == DaysBeforeYear(y) + if IsLeap(y) then 366 else 365
  {
    QuotientStep4(y);
    QuotientStep100(y);
    QuotientStep400(y);
  }

  /** The next day is the next ordinal. */
  lemma NextDayOrdinal(d: Date)
    requires ValidDate(d)
    ensures Ordinal(NextDay(d)) == Ordinal(d) + 1
  {
    if d.day == DaysInMonth(d.year, d.month) && d.month == 12 {
      MonthsOfYear(d.year);
      LeapDaysStep(d.year);
    }
  }

  /** Adding `n` days adds `n` to the ordinal, which is how `datetime`
      defines date arithmetic. */
  lemma {:induction false} PlusDaysOrdinal(d: Date, n: nat)
    requires ValidDate(d)
    ensures Ordinal(PlusDays(d, n)) == Ordinal(d) + n
    decreases n
  {
    if n > 0 {
      NextDayOrdinal(d);
      PlusDaysOrdinal(NextDay(d), n - 1);
    }
  }

  /** `strftime('%Y-%m-%d')`: the year padded to four digits, month and day
      to two. */
  function FormatDate(d: Date): string
    requires ValidDate(d)
  {
    ZeroPad(NatToDecimal(d.year), 4) + "-" + ZeroPad(NatToDecimal(d.month), 2) + "-" + ZeroPad(NatToDecimal(d.day), 2)
  }

  /** Reading a `YYYY-MM-DD` text back: at least four year digits, two
      month digits, two day digits, naming a real day. */
  function ParseDate(s: string): (r: Option<Date>)
    ensures r.Some? ==> ValidDate(r.value)
  {
    var parts := Split(s, '-');
    if |parts| == 3 && IsDecimal(parts[0]) && IsDecimal(parts[1]) && IsDecimal(parts[2])
       && |parts[0]| >= 4 && |parts[1]| == 2 && |parts[2]| == 2
    then
      var d := Date(DecimalValue(parts[0]), DecimalValue(parts[1]), DecimalValue(parts[2]));
      if ValidDate(d) then Some(d) else None
    else None
  }

  lemma ShortDecimal(n: nat)
    requires n < 100
    ensures |NatToDecimal(n)| <= 2
  {
  }

  lemma PaddedDecimal(n: nat, width: nat)
    ensures var s := ZeroPad(NatToDecimal(n), width);
      IsDecimal(s) && DecimalValue(s) == n && '-' !in s && |s| >= width
  {
    DecimalRoundTrip(n);
  }

  /** The formatted date reads back as the same date. */
  lemma FormatParseRoundTrip(d: Date)
    requires ValidDate(d)
    ensures ParseDate(FormatDate(d)) == Some(d)
  {
    var a := ZeroPad(NatToDecimal(d.year), 4);
    var b := ZeroPad(NatToDecimal(d.month), 2);
    var c := ZeroPad(NatToDecimal(d.day), 2);
    PaddedDecimal(d.year, 4);
    PaddedDecimal(d.month, 2);
    PaddedDecimal(d.day, 2);
    ShortDecimal(d.month);
    ShortDecimal(d.day);
    var xs := [a, b, c];
    assert xs[..2] == [a, b] && [a, b][..1] == [a];
    assert Join([a], '-') == a;
    assert Join([a, b], '-') == a + "-" + b;
    assert Join(xs, '-') == a + "-" + b + "-" + c;
    SplitJoin(xs, '-');
  }

  // ---------------------------------------------------------------------
  // Fallback answers (ai_helper.py:17-44)
  // ---------------------------------------------------------------------

  /** The analysis shape the prompt asks for: a known priority and category,
      a `YYYY-MM-DD` due date, a list of similar task titles and three
      textual justifications. */
  predicate IsAnalysis(j: Json) {
    && StrIn(j, "prioridade", Priorities)
    && StrIn(j, "categoria", Categories)
    && HasStr(j, "data_vencimento") && ParseDate(Field(j, "data_vencimento").value.s).Some?
    && StrArray(j, "tarefas_similares")
    && Field(j, "justificativas").Some?
    && HasStr(Field(j, "justificativas").value, "prioridade")
    && HasStr(Field(j, "justificativas").value, "categoria")
    && HasStr(Field(j, "justificativas").value, "data_vencimento")
  }

  /** `_formatar_resposta_padrao`, with today's date as a parameter. */
  function DefaultAnalysis(hoje: Date): Json
    requires ValidDate(hoje)
  {
    JObj(map[
      "prioridade" := JStr("Média"),
      "categoria" := JStr("Pessoal"),
      "data_vencimento" := JStr(FormatDate(PlusDays(hoje, 7))),
      "tarefas_similares" := JArr([]),
      "justificativas" := JObj(map[
        "prioridade" := JStr("Definido como média por padrão"),
        "categoria" := JStr("Definido como pessoal por padrão"),
        "data_vencimento" := JStr("Data estimada para uma semana a partir de hoje")])])
  }

  /** The fallback analysis has the shape the prompt asks for, and its due
      date reads back as the day seven days after today. */
  lemma DefaultAnalysisWellFormed(hoje: Date)
    requires ValidDate(hoje)
    ensures IsAnalysis(DefaultAnalysis(hoje))
    ensures var due := ParseDate(Field(DefaultAnalysis(hoje), "data_vencimento").value.s);
      due.Some? && Ordinal(due.value) == Ordinal(hoje) + 7
  {
    FormatParseRoundTrip(PlusDays(hoje, 7));
    PlusDaysOrdinal(hoje, 7);
  }

  /** The improvement shape the prompt asks for. */
  predicate IsImprovement(j: Json) {
    && HasStr(j, "melhorias_titulo")
    && HasStr(j, "melhorias_descricao")
    && Field(j, "ajustes_sugeridos").Some?
    && HasStr(Field(j, "ajustes_sugeridos").value, "prioridade")
    && HasStr(Field(j, "ajustes_sugeridos").value, "categoria")
    && StrArray(j, "subtarefas_sugeridas")
    && StrArray(j, "recomendacoes")
  }

  const TitleAdvice := "Considere ser mais específico no título: "

  function GetOr(m: map<string, string>, k: string, default: string): string {
    if k in m then m[k] else default
  }

  /** `_formatar_resposta_melhoria_padrao(tarefa)`. */
  function DefaultImprovement(tarefa: map<string, string>): Json
    requires "titulo" in tarefa
  {
    JObj(map[
      "melhorias_titulo" := JStr(TitleAdvice + tarefa["titulo"]),
      "melhorias_descricao" := JStr("Adicione mais detalhes à descrição"),
      "ajustes_sugeridos" := JObj(map[
        "prioridade" := JStr(GetOr(tarefa, "prioridade", "Média")),
        "categoria" := JStr(GetOr(tarefa, "categoria", "Pessoal"))]),
      "subtarefas_sugeridas" := JArr([JStr("Detalhar melhor a tarefa"), JStr("Definir prazo específico")]),
      "recomendacoes" := JArr([JStr("Adicione mais contexto"), JStr("Estabeleça métricas de conclusão")])])
  }

  /** The fallback improvement has the prompt's shape, its title advice ends
      with the task's own title, and its suggested priority and category are
      among the known ones exactly when the task's own are (or it has none). */
  lemma DefaultImprovementWellFormed(tarefa: map<string, string>)
    requires "titulo" in tarefa
    ensures var j := DefaultImprovement(tarefa);
      && IsImprovement(j)
      && StartsWith(Field(j, "melhorias_titulo").value.s, TitleAdvice)
      && Field(j, "melhorias_titulo").value.s[|TitleAdvice|..] == tarefa["titulo"]
      && (StrIn(Field(j, "ajustes_sugeridos").value, "prioridade", Priorities)
          <==> "prioridade" !in tarefa || tarefa["prioridade"] in Priorities)
      && (StrIn(Field(j, "ajustes_sugeridos").value, "categoria", Categories)
          <==> "categoria" !in tarefa || tarefa["categoria"] in Categories)
  {
    var j := DefaultImprovement(tarefa);
    var t := Field(j, "melhorias_titulo").value.s;
    assert t == TitleAdvice + tarefa["titulo"];
    assert t[..|TitleAdvice|] == TitleAdvice;
  }

  // ---------------------------------------------------------------------
  // Parse or fall back (ai_helper.py:46-160)
  // ---------------------------------------------------------------------

  /** `json.loads(reply.strip())` when the call returned and the text
      parses; the fallback otherwise. */
  function ParsedOr(reply: Option<string>, parse: string -> Option<Json>, fallback: Json): Json {
    if reply.Some? && parse(Strip(reply.value)).Some? then parse(Strip(reply.value)).value else fallback
  }

  /** One digest line, `- titulo: descricao`. */
  function DigestLine(t: map<string, string>): string
    requires "titulo" in t
  {
    "- " + t["titulo"] + ": " + GetOr(t, "descricao", "")
  }

  function DigestLines(ts: seq<map<string, string>>): seq<string>
    requires forall i :: 0 <= i < |ts| ==> "titulo" in ts[i]
  {
    seq(|ts|, i requires 0 <= i < |ts| => DigestLine(ts[i]))
  }

  /** The existing-task digest of `analisar_tarefa`; None when a task has
      no title (the `KeyError` is raised before the call is attempted). */
  function Digest(ts: seq<map<string, string>>): (r: Option<string>)
    ensures r.None? <==> exists i :: 0 <= i < |ts| && "titulo" !in ts[i]
    ensures ts == [] ==> r == Some("")
  {
    if forall i :: 0 <= i < |ts| ==> "titulo" in ts[i] then Some(Join(DigestLines(ts), '\n')) else None
  }

  /** The digest has one line per task, in order, as long as no title or
      description spans lines. */
  lemma DigestSplitsIntoTasks(ts: seq<map<string, string>>)
    requires ts != []
    requires forall i :: 0 <= i < |ts| ==> "titulo" in ts[i] && '\n' !in ts[i]["titulo"]
    requires forall i :: 0 <= i < |ts| ==> "descricao" in ts[i] ==> '\n' !in ts[i]["descricao"]
    ensures Digest(ts).Some? && Split(Digest(ts).value, '\n') == DigestLines(ts)
  {
    var ls := DigestLines(ts);
    forall i | 0 <= i < |ls| ensures '\n' !in ls[i] {
      var t := ts[i];
      assert ls[i] == "- " + t["titulo"] + ": " + GetOr(t, "descricao", "");
    }
    SplitJoin(ls, '\n');
  }

  /** `analisar_tarefa`: fails only on an untitled existing task; otherwise
      the parsed reply, unvalidated, or the fallback analysis. */
  function AnalisarTarefa(existentes: seq<map<string, string>>, hoje: Date, reply: Option<string>,
                          parse: string -> Option<Json>): (r: Option<Json>)
    requires ValidDate(hoje)
    ensures r.None? <==> exists i :: 0 <= i < |existentes| && "titulo" !in existentes[i]
    ensures r.Some? && !IsAnalysis(r.value) ==> reply.Some? && parse(Strip(reply.value)) == Some(r.value)
    ensures Digest(existentes).Some? && reply.Some? && parse(Strip(reply.value)).Some? ==>
      r == Some(parse(Strip(reply.value)).value)
    ensures Digest(existentes).Some? && (reply.None? || parse(Strip(reply.value)).None?) ==>
      r == Some(DefaultAnalysis(hoje))
  {
    DefaultAnalysisWellFormed(hoje);
    if Digest(existentes).None? then None
    else Some(ParsedOr(reply, parse, DefaultAnalysis(hoje)))
  }

  /** `sugerir_melhorias`: fails only on an untitled task; otherwise the
      parsed reply, unvalidated, or the fallback improvement. */
  function SugerirMelhorias(tarefa: map<string, string>, reply: Option<string>,
                            parse: string -> Option<Json>): (r: Option<Json>)
    ensures r.None? <==> "titulo" !in tarefa
    ensures r.Some? && !IsImprovement(r.value) ==> reply.Some? && parse(Strip(reply.value)) == Some(r.value)
    ensures "titulo" in tarefa && reply.Some? && parse(Strip(reply.value)).Some? ==>
      r == Some(parse(Strip(reply.value)).value)
    ensures "titulo" in tarefa && (reply.None? || parse(Strip(reply.value)).None?) ==>
      r == Some(DefaultImprovement(tarefa))
  {
    if "titulo" !in tarefa then None
    else
      DefaultImprovementWellFormed(tarefa);
      Some(ParsedOr(reply, parse, DefaultImprovement(tarefa)))
  }

  /** Whenever the reply parses, the helpers hand the parsed value on
      unchanged, whatever it is; in particular a bare `null` comes through
      although it has none of the keys the prompt asked for. */
  lemma ParsedReplyPassesUnchecked(existentes: seq<map<string, string>>, hoje: Date, tarefa: map<string, string>,
                                   reply: string, parse: string -> Option<Json>, j: Json)
    requires ValidDate(hoje) && "titulo" in tarefa
    requires forall i :: 0 <= i < |existentes| ==> "titulo" in existentes[i]
    requires parse(Strip(reply)) == Some(j)
    ensures AnalisarTarefa(existentes, hoje, Some(reply), parse) == Some(j)
    ensures SugerirMelhorias(tarefa, Some(reply), parse) == Some(j)
    ensures !IsAnalysis(JNull) && !IsImprovement(JNull)
  {
  }

  // ---------------------------------------------------------------------
  // Chat context (ai_helper.py:166-170)
  // ---------------------------------------------------------------------

  predicate HasContextKeys(t: map<string, string>) {
    "titulo" in t && "estado" in t && "prioridade" in t
  }

  /** `- titulo (estado, prioridade)`. */
  function ContextLine(t: map<string, string>): string
    requires HasContextKeys(t)
  {
    "- " + t["titulo"] + " (" + t["estado"] + ", " + t["prioridade"] + ")"
  }

  function ContextLines(ts: seq<map<string, string>>): (ls: seq<string>)
    requires forall i :: 0 <= i < |ts| ==> HasContextKeys(ts[i])
    ensures |ls| == |ts|
  {
    seq(|ts|, i requires 0 <= i < |ts| => ContextLine(ts[i]))
  }

  const ContextHeader := "Tarefas atuais:"

  /** The context block of the chat prompt: empty without tasks, otherwise
      the header and one newline-terminated line per task; None when a task
      lacks one of the keys (which ends in the apology answer). */
  function ChatContext(ts: seq<map<string, string>>): Option<string> {
    if !(forall i :: 0 <= i < |ts| ==> HasContextKeys(ts[i])) then None
    else if ts == [] then Some("")
    else Some(ContextHeader + "\n" + Unlines(ContextLines(ts)))
  }

  /** The context splits into its header, one line per task and a final
      empty piece, as long as no field spans lines. */
  lemma ChatContextLines(ts: seq<map<string, string>>)
    requires ts != []
    requires forall i :: 0 <= i < |ts| ==>
      (HasContextKeys(ts[i]) && '\n' !in ts[i]["titulo"] && '\n' !in ts[i]["estado"] && '\n' !in ts[i]["prioridade"])
    ensures ChatContext(ts).Some?
    ensures Split(ChatContext(ts).value, '\n') == [ContextHeader] + ContextLines(ts) + [""]
  {
    var ls := ContextLines(ts);
    UnlinesAsJoin(ContextHeader, ls);
    var xs := [ContextHeader] + ls + [""];
    forall i | 0 <= i < |xs| ensures '\n' !in xs[i] {
      if 1 <= i <= |ls| {
        var t := ts[i - 1];
        assert xs[i] == "- " + t["titulo"] + " (" + t["estado"] + ", " + t["prioridade"] + ")";
      }
    }
    SplitJoin(xs, '\n');
  }

  /** The context loop of `analisar_mensagem`. */
  method ContextoChat(tarefas: seq<map<string, string>>) returns (contexto: Option<string>)
    ensures contexto == ChatContext(tarefas)
  {
    if |tarefas| == 0 {
      return Some("");
    }
    var texto := ContextHeader + "\n";
    var i := 0;
    while i < |tarefas|
      invariant 0 <= i <= |tarefas|
      invariant forall j :: 0 <= j < i ==> HasContextKeys(tarefas[j])
      invariant texto == ContextHeader + "\n" + Unlines(ContextLines(tarefas[..i]))
    {
      var t := tarefas[i];
      if !HasContextKeys(t) {
        return None;
      }
      var before := ContextLines(tarefas[..i]);
      var after := ContextLines(tarefas[..i + 1]);
      assert after[..i] == before && after[i] == ContextLine(t);
      texto := texto + ContextLine(t) + "\n";
      i := i + 1;
    }
    assert tarefas[..i] == tarefas;
    contexto := Some(texto);
  }

  // ---------------------------------------------------------------------
  // Suggested actions (ai_helper.py:204-221)
  // ---------------------------------------------------------------------

  /** A reply line that, once stripped, starts with `-` or `*`. */
  predicate IsActionLine(line: string) {
    StartsWith(Strip(line), "-") || StartsWith(Strip(line), "*")
  }

  /** `s[2:]`. */
  function DropTwo(s: string): (r: string)
    ensures |s| >= 2 ==> r == s[2..]
    ensures |s| < 2 ==> r == ""
  {
    if |s| < 2 then "" else s[2..]
  }

  /** The action a marked line yields: the stripped line minus its first
      two characters, stripped again. */
  function ActionText(line: string): string {
    Strip(DropTwo(Strip(line)))
  }

  /** The actions of a list of lines, in line order. */
  function ActionsOf(lines: seq<string>): seq<string> {
    MapFilter(lines, IsActionLine, ActionText)
  }

  /** One action per marked line, in line order: the actions are exactly
      the marked lines, each turned into its text. */
  lemma ActionsAreMarkedLines(lines: seq<string>)
    ensures |ActionsOf(lines)| == |Filter(lines, IsActionLine)| == Count(lines, IsActionLine)
    ensures forall i :: 0 <= i < |Filter(lines, IsActionLine)| ==> ActionsOf(lines)[i] == ActionText(Filter(lines, IsActionLine)[i])
  {
    MapFilterIsMapOfFilter(lines, IsActionLine, ActionText);
    CountIsFilterLength(lines, IsActionLine);
  }

  /** One more line adds its action, if it is marked. */
  lemma ActionsOfSnoc(lines: seq<string>, line: string)
    ensures ActionsOf(lines + [line]) == ActionsOf(lines) + if IsActionLine(line) then [ActionText(line)] else []
  {
    var s := lines + [line];
    assert s[..|s| - 1] == lines && s[|s| - 1] == line;
  }

  /** Extraction works line by line: the actions of two runs of lines are
      the actions of each, in order. */
  lemma ActionsOfAppend(a: seq<string>, b: seq<string>)
    ensures ActionsOf(a + b) == ActionsOf(a) + ActionsOf(b)
  {
    MapFilterAppend(a, b, IsActionLine, ActionText);
  }

  /** Exactly two characters go, whatever the second one is: `"-ab"`
      yields `"b"`, while the usual `"- item"` yields `"item"`. */
  lemma DropsExactlyTwo(c: char, x: string)
    requires Strip(x) == x && |x| >= 1 && !IsSpace(x[0])
    ensures ActionsOf(["-" + [c] + x]) == [x]
  {
    var line := "-" + [c] + x;
    StripOfPrefixed(line);
    assert line[2..] == x;
    var none: seq<string> := [];
    assert [line][..0] == none;
  }

  /** A string that starts and ends with non-space characters is its own strip. */
  lemma StripOfPrefixed(s: string)
    requires |s| >= 3 && !IsSpace(s[0]) && !IsSpace(s[|s| - 1])
    ensures Strip(s) == s && StartsWith(s, "-") == (s[0] == '-')
  {
    var r := RStrip(s);
    var l := LStrip(r);
  }

  /** What `analisar_mensagem` returns. */
  datatype ChatAnswer = ChatAnswer(resposta: string, acoesSugeridas: seq<string>)

  const Apology := "Desculpe, ocorreu um erro ao processar sua mensagem. Por favor, tente novamente mais tarde."

  /** The extraction loop over the reply's lines. */
  method ExtrairAcoes(resposta: string) returns (acoes: seq<string>)
    ensures acoes == ActionsOf(Split(resposta, '\n'))
  {
    var linhas := Split(resposta, '\n');
    acoes := [];
    var i := 0;
    while i < |linhas|
      invariant 0 <= i <= |linhas|
      invariant acoes == ActionsOf(linhas[..i])
    {
      var linha := Strip(linhas[i]);
      ActionsOfPrefixStep(linhas, i);
      if StartsWith(linha, "-") || StartsWith(linha, "*") {
        acoes := acoes + [Strip(DropTwo(linha))];
      }
      i := i + 1;
    }
    assert linhas[..i] == linhas;
  }

  /** One more line of a prefix adds that line's action, if it has one. */
  lemma ActionsOfPrefixStep(lines: seq<string>, i: nat)
    requires i < |lines|
    ensures ActionsOf(lines[..i + 1]) == ActionsOf(lines[..i]) + if IsActionLine(lines[i]) then [ActionText(lines[i])] else []
  {
    assert lines[..i + 1] == lines[..i] + [lines[i]];
    ActionsOfSnoc(lines[..i], lines[i]);
  }

  /** `analisar_mensagem`: the raw reply and its actions, or the apology and
      no actions when the context or the call fails. */
  method AnalisarMensagem(tarefas: seq<map<string, string>>, reply: Option<string>) returns (a: ChatAnswer)
    ensures ChatContext(tarefas).None? || reply.None? ==> a == ChatAnswer(Apology, [])
    ensures ChatContext(tarefas).Some? && reply.Some? ==>
      a.resposta == reply.value && a.acoesSugeridas == ActionsOf(Split(reply.value, '\n'))
  {
    var contexto := ContextoChat(tarefas);
    if contexto.None? || reply.None? {
      return ChatAnswer(Apology, []);
    }
    var acoes := ExtrairAcoes(reply.value);
    a := ChatAnswer(reply.value, acoes);
  }
}
