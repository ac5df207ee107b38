/** The `tasks` table (database.py): one SQLite table with an AUTOINCREMENT
    id and a self-referencing `parent_id`, held here as a sequence of typed
    rows in storage (rowid) order plus the largest id ever issued. */
module TaskStore {
  import opened Wrappers
  import opened Strings
  import opened Seqs

  /** A non-NULL value held by a column. */
  datatype Value = Int(n: int) | Text(s: string)

  /** One row of `tasks`, its columns in schema order. */
  datatype Task = Task(
    id: int,
    titulo: string,
    descricao: string,
    categoria: string,
    prioridade: string,
    estado: string,
    dataCriacao: string,
    dataVencimento: string,
    dataConclusao: Option<string>,
    parentId: Option<Value>)

  datatype Column =
    Id | Titulo | Descricao | Categoria | Prioridade | Estado
    | DataCriacao | DataVencimento | DataConclusao | ParentId

  function ColumnName(c: Column): string {
    match c
    case Id => "id"
    case Titulo => "titulo"
    case Descricao => "descricao"
    case Categoria => "categoria"
    case Prioridade => "prioridade"
    case Estado => "estado"
    case DataCriacao => "data_criacao"
    case DataVencimento => "data_vencimento"
    case DataConclusao => "data_conclusao"
    case ParentId => "parent_id"
  }

  /** The column a name in a query refers to, if any. */
  function ColumnNamed(name: string): (r: Option<Column>)
    ensures r.Some? ==> ColumnName(r.value) == name
    ensures r.None? ==> forall c :: ColumnName(c) != name
  {
    if name == "id" then Some(Id)
    else if name == "titulo" then Some(Titulo)
    else if name == "descricao" then Some(Descricao)
    else if name == "categoria" then Some(Categoria)
    else if name == "prioridade" then Some(Prioridade)
    else if name == "estado" then Some(Estado)
    else if name == "data_criacao" then Some(DataCriacao)
    else if name == "data_vencimento" then Some(DataVencimento)
    else if name == "data_conclusao" then Some(DataConclusao)
    else if name == "parent_id" then Some(ParentId)
    else None
  }

  /** What a row holds in a column; None is SQL NULL. */
  function ColumnValue(t: Task, c: Column): Option<Value> {
    match c
    case Id => Some(Int(t.id))
    case Titulo => Some(Text(t.titulo))
    case Descricao => Some(Text(t.descricao))
    case Categoria => Some(Text(t.categoria))
    case Prioridade => Some(Text(t.prioridade))
    case Estado => Some(Text(t.estado))
    case DataCriacao => Some(Text(t.dataCriacao))
    case DataVencimento => Some(Text(t.dataVencimento))
    case DataConclusao => if t.dataConclusao.Some? then Some(Text(t.dataConclusao.value)) else None
    case ParentId => t.parentId
  }

  /** The columns in table order: the positions of a fetched row tuple. */
  const Schema: seq<Column> :=
    [Id, Titulo, Descricao, Categoria, Prioridade, Estado, DataCriacao, DataVencimento, DataConclusao, ParentId]

  /** A row as `fetchall` hands it over: one entry per column, in table order. */
  function Tuple(t: Task): seq<Option<Value>> {
    seq(|Schema|, i requires 0 <= i < |Schema| => ColumnValue(t, Schema[i]))
  }

  /** The state every new row starts in (database.py:43). */
  const Pending := "pendente"

  /** The columns `update_task` lets a caller change (database.py:55-56). */
  const UpdatableColumns: set<string> :=
    {"titulo", "descricao", "categoria", "prioridade", "estado", "data_vencimento", "data_conclusao"}

  /** INTEGER affinity: text that spells a whole number becomes that number. */
  function NumericForm(v: Value): Value {
    if v.Text? && IsDecimal(v.s) then Int(DecimalValue(v.s)) else v
  }

  /** TEXT affinity: a number is compared as its decimal text. */
  function TextForm(v: Value): Value {
    if v.Int? then Text(IntToDecimal(v.n)) else v
  }

  /** `column = ?` with the parameter `v`, after SQLite's affinity conversion
      of `v` to the column's type; NULL equals nothing. */
  predicate ColumnEquals(t: Task, c: Column, v: Value) {
    ColumnValue(t, c) == Some(if c == Id || c == ParentId then NumericForm(v) else TextForm(v))
  }

  function IdOf(t: Task): int {
    t.id
  }

  /** The table invariant AUTOINCREMENT maintains: rows are in increasing id
      order (so ids are unique) and no id exceeds the largest ever issued. */
  ghost predicate WellFormed(rows: seq<Task>, lastId: int) {
    IncreasingBy(rows, IdOf) && forall i :: 0 <= i < |rows| ==> 1 <= rows[i].id <= lastId
  }

  /** The row `add_task` inserts: state forced to pending, no completion
      date, the parent stored with INTEGER affinity. */
  function NewRow(id: int, titulo: string, descricao: string, categoria: string, prioridade: string,
                  dataVencimento: string, parentId: Option<Value>, now: string): Task
  {
    Task(id, titulo, descricao, categoria, prioridade, Pending, now, dataVencimento, None,
         if parentId.Some? then Some(NumericForm(parentId.value)) else None)
  }

  /** The keys of an update request that survive the allow-list. */
  function Allowed(kwargs: map<string, string>): (upd: map<string, string>)
    ensures upd.Keys == kwargs.Keys * UpdatableColumns
    ensures forall k :: k in upd ==> upd[k] == kwargs[k]
  {
    map k | k in kwargs && k in UpdatableColumns :: kwargs[k]
  }

  /** One row after `SET key = value, ...` for the allowed keys of `upd`. */
  function SetColumns(t: Task, upd: map<string, string>): (r: Task)
    ensures forall c :: (ColumnValue(r, c) ==
      if ColumnName(c) in upd && ColumnName(c) in UpdatableColumns then Some(Text(upd[ColumnName(c)]))
      else ColumnValue(t, c))
  {
    t.(titulo := if "titulo" in upd then upd["titulo"] else t.titulo,
       descricao := if "descricao" in upd then upd["descricao"] else t.descricao,
       categoria := if "categoria" in upd then upd["categoria"] else t.categoria,
       prioridade := if "prioridade" in upd then upd["prioridade"] else t.prioridade,
       estado := if "estado" in upd then upd["estado"] else t.estado,
       dataVencimento := if "data_vencimento" in upd then upd["data_vencimento"] else t.dataVencimento,
       dataConclusao := if "data_conclusao" in upd then Some(upd["data_conclusao"]) else t.dataConclusao)
  }

  /** `UPDATE tasks SET ... WHERE id = taskId`. */
  function UpdateRows(rows: seq<Task>, taskId: int, upd: map<string, string>): seq<Task> {
    seq(|rows|, i requires 0 <= i < |rows| => if rows[i].id == taskId then SetColumns(rows[i], upd) else rows[i])
  }

  /** `DELETE FROM tasks WHERE id = taskId`. */
  function Without(rows: seq<Task>, taskId: int): seq<Task> {
    Filter(rows, (t: Task) => t.id != taskId)
  }

  /** The non-None criteria of a filter request: the ones that constrain. */
  function Constraints(filters: map<string, Option<Value>>): (cons: map<string, Value>)
    ensures cons.Keys == set k | k in filters && filters[k].Some?
    ensures forall k :: k in cons ==> filters[k] == Some(cons[k])
  {
    map k | k in filters && filters[k].Some? :: filters[k].value
  }

  /** Every constrained name is a column (otherwise SQLite rejects the query). */
  predicate KnownColumns(cons: map<string, Value>) {
    forall k :: k in cons ==> ColumnNamed(k).Some?
  }

  predicate Satisfies(t: Task, cons: map<string, Value>) {
    forall k :: k in cons ==> ColumnNamed(k).Some? && ColumnEquals(t, ColumnNamed(k).value, cons[k])
  }

  /** `SELECT * FROM tasks WHERE 1=1 AND k = ? ...`, in storage order. */
  function Select(rows: seq<Task>, cons: map<string, Value>): seq<Task> {
    Filter(rows, (t: Task) => Satisfies(t, cons))
  }

  /** `SELECT * FROM tasks WHERE parent_id = ?`. */
  function Children(rows: seq<Task>, parentId: int): seq<Task> {
    Filter(rows, (t: Task) => t.parentId == Some(Int(parentId)))
  }

  datatype StoreError = NoSuchColumn

  // ---------------------------------------------------------------------
  // Properties of the table operations
  // ---------------------------------------------------------------------

  /** `update_task` touches only the row with the given id, and there only
      the allow-listed columns named in the request; id, parent and creation
      date never change. */
  lemma UpdateEffect(rows: seq<Task>, taskId: int, kwargs: map<string, string>, i: int)
    requires 0 <= i < |rows|
    ensures var r := UpdateRows(rows, taskId, Allowed(kwargs));
      |r| == |rows|
      && r[i].id == rows[i].id && r[i].parentId == rows[i].parentId && r[i].dataCriacao == rows[i].dataCriacao
      && (rows[i].id != taskId ==> r[i] == rows[i])
      && (rows[i].id == taskId ==> forall c :: (ColumnValue(r[i], c) ==
            if ColumnName(c) in kwargs && ColumnName(c) in UpdatableColumns
            then Some(Text(kwargs[ColumnName(c)])) else ColumnValue(rows[i], c)))
  {
    var r := UpdateRows(rows, taskId, Allowed(kwargs));
    if rows[i].id == taskId {
      assert ColumnValue(r[i], Id) == ColumnValue(rows[i], Id);
      assert ColumnValue(r[i], ParentId) == ColumnValue(rows[i], ParentId);
      assert ColumnValue(r[i], DataCriacao) == ColumnValue(rows[i], DataCriacao);
    }
  }

  /** With unique ids, deleting an id removes exactly the one row that has it. */
  lemma {:induction false} WithoutLength(rows: seq<Task>, taskId: int)
    requires IncreasingBy(rows, IdOf)
    ensures |Without(rows, taskId)| ==
      if exists i :: 0 <= i < |rows| && rows[i].id == taskId then |rows| - 1 else |rows|
    decreases |rows|
  {
    if rows != [] {
      var init := rows[..|rows| - 1];
      var last := rows[|rows| - 1];
      assert IncreasingBy(init, IdOf);
      WithoutLength(init, taskId);
      if last.id == taskId {
        forall i | 0 <= i < |init| ensures init[i].id != taskId {
          assert IdOf(rows[i]) < IdOf(rows[|rows| - 1]);
        }
      } else {
        if exists i :: 0 <= i < |rows| && rows[i].id == taskId {
          var i :| 0 <= i < |rows| && rows[i].id == taskId;
          assert init[i].id == taskId;
        }
      }
    }
  }

  /** Removing rows keeps the table invariant. */
  lemma WithoutWellFormed(rows: seq<Task>, lastId: int, taskId: int)
    requires WellFormed(rows, lastId)
    ensures WellFormed(Without(rows, taskId), lastId)
  {
    FilterKeepsIncreasing(rows, (t: Task) => t.id != taskId, IdOf);
    var r := Without(rows, taskId);
    forall i | 0 <= i < |r| ensures 1 <= r[i].id <= lastId {
      var k :| 0 <= k < |rows| && rows[k] == r[i];
    }
  }

  /** An unconstrained query returns the whole table. */
  lemma SelectNothing(rows: seq<Task>)
    ensures Select(rows, map[]) == rows
  {
    FilterAll(rows, (t: Task) => Satisfies(t, map[]));
  }

  /** `add_task` on the table invariant: the new id is larger than every id
      in the table, and the invariant still holds after the append. */
  lemma InsertWellFormed(rows: seq<Task>, lastId: nat, t: Task)
    requires WellFormed(rows, lastId) && t.id == lastId + 1
    ensures WellFormed(rows + [t], lastId + 1)
    ensures forall i :: 0 <= i < |rows| ==> rows[i].id < t.id
  {
    var r := rows + [t];
    forall i, j | 0 <= i < j < |r| ensures IdOf(r[i]) < IdOf(r[j]) {
      if j < |rows| { assert IdOf(rows[i]) < IdOf(rows[j]); }
    }
  }

  // ---------------------------------------------------------------------
  // The store object
  // ---------------------------------------------------------------------

  /** The `Database` class: the table and the AUTOINCREMENT counter
      (`sqlite_sequence`), which only grows. */
  class Database {
    var rows: seq<Task>
    var lastId: nat

    ghost predicate Valid()
      reads this
    {
      WellFormed(rows, lastId)
    }

    /** A freshly created, empty table. */
    constructor ()
      ensures Valid() && rows == [] && lastId == 0
    {
      rows := [];
      lastId := 0;
    }

    /** `add_task`: appends one pending row under a never-used id. */
    method AddTask(titulo: string, descricao: string, categoria: string, prioridade: string,
                   dataVencimento: string, parentId: Option<Value>, now: string) returns (id: int)
      requires Valid()
      modifies this
      ensures Valid()
      ensures id == old(lastId) + 1 && lastId == id
      ensures forall i :: 0 <= i < |old(rows)| ==> old(rows)[i].id < id
      ensures rows == old(rows) + [NewRow(id, titulo, descricao, categoria, prioridade, dataVencimento, parentId, now)]
    {
      id := lastId + 1;
      var row := NewRow(id, titulo, descricao, categoria, prioridade, dataVencimento, parentId, now);
      InsertWellFormed(rows, lastId, row);
      rows := rows + [row];
      lastId := id;
    }

    /** `get_all_tasks`: every row, in storage order. */
    method GetAllTasks() returns (r: seq<Task>)
      ensures r == rows
    {
      r := rows;
    }

    /** `update_task`: keeps the allow-listed keys of the request; with none
        left it reports failure and changes nothing, otherwise it updates
        the row with that id (if any) and reports success. */
    method UpdateTask(taskId: int, kwargs: map<string, string>) returns (ok: bool)
      requires Valid()
      modifies this
      ensures Valid() && lastId == old(lastId)
      ensures ok <==> exists k :: k in kwargs && k in UpdatableColumns
      ensures rows == if ok then UpdateRows(old(rows), taskId, Allowed(kwargs)) else old(rows)
    {
      var updates: map<string, string> := map[];
      var pending := kwargs.Keys;
      while pending != {}
        invariant pending <= kwargs.Keys
        invariant updates == map k | k in kwargs && k !in pending && k in UpdatableColumns :: kwargs[k]
        decreases pending
      {
        var key :| key in pending;
        if key in UpdatableColumns {
          updates := updates[key := kwargs[key]];
        }
        pending := pending - {key};
      }
      assert updates == Allowed(kwargs);
      if updates == map[] {
        assert forall k :: k in kwargs && k in UpdatableColumns ==> k in updates;
        return false;
      }
      var k :| k in updates;
      var r := UpdateRows(rows, taskId, updates);
      forall i, j | 0 <= i < j < |r| ensures IdOf(r[i]) < IdOf(r[j]) {
        assert IdOf(rows[i]) < IdOf(rows[j]);
      }
      rows := r;
      ok := true;
    }

    /** `delete_task`: removes the row with that id and reports whether one
        was removed (`rowcount > 0`). */
    method DeleteTask(taskId: int) returns (removed: bool)
      requires Valid()
      modifies this
      ensures Valid() && lastId == old(lastId)
      ensures removed <==> exists i :: 0 <= i < |old(rows)| && old(rows)[i].id == taskId
      ensures rows == Without(old(rows), taskId)
      ensures forall i :: 0 <= i < |rows| ==> rows[i].id != taskId
    {
      var r := Without(rows, taskId);
      WithoutLength(rows, taskId);
      WithoutWellFormed(rows, lastId, taskId);
      removed := |r| < |rows|;
      rows := r;
    }

    /** `get_tasks_by_filter`: None-valued criteria are skipped; the others
        must all hold. A criterion naming no column makes SQLite reject the
        query. */
    method GetTasksByFilter(filters: map<string, Option<Value>>) returns (r: Result<seq<Task>, StoreError>)
      ensures r.Failure? <==> !KnownColumns(Constraints(filters))
      ensures r.Success? ==> r.value == Select(rows, Constraints(filters))
    {
      var cons: map<string, Value> := map[];
      var pending := filters.Keys;
      while pending != {}
        invariant pending <= filters.Keys
        invariant cons == map k | k in filters && k !in pending && filters[k].Some? :: filters[k].value
        decreases pending
      {
        var key :| key in pending;
        if filters[key].Some? {
          cons := cons[key := filters[key].value];
        }
        pending := pending - {key};
      }
      assert cons == Constraints(filters);
      if !KnownColumns(cons) {
        return Failure(NoSuchColumn);
      }
      r := Success(Select(rows, cons));
    }

    /** `get_subtasks`: the direct children of a task, in storage order. */
    method GetSubtasks(parentId: int) returns (r: seq<Task>)
      ensures r == Children(rows, parentId)
      ensures forall t :: t in r <==> t in rows && t.parentId == Some(Int(parentId))
    {
      r := Children(rows, parentId);
    }

    /** `has_subtasks`: whether `get_subtasks` would return anything. */
    method HasSubtasks(taskId: int) returns (b: bool)
      ensures b <==> |Children(rows, taskId)| > 0
      ensures b <==> exists i :: 0 <= i < |rows| && rows[i].parentId == Some(Int(taskId))
    {
      b := Count(rows, (t: Task) => t.parentId == Some(Int(taskId))) > 0;
      CountIsFilterLength(rows, (t: Task) => t.parentId == Some(Int(taskId)));
    }
  }
}
