/** `query_lists`, `query_sets` and `query_todos`: one connection, one
    `SELECT`, and one entity per returned row. */
module RmdbQuery {
  import opened Base
  import opened Text
  import opened Entities
  import opened Addresses
  import opened Database
  import opened Predicates
  import Decimal

  /** The columns of a returned row the entity is built from, already
      decoded. */
  datatype ListRow = ListRow(lid: ListId, title: string)
  datatype SetRow = SetRow(lid: ListId, sid: SetId, title: string)
  datatype ToDoRow = ToDoRow(lid: ListId, sid: Option<SetId>, tdid: ToDoId, title: string, complete: bool,
                             dueDate: Option<Timestamp>)

  function QueryListsSql(ids: seq<ListId>): string {
    "SELECT * FROM lists" + ListsCondition(ids)
  }

  function QuerySetsSql(adds: seq<SetAddress>): string {
    "SELECT * FROM sets" + SetsCondition(adds)
  }

  function QueryToDosSql(adds: seq<ToDoAddress>): string {
    "SELECT * FROM todos" + ToDosCondition(adds)
  }


  /** The entity a row stands for: its id is the table's own key column. */
  function ListOfRow(row: ListRow): (l: List)
    ensures l.id == row.lid && l.title == row.title
  {
    List(row.lid, row.title)
  }

  function SetOfRow(row: SetRow): (s: Set)
    ensures s.id == row.sid && s.listId == row.lid && s.title == row.title
  {
    Set(row.sid, row.lid, row.title)
  }

  function ToDoOfRow(row: ToDoRow): (t: ToDo)
    ensures t.id == row.tdid && t.listId == row.lid && t.setId == row.sid
    ensures t.title == row.title && t.complete == row.complete && t.dueDate == row.dueDate
  {
    ToDo(row.tdid, row.sid, row.lid, row.title, row.complete, row.dueDate)
  }

  /** The `for row in query_result` loops: one entity per row, in row
      order. */
  method ListsOfRows(rows: seq<ListRow>) returns (lists: seq<List>)
    ensures |lists| == |rows| && forall i | 0 <= i < |rows| :: lists[i] == ListOfRow(rows[i])
  {
    lists := [];
    for i := 0 to |rows|
      invariant |lists| == i && forall k | 0 <= k < i :: lists[k] == ListOfRow(rows[k])
    {
      lists := lists + [List(rows[i].lid, rows[i].title)];
    }
  }

  method SetsOfRows(rows: seq<SetRow>) returns (sets: seq<Set>)
    ensures |sets| == |rows| && forall i | 0 <= i < |rows| :: sets[i] == SetOfRow(rows[i])
  {
    sets := [];
    for i := 0 to |rows|
      invariant |sets| == i && forall k | 0 <= k < i :: sets[k] == SetOfRow(rows[k])
    {
      sets := sets + [Set(rows[i].sid, rows[i].lid, rows[i].title)];
    }
  }

  method ToDosOfRows(rows: seq<ToDoRow>) returns (todos: seq<ToDo>)
    ensures |todos| == |rows| && forall i | 0 <= i < |rows| :: todos[i] == ToDoOfRow(rows[i])
  {
    todos := [];
    for i := 0 to |rows|
      invariant |todos| == i && forall k | 0 <= k < i :: todos[k] == ToDoOfRow(rows[k])
    {
      var row := rows[i];
      todos := todos + [ToDo(row.tdid, row.sid, row.lid, row.title, row.complete, row.dueDate)];
    }
  }

  /** `query_lists`: acquire a connection, run the `SELECT`, map the rows;
      the first failure is returned as it is. */
  method QueryLists(db: Store<ListRow>, ids: seq<ListId>) returns (r: Result<seq<List>, SqlError>)
    modifies db
    ensures RanUntilFailure(db.answer, old(db.log), [Acquire, Run(QueryListsSql(ids))], db.log, FailureOf(r))
    ensures r.Ok? ==> var rows := LastRows(db.answer, old(db.log), [Acquire, Run(QueryListsSql(ids))]);
                      |r.value| == |rows| && forall i | 0 <= i < |rows| :: r.value[i] == ListOfRow(rows[i])
  {
    ghost var plan := [Acquire, Run(QueryListsSql(ids))];
    ghost var start := db.log;
    ProgressStart(db.answer, start, plan);
    var conn := db.Perform(Acquire);
    if conn.Err? {
      ProgressFailed(db.answer, start, plan, start, 0);
      return Err(conn.error);
    }
    ProgressOk(db.answer, start, plan, start, 0);
    ghost var before := db.log;
    ListsStatement("SELECT * FROM lists", ids);
    var query := "SELECT * FROM lists" + " WHERE lid IN (" + IdList(ids) + ");";
    var result := db.Perform(Run(query));
    if result.Err? {
      ProgressFailed(db.answer, start, plan, before, 1);
      return Err(result.error);
    }
    ProgressOk(db.answer, start, plan, before, 1);
    ProgressDone(db.answer, start, plan, db.log);
    assert plan[..1] == [Acquire];
    var lists := ListsOfRows(result.value);
    return Ok(lists);
  }

  /** `query_sets`: acquire a connection, fold the addresses into the two
      `IN` lists, run the `SELECT`, map the rows. */
  method QuerySets(db: Store<SetRow>, adds: seq<SetAddress>) returns (r: Result<seq<Set>, SqlError>)
    modifies db
    ensures RanUntilFailure(db.answer, old(db.log), [Acquire, Run(QuerySetsSql(adds))], db.log, FailureOf(r))
    ensures r.Ok? ==> var rows := LastRows(db.answer, old(db.log), [Acquire, Run(QuerySetsSql(adds))]);
                      |r.value| == |rows| && forall i | 0 <= i < |rows| :: r.value[i] == SetOfRow(rows[i])
  {
    ghost var plan := [Acquire, Run(QuerySetsSql(adds))];
    ghost var start := db.log;
    ProgressStart(db.answer, start, plan);
    var conn := db.Perform(Acquire);
    if conn.Err? {
      ProgressFailed(db.answer, start, plan, start, 0);
      return Err(conn.error);
    }
    ProgressOk(db.answer, start, plan, start, 0);
    ghost var before := db.log;
    var wholeListIds, singularIds := SetAddressLists(adds);
    SetsStatement("SELECT * FROM sets", adds, wholeListIds, singularIds);
    var query := "SELECT * FROM sets" + " WHERE lid IN (" + wholeListIds + ") OR (lid, sid) IN (" + singularIds + ");";
    var result := db.Perform(Run(query));
    if result.Err? {
      ProgressFailed(db.answer, start, plan, before, 1);
      return Err(result.error);
    }
    ProgressOk(db.answer, start, plan, before, 1);
    ProgressDone(db.answer, start, plan, db.log);
    assert plan[..1] == [Acquire];
    var sets := SetsOfRows(result.value);
    return Ok(sets);
  }

  /** `query_todos`: the same with the three to-do `IN` lists. */
  method QueryToDos(db: Store<ToDoRow>, adds: seq<ToDoAddress>) returns (r: Result<seq<ToDo>, SqlError>)
    modifies db
    ensures RanUntilFailure(db.answer, old(db.log), [Acquire, Run(QueryToDosSql(adds))], db.log, FailureOf(r))
    ensures r.Ok? ==> var rows := LastRows(db.answer, old(db.log), [Acquire, Run(QueryToDosSql(adds))]);
                      |r.value| == |rows| && forall i | 0 <= i < |rows| :: r.value[i] == ToDoOfRow(rows[i])
  {
    ghost var plan := [Acquire, Run(QueryToDosSql(adds))];
    ghost var start := db.log;
    ProgressStart(db.answer, start, plan);
    var conn := db.Perform(Acquire);
    if conn.Err? {
      ProgressFailed(db.answer, start, plan, start, 0);
      return Err(conn.error);
    }
    ProgressOk(db.answer, start, plan, start, 0);
    ghost var before := db.log;
    var wholeListIds, wholeSetIds, singularIds := ToDoAddressLists(adds);
    ToDosStatement("SELECT * FROM todos", adds, wholeListIds, wholeSetIds, singularIds);
    var query := "SELECT * FROM todos" + " WHERE lid IN (" + wholeListIds + ") OR (lid, sid) IN (" + wholeSetIds
                 + ") OR (lid, sid, tdid) IN (" + singularIds + ");";
    var result := db.Perform(Run(query));
    if result.Err? {
      ProgressFailed(db.answer, start, plan, before, 1);
      return Err(result.error);
    }
    ProgressOk(db.answer, start, plan, before, 1);
    ProgressDone(db.answer, start, plan, db.log);
    assert plan[..1] == [Acquire];
    var todos := ToDosOfRows(result.value);
    return Ok(todos);
  }

  /** A to-do address without a set id asks for `NULL` in the set-id slot
      of its triple, and a whole-set address never reaches the triple list. */
  lemma NullSetIdQueried(lid: ListId, tdid: ToDoId)
    ensures ToDoSingularTriples([ToDoAddress.Singular(lid, None, tdid)]) == [(lid, None, tdid)]
    ensures TripleText((lid, None, tdid)) == "(" + Decimal.IntText(lid) + ", NULL, " + Decimal.IntText(tdid) + ")"
  {
    assert [ToDoAddress.Singular(lid, None, tdid)][..0] == [];
  }
}
