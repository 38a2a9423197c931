/** `delete_lists`, `delete_sets` and `delete_todos`: one `DELETE` on a
    connection the caller has already acquired. The rows a `DELETE`
    returns are only printed; success is `Ok(())`. */
module RmdbDelete {
  import opened Base
  import opened Text
  import opened Entities
  import opened Addresses
  import opened Database
  import opened Predicates
  import RmdbQuery

  function DeleteListsSql(ids: seq<ListId>): string {
    "DELETE FROM lists" + ListsCondition(ids)
  }

  function DeleteSetsSql(adds: seq<SetAddress>): string {
    "DELETE FROM sets" + SetsCondition(adds)
  }

  function DeleteToDosSql(adds: seq<ToDoAddress>): string {
    "DELETE FROM todos" + ToDosCondition(adds)
  }


  /** `delete_lists`: the statement is run, its failure returned as it is. */
  method DeleteLists<R>(conn: Store<R>, ids: seq<ListId>) returns (r: Result<(), SqlError>)
    modifies conn
    ensures RanUntilFailure(conn.answer, old(conn.log), [Run(DeleteListsSql(ids))], conn.log, FailureOf(r))
  {
    ghost var plan := [Run(DeleteListsSql(ids))];
    ghost var start := conn.log;
    ProgressStart(conn.answer, start, plan);
    ListsStatement("DELETE FROM lists", ids);
    var query := "DELETE FROM lists" + " WHERE lid IN (" + IdList(ids) + ");";
    var result := conn.Perform(Run(query));
    if result.Err? {
      ProgressFailed(conn.answer, start, plan, start, 0);
      return Err(result.error);
    }
    ProgressOk(conn.answer, start, plan, start, 0);
    ProgressDone(conn.answer, start, plan, conn.log);
    return Ok(());
  }

  /** `delete_sets`: the fold of `query_sets`, then the statement. */
  method DeleteSets<R>(conn: Store<R>, adds: seq<SetAddress>) returns (r: Result<(), SqlError>)
    modifies conn
    ensures RanUntilFailure(conn.answer, old(conn.log), [Run(DeleteSetsSql(adds))], conn.log, FailureOf(r))
  {
    ghost var plan := [Run(DeleteSetsSql(adds))];
    ghost var start := conn.log;
    ProgressStart(conn.answer, start, plan);
    var wholeListIds, singularIds := SetAddressLists(adds);
    SetsStatement("DELETE FROM sets", adds, wholeListIds, singularIds);
    var query := "DELETE FROM sets" + " WHERE lid IN (" + wholeListIds + ") OR (lid, sid) IN (" + singularIds + ");";
    var result := conn.Perform(Run(query));
    if result.Err? {
      ProgressFailed(conn.answer, start, plan, start, 0);
      return Err(result.error);
    }
    ProgressOk(conn.answer, start, plan, start, 0);
    ProgressDone(conn.answer, start, plan, conn.log);
    return Ok(());
  }

  /** `delete_todos`: the fold of `query_todos`, then the statement. */
  method DeleteToDos<R>(conn: Store<R>, adds: seq<ToDoAddress>) returns (r: Result<(), SqlError>)
    modifies conn
    ensures RanUntilFailure(conn.answer, old(conn.log), [Run(DeleteToDosSql(adds))], conn.log, FailureOf(r))
  {
    ghost var plan := [Run(DeleteToDosSql(adds))];
    ghost var start := conn.log;
    ProgressStart(conn.answer, start, plan);
    var wholeListIds, wholeSetIds, singularIds := ToDoAddressLists(adds);
    ToDosStatement("DELETE FROM todos", adds, wholeListIds, wholeSetIds, singularIds);
    var query := "DELETE FROM todos" + " WHERE lid IN (" + wholeListIds + ") OR (lid, sid) IN (" + wholeSetIds
                 + ") OR (lid, sid, tdid) IN (" + singularIds + ");";
    var result := conn.Perform(Run(query));
    if result.Err? {
      ProgressFailed(conn.answer, start, plan, start, 0);
      return Err(result.error);
    }
    ProgressOk(conn.answer, start, plan, start, 0);
    ProgressDone(conn.answer, start, plan, conn.log);
    return Ok(());
  }

  /** A delete selects exactly the rows the query for the same addresses
      selects: after the verb and the table the two statements agree. */
  lemma SameConditionAsQuery(ids: seq<ListId>, sets: seq<SetAddress>, todos: seq<ToDoAddress>)
    ensures DeleteListsSql(ids)[17..] == RmdbQuery.QueryListsSql(ids)[19..]
    ensures DeleteSetsSql(sets)[16..] == RmdbQuery.QuerySetsSql(sets)[18..]
    ensures DeleteToDosSql(todos)[17..] == RmdbQuery.QueryToDosSql(todos)[19..]
  {
    assert |"DELETE FROM lists"| == 17 && |"SELECT * FROM lists"| == 19;
    assert |"DELETE FROM sets"| == 16 && |"SELECT * FROM sets"| == 18;
  }
}
