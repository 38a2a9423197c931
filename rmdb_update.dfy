/** `update_lists`, `update_sets` and `update_todos`: one transaction in
    which every record that changes something gets one `UPDATE`, in input
    order, followed by the commit. A record that changes nothing is
    skipped. */
module RmdbUpdate {
  import opened Base
  import opened Decimal
  import opened Text
  import opened Entities
  import opened Database
  import opened Predicates
  import opened RmdbInsert

  /** The records an update request carries. */
  datatype UpdateList = UpdateList(listId: ListId, title: Option<string>)
  datatype UpdateSet = UpdateSet(setId: SetId, listId: ListId, title: Option<string>)
  datatype UpdateToDo = UpdateToDo(toDoId: ToDoId, setId: Option<SetId>, listId: ListId, title: Option<string>,
                                   complete: Option<bool>, dueDate: Option<Timestamp>)

  /** `format!("UPDATE {table} SET {updates} WHERE {address};")`. */
  function UpdateText(table: string, updates: string, address: string): string {
    "UPDATE " + table + " SET " + updates + " WHERE " + address + ";"
  }

  /** The statement for one list record, if it has a title. */
  function ListStatement(u: UpdateList): (r: Option<string>)
    ensures r.Some? <==> u.title.Some?
    ensures r.Some? ==> r.value == "UPDATE lists SET title = '" + u.title.value + "' WHERE lid = " + IntText(u.listId) + ";"
  {
    match u.title
    case Some(t) =>
      ListText(t, IntText(u.listId));
      Some(UpdateText("lists", "title = '" + t + "'", "lid = " + IntText(u.listId)))
    case None => None
  }

  lemma ListText(t: string, lid: string)
    ensures UpdateText("lists", "title = '" + t + "'", "lid = " + lid)
            == "UPDATE lists SET title = '" + t + "' WHERE lid = " + lid + ";"
  {
    var head := "UPDATE lists SET title = '";
    assert "UPDATE " + "lists" + " SET " + ("title = '" + t + "'") == head + t + "'";
    assert head + t + "'" + " WHERE " + ("lid = " + lid) == head + t + "' WHERE lid = " + lid;
  }

  /** The statement for one set record, if it has a title. */
  function SetStatement(u: UpdateSet): (r: Option<string>)
    ensures r.Some? <==> u.title.Some?
    ensures r.Some? ==> r.value == "UPDATE sets SET title = '" + u.title.value + "' WHERE lid = " + IntText(u.listId)
                                   + " AND sid = " + IntText(u.setId) + ";"
  {
    match u.title
    case Some(t) =>
      SetText(t, IntText(u.listId), IntText(u.setId));
      Some(UpdateText("sets", "title = '" + t + "'", "lid = " + IntText(u.listId) + " AND sid = " + IntText(u.setId)))
    case None => None
  }

  lemma SetText(t: string, lid: string, sid: string)
    ensures UpdateText("sets", "title = '" + t + "'", "lid = " + lid + " AND sid = " + sid)
            == "UPDATE sets SET title = '" + t + "' WHERE lid = " + lid + " AND sid = " + sid + ";"
  {
    var head := "UPDATE sets SET title = '";
    assert "UPDATE " + "sets" + " SET " + ("title = '" + t + "'") == head + t + "'";
    assert head + t + "'" + " WHERE " + ("lid = " + lid + " AND sid = " + sid)
           == head + t + "' WHERE lid = " + lid + " AND sid = " + sid;
  }

  /** The assignments of one to-do record: one per supplied field, in the
      order title, complete, due date. */
  function ToDoAssignments(u: UpdateToDo): (r: seq<string>)
    ensures |r| == (if u.title.Some? then 1 else 0) + (if u.complete.Some? then 1 else 0)
                   + (if u.dueDate.Some? then 1 else 0)
    ensures u.title.Some? ==> r[0] == "title = '" + u.title.value + "'"
    ensures u.complete.Some? ==> r[if u.title.Some? then 1 else 0] == "complete = " + BoolText(u.complete.value)
    ensures u.dueDate.Some? ==> r[|r| - 1] == "due_date = '" + u.dueDate.value.rfc3339 + "'"
  {
    TitleAssignment(u) + CompleteAssignment(u) + DueAssignment(u)
  }

  function TitleAssignment(u: UpdateToDo): seq<string> {
    match u.title case Some(t) => ["title = '" + t + "'"] case None => []
  }

  function CompleteAssignment(u: UpdateToDo): seq<string> {
    match u.complete case Some(c) => ["complete = " + BoolText(c)] case None => []
  }

  function DueAssignment(u: UpdateToDo): seq<string> {
    match u.dueDate case Some(d) => ["due_date = '" + d.rfc3339 + "'"] case None => []
  }

  /** `lid = … AND sid = … AND tdid = …`, with `NULL` for a missing set id. */
  function ToDoAddress(u: UpdateToDo): string {
    "lid = " + IntText(u.listId) + " AND sid = " + SidText(u.setId) + " AND tdid = " + IntText(u.toDoId)
  }

  /** The statement for one to-do record, if it supplies any field. */
  function ToDoStatement(u: UpdateToDo): (r: Option<string>)
    ensures r.None? <==> u.title.None? && u.complete.None? && u.dueDate.None?
  {
    var assignments := ToDoAssignments(u);
    if assignments == [] then None else Some(UpdateText("todos", Join(assignments, ", "), ToDoAddress(u)))
  }

  /** A to-do record without a set id that supplies some field updates the
      row whose set id is `NULL`: its whole statement, the assignments joined
      by `", "` and the address with `sid = NULL` between `lid` and `tdid`. */
  lemma NullSetIdUpdated(u: UpdateToDo)
    requires u.setId.None? && ToDoAssignments(u) != []
    ensures ToDoStatement(u) == Some("UPDATE todos SET " + Join(ToDoAssignments(u), ", ") + " WHERE lid = "
                                     + IntText(u.listId) + " AND sid = NULL AND tdid = " + IntText(u.toDoId) + ";")
  {
    var assignments := ToDoAssignments(u);
    assert ToDoStatement(u) == Some(UpdateText("todos", Join(assignments, ", "), ToDoAddress(u)));
    assert ToDoAddress(u) == "lid = " + IntText(u.listId) + " AND sid = " + "NULL" + " AND tdid = " + IntText(u.toDoId);
    NullSidText(Join(assignments, ", "), IntText(u.listId), IntText(u.toDoId));
  }

  lemma NullSidText(updates: string, lid: string, tdid: string)
    ensures UpdateText("todos", updates, "lid = " + lid + " AND sid = " + "NULL" + " AND tdid = " + tdid)
            == "UPDATE todos SET " + updates + " WHERE lid = " + lid + " AND sid = NULL AND tdid = " + tdid + ";"
  {
    var head := "UPDATE todos SET ";
    assert "UPDATE " + "todos" + " SET " + updates == head + updates;
    assert head + updates + " WHERE " + ("lid = " + lid + " AND sid = " + "NULL" + " AND tdid = " + tdid)
           == head + updates + " WHERE lid = " + lid + " AND sid = NULL AND tdid = " + tdid;
  }

  /** The statements of a batch: one per record that has one, in input
      order. */
  function Statements<U>(stmt: U -> Option<string>, mods: seq<U>): seq<string>
    decreases |mods|
  {
    if mods == [] then []
    else
      var s := stmt(mods[|mods| - 1]);
      Statements(stmt, mods[..|mods| - 1]) + (if s.Some? then [s.value] else [])
  }

  function Runs(stmts: seq<string>): (r: seq<Event>)
    ensures |r| == |stmts| && forall k | 0 <= k < |stmts| :: r[k] == Run(stmts[k])
    decreases |stmts|
  {
    if stmts == [] then [] else Runs(stmts[..|stmts| - 1]) + [Run(stmts[|stmts| - 1])]
  }

  /** The requests of a batch: begin, the statements, commit. */
  function TransactionPlan(stmts: seq<string>): (p: seq<Event>)
    ensures |p| == |stmts| + 2 && p[0] == Begin && p[|p| - 1] == Commit
    ensures forall k | 0 <= k < |stmts| :: p[k + 1] == Run(stmts[k])
  {
    [Begin] + Runs(stmts) + [Commit]
  }

  lemma StatementsStep<U>(stmt: U -> Option<string>, mods: seq<U>, i: nat)
    requires i < |mods|
    ensures Statements(stmt, mods[..i + 1])
            == Statements(stmt, mods[..i]) + (if stmt(mods[i]).Some? then [stmt(mods[i]).value] else [])
  {
    assert mods[..i + 1][..i] == mods[..i];
  }

  lemma {:induction false} StatementsAppend<U>(stmt: U -> Option<string>, a: seq<U>, b: seq<U>)
    ensures Statements(stmt, a + b) == Statements(stmt, a) + Statements(stmt, b)
    decreases |b|
  {
    if b == [] {
      assert a + b == a;
    } else {
      var ab := a + b;
      assert ab[..|ab| - 1] == a + b[..|b| - 1];
      assert ab[|ab| - 1] == b[|b| - 1];
      StatementsAppend(stmt, a, b[..|b| - 1]);
    }
  }

  /** The statement of record `i` is the next request of the plan once the
      statements of the records before it were made. */
  lemma PlanAt<U>(stmt: U -> Option<string>, mods: seq<U>, i: nat)
    requires i < |mods| && stmt(mods[i]).Some?
    ensures var n := |Statements(stmt, mods[..i])|;
      n + 1 < |TransactionPlan(Statements(stmt, mods))|
      && TransactionPlan(Statements(stmt, mods))[n + 1] == Run(stmt(mods[i]).value)
  {
    StatementsStep(stmt, mods, i);
    assert mods == mods[..i + 1] + mods[i + 1..];
    StatementsAppend(stmt, mods[..i + 1], mods[i + 1..]);
  }

  /** After the last record, the next request is the commit. */
  lemma PlanEnd<U>(stmt: U -> Option<string>, mods: seq<U>)
    ensures mods[..|mods|] == mods
    ensures var p := TransactionPlan(Statements(stmt, mods));
      p[|Statements(stmt, mods[..|mods|])| + 1] == Commit
  {
    assert mods[..|mods|] == mods;
  }

  /** The loop shared by the three functions is written out in each. This
      is its invariant: `begin` and the statements of the first `i`
      records were made and answered `Ok`. */
  ghost predicate LoopState<R, U>(db: Store<R>, start: seq<Event>, stmt: U -> Option<string>, mods: seq<U>, i: nat)
    reads db
    requires i <= |mods|
  {
    Progress(db.answer, start, TransactionPlan(Statements(stmt, mods)), db.log, 1 + |Statements(stmt, mods[..i])|)
  }

  lemma StatementsBound<U>(stmt: U -> Option<string>, mods: seq<U>, i: nat)
    requires i <= |mods|
    ensures |Statements(stmt, mods[..i])| <= |Statements(stmt, mods)|
  {
    assert mods == mods[..i] + mods[i..];
    StatementsAppend(stmt, mods[..i], mods[i..]);
  }

  /** Makes request `n` of `plan`: answered `Ok`, the run goes on; answered
      with an error, it ends there. */
  method Step<R>(db: Store<R>, ghost start: seq<Event>, ghost plan: seq<Event>, ghost n: nat, e: Event)
    returns (r: Result<seq<R>, SqlError>)
    modifies db
    requires Progress(db.answer, start, plan, db.log, n) && n < |plan| && plan[n] == e
    ensures r.Ok? ==> Progress(db.answer, start, plan, db.log, n + 1)
    ensures r.Err? ==> RanUntilFailure(db.answer, start, plan, db.log, Some(r.error))
  {
    ghost var before := db.log;
    r := db.Perform(e);
    if r.Err? {
      ProgressFailed(db.answer, start, plan, before, n);
    } else {
      ProgressOk(db.answer, start, plan, before, n);
    }
  }

  /** Makes the statement of record `i`, if it has one: the loop body
      after the statement was formatted. With no statement, nothing is
      requested and the result is `Ok`. */
  method RunStatement<R, U>(db: Store<R>, ghost start: seq<Event>, ghost stmt: U -> Option<string>, ghost mods: seq<U>,
                            ghost i: nat, query: Option<string>)
    returns (r: Result<seq<R>, SqlError>)
    modifies db
    requires i < |mods| && query == stmt(mods[i]) && LoopState(db, start, stmt, mods, i)
    ensures r.Ok? ==> LoopState(db, start, stmt, mods, i + 1)
    ensures r.Err? ==> RanUntilFailure(db.answer, start, TransactionPlan(Statements(stmt, mods)), db.log, Some(r.error))
  {
    StatementsStep(stmt, mods, i);
    StatementsBound(stmt, mods, i + 1);
    if query.Some? {
      PlanAt(stmt, mods, i);
      r := Step(db, start, TransactionPlan(Statements(stmt, mods)), 1 + |Statements(stmt, mods[..i])|, Run(query.value));
    } else {
      r := Ok([]);
    }
  }

  /** Begins the transaction: the plan's first request. */
  method BeginBatch<R, U>(db: Store<R>, ghost stmt: U -> Option<string>, ghost mods: seq<U>)
    returns (r: Result<seq<R>, SqlError>)
    modifies db
    ensures r.Ok? ==> LoopState(db, old(db.log), stmt, mods, 0)
    ensures r.Err? ==> RanUntilFailure(db.answer, old(db.log), TransactionPlan(Statements(stmt, mods)), db.log,
                                       Some(r.error))
  {
    ghost var plan := TransactionPlan(Statements(stmt, mods));
    ProgressStart(db.answer, db.log, plan);
    assert mods[..0] == [];
    r := Step(db, db.log, plan, 0, Begin);
  }

  /** Commits the transaction once every record was handled: the plan's
      last request. */
  method CommitBatch<R, U>(db: Store<R>, ghost start: seq<Event>, ghost stmt: U -> Option<string>, ghost mods: seq<U>)
    returns (r: Result<(), SqlError>)
    modifies db
    requires LoopState(db, start, stmt, mods, |mods|)
    ensures RanUntilFailure(db.answer, start, TransactionPlan(Statements(stmt, mods)), db.log, FailureOf(r))
  {
    ghost var plan := TransactionPlan(Statements(stmt, mods));
    PlanEnd(stmt, mods);
    var committed := Step(db, start, plan, |plan| - 1, Commit);
    if committed.Err? {
      return Err(committed.error);
    }
    ProgressDone(db.answer, start, plan, db.log);
    return Ok(());
  }

  /** The statement `update_lists` formats for one record. */
  method ListQuery(update: UpdateList) returns (query: Option<string>)
    ensures query == ListStatement(update)
  {
    if update.title.Some? {
      var updates := "title = '" + update.title.value + "'";
      var address := "lid = " + IntText(update.listId);
      return Some(UpdateText("lists", updates, address));
    }
    return None;
  }

  /** `update_lists`. */
  method UpdateLists<R>(db: Store<R>, mods: seq<UpdateList>) returns (r: Result<(), SqlError>)
    modifies db
    ensures RanUntilFailure(db.answer, old(db.log), TransactionPlan(Statements(ListStatement, mods)), db.log,
                            FailureOf(r))
  {
    ghost var start := db.log;
    var transaction := BeginBatch(db, ListStatement, mods);
    if transaction.Err? {
      return Err(transaction.error);
    }
    for i := 0 to |mods|
      invariant LoopState(db, start, ListStatement, mods, i)
    {
      var query := ListQuery(mods[i]);
      var result := RunStatement(db, start, ListStatement, mods, i, query);
      if result.Err? {
        return Err(result.error);
      }
    }
    r := CommitBatch(db, start, ListStatement, mods);
  }

  /** The statement `update_sets` formats for one record. */
  method SetQuery(update: UpdateSet) returns (query: Option<string>)
    ensures query == SetStatement(update)
  {
    if update.title.Some? {
      var updates := "title = '" + update.title.value + "'";
      var address := "lid = " + IntText(update.listId) + " AND sid = " + IntText(update.setId);
      return Some(UpdateText("sets", updates, address));
    }
    return None;
  }

  /** `update_sets`. */
  method UpdateSets<R>(db: Store<R>, mods: seq<UpdateSet>) returns (r: Result<(), SqlError>)
    modifies db
    ensures RanUntilFailure(db.answer, old(db.log), TransactionPlan(Statements(SetStatement, mods)), db.log,
                            FailureOf(r))
  {
    ghost var start := db.log;
    var transaction := BeginBatch(db, SetStatement, mods);
    if transaction.Err? {
      return Err(transaction.error);
    }
    for i := 0 to |mods|
      invariant LoopState(db, start, SetStatement, mods, i)
    {
      var query := SetQuery(mods[i]);
      var result := RunStatement(db, start, SetStatement, mods, i, query);
      if result.Err? {
        return Err(result.error);
      }
    }
    r := CommitBatch(db, start, SetStatement, mods);
  }

  lemma AssignmentsSolid(u: UpdateToDo)
    ensures forall k | 0 <= k < |ToDoAssignments(u)| :: Solid(ToDoAssignments(u)[k])
  {
    var a := ToDoAssignments(u);
    forall k | 0 <= k < |a| ensures Solid(a[k]) {
      var item := a[k];
      assert item[|item| - 1] in "'e";
    }
  }

  /** The conditional pushes of `update_todos`: each supplied field's
      assignment followed by `", "`. */
  method PushAssignments(u: UpdateToDo) returns (pushed: string)
    ensures pushed == Terminated(ToDoAssignments(u), ", ")
  {
    pushed := "";
    if u.title.Some? {
      pushed := pushed + ("title = '" + u.title.value + "'") + ", ";
    }
    PushedPiece([], TitleAssignment(u));
    assert [] + TitleAssignment(u) == TitleAssignment(u);
    if u.complete.Some? {
      pushed := pushed + ("complete = " + BoolText(u.complete.value)) + ", ";
    }
    PushedPiece(TitleAssignment(u), CompleteAssignment(u));
    if u.dueDate.Some? {
      pushed := pushed + ("due_date = '" + u.dueDate.value.rfc3339 + "'") + ", ";
    }
    PushedPiece(TitleAssignment(u) + CompleteAssignment(u), DueAssignment(u));
  }

  /** The SET clause of one to-do record, built as `update_todos` builds
      it: the pushes, then the trailing separators trimmed. The result is
      the supplied assignments, in order, joined by `", "`, and empty
      exactly when no field is supplied. */
  method ToDoSetClause(u: UpdateToDo) returns (updates: string)
    ensures updates == Join(ToDoAssignments(u), ", ")
    ensures updates == "" <==> u.title.None? && u.complete.None? && u.dueDate.None?
    ensures !(|updates| >= 2 && updates[|updates| - 2..] == ", ")
  {
    var pushed := PushAssignments(u);
    ClauseTrimmed(u);
    updates := TrimEndMatches(pushed, ", ");
  }

  /** Pushing at most one item with its separator. */
  lemma PushedPiece(items: seq<string>, piece: seq<string>)
    requires |piece| <= 1
    ensures Terminated(items + piece, ", ") == Terminated(items, ", ") + (if piece == [] then "" else piece[0] + ", ")
  {
    if piece == [] {
      assert items + piece == items;
    } else {
      assert piece == [piece[0]];
      TerminatedPush(items, piece[0]);
    }
  }

  /** The trim of the pushed assignments: their join, never ending with
      the separator, and empty exactly when there are none. */
  lemma ClauseTrimmed(u: UpdateToDo)
    ensures var items := ToDoAssignments(u);
      var j := TrimEndMatches(Terminated(items, ", "), ", ");
      && j == Join(items, ", ")
      && (j == "" <==> u.title.None? && u.complete.None? && u.dueDate.None?)
      && !(|j| >= 2 && j[|j| - 2..] == ", ")
  {
    var items := ToDoAssignments(u);
    AssignmentsSolid(u);
    TrimTerminated(items);
    if items != [] {
      JoinEndsWithLast(items, ", ");
      assert Solid(items[|items| - 1]);
    }
  }

  /** The statement `update_todos` formats for one record, or none when
      the record supplies no field. */
  method ToDoQuery(update: UpdateToDo) returns (query: Option<string>)
    ensures query == ToDoStatement(update)
  {
    var updates := ToDoSetClause(update);
    if |updates| == 0 {
      return None;
    }
    var sid := match update.setId case Some(id) => IntText(id) case None => "NULL";
    var address := "lid = " + IntText(update.listId) + " AND sid = " + sid + " AND tdid = " + IntText(update.toDoId);
    assert sid == SidText(update.setId);
    return Some(UpdateText("todos", updates, address));
  }

  /** `update_todos`. */
  method UpdateToDos<R>(db: Store<R>, mods: seq<UpdateToDo>) returns (r: Result<(), SqlError>)
    modifies db
    ensures RanUntilFailure(db.answer, old(db.log), TransactionPlan(Statements(ToDoStatement, mods)), db.log,
                            FailureOf(r))
  {
    ghost var start := db.log;
    var transaction := BeginBatch(db, ToDoStatement, mods);
    if transaction.Err? {
      return Err(transaction.error);
    }
    for i := 0 to |mods|
      invariant LoopState(db, start, ToDoStatement, mods, i)
    {
      var query := ToDoQuery(mods[i]);
      var result := RunStatement(db, start, ToDoStatement, mods, i, query);
      if result.Err? {
        return Err(result.error);
      }
    }
    r := CommitBatch(db, start, ToDoStatement, mods);
  }

  /** A batch makes no statement exactly when every record in it changes
      nothing; its transaction is then only begun and committed. */
  lemma {:induction false} NoOpBatch<U>(stmt: U -> Option<string>, mods: seq<U>)
    ensures Statements(stmt, mods) == [] <==> forall i | 0 <= i < |mods| :: stmt(mods[i]).None?
    ensures Statements(stmt, mods) == [] ==> TransactionPlan(Statements(stmt, mods)) == [Begin, Commit]
    decreases |mods|
  {
    if mods != [] {
      var init := mods[..|mods| - 1];
      NoOpBatch(stmt, init);
      assert forall i | 0 <= i < |init| :: init[i] == mods[i];
    }
  }

  /** At most one statement per record. */
  lemma {:induction false} StatementsAtMostRecords<U>(stmt: U -> Option<string>, mods: seq<U>)
    ensures |Statements(stmt, mods)| <= |mods|
    ensures |Statements(stmt, mods)| == |mods| <==> forall i | 0 <= i < |mods| :: stmt(mods[i]).Some?
    decreases |mods|
  {
    if mods != [] {
      var init := mods[..|mods| - 1];
      StatementsAtMostRecords(stmt, init);
      assert forall i | 0 <= i < |init| :: init[i] == mods[i];
    }
  }

  /** An update batch is committed only if `begin` and every statement
      were answered `Ok`; when anything before the commit fails, no commit
      is made. */
  lemma UpdateCommitsOnlyAfterAll<R>(answer: (seq<Event>, Event) -> Result<seq<R>, SqlError>,
                                     start: seq<Event>, stmts: seq<string>, log: seq<Event>,
                                     failure: Option<SqlError>)
    requires RanUntilFailure(answer, start, TransactionPlan(stmts), log, failure)
    ensures Commit in log[|start|..] <==> |log| == |start| + |stmts| + 2
    ensures Commit in log[|start|..] ==> AllOk(answer, start, TransactionPlan(stmts)[..|stmts| + 1])
  {
    var plan := TransactionPlan(stmts);
    forall k | 0 <= k < |plan| - 1 ensures plan[k] != Commit {
      if k > 0 {
        assert plan[(k - 1) + 1] == Run(stmts[k - 1]);
      }
    }
    CommitOnlyAfterAll(answer, start, plan, log, failure);
  }
}
