/** `insert_lists`, `insert_sets` and `insert_todos`: refuse an empty
    batch, fold the records into one `VALUES` list, then acquire a
    connection and run one `INSERT`. */
module RmdbInsert {
  import opened Base
  import opened Decimal
  import opened Text
  import opened Entities
  import opened Database
  import opened Predicates
  import QueryShared
  import JsonErrors

  /** The records a create request carries. */
  datatype CreateList = CreateList(title: string)
  datatype CreateSet = CreateSet(listId: ListId, title: string)
  datatype CreateToDo = CreateToDo(listId: ListId, setId: Option<SetId>, title: string,
                                   complete: Option<bool>, dueDate: Option<Timestamp>)

  const NO_ENTRIES := "Caller Provided no entries to the database"

  /** Rust's `bool::to_string`. */
  function BoolText(b: bool): string {
    if b then "true" else "false"
  }

  /** The due-date slot: the RFC 3339 text in quotes, or `NULL`. */
  function DueText(d: Option<Timestamp>): string {
    match d case Some(t) => "'" + t.rfc3339 + "'" case None => "NULL"
  }

  /** `format!("('{}')", title)`. */
  function ListTuple(c: CreateList): string {
    "('" + c.title + "')"
  }

  /** `format!("({}, '{}')", list_id, title)`. */
  function SetTuple(c: CreateSet): string {
    "(" + IntText(c.listId) + ", '" + c.title + "')"
  }

  /** `format!("({}, {}, '{}', {}, {})", …)` with a missing set id and due
      date as `NULL` and a missing `complete` as `false`. */
  function ToDoTuple(c: CreateToDo): string {
    var complete := match c.complete case Some(b) => b case None => false;
    "(" + IntText(c.listId) + ", " + SidText(c.setId) + ", '" + c.title + "', " + BoolText(complete) + ", "
    + DueText(c.dueDate) + ")"
  }

  function ListTuples(cs: seq<CreateList>): (r: seq<string>)
    ensures |r| == |cs|
    decreases |cs|
  {
    if cs == [] then [] else ListTuples(cs[..|cs| - 1]) + [ListTuple(cs[|cs| - 1])]
  }

  /** Element `i` of the list tuples is the tuple of entry `i`. */
  lemma {:induction false} ListTuplesInOrder(cs: seq<CreateList>)
    ensures forall i | 0 <= i < |cs| :: ListTuples(cs)[i] == ListTuple(cs[i])
    decreases |cs|
  {
    if cs != [] {
      var init := cs[..|cs| - 1];
      ListTuplesInOrder(init);
      forall i | 0 <= i < |cs| ensures ListTuples(cs)[i] == ListTuple(cs[i]) {
        if i < |cs| - 1 {
          assert cs[i] == init[i];
        }
      }
    }
  }

  function SetTuples(cs: seq<CreateSet>): (r: seq<string>)
    ensures |r| == |cs|
    decreases |cs|
  {
    if cs == [] then [] else SetTuples(cs[..|cs| - 1]) + [SetTuple(cs[|cs| - 1])]
  }

  /** Element `i` of the set tuples is the tuple of entry `i`. */
  lemma {:induction false} SetTuplesInOrder(cs: seq<CreateSet>)
    ensures forall i | 0 <= i < |cs| :: SetTuples(cs)[i] == SetTuple(cs[i])
    decreases |cs|
  {
    if cs != [] {
      var init := cs[..|cs| - 1];
      SetTuplesInOrder(init);
      forall i | 0 <= i < |cs| ensures SetTuples(cs)[i] == SetTuple(cs[i]) {
        if i < |cs| - 1 {
          assert cs[i] == init[i];
        }
      }
    }
  }

  function ToDoTuples(cs: seq<CreateToDo>): (r: seq<string>)
    ensures |r| == |cs|
    decreases |cs|
  {
    if cs == [] then [] else ToDoTuples(cs[..|cs| - 1]) + [ToDoTuple(cs[|cs| - 1])]
  }

  /** Element `i` of the to-do tuples is the tuple of entry `i`. */
  lemma {:induction false} ToDoTuplesInOrder(cs: seq<CreateToDo>)
    ensures forall i | 0 <= i < |cs| :: ToDoTuples(cs)[i] == ToDoTuple(cs[i])
    decreases |cs|
  {
    if cs != [] {
      var init := cs[..|cs| - 1];
      ToDoTuplesInOrder(init);
      forall i | 0 <= i < |cs| ensures ToDoTuples(cs)[i] == ToDoTuple(cs[i]) {
        if i < |cs| - 1 {
          assert cs[i] == init[i];
        }
      }
    }
  }

  /** The `VALUES` text as the source computes it: the fold appends each
      tuple and `", "`, and `trim_end_matches(", ")` follows. */
  function ListValues(cs: seq<CreateList>): string {
    TrimEndMatches(Terminated(ListTuples(cs), ", "), ", ")
  }

  function SetValues(cs: seq<CreateSet>): string {
    TrimEndMatches(Terminated(SetTuples(cs), ", "), ", ")
  }

  function ToDoValues(cs: seq<CreateToDo>): string {
    TrimEndMatches(Terminated(ToDoTuples(cs), ", "), ", ")
  }

  function InsertListsSql(cs: seq<CreateList>): string {
    "INSERT INTO lists (lid, title) VALUES " + ListValues(cs) + ";"
  }

  function InsertSetsSql(cs: seq<CreateSet>): string {
    "INSERT INTO sets (lid, title) VALUES " + SetValues(cs) + ";"
  }

  function InsertToDosSql(cs: seq<CreateToDo>): string {
    "INSERT INTO todos (lid, sid, title, complete, due_date) VALUES " + ToDoValues(cs) + ";"
  }

  lemma {:induction false} ListTuplesSolid(cs: seq<CreateList>)
    ensures forall i | 0 <= i < |ListTuples(cs)| :: Solid(ListTuples(cs)[i])
    decreases |cs|
  {
    if cs != [] {
      ListTuplesSolid(cs[..|cs| - 1]);
      ClosedSolid("('" + cs[|cs| - 1].title + "'");
    }
  }

  lemma {:induction false} SetTuplesSolid(cs: seq<CreateSet>)
    ensures forall i | 0 <= i < |SetTuples(cs)| :: Solid(SetTuples(cs)[i])
    decreases |cs|
  {
    if cs != [] {
      var c := cs[|cs| - 1];
      SetTuplesSolid(cs[..|cs| - 1]);
      ClosedSolid("(" + IntText(c.listId) + ", '" + c.title + "'");
    }
  }

  lemma {:induction false} ToDoTuplesSolid(cs: seq<CreateToDo>)
    ensures forall i | 0 <= i < |ToDoTuples(cs)| :: Solid(ToDoTuples(cs)[i])
    decreases |cs|
  {
    if cs != [] {
      var c := cs[|cs| - 1];
      var complete := match c.complete case Some(b) => b case None => false;
      ToDoTuplesSolid(cs[..|cs| - 1]);
      ClosedSolid("(" + IntText(c.listId) + ", " + SidText(c.setId) + ", '" + c.title + "', " + BoolText(complete)
                  + ", " + DueText(c.dueDate));
    }
  }

  /** One tuple per record, in input order, separated by `", "`, with no
      separator left at the end. */
  lemma ValuesAreJoinedTuples(lists: seq<CreateList>, sets: seq<CreateSet>, todos: seq<CreateToDo>)
    ensures ListValues(lists) == Join(ListTuples(lists), ", ")
    ensures SetValues(sets) == Join(SetTuples(sets), ", ")
    ensures ToDoValues(todos) == Join(ToDoTuples(todos), ", ")
  {
    ListTuplesSolid(lists);
    TrimTerminated(ListTuples(lists));
    SetTuplesSolid(sets);
    TrimTerminated(SetTuples(sets));
    ToDoTuplesSolid(todos);
    TrimTerminated(ToDoTuples(todos));
  }

  /** Titles are placed between the quotes as they are, without escaping:
      a quote inside a title ends the SQL string early. */
  lemma TitlesVerbatim(l: CreateList, s: CreateSet)
    ensures ListTuple(l)[2..2 + |l.title|] == l.title
    ensures var k := |IntText(s.listId)| + 4; SetTuple(s)[k..k + |s.title|] == s.title
  {
    assert ListTuple(l) == "('" + l.title + "')";
    var k := |IntText(s.listId)| + 4;
    assert SetTuple(s) == ("(" + IntText(s.listId) + ", '") + s.title + "')";
  }

  /** The defaults: a missing `complete` is written exactly as `false`, and
      a missing set id or due date as `NULL`. */
  lemma ToDoDefaults(c: CreateToDo)
    ensures c.complete.None? ==> ToDoTuple(c) == ToDoTuple(c.(complete := Some(false)))
    ensures c.setId.None? ==> SidText(c.setId) == "NULL"
    ensures c.dueDate.None? ==> DueText(c.dueDate) == "NULL"
    ensures c.dueDate.Some? ==> DueText(c.dueDate) == "'" + c.dueDate.value.rfc3339 + "'"
  {
  }

  /** `insert_lists`. */
  method InsertLists<R>(db: Store<R>, entries: seq<CreateList>) returns (r: Result<(), SqlError>)
    modifies db
    ensures entries == [] ==> r == Err(InvalidArgument(NO_ENTRIES)) && db.log == old(db.log)
    ensures entries != [] ==>
              RanUntilFailure(db.answer, old(db.log), [Acquire, Run(InsertListsSql(entries))], db.log, FailureOf(r))
  {
    if |entries| == 0 {
      return Err(InvalidArgument(NO_ENTRIES));
    }
    var values := ListValues(entries);
    var query := "INSERT INTO lists (lid, title) VALUES " + values + ";";
    r := Connect(db, query);
  }

  /** `insert_sets`. */
  method InsertSets<R>(db: Store<R>, entries: seq<CreateSet>) returns (r: Result<(), SqlError>)
    modifies db
    ensures entries == [] ==> r == Err(InvalidArgument(NO_ENTRIES)) && db.log == old(db.log)
    ensures entries != [] ==>
              RanUntilFailure(db.answer, old(db.log), [Acquire, Run(InsertSetsSql(entries))], db.log, FailureOf(r))
  {
    if |entries| == 0 {
      return Err(InvalidArgument(NO_ENTRIES));
    }
    var values := SetValues(entries);
    var query := "INSERT INTO sets (lid, title) VALUES " + values + ";";
    r := Connect(db, query);
  }

  /** `insert_todos`. */
  method InsertToDos<R>(db: Store<R>, entries: seq<CreateToDo>) returns (r: Result<(), SqlError>)
    modifies db
    ensures entries == [] ==> r == Err(InvalidArgument(NO_ENTRIES)) && db.log == old(db.log)
    ensures entries != [] ==>
              RanUntilFailure(db.answer, old(db.log), [Acquire, Run(InsertToDosSql(entries))], db.log, FailureOf(r))
  {
    if |entries| == 0 {
      return Err(InvalidArgument(NO_ENTRIES));
    }
    var values := ToDoValues(entries);
    var query := "INSERT INTO todos (lid, sid, title, complete, due_date) VALUES " + values + ";";
    r := Connect(db, query);
  }

  /** The tail the three functions share: acquire a connection, then run
      the statement; the first failure is returned as it is. */
  method Connect<R>(db: Store<R>, query: string) returns (r: Result<(), SqlError>)
    modifies db
    ensures RanUntilFailure(db.answer, old(db.log), [Acquire, Run(query)], db.log, FailureOf(r))
  {
    ghost var plan := [Acquire, Run(query)];
    ghost var start := db.log;
    ProgressStart(db.answer, start, plan);
    var conn := db.Perform(Acquire);
    if conn.Err? {
      ProgressFailed(db.answer, start, plan, start, 0);
      return Err(conn.error);
    }
    ProgressOk(db.answer, start, plan, start, 0);
    ghost var before := db.log;
    var result := db.Perform(Run(query));
    if result.Err? {
      ProgressFailed(db.answer, start, plan, before, 1);
      return Err(result.error);
    }
    ProgressOk(db.answer, start, plan, before, 1);
    ProgressDone(db.answer, start, plan, db.log);
    return Ok(());
  }

  /** An empty batch is refused before the database is asked anything, and
      the refusal is the caller's fault: it maps to 400. */
  lemma EmptyBatchIsInvalidArgument()
    ensures QueryShared.MapQueryErr(InvalidArgument(NO_ENTRIES)).BadRequest?
    ensures JsonErrors.StatusCode(QueryShared.MapQueryErr(InvalidArgument(NO_ENTRIES))) == 400
  {
  }
}
