/** The database as the storage functions see it. A connection pool, a
    connection and a transaction are all one `Store`: it records every
    request made of it (acquiring a connection, beginning a transaction,
    running a statement, committing) in `log`, and answers each one with
    `answer`, an oracle for the database that is told everything asked of
    it before. */
module Database {
  import opened Base

  /** `sqlx::Error`: `InvalidArgument` is the one variant the service
      builds itself; every other error is kept as its displayed text. */
  datatype SqlError = InvalidArgument(msg: string) | Failure(text: string)

  /** One request made of the database. */
  datatype Event = Acquire | Begin | Run(sql: string) | Commit

  class Store<R> {
    var log: seq<Event>
    const answer: (seq<Event>, Event) -> Result<seq<R>, SqlError>

    constructor (answer: (seq<Event>, Event) -> Result<seq<R>, SqlError>)
      ensures log == [] && this.answer == answer
    {
      log := [];
      this.answer := answer;
    }

    /** Makes one request: it is logged, and the oracle's answer for it,
        given the earlier log, is returned. */
    method Perform(e: Event) returns (r: Result<seq<R>, SqlError>)
      modifies this
      ensures log == old(log) + [e]
      ensures r == answer(old(log), e)
    {
      r := answer(log, e);
      log := log + [e];
    }
  }

  /** The failure a result carries, if any. */
  function FailureOf<T>(r: Result<T, SqlError>): (f: Option<SqlError>)
    ensures f.Some? <==> r.Err?
    ensures f.Some? ==> f.value == r.error
  {
    match r case Ok(_) => None case Err(e) => Some(e)
  }

  /** Every request of `plan`, made in order after `start`, is answered
      `Ok`. */
  ghost predicate AllOk<R>(answer: (seq<Event>, Event) -> Result<seq<R>, SqlError>,
                           start: seq<Event>, plan: seq<Event>) {
    forall k | 0 <= k < |plan| :: answer(start + plan[..k], plan[k]).Ok?
  }

  /** `log` is what results from making the requests of `plan` in order
      after `start`, stopping at the first that fails: with no `failure`
      the whole plan was made and answered `Ok`; with one, the plan was made
      up to and including the request whose answer is that failure. */
  ghost predicate RanUntilFailure<R>(answer: (seq<Event>, Event) -> Result<seq<R>, SqlError>,
                                     start: seq<Event>, plan: seq<Event>, log: seq<Event>,
                                     failure: Option<SqlError>) {
    |start| <= |log| <= |start| + |plan|
    && var n := |log| - |start|;
    && log == start + plan[..n]
    && (failure.None? ==> n == |plan| && AllOk(answer, start, plan))
    && (failure.Some? ==> 0 < n && AllOk(answer, start, plan[..n - 1])
                          && answer(start + plan[..n - 1], plan[n - 1]) == Err(failure.value))
  }

  /** Midway through a plan: its first `n` requests were made after
      `start`, in order, and all were answered `Ok`. */
  ghost predicate Progress<R>(answer: (seq<Event>, Event) -> Result<seq<R>, SqlError>,
                              start: seq<Event>, plan: seq<Event>, log: seq<Event>, n: nat) {
    n <= |plan| && log == start + plan[..n] && AllOk(answer, start, plan[..n])
  }

  lemma ProgressStart<R>(answer: (seq<Event>, Event) -> Result<seq<R>, SqlError>,
                         start: seq<Event>, plan: seq<Event>)
    ensures Progress(answer, start, plan, start, 0)
  {
    assert plan[..0] == [];
  }

  /** The next request of the plan was made and answered `Ok`. */
  lemma ProgressOk<R>(answer: (seq<Event>, Event) -> Result<seq<R>, SqlError>,
                      start: seq<Event>, plan: seq<Event>, log: seq<Event>, n: nat)
    requires Progress(answer, start, plan, log, n) && n < |plan| && answer(log, plan[n]).Ok?
    ensures Progress(answer, start, plan, log + [plan[n]], n + 1)
  {
    assert plan[..n + 1] == plan[..n] + [plan[n]];
    AllOkExtend(answer, start, plan, n);
  }

  /** The next request of the plan was made and failed: the run ends there. */
  lemma ProgressFailed<R>(answer: (seq<Event>, Event) -> Result<seq<R>, SqlError>,
                          start: seq<Event>, plan: seq<Event>, log: seq<Event>, n: nat)
    requires Progress(answer, start, plan, log, n) && n < |plan| && answer(log, plan[n]).Err?
    ensures RanUntilFailure(answer, start, plan, log + [plan[n]], Some(answer(log, plan[n]).error))
  {
    assert plan[..n + 1] == plan[..n] + [plan[n]];
    assert plan[..n + 1][..n] == plan[..n];
  }

  /** Every request of the plan was made and answered `Ok`. */
  lemma ProgressDone<R>(answer: (seq<Event>, Event) -> Result<seq<R>, SqlError>,
                        start: seq<Event>, plan: seq<Event>, log: seq<Event>)
    requires Progress(answer, start, plan, log, |plan|)
    ensures RanUntilFailure(answer, start, plan, log, None)
  {
    assert plan[..|plan|] == plan;
  }

  /** The rows the last request of a plan that ran to the end is answered
      with. */
  ghost function LastRows<R>(answer: (seq<Event>, Event) -> Result<seq<R>, SqlError>,
                             start: seq<Event>, plan: seq<Event>): seq<R>
    requires plan != [] && AllOk(answer, start, plan)
  {
    answer(start + plan[..|plan| - 1], plan[|plan| - 1]).value
  }

  lemma AllOkPrefix<R>(answer: (seq<Event>, Event) -> Result<seq<R>, SqlError>,
                       start: seq<Event>, plan: seq<Event>, n: nat)
    requires n <= |plan| && AllOk(answer, start, plan)
    ensures AllOk(answer, start, plan[..n])
  {
    forall k | 0 <= k < n ensures answer(start + plan[..n][..k], plan[..n][k]).Ok? {
      assert plan[..n][..k] == plan[..k];
    }
  }

  lemma {:induction false} AllOkExtend<R>(answer: (seq<Event>, Event) -> Result<seq<R>, SqlError>,
                                          start: seq<Event>, plan: seq<Event>, n: nat)
    requires n < |plan| && AllOk(answer, start, plan[..n]) && answer(start + plan[..n], plan[n]).Ok?
    ensures AllOk(answer, start, plan[..n + 1])
  {
    var p := plan[..n + 1];
    forall k | 0 <= k < |p| ensures answer(start + p[..k], p[k]).Ok? {
      assert p[..k] == plan[..k];
      if k < n {
        assert plan[..n][..k] == plan[..k];
        assert answer(start + plan[..n][..k], plan[..n][k]).Ok?;
      }
    }
  }

  /** A plan that ends with its only `Commit` is committed only when every
      request before it was made and answered `Ok`: a failure anywhere
      earlier leaves `Commit` out of the log. */
  lemma CommitOnlyAfterAll<R>(answer: (seq<Event>, Event) -> Result<seq<R>, SqlError>,
                              start: seq<Event>, plan: seq<Event>, log: seq<Event>,
                              failure: Option<SqlError>)
    requires plan != [] && plan[|plan| - 1] == Commit
    requires forall k | 0 <= k < |plan| - 1 :: plan[k] != Commit
    requires RanUntilFailure(answer, start, plan, log, failure)
    ensures Commit in log[|start|..] <==> |log| == |start| + |plan|
    ensures Commit in log[|start|..] ==> AllOk(answer, start, plan[..|plan| - 1])
  {
    var n := |log| - |start|;
    assert log[|start|..] == plan[..n];
    if n == |plan| {
      assert plan[..n][n - 1] == Commit;
      if failure.None? {
        AllOkPrefix(answer, start, plan, |plan| - 1);
      }
    } else {
      assert forall k | 0 <= k < n :: plan[..n][k] != Commit;
    }
  }
}
