/** The `IN (…)` lists of the query and delete statements. The two files
    build them with the same fold: each address goes to the list of its
    variant, rendered and followed by `", "`, and each list then loses its
    trailing separator. A missing set id is rendered `NULL`. */
module Predicates {
  import opened Base
  import opened Decimal
  import opened Text
  import opened Entities
  import opened Addresses

  /** The decimal texts of some ids, in order. */
  function IdTexts(ids: seq<i32>): (r: seq<string>)
    ensures |r| == |ids|
    decreases |ids|
  {
    if ids == [] then [] else IdTexts(ids[..|ids| - 1]) + [IntText(ids[|ids| - 1])]
  }

  /** `ids.map(to_string).join(", ")`, the list of `query_lists` and
      `delete_lists`. */
  function IdList(ids: seq<i32>): string {
    Join(IdTexts(ids), ", ")
  }

  /** `format!("({}, {})", lid, sid)`. */
  function PairText(p: (ListId, SetId)): string {
    "(" + IntText(p.0) + ", " + IntText(p.1) + ")"
  }

  function PairTexts(ps: seq<(ListId, SetId)>): (r: seq<string>)
    ensures |r| == |ps|
    decreases |ps|
  {
    if ps == [] then [] else PairTexts(ps[..|ps| - 1]) + [PairText(ps[|ps| - 1])]
  }

  /** The set-id slot of a to-do triple: the id, or `NULL`. */
  function SidText(sid: Option<SetId>): string {
    match sid case Some(s) => IntText(s) case None => "NULL"
  }

  /** `format!("({}, {}, {})", lid, sid_str, tdid)`. */
  function TripleText(t: (ListId, Option<SetId>, ToDoId)): string {
    "(" + IntText(t.0) + ", " + SidText(t.1) + ", " + IntText(t.2) + ")"
  }

  function TripleTexts(ts: seq<(ListId, Option<SetId>, ToDoId)>): (r: seq<string>)
    ensures |r| == |ts|
    decreases |ts|
  {
    if ts == [] then [] else TripleTexts(ts[..|ts| - 1]) + [TripleText(ts[|ts| - 1])]
  }

  // The partition of set addresses, in input order.

  function SetWholeListIds(adds: seq<SetAddress>): seq<ListId>
    decreases |adds|
  {
    if adds == [] then []
    else
      var a := adds[|adds| - 1];
      SetWholeListIds(adds[..|adds| - 1]) + (if a.WholeList? then [a.lid] else [])
  }

  function SetSingularPairs(adds: seq<SetAddress>): seq<(ListId, SetId)>
    decreases |adds|
  {
    if adds == [] then []
    else
      var a := adds[|adds| - 1];
      SetSingularPairs(adds[..|adds| - 1]) + (if a.Singular? then [(a.lid, a.sid)] else [])
  }

  // The partition of to-do addresses, in input order.

  function ToDoWholeListIds(adds: seq<ToDoAddress>): seq<ListId>
    decreases |adds|
  {
    if adds == [] then []
    else
      var a := adds[|adds| - 1];
      ToDoWholeListIds(adds[..|adds| - 1]) + (if a.WholeList? then [a.lid] else [])
  }

  function ToDoWholeSetPairs(adds: seq<ToDoAddress>): seq<(ListId, SetId)>
    decreases |adds|
  {
    if adds == [] then []
    else
      var a := adds[|adds| - 1];
      ToDoWholeSetPairs(adds[..|adds| - 1]) + (if a.WholeSet? then [(a.lid, a.sid)] else [])
  }

  function ToDoSingularTriples(adds: seq<ToDoAddress>): seq<(ListId, Option<SetId>, ToDoId)>
    decreases |adds|
  {
    if adds == [] then []
    else
      var a := adds[|adds| - 1];
      ToDoSingularTriples(adds[..|adds| - 1]) + (if a.Singular? then [(a.lid, a.maybeSid, a.tdid)] else [])
  }

  lemma {:induction false} IdTextsSolid(ids: seq<i32>)
    ensures forall i | 0 <= i < |IdTexts(ids)| :: Solid(IdTexts(ids)[i])
    decreases |ids|
  {
    if ids != [] {
      IdTextsSolid(ids[..|ids| - 1]);
    }
  }

  lemma ClosedSolid(s: string)
    ensures Solid(s + ")")
  {
  }

  lemma {:induction false} PairTextsSolid(ps: seq<(ListId, SetId)>)
    ensures forall i | 0 <= i < |PairTexts(ps)| :: Solid(PairTexts(ps)[i])
    decreases |ps|
  {
    if ps != [] {
      var p := ps[|ps| - 1];
      PairTextsSolid(ps[..|ps| - 1]);
      ClosedSolid("(" + IntText(p.0) + ", " + IntText(p.1));
    }
  }

  lemma {:induction false} TripleTextsSolid(ts: seq<(ListId, Option<SetId>, ToDoId)>)
    ensures forall i | 0 <= i < |TripleTexts(ts)| :: Solid(TripleTexts(ts)[i])
    decreases |ts|
  {
    if ts != [] {
      var t := ts[|ts| - 1];
      TripleTextsSolid(ts[..|ts| - 1]);
      ClosedSolid("(" + IntText(t.0) + ", " + SidText(t.1) + ", " + IntText(t.2));
    }
  }

  /** One more item of a fold's list, pushed with its separator. */
  lemma TerminatedPush(items: seq<string>, item: string)
    ensures Terminated(items + [item], ", ") == Terminated(items, ", ") + item + ", "
  {
    assert (items + [item])[..|items|] == items;
  }

  lemma IdTextsPush(ids: seq<i32>, id: i32)
    ensures IdTexts(ids + [id]) == IdTexts(ids) + [IntText(id)]
  {
    assert (ids + [id])[..|ids|] == ids;
  }

  lemma PairTextsPush(ps: seq<(ListId, SetId)>, p: (ListId, SetId))
    ensures PairTexts(ps + [p]) == PairTexts(ps) + [PairText(p)]
  {
    assert (ps + [p])[..|ps|] == ps;
  }

  lemma TripleTextsPush(ts: seq<(ListId, Option<SetId>, ToDoId)>, t: (ListId, Option<SetId>, ToDoId))
    ensures TripleTexts(ts + [t]) == TripleTexts(ts) + [TripleText(t)]
  {
    assert (ts + [t])[..|ts|] == ts;
  }

  /** One more set address: it extends the list of its own variant and
      leaves the other alone. */
  lemma SetPartitionStep(adds: seq<SetAddress>, i: nat)
    requires i < |adds|
    ensures adds[i].WholeList? ==> SetWholeListIds(adds[..i + 1]) == SetWholeListIds(adds[..i]) + [adds[i].lid]
                                   && SetSingularPairs(adds[..i + 1]) == SetSingularPairs(adds[..i])
    ensures adds[i].Singular? ==> SetSingularPairs(adds[..i + 1]) == SetSingularPairs(adds[..i]) + [(adds[i].lid, adds[i].sid)]
                                  && SetWholeListIds(adds[..i + 1]) == SetWholeListIds(adds[..i])
  {
    assert adds[..i + 1][..i] == adds[..i];
  }

  /** One more to-do address: it extends the list of its own variant and
      leaves the other two alone. */
  lemma ToDoPartitionStep(adds: seq<ToDoAddress>, i: nat)
    requires i < |adds|
    ensures adds[i].WholeList? ==>
              && ToDoWholeListIds(adds[..i + 1]) == ToDoWholeListIds(adds[..i]) + [adds[i].lid]
              && ToDoWholeSetPairs(adds[..i + 1]) == ToDoWholeSetPairs(adds[..i])
              && ToDoSingularTriples(adds[..i + 1]) == ToDoSingularTriples(adds[..i])
    ensures adds[i].WholeSet? ==>
              && ToDoWholeListIds(adds[..i + 1]) == ToDoWholeListIds(adds[..i])
              && ToDoWholeSetPairs(adds[..i + 1]) == ToDoWholeSetPairs(adds[..i]) + [(adds[i].lid, adds[i].sid)]
              && ToDoSingularTriples(adds[..i + 1]) == ToDoSingularTriples(adds[..i])
    ensures adds[i].Singular? ==>
              && ToDoWholeListIds(adds[..i + 1]) == ToDoWholeListIds(adds[..i])
              && ToDoWholeSetPairs(adds[..i + 1]) == ToDoWholeSetPairs(adds[..i])
              && ToDoSingularTriples(adds[..i + 1])
                 == ToDoSingularTriples(adds[..i]) + [(adds[i].lid, adds[i].maybeSid, adds[i].tdid)]
  {
    assert adds[..i + 1][..i] == adds[..i];
  }

  /** The joined list of ids after the trailing separator is trimmed. */
  lemma TrimIds(ids: seq<i32>)
    ensures TrimEndMatches(Terminated(IdTexts(ids), ", "), ", ") == Join(IdTexts(ids), ", ")
  {
    IdTextsSolid(ids);
    TrimTerminated(IdTexts(ids));
  }

  lemma TrimPairs(ps: seq<(ListId, SetId)>)
    ensures TrimEndMatches(Terminated(PairTexts(ps), ", "), ", ") == Join(PairTexts(ps), ", ")
  {
    PairTextsSolid(ps);
    TrimTerminated(PairTexts(ps));
  }

  lemma TrimTriples(ts: seq<(ListId, Option<SetId>, ToDoId)>)
    ensures TrimEndMatches(Terminated(TripleTexts(ts), ", "), ", ") == Join(TripleTexts(ts), ", ")
  {
    TripleTextsSolid(ts);
    TrimTerminated(TripleTexts(ts));
  }

  /** The fold over set addresses: `(whole_list_ids, singular_ids)`. */
  method SetAddressLists(adds: seq<SetAddress>) returns (wholeListIds: string, singularIds: string)
    ensures wholeListIds == Join(IdTexts(SetWholeListIds(adds)), ", ")
    ensures singularIds == Join(PairTexts(SetSingularPairs(adds)), ", ")
  {
    var wl := "";
    var s := "";
    for i := 0 to |adds|
      invariant wl == Terminated(IdTexts(SetWholeListIds(adds[..i])), ", ")
      invariant s == Terminated(PairTexts(SetSingularPairs(adds[..i])), ", ")
    {
      SetPartitionStep(adds, i);
      match adds[i]
      case WholeList(lid) =>
        IdTextsPush(SetWholeListIds(adds[..i]), lid);
        TerminatedPush(IdTexts(SetWholeListIds(adds[..i])), IntText(lid));
        wl := wl + IntText(lid);
        wl := wl + ", ";
      case Singular(lid, sid) =>
        PairTextsPush(SetSingularPairs(adds[..i]), (lid, sid));
        TerminatedPush(PairTexts(SetSingularPairs(adds[..i])), PairText((lid, sid)));
        s := s + PairText((lid, sid));
        s := s + ", ";
    }
    assert adds[..|adds|] == adds;
    TrimIds(SetWholeListIds(adds));
    TrimPairs(SetSingularPairs(adds));
    wholeListIds := TrimEndMatches(wl, ", ");
    singularIds := TrimEndMatches(s, ", ");
  }

  /** The three accumulators after the first `n` to-do addresses. */
  ghost predicate ToDoFolded(adds: seq<ToDoAddress>, n: nat, wl: string, ws: string, s: string)
    requires n <= |adds|
  {
    && wl == Terminated(IdTexts(ToDoWholeListIds(adds[..n])), ", ")
    && ws == Terminated(PairTexts(ToDoWholeSetPairs(adds[..n])), ", ")
    && s == Terminated(TripleTexts(ToDoSingularTriples(adds[..n])), ", ")
  }

  lemma ToDoWholeListPushed(adds: seq<ToDoAddress>, i: nat, wl: string, ws: string, s: string)
    requires i < |adds| && adds[i].WholeList? && ToDoFolded(adds, i, wl, ws, s)
    ensures ToDoFolded(adds, i + 1, wl + IntText(adds[i].lid) + ", ", ws, s)
  {
    ToDoPartitionStep(adds, i);
    var ids := ToDoWholeListIds(adds[..i]);
    IdTextsPush(ids, adds[i].lid);
    TerminatedPush(IdTexts(ids), IntText(adds[i].lid));
  }

  lemma ToDoWholeSetPushed(adds: seq<ToDoAddress>, i: nat, wl: string, ws: string, s: string)
    requires i < |adds| && adds[i].WholeSet? && ToDoFolded(adds, i, wl, ws, s)
    ensures ToDoFolded(adds, i + 1, wl, ws + PairText((adds[i].lid, adds[i].sid)) + ", ", s)
  {
    ToDoPartitionStep(adds, i);
    var ps := ToDoWholeSetPairs(adds[..i]);
    PairTextsPush(ps, (adds[i].lid, adds[i].sid));
    TerminatedPush(PairTexts(ps), PairText((adds[i].lid, adds[i].sid)));
  }

  lemma ToDoSingularPushed(adds: seq<ToDoAddress>, i: nat, wl: string, ws: string, s: string)
    requires i < |adds| && adds[i].Singular? && ToDoFolded(adds, i, wl, ws, s)
    ensures var a := adds[i]; ToDoFolded(adds, i + 1, wl, ws, s + TripleText((a.lid, a.maybeSid, a.tdid)) + ", ")
  {
    var a := adds[i];
    ToDoPartitionStep(adds, i);
    var ts := ToDoSingularTriples(adds[..i]);
    TripleTextsPush(ts, (a.lid, a.maybeSid, a.tdid));
    TerminatedPush(TripleTexts(ts), TripleText((a.lid, a.maybeSid, a.tdid)));
  }

  lemma ToDoFoldedTrimmed(adds: seq<ToDoAddress>, wl: string, ws: string, s: string)
    requires ToDoFolded(adds, |adds|, wl, ws, s)
    ensures TrimEndMatches(wl, ", ") == Join(IdTexts(ToDoWholeListIds(adds)), ", ")
    ensures TrimEndMatches(ws, ", ") == Join(PairTexts(ToDoWholeSetPairs(adds)), ", ")
    ensures TrimEndMatches(s, ", ") == Join(TripleTexts(ToDoSingularTriples(adds)), ", ")
  {
    assert adds[..|adds|] == adds;
    TrimIds(ToDoWholeListIds(adds));
    TrimPairs(ToDoWholeSetPairs(adds));
    TrimTriples(ToDoSingularTriples(adds));
  }

  /** The fold over to-do addresses: `(whole_list_ids, whole_set_ids,
      singular_ids)`. */
  method ToDoAddressLists(adds: seq<ToDoAddress>) returns (wholeListIds: string, wholeSetIds: string,
                                                          singularIds: string)
    ensures wholeListIds == Join(IdTexts(ToDoWholeListIds(adds)), ", ")
    ensures wholeSetIds == Join(PairTexts(ToDoWholeSetPairs(adds)), ", ")
    ensures singularIds == Join(TripleTexts(ToDoSingularTriples(adds)), ", ")
  {
    var wl := "";
    var ws := "";
    var s := "";
    for i := 0 to |adds|
      invariant ToDoFolded(adds, i, wl, ws, s)
    {
      match adds[i]
      case WholeList(lid) =>
        ToDoWholeListPushed(adds, i, wl, ws, s);
        wl := wl + IntText(lid);
        wl := wl + ", ";
      case WholeSet(lid, sid) =>
        ToDoWholeSetPushed(adds, i, wl, ws, s);
        ws := ws + PairText((lid, sid));
        ws := ws + ", ";
      case Singular(lid, sid, tdid) =>
        ToDoSingularPushed(adds, i, wl, ws, s);
        s := s + TripleText((lid, sid, tdid));
        s := s + ", ";
    }
    ToDoFoldedTrimmed(adds, wl, ws, s);
    wholeListIds := TrimEndMatches(wl, ", ");
    wholeSetIds := TrimEndMatches(ws, ", ");
    singularIds := TrimEndMatches(s, ", ");
  }

  lemma CountAppend<X>(s: seq<X>, t: seq<X>, x: X)
    ensures multiset(s + t)[x] == multiset(s)[x] + multiset(t)[x]
  {
  }

  lemma CountSplitLast<X>(s: seq<X>, x: X)
    requires s != []
    ensures multiset(s)[x] == multiset(s[..|s| - 1])[x] + (if s[|s| - 1] == x then 1 else 0)
  {
    assert s == s[..|s| - 1] + [s[|s| - 1]];
    CountAppend(s[..|s| - 1], [s[|s| - 1]], x);
  }

  /** How often a set address occurs in the list of its own variant. */
  function SetOccurrences(adds: seq<SetAddress>, a: SetAddress): nat {
    match a
    case WholeList(lid) => multiset(SetWholeListIds(adds))[lid]
    case Singular(lid, sid) => multiset(SetSingularPairs(adds))[(lid, sid)]
  }

  lemma SetOccurrencesStep(adds: seq<SetAddress>, a: SetAddress)
    requires adds != []
    ensures SetOccurrences(adds, a)
            == SetOccurrences(adds[..|adds| - 1], a) + (if adds[|adds| - 1] == a then 1 else 0)
  {
    var init := adds[..|adds| - 1];
    var last := adds[|adds| - 1];
    match a
    case WholeList(lid) =>
      CountAppend(SetWholeListIds(init), if last.WholeList? then [last.lid] else [], lid);
    case Singular(lid, sid) =>
      CountAppend(SetSingularPairs(init), if last.Singular? then [(last.lid, last.sid)] else [], (lid, sid));
  }

  /** Every set address lands in the list of its own variant exactly as
      often as it occurs in the input, and the two lists hold nothing
      else: no address is dropped or duplicated. */
  lemma {:induction false} SetPartitionExact(adds: seq<SetAddress>, a: SetAddress)
    ensures |SetWholeListIds(adds)| + |SetSingularPairs(adds)| == |adds|
    ensures multiset(adds)[a] == SetOccurrences(adds, a)
    decreases |adds|
  {
    if adds != [] {
      SetPartitionExact(adds[..|adds| - 1], a);
      SetOccurrencesStep(adds, a);
      CountSplitLast(adds, a);
    }
  }

  /** How often a to-do address occurs in the list of its own variant. */
  function ToDoOccurrences(adds: seq<ToDoAddress>, a: ToDoAddress): nat {
    match a
    case WholeList(lid) => multiset(ToDoWholeListIds(adds))[lid]
    case WholeSet(lid, sid) => multiset(ToDoWholeSetPairs(adds))[(lid, sid)]
    case Singular(lid, sid, tdid) => multiset(ToDoSingularTriples(adds))[(lid, sid, tdid)]
  }

  lemma {:induction false} ToDoPartitionLength(adds: seq<ToDoAddress>)
    ensures |ToDoWholeListIds(adds)| + |ToDoWholeSetPairs(adds)| + |ToDoSingularTriples(adds)| == |adds|
    decreases |adds|
  {
    if adds != [] {
      ToDoPartitionLength(adds[..|adds| - 1]);
    }
  }

  lemma ToDoOccurrencesStep(adds: seq<ToDoAddress>, a: ToDoAddress)
    requires adds != []
    ensures ToDoOccurrences(adds, a)
            == ToDoOccurrences(adds[..|adds| - 1], a) + (if adds[|adds| - 1] == a then 1 else 0)
  {
    match a
    case WholeList(lid) => ToDoWholeListStep(adds, lid);
    case WholeSet(lid, sid) => ToDoWholeSetStep(adds, lid, sid);
    case Singular(lid, sid, tdid) => ToDoSingularStep(adds, lid, sid, tdid);
  }

  lemma ToDoWholeListStep(adds: seq<ToDoAddress>, lid: ListId)
    requires adds != []
    ensures multiset(ToDoWholeListIds(adds))[lid]
            == multiset(ToDoWholeListIds(adds[..|adds| - 1]))[lid]
               + (if adds[|adds| - 1] == ToDoAddress.WholeList(lid) then 1 else 0)
  {
    var last := adds[|adds| - 1];
    var piece := if last.WholeList? then [last.lid] else [];
    CountAppend(ToDoWholeListIds(adds[..|adds| - 1]), piece, lid);
    assert multiset(piece)[lid] == if last == ToDoAddress.WholeList(lid) then 1 else 0;
  }

  lemma ToDoWholeSetStep(adds: seq<ToDoAddress>, lid: ListId, sid: SetId)
    requires adds != []
    ensures multiset(ToDoWholeSetPairs(adds))[(lid, sid)]
            == multiset(ToDoWholeSetPairs(adds[..|adds| - 1]))[(lid, sid)]
               + (if adds[|adds| - 1] == ToDoAddress.WholeSet(lid, sid) then 1 else 0)
  {
    var last := adds[|adds| - 1];
    var piece := if last.WholeSet? then [(last.lid, last.sid)] else [];
    CountAppend(ToDoWholeSetPairs(adds[..|adds| - 1]), piece, (lid, sid));
    assert multiset(piece)[(lid, sid)] == if last == ToDoAddress.WholeSet(lid, sid) then 1 else 0;
  }

  lemma ToDoSingularStep(adds: seq<ToDoAddress>, lid: ListId, sid: Option<SetId>, tdid: ToDoId)
    requires adds != []
    ensures multiset(ToDoSingularTriples(adds))[(lid, sid, tdid)]
            == multiset(ToDoSingularTriples(adds[..|adds| - 1]))[(lid, sid, tdid)]
               + (if adds[|adds| - 1] == ToDoAddress.Singular(lid, sid, tdid) then 1 else 0)
  {
    var last := adds[|adds| - 1];
    var piece := if last.Singular? then [(last.lid, last.maybeSid, last.tdid)] else [];
    CountAppend(ToDoSingularTriples(adds[..|adds| - 1]), piece, (lid, sid, tdid));
    assert multiset(piece)[(lid, sid, tdid)] == if last == ToDoAddress.Singular(lid, sid, tdid) then 1 else 0;
  }

  /** The same for to-do addresses and their three lists. */
  lemma {:induction false} ToDoPartitionExact(adds: seq<ToDoAddress>, a: ToDoAddress)
    ensures |ToDoWholeListIds(adds)| + |ToDoWholeSetPairs(adds)| + |ToDoSingularTriples(adds)| == |adds|
    ensures multiset(adds)[a] == ToDoOccurrences(adds, a)
    decreases |adds|
  {
    ToDoPartitionLength(adds);
    if adds != [] {
      ToDoPartitionExact(adds[..|adds| - 1], a);
      ToDoOccurrencesStep(adds, a);
      CountSplitLast(adds, a);
    }
  }

  /** The number of commas in a text. */
  function Commas(s: string): nat
    decreases |s|
  {
    if s == [] then 0 else Commas(s[..|s| - 1]) + (if s[|s| - 1] == ',' then 1 else 0)
  }

  lemma {:induction false} CommasAppend(a: string, b: string)
    ensures Commas(a + b) == Commas(a) + Commas(b)
    decreases |b|
  {
    if b != [] {
      var ab := a + b;
      assert ab[..|ab| - 1] == a + b[..|b| - 1];
      assert ab[|ab| - 1] == b[|b| - 1];
      CommasAppend(a, b[..|b| - 1]);
    } else {
      assert a + b == a;
    }
  }

  lemma {:induction false} NoCommaInIntText(n: int)
    ensures Commas(IntText(n)) == 0
  {
    var s := IntText(n);
    assert forall i | 0 <= i < |s| :: s[i] != ',' by {
      if n < 0 {
        assert s == "-" + NatText(-n);
        assert AllDigits(NatText(-n));
      } else {
        assert AllDigits(NatText(n));
      }
    }
    NoCommaCounted(s);
  }

  lemma {:induction false} NoCommaCounted(s: string)
    requires forall i | 0 <= i < |s| :: s[i] != ','
    ensures Commas(s) == 0
    decreases |s|
  {
    if s != [] {
      NoCommaCounted(s[..|s| - 1]);
    }
  }

  /** `k` ids give exactly `k - 1` separators, and no ids give `()`. */
  lemma {:induction false} IdListSeparators(ids: seq<i32>)
    ensures ids == [] ==> IdList(ids) == ""
    ensures ids != [] ==> Commas(IdList(ids)) == |ids| - 1
    decreases |ids|
  {
    if |ids| == 1 {
      NoCommaInIntText(ids[0]);
    } else if |ids| > 1 {
      var init := ids[..|ids| - 1];
      IdListSeparators(init);
      assert IdTexts(ids)[..|ids| - 1] == IdTexts(init);
      assert IdList(ids) == IdList(init) + ", " + IntText(ids[|ids| - 1]);
      CommasAppend(IdList(init), ", ");
      CommasAppend(IdList(init) + ", ", IntText(ids[|ids| - 1]));
      NoCommaInIntText(ids[|ids| - 1]);
      assert Commas(", ") == 1;
    }
  }

  // The conditions the query and delete statements share, from ` WHERE`
  // to the closing `;`.

  function ListsCondition(ids: seq<ListId>): string {
    " WHERE lid IN (" + IdList(ids) + ");"
  }

  function SetsCondition(adds: seq<SetAddress>): string {
    SetsConditionText(Join(IdTexts(SetWholeListIds(adds)), ", "), Join(PairTexts(SetSingularPairs(adds)), ", "))
  }

  function SetsConditionText(wl: string, s: string): string {
    " WHERE lid IN (" + wl + ") OR (lid, sid) IN (" + s + ");"
  }

  function ToDosCondition(adds: seq<ToDoAddress>): string {
    ToDosConditionText(Join(IdTexts(ToDoWholeListIds(adds)), ", "), Join(PairTexts(ToDoWholeSetPairs(adds)), ", "),
                       Join(TripleTexts(ToDoSingularTriples(adds)), ", "))
  }

  function ToDosConditionText(wl: string, ws: string, s: string): string {
    " WHERE lid IN (" + wl + ") OR (lid, sid) IN (" + ws + ") OR (lid, sid, tdid) IN (" + s + ");"
  }

  /** A statement written the way the source formats it: the verb and
      table, then the shared condition. */
  lemma ListsStatement(verb: string, ids: seq<ListId>)
    ensures verb + " WHERE lid IN (" + IdList(ids) + ");" == verb + ListsCondition(ids)
  {
  }

  lemma SetsStatement(verb: string, adds: seq<SetAddress>, wl: string, s: string)
    requires wl == Join(IdTexts(SetWholeListIds(adds)), ", ")
    requires s == Join(PairTexts(SetSingularPairs(adds)), ", ")
    ensures verb + " WHERE lid IN (" + wl + ") OR (lid, sid) IN (" + s + ");" == verb + SetsCondition(adds)
  {
    SetsStatementText(verb, wl, s);
  }

  lemma SetsStatementText(verb: string, wl: string, s: string)
    ensures verb + " WHERE lid IN (" + wl + ") OR (lid, sid) IN (" + s + ");" == verb + SetsConditionText(wl, s)
  {
  }

  lemma ToDosStatement(verb: string, adds: seq<ToDoAddress>, wl: string, ws: string, s: string)
    requires wl == Join(IdTexts(ToDoWholeListIds(adds)), ", ")
    requires ws == Join(PairTexts(ToDoWholeSetPairs(adds)), ", ")
    requires s == Join(TripleTexts(ToDoSingularTriples(adds)), ", ")
    ensures verb + " WHERE lid IN (" + wl + ") OR (lid, sid) IN (" + ws + ") OR (lid, sid, tdid) IN (" + s + ");"
         == verb + ToDosCondition(adds)
  {
    ToDosStatementText(verb, wl, ws, s);
  }

  lemma ToDosStatementText(verb: string, wl: string, ws: string, s: string)
    ensures verb + " WHERE lid IN (" + wl + ") OR (lid, sid) IN (" + ws + ") OR (lid, sid, tdid) IN (" + s + ");"
         == verb + ToDosConditionText(wl, ws, s)
  {
  }
}
