/** The tagged query targets: serde's adjacently tagged form
    `#[serde(tag = "target", content = "id")]` writes `List(n)` as
    `{"target": "list", "id": n}`, and likewise `"set"` and `"todo"`.
    Reading looks the two members up by name, or takes the two elements
    of a `[tag, id]` array. */
module Targets {
  import opened Base
  import opened Json
  import opened Entities

  datatype SetQueryTarget = List(id: ListId) | Set(id: SetId)

  datatype ToDoQueryTarget = List(id: ListId) | Set(id: SetId) | ToDo(id: ToDoId)

  function Tagged(tag: string, id: i32): Json {
    Object([("target", Str(tag)), ("id", Number(id))])
  }

  function SetTargetTag(t: SetQueryTarget): string {
    match t
    case List(_) => "list"
    case Set(_) => "set"
  }

  function ToDoTargetTag(t: ToDoQueryTarget): string {
    match t
    case List(_) => "list"
    case Set(_) => "set"
    case ToDo(_) => "todo"
  }

  function EncodeSetTarget(t: SetQueryTarget): Json {
    Tagged(SetTargetTag(t), t.id)
  }

  function EncodeToDoTarget(t: ToDoQueryTarget): Json {
    Tagged(ToDoTargetTag(t), t.id)
  }

  /** The tag and the id of an adjacently tagged value. serde reads it in
      two forms: an object in which `"target"` and `"id"` each occur exactly
      once with the right JSON type (a second one is a duplicate field;
      members with other names are skipped), or a two-element array
      `[tag, id]` (one element is too few, a third is trailing). */
  function Untag(j: Json): Option<(string, i32)> {
    if j.Array? then
      if |j.items| == 2 && j.items[0].Str? then
        match AsI32(j.items[1])
        case Some(id) => Some((j.items[0].s, id))
        case None => None
      else None
    else if !j.Object? || Occurrences(j.members, "target") != 1 || Occurrences(j.members, "id") != 1 then None
    else match (Lookup(j.members, "target"), Lookup(j.members, "id"))
      case (Some(Str(tag)), Some(content)) =>
        (match AsI32(content)
         case Some(id) => Some((tag, id))
         case None => None)
      case _ => None
  }

  function DecodeSetTarget(j: Json): (r: Option<SetQueryTarget>)
    ensures r.Some? ==> Untag(j).Some? && Untag(j).value == (SetTargetTag(r.value), r.value.id)
  {
    match Untag(j)
    case Some((tag, id)) =>
      if tag == "list" then Some(SetQueryTarget.List(id))
      else if tag == "set" then Some(SetQueryTarget.Set(id))
      else None
    case None => None
  }

  function DecodeToDoTarget(j: Json): (r: Option<ToDoQueryTarget>)
    ensures r.Some? ==> Untag(j).Some? && Untag(j).value == (ToDoTargetTag(r.value), r.value.id)
  {
    match Untag(j)
    case Some((tag, id)) =>
      if tag == "list" then Some(ToDoQueryTarget.List(id))
      else if tag == "set" then Some(ToDoQueryTarget.Set(id))
      else if tag == "todo" then Some(ToDoQueryTarget.ToDo(id))
      else None
    case None => None
  }

  lemma UntagTagged(tag: string, id: i32)
    ensures Untag(Tagged(tag, id)) == Some((tag, id))
  {
    var ms := Tagged(tag, id).members;
    assert ms[0].0 == "target" != "id";
    assert ms[1..][1..] == [];
    assert Occurrences(ms, "target") == 1 && Occurrences(ms, "id") == 1;
    assert Lookup(ms, "id") == Lookup(ms[1..], "id") == Some(Number(id));
  }

  /** The array form `[tag, id]` reads back the target it writes, for set
      targets and to-do targets alike. */
  lemma ArrayFormDecodes(t: SetQueryTarget, u: ToDoQueryTarget)
    ensures DecodeSetTarget(Array([Str(SetTargetTag(t)), Number(t.id)])) == Some(t)
    ensures DecodeToDoTarget(Array([Str(ToDoTargetTag(u)), Number(u.id)])) == Some(u)
  {
    assert "set" != "list" && "todo" != "list" && "todo" != "set";
  }

  /** An array of any length other than two, or whose first element is not
      a string, is no target. */
  lemma MalformedArrayRefused(items: seq<Json>)
    requires |items| != 2 || !items[0].Str?
    ensures DecodeSetTarget(Array(items)) == None && DecodeToDoTarget(Array(items)) == None
  {
  }

  /** An object that names the tag or the content twice is refused, whatever
      the values: `{"target": "list", "id": 1, "id": 2}` is no target. */
  lemma DuplicateMemberRefused(j: Json)
    requires j.Object?
    requires Occurrences(j.members, "target") > 1 || Occurrences(j.members, "id") > 1
    ensures DecodeSetTarget(j) == None && DecodeToDoTarget(j) == None
  {
  }

  /** The two objects with a repeated member that a first-match reading
      would take for `List(1)`. */
  lemma RepeatedMembersRefused()
    ensures DecodeSetTarget(Object([("target", Str("list")), ("id", Number(1)), ("id", Number(2))])) == None
    ensures DecodeToDoTarget(Object([("target", Str("list")), ("target", Str("set")), ("id", Number(1))])) == None
  {
    var ms := [("target", Str("list")), ("id", Number(1)), ("id", Number(2))];
    assert ms[1..][1..][1..] == [];
    assert Occurrences(ms, "id") == 2;
    var ns := [("target", Str("list")), ("target", Str("set")), ("id", Number(1))];
    assert ns[1..][1..][1..] == [];
    assert Occurrences(ns, "target") == 2;
    DuplicateMemberRefused(Object(ms));
    DuplicateMemberRefused(Object(ns));
  }

  lemma SetTargetRoundTrip(t: SetQueryTarget)
    ensures DecodeSetTarget(EncodeSetTarget(t)) == Some(t)
  {
    UntagTagged(SetTargetTag(t), t.id);
    assert "set" != "list";
  }

  lemma ToDoTargetRoundTrip(t: ToDoQueryTarget)
    ensures DecodeToDoTarget(EncodeToDoTarget(t)) == Some(t)
  {
    UntagTagged(ToDoTargetTag(t), t.id);
    assert "set" != "list" && "todo" != "list" && "todo" != "set";
  }

  /** A tag outside the renamed variant names does not decode; in
      particular a set target refuses `"todo"`. */
  lemma UnknownTagRefused(tag: string, id: i32)
    ensures tag != "list" && tag != "set" ==> DecodeSetTarget(Tagged(tag, id)) == None
    ensures tag != "list" && tag != "set" && tag != "todo" ==> DecodeToDoTarget(Tagged(tag, id)) == None
    ensures DecodeSetTarget(EncodeToDoTarget(ToDoQueryTarget.ToDo(id))) == None
  {
  }

  /** Encoding is injective: equality of targets is equality of variant
      and id, so `List(7)` and `Set(7)` are two targets with two encodings. */
  lemma SetTargetEncodingInjective(a: SetQueryTarget, b: SetQueryTarget)
    ensures EncodeSetTarget(a) == EncodeSetTarget(b) <==> a == b
  {
    if EncodeSetTarget(a) == EncodeSetTarget(b) {
      SetTargetRoundTrip(a);
      SetTargetRoundTrip(b);
    }
  }

  lemma ToDoTargetEncodingInjective(a: ToDoQueryTarget, b: ToDoQueryTarget)
    ensures EncodeToDoTarget(a) == EncodeToDoTarget(b) <==> a == b
  {
    if EncodeToDoTarget(a) == EncodeToDoTarget(b) {
      ToDoTargetRoundTrip(a);
      ToDoTargetRoundTrip(b);
    }
  }

  lemma StructuralIdentity(n: i32)
    ensures SetQueryTarget.List(n) != SetQueryTarget.Set(n)
    ensures |{SetQueryTarget.List(n), SetQueryTarget.Set(n)}| == 2
    ensures |{ToDoQueryTarget.List(n), ToDoQueryTarget.Set(n), ToDoQueryTarget.ToDo(n)}| == 3
  {
  }

  /** The member order does not matter when reading: `{"id": n, "target": t}`
      decodes as `{"target": t, "id": n}` does. */
  lemma MemberOrderIrrelevant(tag: string, id: i32)
    ensures DecodeToDoTarget(Object([("id", Number(id)), ("target", Str(tag))]))
            == DecodeToDoTarget(Tagged(tag, id))
  {
  }
}
