/** The three entity kinds with the identity the service gives them:
    `PartialEq`, `Ord` and `Hash` look at the id and nothing else, which
    is what the `BTreeSet`/`HashSet` response types rely on. */
module Entities {
  import opened Base

  type ListId = i32
  type SetId = i32
  type ToDoId = i32

  /** A `chrono::DateTime<Utc>`, represented by the RFC 3339 text
      (section 5.6 of RFC 3339) that `to_rfc3339` gives for it. */
  datatype Timestamp = Timestamp(rfc3339: string)

  /** `std::cmp::Ordering`. */
  datatype Ordering = Less | Equal | Greater

  /** `i32::cmp`. */
  function CmpId(a: i32, b: i32): Ordering {
    if a < b then Less else if a == b then Equal else Greater
  }

  datatype List = List(id: ListId, title: string) {
    /** `PartialEq::eq`: by id only. */
    predicate Eq(other: List) { id == other.id }
    /** `Ord::cmp`: `self.id.cmp(&other.id)`. */
    function Cmp(other: List): Ordering { CmpId(id, other.id) }
    /** `PartialOrd::partial_cmp`: `Some(self.cmp(other))`. */
    function PartialCmp(other: List): Option<Ordering> { Some(Cmp(other)) }
    /** What `Hash::hash` writes into the hasher: the id alone. */
    function HashInput(): seq<i32> { [id] }
  }

  datatype Set = Set(id: SetId, listId: ListId, title: string) {
    predicate Eq(other: Set) { id == other.id }
    function Cmp(other: Set): Ordering { CmpId(id, other.id) }
    function PartialCmp(other: Set): Option<Ordering> { Some(Cmp(other)) }
    function HashInput(): seq<i32> { [id] }
  }

  datatype ToDo = ToDo(id: ToDoId, setId: Option<SetId>, listId: ListId, title: string,
                       complete: bool, dueDate: Option<Timestamp>) {
    predicate Eq(other: ToDo) { id == other.id }
    function Cmp(other: ToDo): Ordering { CmpId(id, other.id) }
    function PartialCmp(other: ToDo): Option<Ordering> { Some(Cmp(other)) }
    function HashInput(): seq<i32> { [id] }
  }

  /** The laws Rust's `Eq`, `Ord` and `Hash` documentation asks of an
      implementation: `eq` is an equivalence, `cmp` is a total order whose
      `Equal` is exactly `eq`, and equal values hash alike. */
  ghost predicate IsEquivalence<T(!new)>(eq: (T, T) -> bool) {
    && (forall a :: eq(a, a))
    && (forall a, b :: eq(a, b) ==> eq(b, a))
    && (forall a, b, c :: eq(a, b) && eq(b, c) ==> eq(a, c))
  }

  ghost predicate IsTotalOrder<T(!new)>(cmp: (T, T) -> Ordering, eq: (T, T) -> bool) {
    && (forall a, b :: cmp(a, b) == Equal <==> eq(a, b))
    && (forall a, b :: cmp(a, b) == Less <==> cmp(b, a) == Greater)
    && (forall a, b, c :: cmp(a, b) == Less && cmp(b, c) == Less ==> cmp(a, c) == Less)
    && (forall a, b, c :: cmp(a, b) == Equal && cmp(b, c) == Less ==> cmp(a, c) == Less)
    && (forall a, b, c :: cmp(a, b) == Less && cmp(b, c) == Equal ==> cmp(a, c) == Less)
  }

  ghost predicate HashAgreesWithEq<T(!new)>(eq: (T, T) -> bool, hashInput: T -> seq<i32>) {
    forall a, b :: eq(a, b) ==> hashInput(a) == hashInput(b)
  }

  lemma ListIdentity()
    ensures forall a: List, b: List :: a.Eq(b) <==> a.id == b.id
    ensures forall a: List, b: List :: a.PartialCmp(b) == Some(a.Cmp(b))
    ensures IsEquivalence((a: List, b: List) => a.Eq(b))
    ensures IsTotalOrder((a: List, b: List) => a.Cmp(b), (a: List, b: List) => a.Eq(b))
    ensures HashAgreesWithEq((a: List, b: List) => a.Eq(b), (a: List) => a.HashInput())
  {
  }

  lemma SetIdentity()
    ensures forall a: Set, b: Set :: a.Eq(b) <==> a.id == b.id
    ensures forall a: Set, b: Set :: a.PartialCmp(b) == Some(a.Cmp(b))
    ensures IsEquivalence((a: Set, b: Set) => a.Eq(b))
    ensures IsTotalOrder((a: Set, b: Set) => a.Cmp(b), (a: Set, b: Set) => a.Eq(b))
    ensures HashAgreesWithEq((a: Set, b: Set) => a.Eq(b), (a: Set) => a.HashInput())
  {
  }

  lemma ToDoIdentity()
    ensures forall a: ToDo, b: ToDo :: a.Eq(b) <==> a.id == b.id
    ensures forall a: ToDo, b: ToDo :: a.PartialCmp(b) == Some(a.Cmp(b))
    ensures IsEquivalence((a: ToDo, b: ToDo) => a.Eq(b))
    ensures IsTotalOrder((a: ToDo, b: ToDo) => a.Cmp(b), (a: ToDo, b: ToDo) => a.Eq(b))
    ensures HashAgreesWithEq((a: ToDo, b: ToDo) => a.Eq(b), (a: ToDo) => a.HashInput())
  {
  }
}
