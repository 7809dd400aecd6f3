/**
 * Toast identifiers (src/toast.rs): `Id` wraps a `usize`, starts at zero and
 * is advanced by `next`.  Equality and ordering are the derived ones, which
 * for a one-field struct compare the wrapped numbers.
 */
module ToastIds {
  import opened Options

  /** One past the largest `usize` on a 64-bit target. */
  const UsizeLimit: int := 0x1_0000_0000_0000_0000

  newtype usize = x: int | 0 <= x < UsizeLimit

  datatype Id = Id(value: usize)

  /** `Id::new`: the first identifier wraps zero. */
  function NewId(): (id: Id)
    ensures id.value == 0
    ensures forall other: Id :: LessEq(id, other)
  {
    Id(0)
  }

  /**
   * `Id::next`: the successor identifier.  The `+ 1` on the largest `usize`
   * overflows (a panic in debug builds), hence the precondition.
   */
  function Next(id: Id): (n: Id)
    requires id.value < (UsizeLimit - 1) as usize
    ensures n.value as int == id.value as int + 1
    ensures Less(id, n)
  {
    Id(id.value + 1)
  }

  datatype Ordering = LessThan | EqualTo | GreaterThan

  /** The derived `PartialEq`: fields compared one by one. */
  predicate Equal(a: Id, b: Id) {
    a.value == b.value
  }

  /** The derived `PartialOrd::partial_cmp`, which orders by the wrapped `usize`. */
  function PartialCmp(a: Id, b: Id): (r: Option<Ordering>)
    ensures r.Some?
  {
    if a.value < b.value then Some(LessThan)
    else if a.value == b.value then Some(EqualTo)
    else Some(GreaterThan)
  }

  /** `<` and `<=` as `PartialOrd` derives them from `partial_cmp`. */
  predicate Less(a: Id, b: Id) {
    PartialCmp(a, b) == Some(LessThan)
  }

  predicate LessEq(a: Id, b: Id) {
    PartialCmp(a, b) == Some(LessThan) || PartialCmp(a, b) == Some(EqualTo)
  }

  /** Identifier comparison is exactly comparison of the wrapped numbers. */
  lemma CompareIsValueCompare(a: Id, b: Id)
    ensures Equal(a, b) <==> a == b
    ensures Less(a, b) <==> a.value < b.value
    ensures LessEq(a, b) <==> a.value <= b.value
    ensures Less(b, a) <==> a.value > b.value
    ensures LessEq(b, a) <==> a.value >= b.value
    ensures PartialCmp(a, b) == Some(EqualTo) <==> a.value == b.value
    ensures PartialCmp(a, b) == Some(GreaterThan) <==> a.value > b.value
  {
  }

  /** The ordering is a strict total order: exactly one of <, ==, > holds. */
  lemma Trichotomy(a: Id, b: Id)
    ensures (Less(a, b) && !Equal(a, b) && !Less(b, a))
         || (!Less(a, b) && Equal(a, b) && !Less(b, a))
         || (!Less(a, b) && !Equal(a, b) && Less(b, a))
  {
  }

  /**
   * The first `n` identifiers handed out: `Id::new()`, then `next` of the
   * previous one each time.  Issuing more than `usize` can count overflows.
   */
  function Issued(n: nat): (ids: seq<Id>)
    requires n <= UsizeLimit
    ensures |ids| == n
    ensures forall i :: 0 <= i < n ==> ids[i].value as int == i
  {
    if n == 0 then []
    else if n == 1 then [NewId()]
    else
      var earlier := Issued(n - 1);
      earlier + [Next(earlier[n - 2])]
  }

  /** Issued identifiers strictly increase in issue order, so none repeats. */
  lemma IssuedIncreasing(n: nat, i: nat, j: nat)
    requires n <= UsizeLimit
    requires i < j < n
    ensures Less(Issued(n)[i], Issued(n)[j])
    ensures Issued(n)[i] != Issued(n)[j]
  {
  }

  /** Issuing one more identifier keeps every earlier one and adds a fresh one. */
  lemma IssuedExtends(n: nat)
    requires n < UsizeLimit
    ensures Issued(n + 1)[..n] == Issued(n)
    ensures Issued(n + 1)[n] !in Issued(n)
  {
  }
}
