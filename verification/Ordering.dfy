/** Three-way comparison, stable sorting and consecutive deduplication. */
module Ordering {
  import opened Machine

  datatype Order = Less | Equal | Greater {
    /** `Ordering::then_with`. */
    function Then(next: Order): Order { if Equal? then next else this }

    function Flip(): Order {
      match this case Less => Greater case Equal => Equal case Greater => Less
    }
  }

  type Compare<!T> = (T, T) -> Order

  function NatCmp(a: int, b: int): Order {
    if a < b then Less else if a == b then Equal else Greater
  }

  /** Derived `Ord` on `Option`: `None` first. */
  function OptionNatCmp(a: Option<nat>, b: Option<nat>): Order {
    match (a, b)
    case (None, None) => Equal
    case (None, Some(_)) => Less
    case (Some(_), None) => Greater
    case (Some(x), Some(y)) => NatCmp(x, y)
  }

  function OptionTextCmp(a: Option<seq<Byte>>, b: Option<seq<Byte>>): Order {
    match (a, b)
    case (None, None) => Equal
    case (None, Some(_)) => Less
    case (Some(_), None) => Greater
    case (Some(x), Some(y)) => TextCmp(x, y)
  }

  /** Byte-wise lexicographic order of UTF-8 text. */
  function TextCmp(a: seq<Byte>, b: seq<Byte>): Order {
    if a == [] then (if b == [] then Equal else Less)
    else if b == [] then Greater
    else NatCmp(a[0], b[0]).Then(TextCmp(a[1..], b[1..]))
  }

  /** Antisymmetry and transitivity of four comparisons of `a`, `b` and `c`. */
  predicate Law(ab: Order, ba: Order, bc: Order, ac: Order) {
    && ba == ab.Flip()
    && (ab != Greater && bc != Greater ==> ac == if ab == Equal then bc else Less)
  }

  /** Breaking ties with a lawful comparison is lawful. */
  lemma ThenLaw(ab: Order, ba: Order, bc: Order, ac: Order, ab': Order, ba': Order, bc': Order, ac': Order)
    requires Law(ab, ba, bc, ac) && Law(ab', ba', bc', ac')
    ensures Law(ab.Then(ab'), ba.Then(ba'), bc.Then(bc'), ac.Then(ac'))
  {
  }

  /** The order laws that sorting needs at one triple of values. */
  ghost predicate Lawful<T>(cmp: Compare<T>, a: T, b: T, c: T) {
    Law(cmp(a, b), cmp(b, a), cmp(b, c), cmp(a, c))
  }

  ghost predicate TotalOrder<T(!new)>(cmp: Compare<T>) {
    forall a, b, c :: Lawful(cmp, a, b, c)
  }

  lemma {:induction false} TextCmpLawful(a: seq<Byte>, b: seq<Byte>, c: seq<Byte>)
    ensures Lawful(TextCmp, a, b, c)
    ensures TextCmp(a, b) == Equal <==> a == b
  {
    if a != [] && b != [] {
      TextCmpLawful(a[1..], b[1..], if c == [] then [] else c[1..]);
      assert a == [a[0]] + a[1..] && b == [b[0]] + b[1..];
    }
  }

  ghost predicate Sorted<T>(s: seq<T>, cmp: Compare<T>) {
    forall i, j | 0 <= i < j < |s| :: cmp(s[i], s[j]) != Greater
  }

  ghost predicate StrictlySorted<T>(s: seq<T>, cmp: Compare<T>) {
    forall i, j | 0 <= i < j < |s| :: cmp(s[i], s[j]) == Less
  }

  ghost function Elements<T>(s: seq<T>): set<T> { set x | x in s }

  ghost predicate NoDuplicates<T>(s: seq<T>) {
    forall i, j | 0 <= i < j < |s| :: s[i] != s[j]
  }

  function Insert<T>(x: T, s: seq<T>, cmp: Compare<T>): seq<T> {
    if s == [] || cmp(x, s[0]) != Greater then [x] + s else [s[0]] + Insert(x, s[1..], cmp)
  }

  /** Stable sort by a comparison (`slice::sort_by`). */
  function SortBy<T>(s: seq<T>, cmp: Compare<T>): seq<T> {
    if s == [] then [] else Insert(s[0], SortBy(s[1..], cmp), cmp)
  }

  lemma {:induction false} InsertSorts<T(!new)>(x: T, s: seq<T>, cmp: Compare<T>)
    requires TotalOrder(cmp) && Sorted(s, cmp)
    ensures multiset(Insert(x, s, cmp)) == multiset(s) + multiset{x}
    ensures Sorted(Insert(x, s, cmp), cmp)
  {
    var r := Insert(x, s, cmp);
    if s == [] {
    } else if cmp(x, s[0]) != Greater {
      forall j | 0 < j < |r| ensures cmp(r[0], r[j]) != Greater {
        assert Lawful(cmp, x, s[0], s[j - 1]);
      }
    } else {
      InsertSorts(x, s[1..], cmp);
      assert s == [s[0]] + s[1..];
      forall j | 0 < j < |r| ensures cmp(r[0], r[j]) != Greater {
        assert r[j] in multiset(r[1..]);
        assert r[1..] == Insert(x, s[1..], cmp);
        if r[j] != x {
          assert r[j] in multiset(s[1..]);
        } else {
          assert Lawful(cmp, x, s[0], s[0]);
        }
      }
    }
  }

  lemma {:induction false} SortBySorts<T(!new)>(s: seq<T>, cmp: Compare<T>)
    requires TotalOrder(cmp)
    ensures multiset(SortBy(s, cmp)) == multiset(s)
    ensures Sorted(SortBy(s, cmp), cmp)
    ensures |SortBy(s, cmp)| == |s| && Elements(SortBy(s, cmp)) == Elements(s)
  {
    if s != [] {
      SortBySorts(s[1..], cmp);
      InsertSorts(s[0], SortBy(s[1..], cmp), cmp);
      assert s == [s[0]] + s[1..];
    }
    assert multiset(SortBy(s, cmp)) == multiset(s);
    SameMultiset(SortBy(s, cmp), s);
  }

  lemma SameMultiset<T>(s: seq<T>, t: seq<T>)
    requires multiset(s) == multiset(t)
    ensures |s| == |t| && Elements(s) == Elements(t)
  {
    assert |s| == |multiset(s)| == |multiset(t)| == |t|;
    forall x ensures x in s <==> x in t {
      assert x in multiset(s) <==> x in multiset(t);
    }
  }

  /** `Vec::dedup`: keeps the first element of each run of equal elements. */
  function Dedup<T(==)>(s: seq<T>): seq<T> {
    if |s| < 2 then s
    else if s[0] == s[1] then Dedup(s[1..])
    else [s[0]] + Dedup(s[1..])
  }

  /** Sorting by a comparison whose `Equal` is equality, then deduplicating, gives a strict order. */
  lemma {:induction false} DedupStrict<T(!new)>(s: seq<T>, cmp: Compare<T>)
    requires TotalOrder(cmp) && Sorted(s, cmp)
    requires forall x, y | x in s && y in s :: cmp(x, y) == Equal ==> x == y
    ensures StrictlySorted(Dedup(s), cmp)
    ensures Elements(Dedup(s)) == Elements(s)
    ensures s != [] ==> Dedup(s) != [] && Dedup(s)[0] == s[0]
  {
    if |s| >= 2 {
      DedupStrict(s[1..], cmp);
      var rest := Dedup(s[1..]);
      assert Elements(s) == {s[0]} + Elements(s[1..]);
      if s[0] != s[1] {
        assert Elements([s[0]] + rest) == {s[0]} + Elements(rest);
        forall j | 0 <= j < |rest| ensures cmp(s[0], rest[j]) == Less {
          assert rest[j] in Elements(s[1..]);
          assert Lawful(cmp, s[0], s[1], rest[j]);
          if j > 0 { assert cmp(rest[0], rest[j]) == Less; }
          assert cmp(s[0], s[1]) == Less;
        }
      } else {
        assert s[0] in Elements(s[1..]);
      }
    }
  }

  /** A strictly sorted sequence is determined by its set of elements. */
  lemma {:induction false} StrictlySortedUnique<T(!new)>(s: seq<T>, t: seq<T>, cmp: Compare<T>)
    requires TotalOrder(cmp) && StrictlySorted(s, cmp) && StrictlySorted(t, cmp)
    requires Elements(s) == Elements(t)
    ensures s == t
  {
    assert s != [] ==> s[0] in Elements(s);
    assert t != [] ==> t[0] in Elements(t);
    if s != [] && t != [] {
      assert s[0] in t && t[0] in s;
      assert Lawful(cmp, s[0], t[0], t[0]);
      TailElements(s, cmp);
      TailElements(t, cmp);
      StrictlySortedUnique(s[1..], t[1..], cmp);
      assert s == [s[0]] + s[1..] && t == [t[0]] + t[1..];
    }
  }

  lemma TailElements<T(!new)>(s: seq<T>, cmp: Compare<T>)
    requires TotalOrder(cmp) && StrictlySorted(s, cmp) && s != []
    ensures Elements(s[1..]) == Elements(s) - {s[0]}
  {
    assert Lawful(cmp, s[0], s[0], s[0]);
    assert s == [s[0]] + s[1..];
  }

  /** Distinct elements of a sorted sequence are strictly sorted when `Equal` means equality. */
  lemma SortedDistinctIsStrict<T>(s: seq<T>, cmp: Compare<T>)
    requires Sorted(s, cmp)
    requires forall i, j | 0 <= i < j < |s| :: cmp(s[i], s[j]) != Equal
    ensures StrictlySorted(s, cmp)
  {
    forall i, j | 0 <= i < j < |s| ensures cmp(s[i], s[j]) == Less {
      assert cmp(s[i], s[j]) != Greater;
    }
  }

  lemma {:induction false} NoDuplicatesCount<T>(s: seq<T>)
    requires NoDuplicates(s)
    ensures forall x | x in s :: multiset(s)[x] == 1
    ensures |Elements(s)| == |s|
  {
    if s != [] {
      NoDuplicatesCount(s[1..]);
      assert s == [s[0]] + s[1..];
      assert Elements(s) == {s[0]} + Elements(s[1..]);
      assert s[0] !in s[1..];
    }
  }

  /** A rearrangement of pairwise distinct elements is pairwise distinct. */
  lemma PermutationNoDuplicates<T>(s: seq<T>, t: seq<T>)
    requires multiset(s) == multiset(t) && NoDuplicates(t)
    ensures NoDuplicates(s)
  {
    NoDuplicatesCount(t);
    forall i, j | 0 <= i < j < |s| ensures s[i] != s[j] {
      assert s == s[..j] + s[j..];
      assert s[i] in s[..j] && s[j] in s[j..];
      assert multiset(s) == multiset(s[..j]) + multiset(s[j..]);
      SameMultiset(s, t);
      assert s[i] in Elements(s);
    }
  }

  /** Two lists of pairwise distinct elements with the same elements are rearrangements of each other. */
  lemma SameElementsPermute<T>(s: seq<T>, t: seq<T>)
    requires NoDuplicates(s) && NoDuplicates(t) && Elements(s) == Elements(t)
    ensures multiset(s) == multiset(t)
  {
    NoDuplicatesCount(s);
    NoDuplicatesCount(t);
    forall x ensures multiset(s)[x] == multiset(t)[x] {
      assert x in Elements(s) <==> x in s;
      assert x in Elements(t) <==> x in t;
    }
  }

  lemma SubsetCardinality<T>(a: set<T>, b: set<T>)
    requires a <= b
    ensures |a| <= |b|
  {
    assert b == a + (b - a);
  }

  /** Distinct positions inside a set are no more than the set. */
  lemma DistinctWithin<T>(s: seq<T>, within: set<T>)
    requires NoDuplicates(s) && forall x | x in s :: x in within
    ensures |s| <= |within|
  {
    NoDuplicatesCount(s);
    SubsetCardinality(Elements(s), within);
  }

  ghost function Below(n: nat): set<nat> {
    if n == 0 then {} else Below(n - 1) + {n - 1}
  }

  lemma {:induction false} BelowIs(n: nat)
    ensures |Below(n)| == n && forall x: nat :: x in Below(n) <==> x < n
  {
    if n > 0 { BelowIs(n - 1); }
  }
}
