/** Fixed-width integers and outcome types shared by every model. */
module Machine {

  const U16_MAX: nat := 0xFFFF
  const U32_MAX: nat := 0xFFFF_FFFF
  const U64_MAX: nat := 0xFFFF_FFFF_FFFF_FFFF

  type Byte = b: nat | b < 256

  /** `NonZeroU16`, `NonZeroU32` and `NonZeroU64`. */
  type NonZero16 = n: nat | 0 < n <= 0xFFFF witness 1
  type NonZero32 = n: nat | 0 < n <= 0xFFFF_FFFF witness 1
  type NonZero64 = n: nat | 0 < n <= 0xFFFF_FFFF_FFFF_FFFF witness 1

  datatype Option<+T> = None | Some(value: T)

  datatype Result<+T, +E> = Ok(value: T) | Err(error: E)

  function Min(a: nat, b: nat): nat { if a <= b then a else b }

  function Max(a: nat, b: nat): nat { if a <= b then b else a }

  /** Saturating subtraction. */
  function SatSub(a: nat, b: nat): nat { if b <= a then a - b else 0 }

  /** `u32` saturation: also `u32::try_from(n).unwrap_or(u32::MAX)`. */
  function Sat32(n: nat): nat { Min(n, U32_MAX) }

  /** `u64` saturation of an exact value. */
  function Sat64(n: nat): nat { Min(n, U64_MAX) }

  /** `u64` addition and multiplication that notice overflow. */
  function CheckedAdd(a: nat, b: nat): Option<nat> { if a + b <= U64_MAX then Some(a + b) else None }

  function CheckedMul(a: nat, b: nat): Option<nat> { if a * b <= U64_MAX then Some(a * b) else None }

  /** Exact total of `f` over `s`. */
  function Sum<T>(s: seq<T>, f: T -> nat): nat
  {
    if s == [] then 0 else f(s[0]) + Sum(s[1..], f)
  }

  lemma {:induction false} SumAppend<T>(s: seq<T>, t: seq<T>, f: T -> nat)
    ensures Sum(s + t, f) == Sum(s, f) + Sum(t, f)
  {
    if s == [] {
      assert s + t == t;
    } else {
      assert (s + t)[1..] == s[1..] + t;
      SumAppend(s[1..], t, f);
    }
  }

  lemma {:induction false} SumPush<T>(s: seq<T>, x: T, f: T -> nat)
    ensures Sum(s + [x], f) == Sum(s, f) + f(x)
  {
    SumAppend(s, [x], f);
    assert [x][1..] == [];
  }

  lemma {:induction false} SumTake<T>(s: seq<T>, n: nat, f: T -> nat)
    requires n < |s|
    ensures Sum(s[..n + 1], f) == Sum(s[..n], f) + f(s[n])
  {
    assert s[..n + 1] == s[..n] + [s[n]];
    SumPush(s[..n], s[n], f);
  }

  lemma {:induction false} SumZero<T>(s: seq<T>, f: T -> nat)
    requires forall x | x in s :: f(x) == 0
    ensures Sum(s, f) == 0
  {
    if s != [] { SumZero(s[1..], f); }
  }

  /** Element-wise bounds add up. */
  lemma {:induction false} SumWithin<T>(s: seq<T>, f: T -> nat, g: T -> nat, k: nat)
    requires forall x | x in s :: f(x) <= g(x) + k
    ensures Sum(s, f) <= Sum(s, g) + k * |s|
  {
    if s != [] {
      SumWithin(s[1..], f, g, k);
      assert k * |s| == k * |s[1..]| + k;
    }
  }

  lemma {:induction false} SumRemoveAt<T>(t: seq<T>, i: nat, f: T -> nat)
    requires i < |t|
    ensures Sum(t, f) == f(t[i]) + Sum(t[..i] + t[i + 1..], f)
  {
    var tail := [t[i]] + t[i + 1..];
    assert t == t[..i] + tail;
    SumAppend(t[..i], tail, f);
    assert tail[1..] == t[i + 1..];
    SumAppend(t[..i], t[i + 1..], f);
  }

  lemma {:induction false} MultisetRemoveAt<T>(t: seq<T>, i: nat)
    requires i < |t|
    ensures multiset(t[..i] + t[i + 1..]) == multiset(t) - multiset{t[i]}
  {
    assert t == t[..i] + [t[i]] + t[i + 1..];
  }

  lemma {:induction false} FindFirst<T>(s: seq<T>, t: seq<T>) returns (i: nat)
    requires multiset(s) == multiset(t) && s != []
    ensures i < |t| && t[i] == s[0] && multiset(t[..i] + t[i + 1..]) == multiset(s[1..])
  {
    assert s[0] in multiset(t);
    i :| 0 <= i < |t| && t[i] == s[0];
    MultisetRemoveAt(t, i);
    assert multiset(s) - multiset{s[0]} == multiset(s[1..]) by { assert s == [s[0]] + s[1..]; }
  }

  /** Totals do not depend on the order of the elements. */
  lemma {:induction false} SumOfPermutation<T>(s: seq<T>, t: seq<T>, f: T -> nat)
    requires multiset(s) == multiset(t)
    ensures Sum(s, f) == Sum(t, f)
  {
    if s == [] {
      assert |t| == |multiset(t)| == |multiset(s)|;
    } else {
      var i := FindFirst(s, t);
      SumOfPermutation(s[1..], t[..i] + t[i + 1..], f);
      SumRemoveAt(t, i, f);
    }
  }
}
