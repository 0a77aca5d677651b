/** The work budget checked before tangents are generated (glb.rs). */
module TangentBudget {
  import opened Machine

  /** A weld key is eight 32-bit words; a position key is three. */
  const KEYS: nat := 0x1_0000_0000_0000_0000_0000_0000_0000_0000_0000_0000_0000_0000_0000_0000_0000_0000
  type Key = k: nat | k < KEYS

  const GROUP_WORK_LIMIT: nat := 268_435_456
  const SEARCH_LIMIT: nat := 16_777_216

  datatype Refusal = Overflow | GroupWork | SearchWork

  function Cube(n: nat): nat { n * n * n }

  function CheckedCube(n: nat): Option<nat> {
    var square := CheckedMul(n, n);
    if square.None? then None else CheckedMul(square.value, n)
  }

  /** Sum of cubed multiplicities over all keys below `n`. */
  function CubesBelow(m: multiset<Key>, n: nat): nat
    requires n <= KEYS
  {
    if n == 0 then 0 else CubesBelow(m, n - 1) + Cube(m[n - 1])
  }

  /** Sum of the cubed multiplicities of all keys. */
  function GroupWorkOf(keys: seq<Key>): nat { CubesBelow(multiset(keys), KEYS) }

  lemma {:induction false} CubesGrow(m: multiset<Key>, x: Key, n: nat)
    requires n <= KEYS
    ensures CubesBelow(m + multiset{x}, n) == CubesBelow(m, n) + (if x < n then Cube(m[x] + 1) - Cube(m[x]) else 0)
  {
    if n > 0 {
      CubesGrow(m, x, n - 1);
    }
  }

  lemma {:induction false} CubesAtLeast(m: multiset<Key>, x: Key, n: nat)
    requires x < n <= KEYS
    ensures Cube(m[x]) <= CubesBelow(m, n)
  {
    if x < n - 1 {
      CubesAtLeast(m, x, n - 1);
    }
  }

  lemma {:induction false} CubesOfNone(n: nat)
    requires n <= KEYS
    ensures CubesBelow(multiset{}, n) == 0
  {
    if n > 0 { CubesOfNone(n - 1); }
  }

  /** One more vertex adds the difference of two cubes, which is at least one. */
  lemma {:induction false} WorkStep(keys: seq<Key>, i: nat)
    requires i < |keys|
    ensures var c := multiset(keys[..i])[keys[i]];
      GroupWorkOf(keys[..i + 1]) == GroupWorkOf(keys[..i]) + (Cube(c + 1) - Cube(c)) && Cube(c + 1) >= Cube(c) + 1
  {
    assert keys[..i + 1] == keys[..i] + [keys[i]];
    assert multiset(keys[..i + 1]) == multiset(keys[..i]) + multiset{keys[i]};
    CubesGrow(multiset(keys[..i]), keys[i], KEYS);
    CubeStep(multiset(keys[..i])[keys[i]]);
  }

  lemma CubeStep(c: nat)
    ensures Cube(c + 1) == Cube(c) + 3 * (c * c) + 3 * c + 1
  {
    var square := c * c;
    assert (c + 1) * (c + 1) == square + 2 * c + 1;
    assert (square + 2 * c + 1) * (c + 1) == square * c + 2 * (c * c) + c + square + 2 * c + 1;
  }

  /** Work never shrinks, and covers every vertex. */
  lemma {:induction false} WorkMonotone(keys: seq<Key>, i: nat, j: nat)
    requires i <= j <= |keys|
    ensures GroupWorkOf(keys[..i]) + (j - i) <= GroupWorkOf(keys[..j])
    decreases j
  {
    if i < j {
      WorkMonotone(keys, i, j - 1);
      WorkStep(keys, j - 1);
    }
  }

  lemma CubeMonotone(a: nat, b: nat)
    requires a <= b
    ensures Cube(a) <= Cube(b)
  {
    assert a * a <= b * b;
    assert (a * a) * a <= (b * b) * b;
  }

  /** Within the limit no key repeats more than 645 times, so the next cube cannot overflow. */
  lemma {:induction false} MultiplicityBound(keys: seq<Key>, x: Key)
    requires GroupWorkOf(keys) <= GROUP_WORK_LIMIT
    ensures multiset(keys)[x] <= 645
  {
    var c := multiset(keys)[x];
    CubesAtLeast(multiset(keys), x, KEYS);
    if c > 645 { CubeMonotone(646, c); }
  }

  lemma SmallCube(c: nat)
    requires c <= 646
    ensures CheckedCube(c) == Some(Cube(c)) && Cube(c) <= 269_586_136
  {
    CubeMonotone(c, 646);
    ProductBound(c, c, 646);
  }

  // ----- faces -----

  predicate Degenerate(a: nat, b: nat, c: nat) { a == b || b == c || c == a }

  /** Degenerate faces among the first `n` triangles. */
  function DegenerateFaces(positions: seq<nat>, n: nat): (d: nat)
    requires 3 * n <= |positions|
    ensures d <= n
  {
    if n == 0 then 0
    else
      DegenerateFaces(positions, n - 1) +
      (if Degenerate(positions[3 * n - 3], positions[3 * n - 2], positions[3 * n - 1]) then 1 else 0)
  }

  /** The faces among the first `n` whose three corners are fewer than three positions. */
  ghost function Collapsed(positions: seq<nat>, n: nat): set<nat>
    requires 3 * n <= |positions|
  {
    set t | 0 <= t < n && |Corners(positions, t)| < 3
  }

  function Corners(positions: seq<nat>, t: nat): set<nat>
    requires 3 * t + 3 <= |positions|
  {
    {positions[3 * t], positions[3 * t + 1], positions[3 * t + 2]}
  }

  lemma ThreeCorners(a: nat, b: nat, c: nat)
    ensures |{a, b, c}| < 3 <==> Degenerate(a, b, c)
  {
    if a == b {
      assert {a, b, c} == {a} + {c};
    } else {
      assert {a, b, c} == {a, b} + {c};
      if c in {a, b} { assert {a, b, c} == {a, b}; }
    }
  }

  lemma {:induction false} DegenerateAreCollapsed(positions: seq<nat>, n: nat)
    requires 3 * n <= |positions|
    ensures DegenerateFaces(positions, n) == |Collapsed(positions, n)|
  {
    if n > 0 {
      DegenerateAreCollapsed(positions, n - 1);
      ThreeCorners(positions[3 * n - 3], positions[3 * n - 2], positions[3 * n - 1]);
      var before := Collapsed(positions, n - 1);
      assert Collapsed(positions, n) == if |Corners(positions, n - 1)| < 3 then before + {n - 1} else before;
    }
  }

  function SearchWorkOf(positions: seq<nat>): nat {
    var faces := |positions| / 3;
    var degenerate := DegenerateFaces(positions, faces);
    9 * (degenerate * (faces - degenerate))
  }

  /** Nine comparisons for every pair of a collapsed face and one that is not. */
  lemma SearchWorkIs(positions: seq<nat>)
    ensures var faces, collapsed := |positions| / 3, |Collapsed(positions, |positions| / 3)|;
      SearchWorkOf(positions) == 9 * (collapsed * (faces - collapsed))
  {
    DegenerateAreCollapsed(positions, |positions| / 3);
  }

  lemma ProductBound(a: nat, b: nat, limit: nat)
    requires a <= limit && b <= limit
    ensures a * b <= limit * limit
  {
    assert a * b <= limit * b <= limit * limit;
  }

  /**
   * The preflight. It accepts exactly when both final amounts of work are within their limits, whatever it was
   * still to see when it stopped, and no checked operation ever overflows.
   */
  method Preflight(keys: seq<Key>, positions: seq<nat>) returns (r: Result<(), Refusal>)
    requires |keys| == |positions|
    ensures r.Ok? <==> GroupWorkOf(keys) <= GROUP_WORK_LIMIT && SearchWorkOf(positions) <= SEARCH_LIMIT
    ensures r == Err(GroupWork) <==> GroupWorkOf(keys) > GROUP_WORK_LIMIT
    ensures r != Err(Overflow)
  {
    r := CountGroups(keys);
    if r.Err? { return; }
    WorkMonotone(keys, 0, |keys|);
    assert keys[..|keys|] == keys;
    var faces := |positions| / 3;
    var degenerate, good := 0, 0;
    for face := 0 to faces
      invariant degenerate == DegenerateFaces(positions, face) && good == face - degenerate
    {
      if Degenerate(positions[3 * face], positions[3 * face + 1], positions[3 * face + 2]) {
        var next := CheckedAdd(degenerate, 1);
        if next.None? { return Err(Overflow); }
        degenerate := next.value;
      } else {
        var next := CheckedAdd(good, 1);
        if next.None? { return Err(Overflow); }
        good := next.value;
      }
    }
    ProductBound(degenerate, good, GROUP_WORK_LIMIT);
    var pairs := CheckedMul(degenerate, good);
    if pairs.None? { return Err(Overflow); }
    var work := CheckedMul(pairs.value, 9);
    if work.None? { return Err(Overflow); }
    if work.value > SEARCH_LIMIT { return Err(SearchWork); }
    return Ok(());
  }

  /** The weld loop: at every step `work` is exactly the sum of cubed multiplicities so far. */
  method CountGroups(keys: seq<Key>) returns (r: Result<(), Refusal>)
    ensures r == (if GroupWorkOf(keys) <= GROUP_WORK_LIMIT then Ok(()) else Err(GroupWork))
  {
    var multiplicities: map<Key, nat> := map[];
    var work := 0;
    CubesOfNone(KEYS);
    for i := 0 to |keys|
      invariant work == GroupWorkOf(keys[..i]) <= GROUP_WORK_LIMIT
      invariant forall k: Key :: multiset(keys[..i])[k] == if k in multiplicities then multiplicities[k] else 0
    {
      var key := keys[i];
      var count := if key in multiplicities then multiplicities[key] else 0;
      MultiplicityBound(keys[..i], key);
      SmallCube(count);
      SmallCube(count + 1);
      WorkStep(keys, i);
      var previous, next := CheckedCube(count), CheckedCube(count + 1);
      if previous.None? || next.None? { return Err(Overflow); }
      var total := CheckedAdd(work, next.value - previous.value);
      if total.None? { return Err(Overflow); }
      work := total.value;
      WorkMonotone(keys, i + 1, |keys|);
      assert keys[..|keys|] == keys;
      if work > GROUP_WORK_LIMIT { return Err(GroupWork); }
      multiplicities := multiplicities[key := count + 1];
      assert keys[..i + 1] == keys[..i] + [key];
    }
    assert keys[..|keys|] == keys;
    return Ok(());
  }
}
