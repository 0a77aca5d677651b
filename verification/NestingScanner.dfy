/** The one-pass nesting check in front of the JSON parser (compilation codec.rs, local-session codec.rs; RFC 8259). */
module NestingScanner {
  import opened Machine

  type Bytes = seq<Byte>

  const QUOTE: Byte := 34
  const BACKSLASH: Byte := 92
  const OPEN_BRACKET: Byte := 91
  const CLOSE_BRACKET: Byte := 93
  const OPEN_BRACE: Byte := 123
  const CLOSE_BRACE: Byte := 125
  const COMMA: Byte := 44
  const COLON: Byte := 58
  const LINE_FEED: Byte := 10

  // ----- the scanner -----

  datatype State = State(depth: nat, inString: bool, escaped: bool)

  /** One byte; `None` once the depth exceeds the limit. */
  function Step(s: State, b: Byte, limit: nat): Option<State> {
    if s.inString then
      if s.escaped then Some(s.(escaped := false))
      else if b == BACKSLASH then Some(s.(escaped := true))
      else if b == QUOTE then Some(s.(inString := false))
      else Some(s)
    else if b == QUOTE then Some(s.(inString := true))
    else if b == OPEN_BRACE || b == OPEN_BRACKET then
      var depth := Min(s.depth + 1, U16_MAX);
      if depth > limit then None else Some(s.(depth := depth))
    else if b == CLOSE_BRACE || b == CLOSE_BRACKET then Some(s.(depth := SatSub(s.depth, 1)))
    else Some(s)
  }

  function Scan(s: Option<State>, bytes: Bytes, limit: nat): Option<State>
    decreases |bytes|
  {
    if bytes == [] || s.None? then s else Scan(Step(s.value, bytes[0], limit), bytes[1..], limit)
  }

  /** Outside strings at a depth. */
  function At(depth: nat): Option<State> { Some(State(depth, false, false)) }

  /** Inside a string at a depth. */
  function Within(depth: nat): Option<State> { Some(State(depth, true, false)) }

  predicate Accepts(bytes: Bytes, limit: nat) { Scan(At(0), bytes, limit).Some? }

  lemma {:induction false} ScanConcat(s: Option<State>, a: Bytes, b: Bytes, limit: nat)
    ensures Scan(s, a + b, limit) == Scan(Scan(s, a, limit), b, limit)
    decreases |a|
  {
    if a == [] {
      assert a + b == b;
    } else if s.Some? {
      assert (a + b)[1..] == a[1..] + b;
      ScanConcat(Step(s.value, a[0], limit), a[1..], b, limit);
    }
  }

  lemma ScanOne(s: State, b: Byte, limit: nat)
    ensures Scan(Some(s), [b], limit) == Step(s, b, limit)
  {
    assert [b][1..] == [];
  }

  /** The loop of the source. The reported depth is the first one over the limit. */
  method EnforceNesting(encoded: Bytes, limit: NonZero16) returns (r: Result<(), nat>)
    ensures r.Ok? <==> Accepts(encoded, limit)
    ensures r.Err? ==> r.error == limit + 1
  {
    var depth: nat, inString, escaped := 0, false, false;
    for i := 0 to |encoded|
      invariant depth <= limit
      invariant Scan(At(0), encoded, limit) == Scan(Some(State(depth, inString, escaped)), encoded[i..], limit)
    {
      var b := encoded[i];
      assert encoded[i..][1..] == encoded[i + 1..];
      if inString {
        if escaped {
          escaped := false;
        } else if b == BACKSLASH {
          escaped := true;
        } else if b == QUOTE {
          inString := false;
        }
      } else if b == QUOTE {
        inString := true;
      } else if b == OPEN_BRACE || b == OPEN_BRACKET {
        depth := Min(depth + 1, U16_MAX);
        if depth > limit { return Err(depth); }
      } else if b == CLOSE_BRACE || b == CLOSE_BRACKET {
        depth := SatSub(depth, 1);
      }
    }
    return Ok(());
  }

  // ----- JSON texts -----

  /** One character of a string: an unescaped byte, or an escape with its hexadecimal digits. */
  datatype Char = Plain(byte: Byte) | Escape(code: Byte, digits: Bytes)

  /** A value with all the insignificant whitespace of one way to write it. */
  datatype Value =
    | Text(chars: seq<Char>)
    | Word(bytes: Bytes)
    | Array(blank: Bytes, items: Items)
    | Object(blank: Bytes, members: Members)

  datatype Items = NoItems | Item(before: Bytes, value: Value, after: Bytes, rest: Items)

  datatype Members =
    | NoMembers
    | Member(
        before: Bytes, key: seq<Char>, afterKey: Bytes, beforeValue: Bytes, value: Value, after: Bytes, rest: Members)

  predicate Blank(b: Byte) { b == 32 || b == 9 || b == 10 || b == 13 }

  /** Bytes of numbers and of `true`, `false` and `null`. */
  predicate WordByte(b: Byte) { 48 <= b <= 57 || 97 <= b <= 122 || b == 69 || b == 43 || b == 45 || b == 46 }

  predicate HexDigit(b: Byte) { 48 <= b <= 57 || 65 <= b <= 70 || 97 <= b <= 102 }

  predicate Unescaped(b: Byte) { b != QUOTE && b != BACKSLASH }

  predicate CharOk(c: Char) {
    match c
    case Plain(b) => b >= 32 && Unescaped(b)
    case Escape(code, digits) =>
      if code == 117 then |digits| == 4 && (forall d | d in digits :: HexDigit(d))
      else digits == [] && code in {QUOTE, BACKSLASH, 47, 98, 102, 110, 114, 116}
  }

  predicate CharsOk(chars: seq<Char>) { forall c | c in chars :: CharOk(c) }

  predicate Blanks(b: Bytes) { forall x | x in b :: Blank(x) }

  predicate WellFormed(v: Value) {
    match v
    case Text(chars) => CharsOk(chars)
    case Word(bytes) => bytes != [] && forall b | b in bytes :: WordByte(b)
    case Array(blank, items) => Blanks(blank) && ItemsOk(items)
    case Object(blank, members) => Blanks(blank) && MembersOk(members)
  }

  predicate ItemsOk(items: Items) {
    items.NoItems? || (Blanks(items.before) && WellFormed(items.value) && Blanks(items.after) && ItemsOk(items.rest))
  }

  predicate MembersOk(m: Members) {
    m.NoMembers? ||
    (Blanks(m.before) && CharsOk(m.key) && Blanks(m.afterKey) && Blanks(m.beforeValue) && WellFormed(m.value)
     && Blanks(m.after) && MembersOk(m.rest))
  }

  function WriteChar(c: Char): Bytes { if c.Plain? then [c.byte] else [BACKSLASH, c.code] + c.digits }

  function WriteChars(chars: seq<Char>): Bytes {
    if chars == [] then [] else WriteChar(chars[0]) + WriteChars(chars[1..])
  }

  function WriteText(chars: seq<Char>): Bytes { [QUOTE] + (WriteChars(chars) + [QUOTE]) }

  function Write(v: Value): Bytes {
    match v
    case Text(chars) => WriteText(chars)
    case Word(bytes) => bytes
    case Array(blank, items) => [OPEN_BRACKET] + (blank + (WriteItems(items) + [CLOSE_BRACKET]))
    case Object(blank, members) => [OPEN_BRACE] + (blank + (WriteMembers(members) + [CLOSE_BRACE]))
  }

  function WriteItems(items: Items): Bytes {
    if items.NoItems? then []
    else
      items.before + (Write(items.value) +
        (items.after + ((if items.rest.NoItems? then [] else [COMMA]) + WriteItems(items.rest))))
  }

  function WriteMembers(m: Members): Bytes {
    if m.NoMembers? then []
    else
      m.before + (WriteText(m.key) + (m.afterKey + ([COLON] + (m.beforeValue + (Write(m.value) +
        (m.after + ((if m.rest.NoMembers? then [] else [COMMA]) + WriteMembers(m.rest))))))))
  }

  /** Nesting of arrays and objects in the tree. */
  function Depth(v: Value): nat {
    match v
    case Text(_) => 0
    case Word(_) => 0
    case Array(_, items) => 1 + ItemsDepth(items)
    case Object(_, members) => 1 + MembersDepth(members)
  }

  function ItemsDepth(items: Items): nat {
    if items.NoItems? then 0 else Max(Depth(items.value), ItemsDepth(items.rest))
  }

  function MembersDepth(m: Members): nat {
    if m.NoMembers? then 0 else Max(Depth(m.value), MembersDepth(m.rest))
  }

  // ----- the scanner sees the tree -----

  /** Neither a quote nor a bracket. */
  predicate Inert(b: Byte) { b !in {QUOTE, OPEN_BRACKET, CLOSE_BRACKET, OPEN_BRACE, CLOSE_BRACE} }

  lemma {:induction false} ScanInert(d: nat, bytes: Bytes, limit: nat)
    requires forall b | b in bytes :: Inert(b)
    ensures Scan(At(d), bytes, limit) == At(d)
    decreases |bytes|
  {
    if bytes != [] {
      assert Inert(bytes[0]);
      ScanInert(d, bytes[1..], limit);
    }
  }

  /** Whatever brackets, quotes or escapes a string holds, it leaves the depth alone. */
  lemma {:induction false} ScanChar(d: nat, c: Char, limit: nat)
    requires CharOk(c)
    ensures Scan(Within(d), WriteChar(c), limit) == Within(d)
  {
    match c
    case Plain(b) => ScanOne(Within(d).value, b, limit);
    case Escape(code, digits) =>
      ScanConcat(Within(d), [BACKSLASH, code], digits, limit);
      assert [BACKSLASH, code] == [BACKSLASH] + [code];
      ScanConcat(Within(d), [BACKSLASH], [code], limit);
      ScanOne(Within(d).value, BACKSLASH, limit);
      ScanOne(State(d, true, true), code, limit);
      forall b | b in digits ensures Unescaped(b) { assert HexDigit(b); }
      ScanPlain(d, digits, limit);
  }

  lemma {:induction false} ScanPlain(d: nat, bytes: Bytes, limit: nat)
    requires forall b | b in bytes :: Unescaped(b)
    ensures Scan(Within(d), bytes, limit) == Within(d)
    decreases |bytes|
  {
    if bytes != [] {
      assert Unescaped(bytes[0]);
      ScanPlain(d, bytes[1..], limit);
    }
  }

  lemma {:induction false} ScanChars(d: nat, chars: seq<Char>, limit: nat)
    requires CharsOk(chars)
    ensures Scan(Within(d), WriteChars(chars), limit) == Within(d)
    decreases |chars|
  {
    if chars != [] {
      ScanConcat(Within(d), WriteChar(chars[0]), WriteChars(chars[1..]), limit);
      ScanChar(d, chars[0], limit);
      ScanChars(d, chars[1..], limit);
    }
  }

  lemma {:induction false} ScanText(d: nat, chars: seq<Char>, limit: nat)
    requires CharsOk(chars)
    ensures Scan(At(d), WriteText(chars), limit) == At(d)
  {
    ScanConcat(At(d), [QUOTE], WriteChars(chars) + [QUOTE], limit);
    ScanOne(At(d).value, QUOTE, limit);
    ScanConcat(Within(d), WriteChars(chars), [QUOTE], limit);
    ScanChars(d, chars, limit);
    ScanOne(Within(d).value, QUOTE, limit);
  }

  /** What scanning something of a given depth does from depth `d`. */
  function Passes(d: nat, depth: nat, limit: nat): Option<State> { if d + depth <= limit then At(d) else None }

  lemma {:induction false} ScanAfter(d: nat, depth: nat, a: Bytes, b: Bytes, limit: nat)
    requires Scan(At(d), a, limit) == Passes(d, depth, limit)
    ensures Scan(At(d), a + b, limit) == (if d + depth <= limit then Scan(At(d), b, limit) else None)
  {
    ScanConcat(At(d), a, b, limit);
  }

  lemma {:induction false} ScanBlanksThen(d: nat, blanks: Bytes, b: Bytes, limit: nat)
    requires Blanks(blanks)
    ensures Scan(At(d), blanks + b, limit) == Scan(At(d), b, limit)
  {
    forall x | x in blanks ensures Inert(x) { assert Blank(x); }
    ScanInert(d, blanks, limit);
    ScanConcat(At(d), blanks, b, limit);
  }

  lemma {:induction false} ScanBracketed(
    d: nat, open: Byte, blanks: Bytes, body: Bytes, close: Byte, depth: nat, limit: nat)
    requires open in {OPEN_BRACE, OPEN_BRACKET} && close in {CLOSE_BRACE, CLOSE_BRACKET}
    requires Blanks(blanks) && d <= limit < U16_MAX
    requires d + 1 <= limit ==> Scan(At(d + 1), body, limit) == Passes(d + 1, depth, limit)
    ensures Scan(At(d), [open] + (blanks + (body + [close])), limit) == Passes(d, 1 + depth, limit)
  {
    ScanConcat(At(d), [open], blanks + (body + [close]), limit);
    ScanOne(At(d).value, open, limit);
    if d + 1 <= limit {
      ScanBlanksThen(d + 1, blanks, body + [close], limit);
      ScanAfter(d + 1, depth, body, [close], limit);
      ScanOne(At(d + 1).value, close, limit);
    }
  }

  /** Scanning a written value returns to its starting depth, or stops if the value is nested too deeply there. */
  lemma {:induction false} ScanValue(v: Value, d: nat, limit: nat)
    requires WellFormed(v) && d <= limit < U16_MAX
    ensures Scan(At(d), Write(v), limit) == Passes(d, Depth(v), limit)
    decreases v
  {
    match v
    case Text(chars) => ScanText(d, chars, limit);
    case Word(bytes) =>
      forall b | b in bytes ensures Inert(b) { assert WordByte(b); }
      ScanInert(d, bytes, limit);
    case Array(blank, items) =>
      if d + 1 <= limit { ScanItems(items, d + 1, limit); }
      ScanBracketed(d, OPEN_BRACKET, blank, WriteItems(items), CLOSE_BRACKET, ItemsDepth(items), limit);
    case Object(blank, members) =>
      if d + 1 <= limit { ScanMembers(members, d + 1, limit); }
      ScanBracketed(d, OPEN_BRACE, blank, WriteMembers(members), CLOSE_BRACE, MembersDepth(members), limit);
  }

  /** A separator, if there is one, and the rest. */
  lemma {:induction false} ScanSeparated(d: nat, separator: Bytes, rest: Bytes, limit: nat)
    requires separator == [] || separator == [COMMA] || separator == [COLON]
    ensures Scan(At(d), separator + rest, limit) == Scan(At(d), rest, limit)
  {
    ScanInert(d, separator, limit);
    ScanConcat(At(d), separator, rest, limit);
  }

  lemma {:induction false} ScanItems(items: Items, d: nat, limit: nat)
    requires ItemsOk(items) && d <= limit < U16_MAX
    ensures Scan(At(d), WriteItems(items), limit) == Passes(d, ItemsDepth(items), limit)
    decreases items
  {
    if items.Item? {
      var separator := if items.rest.NoItems? then [] else [COMMA];
      var tail := separator + WriteItems(items.rest);
      ScanBlanksThen(d, items.before, Write(items.value) + (items.after + tail), limit);
      ScanValue(items.value, d, limit);
      ScanAfter(d, Depth(items.value), Write(items.value), items.after + tail, limit);
      ScanBlanksThen(d, items.after, tail, limit);
      ScanSeparated(d, separator, WriteItems(items.rest), limit);
      ScanItems(items.rest, d, limit);
    }
  }

  lemma {:induction false} ScanMembers(m: Members, d: nat, limit: nat)
    requires MembersOk(m) && d <= limit < U16_MAX
    ensures Scan(At(d), WriteMembers(m), limit) == Passes(d, MembersDepth(m), limit)
    decreases m
  {
    if m.Member? {
      var separator := if m.rest.NoMembers? then [] else [COMMA];
      var tail := separator + WriteMembers(m.rest);
      var fromValue := Write(m.value) + (m.after + tail);
      ScanKey(m, d, fromValue, limit);
      ScanValue(m.value, d, limit);
      ScanAfter(d, Depth(m.value), Write(m.value), m.after + tail, limit);
      ScanBlanksThen(d, m.after, tail, limit);
      ScanSeparated(d, separator, WriteMembers(m.rest), limit);
      ScanMembers(m.rest, d, limit);
    }
  }

  lemma {:induction false} ScanKey(m: Members, d: nat, fromValue: Bytes, limit: nat)
    requires m.Member? && MembersOk(m) && d <= limit
    ensures Scan(At(d), m.before + (WriteText(m.key) + (m.afterKey + ([COLON] + (m.beforeValue + fromValue)))), limit)
            == Scan(At(d), fromValue, limit)
  {
    var fromColon := [COLON] + (m.beforeValue + fromValue);
    ScanBlanksThen(d, m.before, WriteText(m.key) + (m.afterKey + fromColon), limit);
    ScanText(d, m.key, limit);
    ScanAfter(d, 0, WriteText(m.key), m.afterKey + fromColon, limit);
    ScanBlanksThen(d, m.afterKey, fromColon, limit);
    ScanSeparated(d, [COLON], m.beforeValue + fromValue, limit);
    ScanBlanksThen(d, m.beforeValue, fromValue, limit);
  }

  /** A whole JSON text: a value with whitespace around it. */
  function WriteDocument(before: Bytes, v: Value, after: Bytes): Bytes { before + (Write(v) + after) }

  /** Below the 16-bit maximum the scanner accepts a JSON text exactly when its tree is nested within the limit. */
  lemma {:induction false} AcceptsIffShallow(before: Bytes, v: Value, after: Bytes, limit: NonZero16)
    requires WellFormed(v) && Blanks(before) && Blanks(after) && limit < U16_MAX
    ensures Accepts(WriteDocument(before, v, after), limit) <==> Depth(v) <= limit
  {
    ScanBlanksThen(0, before, Write(v) + after, limit);
    ScanValue(v, 0, limit);
    ScanAfter(0, Depth(v), Write(v), after, limit);
    assert after + [] == after;
    ScanBlanksThen(0, after, [], limit);
  }

  // ----- the 16-bit maximum -----

  /** At the 16-bit maximum the depth saturates and nothing is ever refused. */
  lemma {:induction false} MaximumAcceptsEverything(s: State, bytes: Bytes)
    ensures Scan(Some(s), bytes, U16_MAX).Some?
    decreases |bytes|
  {
    if bytes != [] {
      MaximumAcceptsEverything(Step(s, bytes[0], U16_MAX).value, bytes[1..]);
    }
  }

  /** An empty array inside `n` arrays. */
  function Nested(n: nat): Value {
    if n == 0 then Array([], NoItems) else Array([], Item([], Nested(n - 1), [], NoItems))
  }

  lemma {:induction false} NestedDepth(n: nat)
    ensures WellFormed(Nested(n)) && Depth(Nested(n)) == n + 1
  {
    if n > 0 { NestedDepth(n - 1); }
  }

  /** The scanner measures depth for every JSON text if and only if the limit is below the 16-bit maximum. */
  lemma {:induction false} ExactIffBelowMaximum(limit: NonZero16)
    ensures limit < U16_MAX <==>
      forall v | WellFormed(v) :: Accepts(Write(v), limit) <==> Depth(v) <= limit
  {
    if limit < U16_MAX {
      forall v | WellFormed(v) ensures Accepts(Write(v), limit) <==> Depth(v) <= limit {
        ScanValue(v, 0, limit);
      }
    } else {
      var deep := Nested(U16_MAX);
      NestedDepth(U16_MAX);
      MaximumAcceptsEverything(At(0).value, Write(deep));
      assert WellFormed(deep) && Accepts(Write(deep), limit) && Depth(deep) > limit;
    }
  }

  // ----- the bounded writer -----

  function Joined(chunks: seq<Bytes>): Bytes {
    if chunks == [] then [] else Joined(chunks[..|chunks| - 1]) + chunks[|chunks| - 1]
  }

  /**
   * Collects serialized chunks under a limit that leaves room for the final line feed. However the output is chunked,
   * the result is the whole line exactly when it fits, and nothing is returned otherwise.
   */
  method CollectLine(chunks: seq<Bytes>, limit: NonZero64) returns (r: Result<Bytes, nat>)
    ensures r.Ok? <==> |Joined(chunks)| + 1 <= limit
    ensures r.Ok? ==> r.value == Joined(chunks) + [LINE_FEED]
    ensures r.Err? ==> r.error > limit || r.error == limit == U64_MAX
  {
    var bytes: Bytes := [];
    for i := 0 to |chunks|
      invariant bytes == Joined(chunks[..i]) && |bytes| + 1 <= limit
    {
      assert chunks[..i + 1][..i] == chunks[..i];
      JoinedGrows(chunks, i + 1, |chunks|);
      assert chunks[..|chunks|] == chunks;
      var actual := Sat64(|bytes| + |chunks[i]|);
      if actual > SatSub(limit, 1) { return Err(Sat64(actual + 1)); }
      bytes := bytes + chunks[i];
    }
    assert chunks[..|chunks|] == chunks;
    return Ok(bytes + [LINE_FEED]);
  }

  lemma {:induction false} JoinedGrows(chunks: seq<Bytes>, i: nat, j: nat)
    requires i <= j <= |chunks|
    ensures |Joined(chunks[..i])| <= |Joined(chunks[..j])|
    decreases j
  {
    if i < j {
      JoinedGrows(chunks, i, j - 1);
      assert chunks[..j][..j - 1] == chunks[..j - 1];
    }
  }
}
