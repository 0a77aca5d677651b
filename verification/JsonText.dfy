/** Compact canonical JSON as the serializer writes it, with the exact size of every piece (RFC 8259). */
module JsonText {
  import opened Machine
  import opened NestingScanner

  // ----- characters -----

  predicate AllPlain(chars: seq<Char>) { forall i | 0 <= i < |chars| :: chars[i].Plain? }

  lemma {:induction false} PlainSize(chars: seq<Char>)
    requires AllPlain(chars)
    ensures |WriteChars(chars)| == |chars|
  {
    if chars != [] { PlainSize(chars[1..]); }
  }

  /** Names of fields and codes are printable ASCII without quotes or backslashes. */
  function PlainChar(c: char): Char {
    Plain(if ' ' <= c <= '~' && c != '"' && c != '\\' then c as int else 63)
  }

  function NameChars(name: string): (chars: seq<Char>)
    ensures CharsOk(chars) && |WriteChars(chars)| == |name|
  {
    var chars := seq(|name|, i requires 0 <= i < |name| => PlainChar(name[i]));
    PlainSize(chars);
    chars
  }

  function HexChar(d: nat): Byte
    requires d < 16
  {
    if d < 10 then 48 + d else 87 + d
  }

  /** How one byte of a string is written: control characters, quotes and backslashes are escaped. */
  function EscapeByte(b: Byte): (c: Char)
    ensures CharOk(c) && 1 <= |WriteChar(c)| <= 6
  {
    if b == QUOTE || b == BACKSLASH then Escape(b, [])
    else if b == 8 then Escape(98, [])
    else if b == 9 then Escape(116, [])
    else if b == 10 then Escape(110, [])
    else if b == 12 then Escape(102, [])
    else if b == 13 then Escape(114, [])
    else if b < 32 then Escape(117, [48, 48, HexChar(b / 16), HexChar(b % 16)])
    else Plain(b)
  }

  function EscapeText(t: Bytes): (chars: seq<Char>)
    ensures CharsOk(chars)
  {
    seq(|t|, i requires 0 <= i < |t| => EscapeByte(t[i]))
  }

  /** Bytes that a text takes between its quotes. */
  function EscapedBytes(t: Bytes): (n: nat)
    ensures |t| <= n <= 6 * |t|
  {
    EscapedBound(t);
    |WriteChars(EscapeText(t))|
  }

  /** Escaping never shortens a text and makes it at most six times as long. */
  lemma {:induction false} EscapedBound(t: Bytes)
    ensures |t| <= |WriteChars(EscapeText(t))| <= 6 * |t|
  {
    if t != [] {
      EscapedBound(t[1..]);
      assert EscapeText(t)[1..] == EscapeText(t[1..]);
    }
  }

  // ----- scalars -----

  function Quoted(t: Bytes): (v: Value)
    ensures WellFormed(v) && Depth(v) == 0 && |Write(v)| == EscapedBytes(t) + 2
  {
    Text(EscapeText(t))
  }

  function Label(name: string): (v: Value)
    ensures WellFormed(v) && Depth(v) == 0 && |Write(v)| == |name| + 2
  {
    Text(NameChars(name))
  }

  function Decimal(n: nat): (digits: Bytes)
    ensures digits != [] && forall d | d in digits :: WordByte(d)
  {
    if n < 10 then [48 + n] else Decimal(n / 10) + [48 + n % 10]
  }

  function PowerOfTen(k: nat): nat { if k == 0 then 1 else 10 * PowerOfTen(k - 1) }

  lemma {:induction false} DecimalSize(n: nat, k: nat)
    requires k > 0 && n < PowerOfTen(k)
    ensures |Decimal(n)| <= k
  {
    if n >= 10 { DecimalSize(n / 10, k - 1); }
  }

  lemma WidthDigits(n: nat)
    ensures n <= U32_MAX ==> |Decimal(n)| <= 10
    ensures n <= U64_MAX ==> |Decimal(n)| <= 20
  {
    assert PowerOfTen(10) == 10_000_000_000 && PowerOfTen(20) == 100_000_000_000_000_000_000;
    if n <= U32_MAX { DecimalSize(n, 10); }
    if n <= U64_MAX { DecimalSize(n, 20); }
  }

  function Number(n: nat): (v: Value)
    ensures WellFormed(v) && Depth(v) == 0 && |Write(v)| == |Decimal(n)| >= 1
  {
    Word(Decimal(n))
  }

  /** The low `k` hexadecimal digits of a number. */
  function HexChars(n: nat, k: nat): (chars: seq<Char>)
    ensures |chars| == k && AllPlain(chars) && CharsOk(chars)
  {
    if k == 0 then [] else HexChars(n / 16, k - 1) + [Plain(HexChar(n % 16))]
  }

  /** A 128-bit identity as 32 hexadecimal digits. */
  function Identity(id: nat): (v: Value)
    ensures WellFormed(v) && Depth(v) == 0 && |Write(v)| == 34
  {
    PlainSize(HexChars(id, 32));
    Text(HexChars(id, 32))
  }

  function Null(): (v: Value)
    ensures WellFormed(v) && Depth(v) == 0 && |Write(v)| == 4
  {
    Word([110, 117, 108, 108])
  }

  function OptionalNumber(n: Option<nat>): (v: Value)
    ensures WellFormed(v) && Depth(v) == 0 && |Write(v)| == if n.Some? then |Decimal(n.value)| else 4
  {
    if n.Some? then Number(n.value) else Null()
  }

  function OptionalIdentity(id: Option<nat>): (v: Value)
    ensures WellFormed(v) && Depth(v) == 0 && |Write(v)| == if id.Some? then 34 else 4
  {
    if id.Some? then Identity(id.value) else Null()
  }

  function OptionalText(t: Option<Bytes>): (v: Value)
    ensures WellFormed(v) && Depth(v) == 0 && |Write(v)| == if t.Some? then EscapedBytes(t.value) + 2 else 4
  {
    if t.Some? then Quoted(t.value) else Null()
  }

  // ----- objects -----

  function Field(name: string, v: Value, rest: Members): (m: Members)
    ensures m.Member?
    ensures |WriteMembers(m)| ==
      |name| + 3 + |Write(v)| + (if rest.NoMembers? then 0 else 1 + |WriteMembers(rest)|)
    ensures MembersDepth(m) == Max(Depth(v), MembersDepth(rest))
    ensures MembersOk(m) <==> WellFormed(v) && MembersOk(rest)
  {
    Member([], NameChars(name), [], [], v, [], rest)
  }

  function Struct(m: Members): (v: Value)
    ensures |Write(v)| == 2 + |WriteMembers(m)|
    ensures Depth(v) == 1 + MembersDepth(m)
    ensures WellFormed(v) <==> MembersOk(m)
  {
    Object([], m)
  }

  // ----- arrays -----

  function ItemsOf<T>(s: seq<T>, f: T -> Value): Items {
    if s == [] then NoItems else Item([], f(s[0]), [], ItemsOf(s[1..], f))
  }

  function List<T>(s: seq<T>, f: T -> Value): Value { Array([], ItemsOf(s, f)) }

  /** What an array takes whose elements take `total` with a comma after each. */
  function ListSize(total: nat): nat { 2 + SatSub(total, 1) }

  /** `slot` is the size of each written element and the comma after it. */
  lemma {:induction false} ItemsTake<T>(s: seq<T>, f: T -> Value, slot: T -> nat)
    requires forall x | x in s :: slot(x) == |Write(f(x))| + 1
    ensures |WriteItems(ItemsOf(s, f))| == SatSub(Sum(s, slot), 1)
  {
    if s != [] {
      ItemsTake(s[1..], f, slot);
      assert slot(s[0]) == |Write(f(s[0]))| + 1;
      if |s| > 1 { assert slot(s[1..][0]) >= 1; }
    }
  }

  lemma {:induction false} ListTakes<T>(s: seq<T>, f: T -> Value, slot: T -> nat)
    requires forall x | x in s :: slot(x) == |Write(f(x))| + 1
    ensures |Write(List(s, f))| == ListSize(Sum(s, slot))
  {
    ItemsTake(s, f, slot);
  }

  lemma {:induction false} ItemsNest<T>(s: seq<T>, f: T -> Value, depth: nat)
    requires forall x | x in s :: WellFormed(f(x)) && Depth(f(x)) <= depth
    ensures ItemsOk(ItemsOf(s, f)) && ItemsDepth(ItemsOf(s, f)) <= depth
  {
    if s != [] { ItemsNest(s[1..], f, depth); }
  }

  lemma {:induction false} ListNests<T>(s: seq<T>, f: T -> Value, depth: nat)
    requires forall x | x in s :: WellFormed(f(x)) && Depth(f(x)) <= depth
    ensures WellFormed(List(s, f)) && Depth(List(s, f)) <= 1 + depth
  {
    ItemsNest(s, f, depth);
  }
}
