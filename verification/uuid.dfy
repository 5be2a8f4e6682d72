/** The random UUIDs that name pods and secrets: setting variant and version, and printing. */
module Uuid {
  import opened Common

  type Byte = bv8

  const Size: nat := 16

  /** Variant bits (RFC 4122, section 4.1.1). */
  function WithVariant(b: Byte): Byte { (b & 0x3F) | 0x80 }

  /** Version 4 (RFC 4122, section 4.1.3). */
  function WithVersion(b: Byte): Byte { (b & 0x0F) | 0x40 }

  function Adjusted(bytes: seq<Byte>): (r: seq<Byte>)
    requires |bytes| == Size
    ensures |r| == Size
  {
    bytes[8 := WithVariant(bytes[8])][6 := WithVersion(bytes[6])]
  }

  /** Setting the bits in place: the six fixed ones, and no others. */
  method SetBits(uuid: array<Byte>)
    requires uuid.Length == Size
    modifies uuid
    ensures uuid[..] == Adjusted(old(uuid[..]))
    ensures uuid[8] & 0xC0 == 0x80 && uuid[6] & 0xF0 == 0x40
    ensures forall i | 0 <= i < Size :: uuid[i] & Free(i) == old(uuid[i]) & Free(i)
  {
    uuid[8] := (uuid[8] & 0x3F) | 0x80;
    uuid[6] := (uuid[6] & 0x0F) | 0x40;
  }

  /** The bits of byte i that are not fixed: 122 in all. */
  function Free(i: int): Byte { if i == 8 then 0x3F else if i == 6 then 0x0F else 0xFF }

  // ----- hexadecimal -----

  function Digit(n: Byte): char
    requires n < 16
  {
    if n == 0 then '0' else if n == 1 then '1' else if n == 2 then '2' else if n == 3 then '3'
    else if n == 4 then '4' else if n == 5 then '5' else if n == 6 then '6' else if n == 7 then '7'
    else if n == 8 then '8' else if n == 9 then '9' else if n == 10 then 'a' else if n == 11 then 'b'
    else if n == 12 then 'c' else if n == 13 then 'd' else if n == 14 then 'e' else 'f'
  }

  function ValueOf(c: char): Option<Byte> {
    if c == '0' then Some(0) else if c == '1' then Some(1) else if c == '2' then Some(2)
    else if c == '3' then Some(3) else if c == '4' then Some(4) else if c == '5' then Some(5)
    else if c == '6' then Some(6) else if c == '7' then Some(7) else if c == '8' then Some(8)
    else if c == '9' then Some(9) else if c == 'a' then Some(10) else if c == 'b' then Some(11)
    else if c == 'c' then Some(12) else if c == 'd' then Some(13) else if c == 'e' then Some(14)
    else if c == 'f' then Some(15)
    else None
  }

  function High(b: Byte): (n: Byte) ensures n < 16 { b >> 4 }

  function Low(b: Byte): (n: Byte) ensures n < 16 { b & 0x0F }

  function Joined(high: Byte, low: Byte): Byte { (high << 4) | low }

  lemma {:induction false} DigitValue(n: Byte)
    requires n < 16
    ensures ValueOf(Digit(n)) == Some(n) && Digit(n) != '-'
  {}

  lemma {:induction false} Halves(b: Byte)
    ensures Joined(High(b), Low(b)) == b
  {}

  /** %x of a byte slice. */
  function Hex(bytes: seq<Byte>): (s: string)
    ensures |s| == 2 * |bytes|
  {
    if bytes == [] then "" else [Digit(High(bytes[0])), Digit(Low(bytes[0]))] + Hex(bytes[1..])
  }

  /** Reading hexadecimal digits back, two to a byte. */
  function Unhex(s: string): Option<seq<Byte>> {
    if s == "" then Some([])
    else if |s| == 1 then None
    else
      match (ValueOf(s[0]), ValueOf(s[1]), Unhex(s[2..]))
      case (Some(h), Some(l), Some(rest)) => Some([Joined(h, l)] + rest)
      case _ => None
  }

  lemma {:induction false} UnhexHex(bytes: seq<Byte>)
    ensures Unhex(Hex(bytes)) == Some(bytes)
  {
    if bytes != [] {
      DigitValue(High(bytes[0]));
      DigitValue(Low(bytes[0]));
      Halves(bytes[0]);
      UnhexHex(bytes[1..]);
      assert Hex(bytes)[2..] == Hex(bytes[1..]);
      assert bytes == [bytes[0]] + bytes[1..];
    }
  }

  /** Digit k of the text is a half of byte k / 2. */
  lemma {:induction false} HexAt(bytes: seq<Byte>, k: nat)
    requires k < |bytes|
    ensures Hex(bytes)[2 * k] == Digit(High(bytes[k])) && Hex(bytes)[2 * k + 1] == Digit(Low(bytes[k]))
  {
    if k > 0 { HexAt(bytes[1..], k - 1); }
  }

  lemma {:induction false} HexAppend(a: seq<Byte>, b: seq<Byte>)
    ensures Hex(a + b) == Hex(a) + Hex(b)
  {
    if a == [] {
      assert a + b == b;
    } else {
      assert (a + b)[1..] == a[1..] + b;
      HexAppend(a[1..], b);
    }
  }

  // ----- printing -----

  /** The five groups of a UUID (RFC 4122, section 3). */
  function Print(u: seq<Byte>): (s: string)
    requires |u| == Size
    ensures |s| == 36
    ensures s[8] == '-' && s[13] == '-' && s[18] == '-' && s[23] == '-'
  {
    Hex(u[0..4]) + "-" + Hex(u[4..6]) + "-" + Hex(u[6..8]) + "-" + Hex(u[8..10]) + "-" + Hex(u[10..])
  }

  /** Reading a UUID back: the digits without the dashes. */
  function Undashed(s: string): string
    requires |s| == 36
  {
    s[..8] + s[9..13] + s[14..18] + s[19..23] + s[24..]
  }

  lemma {:induction false} UndashedPrint(u: seq<Byte>)
    requires |u| == Size
    ensures Undashed(Print(u)) == Hex(u)
  {
    var s := Print(u);
    assert s[..8] == Hex(u[0..4]) && s[9..13] == Hex(u[4..6]);
    assert s[14..18] == Hex(u[6..8]) && s[19..23] == Hex(u[8..10]);
    assert s[24..] == Hex(u[10..]);
    HexAppend(u[0..4], u[4..6]);
    HexAppend(u[0..4] + u[4..6], u[6..8]);
    HexAppend(u[0..4] + u[4..6] + u[6..8], u[8..10]);
    HexAppend(u[0..4] + u[4..6] + u[6..8] + u[8..10], u[10..]);
    assert u[0..4] + u[4..6] + u[6..8] + u[8..10] + u[10..] == u;
  }

  /** Reading back gives the bytes. */
  lemma {:induction false} PrintRoundTrip(u: seq<Byte>)
    requires |u| == Size
    ensures Unhex(Undashed(Print(u))) == Some(u)
  {
    UndashedPrint(u);
    UnhexHex(u);
  }

  predicate Dash(i: int) { i in {8, 13, 18, 23} }

  /** Where a character that is no dash is among the digits. */
  function DigitIndex(i: nat): nat
    requires i < 36 && !Dash(i)
  {
    if i < 8 then i else if i < 13 then i - 1 else if i < 18 then i - 2 else if i < 23 then i - 3 else i - 4
  }

  lemma {:induction false} UndashedAt(s: string, i: nat)
    requires |s| == 36 && i < 36 && !Dash(i)
    ensures DigitIndex(i) < |Undashed(s)| && Undashed(s)[DigitIndex(i)] == s[i]
  {}

  lemma {:induction false} HexDigits(bytes: seq<Byte>, k: nat)
    requires k < 2 * |bytes|
    ensures ValueOf(Hex(bytes)[k]).Some?
  {
    HexAt(bytes, k / 2);
    DigitValue(High(bytes[k / 2]));
    DigitValue(Low(bytes[k / 2]));
  }

  /** Everything but the four dashes is a lower-case hexadecimal digit. */
  lemma {:induction false} PrintDigits(u: seq<Byte>, i: nat)
    requires |u| == Size && i < 36
    ensures !Dash(i) <==> ValueOf(Print(u)[i]).Some?
  {
    if !Dash(i) {
      UndashedPrint(u);
      UndashedAt(Print(u), i);
      HexDigits(u, DigitIndex(i));
    }
  }

  /** The version digit is 4 and the variant digit 8, 9, a or b, in every UUID that is printed. */
  lemma {:induction false} VersionAndVariant(bytes: seq<Byte>)
    requires |bytes| == Size
    ensures Print(Adjusted(bytes))[14] == '4' && Print(Adjusted(bytes))[19] in {'8', '9', 'a', 'b'}
  {}

  ghost predicate AgreeOnFree(a: seq<Byte>, b: seq<Byte>)
    requires |a| == Size && |b| == Size
  {
    forall i | 0 <= i < Size :: a[i] & Free(i) == b[i] & Free(i)
  }

  lemma {:induction false} SameAt(a: seq<Byte>, b: seq<Byte>, i: nat)
    requires |a| == Size && |b| == Size && i < Size
    ensures Adjusted(a)[i] == Adjusted(b)[i] <==> a[i] & Free(i) == b[i] & Free(i)
  {}

  lemma {:induction false} SameAdjusted(a: seq<Byte>, b: seq<Byte>)
    requires |a| == Size && |b| == Size
    ensures Adjusted(a) == Adjusted(b) <==> AgreeOnFree(a, b)
  {
    forall i: nat | i < Size ensures Adjusted(a)[i] == Adjusted(b)[i] <==> a[i] & Free(i) == b[i] & Free(i) {
      SameAt(a, b, i);
    }
  }

  /** Two calls print the same UUID exactly if their random bytes agree on the 122 free bits. */
  lemma {:induction false} SameUuid(a: seq<Byte>, b: seq<Byte>)
    requires |a| == Size && |b| == Size
    ensures Print(Adjusted(a)) == Print(Adjusted(b)) <==> AgreeOnFree(a, b)
  {
    SameAdjusted(a, b);
    PrintRoundTrip(Adjusted(a));
    PrintRoundTrip(Adjusted(b));
  }

  /** UUID, from the bytes the random source gave. */
  method New(random: seq<Byte>) returns (s: string)
    requires |random| == Size
    ensures s == Print(Adjusted(random))
  {
    var uuid := new Byte[Size](i requires 0 <= i < Size => random[i]);
    assert uuid[..] == random;
    SetBits(uuid);
    s := Print(uuid[..]);
  }
}
