/**
 `base64.RawURLEncoding`: section 5 of RFC 4648 without padding, decoded the way
 Go's package does it: line breaks are skipped and the unused bits of a last
 short group are ignored.
 */
module Base64Url {
  import opened Common

  type Byte = b: int | 0 <= b < 256

  type Sextet = d: int | 0 <= d < 64

  function Char(d: Sextet): char {
    if d < 26 then 'A' + d as char
    else if d < 52 then 'a' + (d - 26) as char
    else if d < 62 then '0' + (d - 52) as char
    else if d == 62 then '-'
    else '_'
  }

  predicate InAlphabet(c: char) {
    'A' <= c <= 'Z' || 'a' <= c <= 'z' || '0' <= c <= '9' || c == '-' || c == '_'
  }

  function Value(c: char): (d: Sextet)
    requires InAlphabet(c)
    ensures Char(d) == c
  {
    if 'A' <= c <= 'Z' then (c - 'A') as int
    else if 'a' <= c <= 'z' then (c - 'a') as int + 26
    else if '0' <= c <= '9' then (c - '0') as int + 52
    else if c == '-' then 62
    else 63
  }

  lemma ValueOfChar(d: Sextet)
    ensures InAlphabet(Char(d)) && Value(Char(d)) == d
  {
  }

  function Six1(x: Byte): Sextet {
    x / 4
  }

  function Six2(x: Byte, y: Byte): Sextet {
    x % 4 * 16 + y / 16
  }

  function Six3(y: Byte, z: Byte): Sextet {
    y % 16 * 4 + z / 64
  }

  function Six4(z: Byte): Sextet {
    z % 64
  }

  function Group1(x: Byte): seq<Sextet> {
    [Six1(x), Six2(x, 0)]
  }

  function Group2(x: Byte, y: Byte): seq<Sextet> {
    [Six1(x), Six2(x, y), Six3(y, 0)]
  }

  function Group3(x: Byte, y: Byte, z: Byte): seq<Sextet> {
    [Six1(x), Six2(x, y), Six3(y, z), Six4(z)]
  }

  /** Table 2 of RFC 4648: letters in order, large before small, then digits, minus and underscore. */
  lemma Alphabet(d: Sextet)
    ensures Char(0) == 'A' && Char(25) == 'Z' && Char(26) == 'a' && Char(51) == 'z'
    ensures Char(52) == '0' && Char(61) == '9' && Char(62) == '-' && Char(63) == '_'
    ensures d !in {25, 51, 61, 62, 63} ==> Char(d + 1) as int == Char(d) as int + 1
  {
  }

  /** The four groups hold the 24 bits of the three bytes, most significant first. */
  lemma GroupBits(x: Byte, y: Byte, z: Byte)
    ensures ((Six1(x) * 64 + Six2(x, y)) * 64 + Six3(y, z)) * 64 + Six4(z) == (x * 256 + y) * 256 + z
  {
  }

  /** Three bytes as four groups of six bits; a short last group is filled with zero bits. */
  function Sextets(b: seq<Byte>): seq<Sextet> {
    if |b| == 0 then []
    else if |b| == 1 then Group1(b[0])
    else if |b| == 2 then Group2(b[0], b[1])
    else Group3(b[0], b[1], b[2]) + Sextets(b[3..])
  }

  /** Four groups of six bits as three bytes; a last group of two or three gives one or two. */
  function Octets(d: seq<Sextet>): seq<Byte> {
    if |d| < 2 then []
    else if |d| == 2 then [First(d[0], d[1])]
    else if |d| == 3 then [First(d[0], d[1]), Second(d[1], d[2])]
    else Bytes3(d[0], d[1], d[2], d[3]) + Octets(d[4..])
  }

  function Bytes3(x: Sextet, y: Sextet, z: Sextet, w: Sextet): seq<Byte> {
    [First(x, y), Second(y, z), Third(z, w)]
  }

  function First(x: int, y: int): Byte
    requires 0 <= x < 64 && 0 <= y < 64
  {
    x * 4 + y / 16
  }

  function Second(y: int, z: int): Byte
    requires 0 <= y < 64 && 0 <= z < 64
  {
    y % 16 * 16 + z / 4
  }

  function Third(z: int, w: int): Byte
    requires 0 <= z < 64 && 0 <= w < 64
  {
    z % 4 * 64 + w
  }

  function Encode(b: seq<Byte>): string {
    var d := Sextets(b);
    seq(|d|, i requires 0 <= i < |d| => Char(d[i]))
  }

  /** What is left of the input once line breaks are skipped. */
  function SkipBreaks(s: string): string {
    if s == [] then []
    else (if s[0] == '\r' || s[0] == '\n' then [] else [s[0]]) + SkipBreaks(s[1..])
  }

  predicate Decodable(s: string) {
    |s| % 4 != 1 && forall i :: 0 <= i < |s| ==> InAlphabet(s[i])
  }

  function Values(s: string): seq<Sextet>
    requires forall i :: 0 <= i < |s| ==> InAlphabet(s[i])
  {
    seq(|s|, i requires 0 <= i < |s| => Value(s[i]))
  }

  /** `DecodeString`; None is an error. */
  function Decode(s: string): Option<seq<Byte>> {
    if Decodable(SkipBreaks(s)) then Some(Octets(Values(SkipBreaks(s)))) else None
  }

  lemma {:induction false} NoBreaksToSkip(s: string)
    requires forall i :: 0 <= i < |s| ==> InAlphabet(s[i])
    ensures SkipBreaks(s) == s
  {
    if s == [] {
    } else {
      NoBreaksToSkip(s[1..]);
      assert [s[0]] + s[1..] == s;
    }
  }

  lemma {:induction false} SextetsLength(b: seq<Byte>)
    ensures |Sextets(b)| == (4 * |b| + 2) / 3 && |Sextets(b)| % 4 != 1
  {
    if |b| >= 3 {
      SextetsLength(b[3..]);
    }
  }

  lemma GroupInverts(x: Byte, y: Byte, z: Byte)
    ensures First(Six1(x), Six2(x, y)) == x
    ensures Second(Six2(x, y), Six3(y, z)) == y
    ensures Third(Six3(y, z), Six4(z)) == z
  {
  }

  lemma BytesOfGroup3(x: Byte, y: Byte, z: Byte)
    ensures Bytes3(Six1(x), Six2(x, y), Six3(y, z), Six4(z)) == [x, y, z]
  {
    GroupInverts(x, y, z);
  }

  lemma Octets4(x: Sextet, y: Sextet, z: Sextet, w: Sextet, rest: seq<Sextet>)
    ensures Octets([x, y, z, w] + rest) == Bytes3(x, y, z, w) + Octets(rest)
  {
    var d := [x, y, z, w] + rest;
    assert d[4..] == rest;
  }

  lemma Group1Inverts(x: Byte)
    ensures Octets(Group1(x)) == [x]
  {
    GroupInverts(x, 0, 0);
  }

  lemma Group2Inverts(x: Byte, y: Byte)
    ensures Octets(Group2(x, y)) == [x, y]
  {
    GroupInverts(x, y, 0);
  }

  lemma Group3Inverts(x: Byte, y: Byte, z: Byte, rest: seq<Sextet>)
    ensures Octets(Group3(x, y, z) + rest) == [x, y, z] + Octets(rest)
  {
    Octets4(Six1(x), Six2(x, y), Six3(y, z), Six4(z), rest);
    BytesOfGroup3(x, y, z);
  }

  lemma {:induction false} OctetsInvertSextets(b: seq<Byte>)
    ensures Octets(Sextets(b)) == b
  {
    if |b| == 0 {
    } else if |b| == 1 {
      Group1Inverts(b[0]);
    } else if |b| == 2 {
      Group2Inverts(b[0], b[1]);
    } else {
      OctetsInvertSextets(b[3..]);
      Group3Inverts(b[0], b[1], b[2], Sextets(b[3..]));
      assert b == [b[0], b[1], b[2]] + b[3..];
    }
  }

  /** Decoding inverts encoding for every byte string. */
  lemma DecodeInvertsEncode(b: seq<Byte>)
    ensures Decode(Encode(b)) == Some(b)
  {
    var s, d := Encode(b), Sextets(b);
    forall i | 0 <= i < |s| ensures InAlphabet(s[i]) && Value(s[i]) == d[i] {
      ValueOfChar(d[i]);
    }
    NoBreaksToSkip(s);
    assert Values(s) == d;
    SextetsLength(b);
    OctetsInvertSextets(b);
  }

  lemma GroupReturns(x: Sextet, y: Sextet, z: Sextet, w: Sextet)
    ensures Six1(First(x, y)) == x
    ensures Six2(First(x, y), Second(y, z)) == y
    ensures Six3(Second(y, z), Third(z, w)) == z
    ensures Six4(Third(z, w)) == w
  {
  }

  /** Two lists of groups agree but for the last group, whose unused bits may differ. */
  ghost predicate AgreeButLast(a: seq<Sextet>, b: seq<Sextet>) {
    |a| == |b| && forall i :: 0 <= i < |a| - 1 ==> a[i] == b[i]
  }

  lemma Sextets3(x: Byte, y: Byte, z: Byte, rest: seq<Byte>)
    ensures Sextets([x, y, z] + rest) == Group3(x, y, z) + Sextets(rest)
  {
    var b := [x, y, z] + rest;
    assert b[3..] == rest && b[0] == x && b[1] == y && b[2] == z;
  }

  lemma Group3OfBytes(x: Sextet, y: Sextet, z: Sextet, w: Sextet)
    ensures Group3(First(x, y), Second(y, z), Third(z, w)) == [x, y, z, w]
  {
    GroupReturns(x, y, z, w);
  }

  lemma GroupOfBytes3(x: Sextet, y: Sextet, z: Sextet, w: Sextet, rest: seq<Byte>)
    ensures Sextets(Bytes3(x, y, z, w) + rest) == [x, y, z, w] + Sextets(rest)
  {
    Sextets3(First(x, y), Second(y, z), Third(z, w), rest);
    Group3OfBytes(x, y, z, w);
  }

  lemma ShortReturns(d: seq<Sextet>)
    requires |d| < 4 && |d| != 1
    ensures AgreeButLast(Sextets(Octets(d)), d)
  {
    if |d| == 2 {
      GroupReturns(d[0], d[1], 0, 0);
    } else if |d| == 3 {
      GroupReturns(d[0], d[1], d[2], 0);
    }
  }

  lemma {:induction false} SextetsOfOctets(d: seq<Sextet>)
    requires |d| % 4 != 1
    ensures AgreeButLast(Sextets(Octets(d)), d) && (d != [] ==> Octets(d) != [])
    ensures d == [] ==> Sextets(Octets(d)) == []
    decreases |d|
  {
    if |d| < 4 {
      ShortReturns(d);
    } else {
      var rest := d[4..];
      SextetsOfOctets(rest);
      GroupOfBytes3(d[0], d[1], d[2], d[3], Octets(rest));
      AgreeBehind([d[0], d[1], d[2], d[3]], Sextets(Octets(rest)), rest);
      assert d == [d[0], d[1], d[2], d[3]] + rest;
    }
  }

  lemma AgreeBehind(front: seq<Sextet>, a: seq<Sextet>, b: seq<Sextet>)
    requires AgreeButLast(a, b)
    ensures AgreeButLast(front + a, front + b)
  {
  }

  /**
   What decodes is an encoding: of the bytes it decodes to, without its line breaks
   and up to the unused bits of the last character. So nothing else is accepted.
   */
  lemma DecodedIsEncoding(s: string)
    requires Decode(s).Some?
    ensures var t, e := SkipBreaks(s), Encode(Decode(s).value);
            |e| == |t| && forall i :: 0 <= i < |t| - 1 ==> e[i] == t[i]
  {
    var t := SkipBreaks(s);
    SextetsOfOctets(Values(t));
  }

  /** Only the empty byte string has the empty encoding. */
  lemma EncodeEmptyIff(b: seq<Byte>)
    ensures Encode(b) == "" <==> b == []
  {
    SextetsLength(b);
  }
}
