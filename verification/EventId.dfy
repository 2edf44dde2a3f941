/**
 Event identifiers of the streamable transport: `formatEventID` and
 `parseEventID`, with the parts of Go's `strconv` and `strings.Split` they use.
 */
module EventId {
  import opened Common

  const MAX_INT64: int := 0x7FFF_FFFF_FFFF_FFFF
  const MIN_INT64: int := -0x8000_0000_0000_0000

  function Digit(d: nat): char
    requires d < 10
  {
    '0' + d as char
  }

  predicate IsDigit(c: char) {
    '0' <= c <= '9'
  }

  /** The decimal digits of `n`, without leading zeros. */
  function Decimal(n: nat): string {
    if n < 10 then [Digit(n)] else Decimal(n / 10) + [Digit(n % 10)]
  }

  /** `%d` of fmt. */
  function FormatInt(i: int): string {
    if i < 0 then "-" + Decimal(-i) else Decimal(i)
  }

  /** `fmt.Sprintf("%d_%d", sid, idx)`. */
  function FormatEventId(sid: int, idx: int): string {
    FormatInt(sid) + "_" + FormatInt(idx)
  }

  predicate AllDigits(s: string) {
    forall i :: 0 <= i < |s| ==> IsDigit(s[i])
  }

  function DigitsValue(s: string): nat
    requires AllDigits(s)
  {
    if s == [] then 0 else 10 * DigitsValue(Front(s)) + (Last(s) - '0') as nat
  }

  /** `strconv.ParseInt(s, 10, 64)` (and `strconv.Atoi` where int has 64 bits). */
  function ParseInt(s: string): Option<int> {
    var negative := s != [] && s[0] == '-';
    var digits := if s != [] && (s[0] == '-' || s[0] == '+') then s[1..] else s;
    if digits == [] || !AllDigits(digits) then None
    else
      var magnitude: int := DigitsValue(digits);
      var value := if negative then -magnitude else magnitude;
      if MIN_INT64 <= value <= MAX_INT64 then Some(value) else None
  }

  /** `strings.Split(s, sep)` for a one-character separator. */
  function Split(s: string, sep: char): (parts: seq<string>)
    ensures parts != []
  {
    if s == [] then [[]]
    else
      var rest := Split(s[1..], sep);
      if s[0] == sep then [[]] + rest else [[s[0]] + rest[0]] + rest[1..]
  }

  function ParseEventId(eventId: string): Option<(nat, nat)> {
    var parts := Split(eventId, '_');
    if |parts| != 2 then None
    else
      match ParseInt(parts[0])
      case None => None
      case Some(stream) =>
        if stream < 0 then None
        else
          match ParseInt(parts[1])
          case None => None
          case Some(idx) => if idx < 0 then None else Some((stream, idx))
  }

  lemma {:induction false} DecimalDigits(n: nat)
    ensures Decimal(n) != [] && AllDigits(Decimal(n)) && DigitsValue(Decimal(n)) == n
  {
    if n < 10 {
      assert Front(Decimal(n)) == [];
    } else {
      DecimalDigits(n / 10);
      assert Front(Decimal(n)) == Decimal(n / 10);
    }
  }

  /** Parsing a printed number gives it back exactly when it fits 64 bits. */
  lemma ParseFormatInt(i: int)
    ensures ParseInt(FormatInt(i)) == if MIN_INT64 <= i <= MAX_INT64 then Some(i) else None
  {
    if i < 0 {
      DecimalDigits(-i);
      assert FormatInt(i)[1..] == Decimal(-i);
    } else {
      DecimalDigits(i);
      assert IsDigit(Decimal(i)[0]);
    }
  }

  lemma FormatIntSeparatorFree(i: int)
    ensures '_' !in FormatInt(i)
  {
    DecimalDigits(if i < 0 then -i else i);
  }

  lemma {:induction false} SplitSingle(s: string, sep: char)
    requires sep !in s
    ensures Split(s, sep) == [s]
  {
    if s == [] {
    } else {
      SplitSingle(s[1..], sep);
      assert [s[0]] + s[1..] == s;
    }
  }

  lemma {:induction false} SplitPair(a: string, b: string, sep: char)
    requires sep !in a && sep !in b
    ensures Split(a + [sep] + b, sep) == [a, b]
  {
    var s := a + [sep] + b;
    if a == [] {
      assert s[1..] == b;
      SplitSingle(b, sep);
    } else {
      assert s[1..] == a[1..] + [sep] + b;
      SplitPair(a[1..], b, sep);
      assert [a[0]] + a[1..] == a;
    }
  }

  /**
   Parsing inverts printing for every pair of 64-bit values the handler can
   accept, and rejects every other pair: a negative part or one beyond 64 bits.
   */
  lemma ParseInvertsFormat(sid: int, idx: int)
    ensures ParseEventId(FormatEventId(sid, idx)) ==
            if 0 <= sid <= MAX_INT64 && 0 <= idx <= MAX_INT64 then Some((sid, idx)) else None
  {
    FormatIntSeparatorFree(sid);
    FormatIntSeparatorFree(idx);
    SplitPair(FormatInt(sid), FormatInt(idx), '_');
    ParseFormatInt(sid);
    ParseFormatInt(idx);
  }

  /** Event ids name one position of one stream only. */
  lemma FormatInjective(sid: nat, idx: nat, sid': nat, idx': nat)
    requires sid <= MAX_INT64 && idx <= MAX_INT64
    requires FormatEventId(sid, idx) == FormatEventId(sid', idx')
    ensures sid == sid' && idx == idx'
  {
    ParseInvertsFormat(sid, idx);
    ParseInvertsFormat(sid', idx');
  }

  // ---- Which texts are event ids ----

  /** The number written by `digits` behind an optional sign. */
  ghost predicate Signed(sign: string, digits: string, n: int) {
    && digits != [] && AllDigits(digits)
    && (sign == "" || sign == "+" || sign == "-")
    && (if sign == "-" then n + DigitsValue(digits) == 0 else n == DigitsValue(digits))
  }

  /** A decimal number as `strconv` reads it: an optional sign and at least one digit. */
  ghost predicate Denotes(s: string, n: int) {
    exists sign: string, digits: string :: s == sign + digits && Signed(sign, digits, n)
  }

  /** Two numbers that fit 64 bits and are not negative, joined by an underscore. */
  ghost predicate Names(s: string, sid: nat, idx: nat) {
    exists a: string, b: string ::
      s == a + "_" + b && Denotes(a, sid) && Denotes(b, idx) && sid <= MAX_INT64 && idx <= MAX_INT64
  }

  ghost predicate NamesNothing(s: string) {
    forall sid: nat, idx: nat :: !Names(s, sid, idx)
  }

  lemma ParseSigned(sign: string, digits: string, n: int)
    requires Signed(sign, digits, n)
    ensures ParseInt(sign + digits) == if MIN_INT64 <= n <= MAX_INT64 then Some(n) else None
  {
    var s := sign + digits;
    if sign == "" {
      assert s == digits && IsDigit(s[0]);
    } else {
      assert s[0] == sign[0] && s[1..] == digits;
    }
  }

  lemma ParsedIsSigned(s: string, n: int)
    requires ParseInt(s) == Some(n)
    ensures Denotes(s, n)
  {
    var signed := s[0] == '-' || s[0] == '+';
    var sign, digits := if signed then s[..1] else "", if signed then s[1..] else s;
    assert s == sign + digits && Signed(sign, digits, n);
  }

  lemma ParseIntIff(s: string, n: int)
    ensures ParseInt(s) == Some(n) <==> Denotes(s, n) && MIN_INT64 <= n <= MAX_INT64
  {
    if ParseInt(s) == Some(n) {
      ParsedIsSigned(s, n);
    }
    if Denotes(s, n) {
      var sign: string, digits: string :| s == sign + digits && Signed(sign, digits, n);
      ParseSigned(sign, digits, n);
    }
  }

  lemma DenotesSeparatorFree(s: string, n: int)
    requires Denotes(s, n)
    ensures '_' !in s
  {
  }

  function Join(parts: seq<string>, sep: char): string {
    if parts == [] then [] else if |parts| == 1 then parts[0] else parts[0] + [sep] + Join(parts[1..], sep)
  }

  lemma JoinPrepend(c: char, parts: seq<string>, sep: char)
    requires parts != []
    ensures Join([[c] + parts[0]] + parts[1..], sep) == [c] + Join(parts, sep)
  {
    var longer := [[c] + parts[0]] + parts[1..];
    assert longer[1..] == parts[1..];
    if |parts| > 1 {
      assert [c] + parts[0] + [sep] + Join(parts[1..], sep) == [c] + (parts[0] + [sep] + Join(parts[1..], sep));
    }
  }

  lemma JoinEmpty(parts: seq<string>, sep: char)
    requires parts != []
    ensures Join([[]] + parts, sep) == [sep] + Join(parts, sep)
  {
    assert ([[]] + parts)[1..] == parts;
  }

  lemma {:induction false} JoinSplit(s: string, sep: char)
    ensures Join(Split(s, sep), sep) == s
  {
    if s == [] {
    } else {
      JoinSplit(s[1..], sep);
      JoinPrepend(s[0], Split(s[1..], sep), sep);
      JoinEmpty(Split(s[1..], sep), sep);
      assert s == [s[0]] + s[1..];
    }
  }

  lemma NamesIsNotEmpty(s: string, sid: nat, idx: nat)
    requires Names(s, sid, idx)
    ensures s != ""
  {
  }

  /** `parseEventID` accepts exactly the texts that name a position, and gives that position. */
  lemma ParseEventIdIff(s: string, sid: nat, idx: nat)
    ensures ParseEventId(s) == Some((sid, idx)) <==> Names(s, sid, idx)
  {
    var parts := Split(s, '_');
    if ParseEventId(s) == Some((sid, idx)) {
      JoinSplit(s, '_');
      ParseIntIff(parts[0], sid);
      ParseIntIff(parts[1], idx);
      assert Join(parts[1..], '_') == parts[1];
      assert s == parts[0] + "_" + parts[1];
    }
    if Names(s, sid, idx) {
      var a: string, b: string :|
        s == a + "_" + b && Denotes(a, sid) && Denotes(b, idx) && sid <= MAX_INT64 && idx <= MAX_INT64;
      DenotesSeparatorFree(a, sid);
      DenotesSeparatorFree(b, idx);
      SplitPair(a, b, '_');
      ParseIntIff(a, sid);
      ParseIntIff(b, idx);
    }
  }
}
