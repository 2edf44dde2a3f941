/**
 `InputValidator.SanitizeInput`: removing NUL bytes, escaping in strict mode by
 five replacements one after the other, truncating, and doing so throughout a
 nested value. A string is a sequence of bytes, one `char` each.
 */
module Sanitizer {
  import opened Common

  datatype Config = Config(strictMode: bool, maxStringLength: nat, maxArrayLength: int)

  /** `strings.ReplaceAll` of a single byte. */
  function ReplaceAll(s: string, c: char, r: string): string {
    if s == [] then [] else (if s[0] == c then r else [s[0]]) + ReplaceAll(s[1..], c, r)
  }

  function RemoveNul(s: string): string {
    ReplaceAll(s, '\0', "")
  }

  /** A byte and the entity that replaces it. */
  datatype Entity = Entity(byte: char, text: string)

  /** The replacements in the order they are made, ampersand first. */
  const ENTITIES: seq<Entity> := [
    Entity('&', "&amp;"), Entity('<', "&lt;"), Entity('>', "&gt;"), Entity('\"', "&quot;"), Entity('\'', "&#x27;")]

  /** One replacement after the other over the whole string. */
  function ReplaceInTurn(s: string, table: seq<Entity>): string
    decreases |table|
  {
    if table == [] then s else ReplaceInTurn(ReplaceAll(s, table[0].byte, table[0].text), table[1..])
  }

  function Truncate(s: string, max: nat): string {
    if |s| > max then s[..max] else s
  }

  function SanitizeString(cfg: Config, s: string): string {
    var clean := RemoveNul(s);
    Truncate(if cfg.strictMode then ReplaceInTurn(clean, ENTITIES) else clean, cfg.maxStringLength)
  }

  // ---- The reference: one pass, one byte at a time ----

  function EscapeByte(c: char, table: seq<Entity>): string {
    if table == [] then [c] else if table[0].byte == c then table[0].text else EscapeByte(c, table[1..])
  }

  function Escape(s: string): string {
    if s == [] then [] else EscapeByte(s[0], ENTITIES) + Escape(s[1..])
  }

  predicate StartsWith(s: string, prefix: string) {
    |prefix| <= |s| && s[..|prefix|] == prefix
  }

  /** The entity `s` begins with, if any. */
  function EntityAt(s: string, table: seq<Entity>): Option<Entity> {
    if table == [] then None
    else if StartsWith(s, table[0].text) then Some(table[0])
    else EntityAt(s, table[1..])
  }

  /** Read the entities back; anything else stands for itself. */
  function Unescape(s: string): string
    decreases |s|
  {
    if s == [] then []
    else
      var e := EntityAt(s, ENTITIES);
      if e.Some? && 0 < |e.value.text| <= |s| then [e.value.byte] + Unescape(s[|e.value.text|..])
      else [s[0]] + Unescape(s[1..])
  }

  /** What makes one pass and several agree: no entity contains a byte still to be replaced. */
  ghost predicate InOrder(table: seq<Entity>) {
    forall i, j :: 0 <= i < j < |table| ==> table[i].byte != table[j].byte && table[j].byte !in table[i].text
  }

  /** What makes entities readable: they begin with an ampersand and differ in the next byte. */
  ghost predicate Readable(table: seq<Entity>) {
    && (forall i :: 0 <= i < |table| ==> |table[i].text| >= 2 && table[i].text[0] == '&')
    && (forall i, j :: 0 <= i < j < |table| ==> table[i].text[1] != table[j].text[1])
  }

  lemma EntitiesReadable()
    ensures Readable(ENTITIES)
  {
  }

  lemma NotIn(c: char, s: string)
    requires forall k :: 0 <= k < |s| ==> s[k] != c
    ensures c !in s
  {
  }

  lemma EntitiesInOrder()
    ensures InOrder(ENTITIES)
  {
    forall i, j | 0 <= i < j < |ENTITIES|
      ensures ENTITIES[i].byte != ENTITIES[j].byte && ENTITIES[j].byte !in ENTITIES[i].text
    {
      EntityTexts();
      NotIn(ENTITIES[j].byte, ENTITIES[i].text);
    }
  }

  lemma {:induction false} ReplaceConcat(a: string, b: string, c: char, r: string)
    ensures ReplaceAll(a + b, c, r) == ReplaceAll(a, c, r) + ReplaceAll(b, c, r)
  {
    if a == [] {
      assert a + b == b;
    } else {
      assert (a + b)[1..] == a[1..] + b;
      ReplaceConcat(a[1..], b, c, r);
    }
  }

  lemma {:induction false} ReplaceNothing(s: string, c: char, r: string)
    requires c !in s
    ensures ReplaceAll(s, c, r) == s
  {
    if s == [] {
    } else {
      ReplaceNothing(s[1..], c, r);
      assert [s[0]] + s[1..] == s;
    }
  }

  lemma ReplaceOne(c: char, r: string)
    ensures ReplaceAll([c], c, r) == r
  {
    assert [c][1..] == [];
  }

  lemma {:induction false} InTurnConcat(a: string, b: string, table: seq<Entity>)
    ensures ReplaceInTurn(a + b, table) == ReplaceInTurn(a, table) + ReplaceInTurn(b, table)
    decreases |table|
  {
    if table == [] {
    } else {
      ReplaceConcat(a, b, table[0].byte, table[0].text);
      var byte, text := table[0].byte, table[0].text;
      InTurnConcat(ReplaceAll(a, byte, text), ReplaceAll(b, byte, text), table[1..]);
    }
  }

  lemma {:induction false} InTurnNothing(s: string, table: seq<Entity>)
    requires forall i :: 0 <= i < |table| ==> table[i].byte !in s
    ensures ReplaceInTurn(s, table) == s
    decreases |table|
  {
    if table == [] {
    } else {
      ReplaceNothing(s, table[0].byte, table[0].text);
      InTurnNothing(s, table[1..]);
    }
  }

  /** A later replacement never touches what an earlier one produced. */
  lemma {:induction false} InTurnByte(c: char, table: seq<Entity>)
    requires InOrder(table)
    ensures ReplaceInTurn([c], table) == EscapeByte(c, table)
    decreases |table|
  {
    if table == [] {
    } else {
      if table[0].byte == c {
        ReplaceOne(c, table[0].text);
        InTurnNothing(table[0].text, table[1..]);
      } else {
        ReplaceNothing([c], table[0].byte, table[0].text);
        InTurnByte(c, table[1..]);
      }
    }
  }

  lemma {:induction false} InTurnEmpty(table: seq<Entity>)
    ensures ReplaceInTurn([], table) == []
    decreases |table|
  {
    if table == [] {
    } else {
      InTurnEmpty(table[1..]);
    }
  }

  /** The five replacements in turn are one simultaneous escape of every byte. */
  lemma {:induction false} InTurnIsOnePass(s: string)
    ensures ReplaceInTurn(s, ENTITIES) == Escape(s)
  {
    if s == [] {
      InTurnEmpty(ENTITIES);
    } else {
      EntitiesInOrder();
      assert s == [s[0]] + s[1..];
      InTurnConcat([s[0]], s[1..], ENTITIES);
      InTurnByte(s[0], ENTITIES);
      InTurnIsOnePass(s[1..]);
    }
  }

  /** The escaped form of a byte is its entity, or the byte if it has none. */
  lemma {:induction false} EscapeByteCases(c: char, table: seq<Entity>)
    ensures (exists i :: 0 <= i < |table| && table[i].byte == c && EscapeByte(c, table) == table[i].text) ||
            (EscapeByte(c, table) == [c] && forall i :: 0 <= i < |table| ==> table[i].byte != c)
  {
    if table != [] && table[0].byte != c {
      EscapeByteCases(c, table[1..]);
      assert forall i :: 0 < i < |table| ==> table[i] == table[1..][i - 1];
    }
  }

  /** Only one entity can stand at the front of a string. */
  lemma {:induction false} EntityAtFront(table: seq<Entity>, i: nat, rest: string)
    requires Readable(table) && i < |table|
    ensures EntityAt(table[i].text + rest, table) == Some(table[i])
  {
    var s := table[i].text + rest;
    if i == 0 {
    } else {
      assert s[1] == table[i].text[1] != table[0].text[1];
      EntityAtFront(table[1..], i - 1, rest);
    }
  }

  lemma {:induction false} NoEntityAt(s: string, table: seq<Entity>)
    requires Readable(table) && s != [] && s[0] != '&'
    ensures EntityAt(s, table) == None
  {
    if table == [] {
    } else {
      NoEntityAt(s, table[1..]);
    }
  }

  lemma UnescapeByte(c: char, rest: string)
    ensures Unescape(EscapeByte(c, ENTITIES) + rest) == [c] + Unescape(rest)
  {
    EntitiesReadable();
    EscapeByteCases(c, ENTITIES);
    var e := EscapeByte(c, ENTITIES);
    var s := e + rest;
    assert s[|e|..] == rest;
    if i :| 0 <= i < |ENTITIES| && ENTITIES[i].byte == c && e == ENTITIES[i].text {
      EntityAtFront(ENTITIES, i, rest);
    } else {
      assert ENTITIES[0].byte != c;
      NoEntityAt(s, ENTITIES);
    }
  }

  /** Escaping loses nothing. */
  lemma {:induction false} UnescapeInvertsEscape(s: string)
    ensures Unescape(Escape(s)) == s
  {
    if s == [] {
    } else {
      UnescapeByte(s[0], Escape(s[1..]));
      UnescapeInvertsEscape(s[1..]);
      assert [s[0]] + s[1..] == s;
    }
  }

  // ---- Sanitized strings ----

  predicate IsRaw(c: char) {
    c == '<' || c == '>' || c == '\"' || c == '\'' || c == '\0'
  }

  /** Nothing that would need escaping, and no longer than allowed. */
  ghost predicate CleanString(cfg: Config, s: string) {
    && |s| <= cfg.maxStringLength && '\0' !in s
    && (cfg.strictMode ==> forall i :: 0 <= i < |s| ==> !IsRaw(s[i]))
  }

  lemma {:induction false} NulFree(s: string)
    ensures '\0' !in RemoveNul(s)
    ensures '\0' !in s ==> RemoveNul(s) == s
  {
    if s == [] {
    } else {
      NulFree(s[1..]);
      assert s == [s[0]] + s[1..];
    }
  }

  lemma EscapedByteHasNoRaw(c: char)
    requires c != '\0'
    ensures forall i :: 0 <= i < |EscapeByte(c, ENTITIES)| ==> !IsRaw(EscapeByte(c, ENTITIES)[i])
  {
    EscapeByteCases(c, ENTITIES);
    EntityTexts();
    var e := EscapeByte(c, ENTITIES);
    if i :| 0 <= i < |ENTITIES| && ENTITIES[i].byte == c && e == ENTITIES[i].text {
    } else {
      assert ENTITIES[1].byte != c && ENTITIES[2].byte != c && ENTITIES[3].byte != c && ENTITIES[4].byte != c;
    }
  }

  lemma EntityTexts()
    ensures forall i, k :: 0 <= i < |ENTITIES| && 0 <= k < |ENTITIES[i].text| ==> !IsRaw(ENTITIES[i].text[k])
  {
  }

  lemma {:induction false} EscapedHasNoRaw(s: string)
    requires '\0' !in s
    ensures forall i :: 0 <= i < |Escape(s)| ==> !IsRaw(Escape(s)[i])
  {
    if s == [] {
    } else {
      EscapedHasNoRaw(s[1..]);
      EscapedByteHasNoRaw(s[0]);
    }
  }

  /** Truncated or not, the result is clean. */
  lemma SanitizedIsClean(cfg: Config, s: string)
    ensures CleanString(cfg, SanitizeString(cfg, s))
  {
    var clean := RemoveNul(s);
    NulFree(s);
    InTurnIsOnePass(clean);
    EscapedHasNoRaw(clean);
    var full := if cfg.strictMode then Escape(clean) else clean;
    assert forall i :: 0 <= i < |full| ==> full[i] != '\0';
  }

  /** In strict mode a NUL-free string can be read back when nothing was cut off. */
  lemma SanitizeRoundTrip(cfg: Config, s: string)
    requires cfg.strictMode && '\0' !in s && |Escape(s)| <= cfg.maxStringLength
    ensures Unescape(SanitizeString(cfg, s)) == s
  {
    NulFree(s);
    InTurnIsOnePass(s);
    UnescapeInvertsEscape(s);
  }

  lemma {:induction false} RemoveNulIsFilter(s: string)
    ensures RemoveNul(s) == Filter(s, (c: char) => c != '\0')
  {
    if s == [] {
    } else {
      RemoveNulIsFilter(s[1..]);
    }
  }

  /** The five entities, by name; every other byte stands for itself. */
  lemma EntityOf(c: char)
    ensures EscapeByte(c, ENTITIES) ==
            if c == '&' then "&amp;" else if c == '<' then "&lt;" else if c == '>' then "&gt;"
            else if c == '\"' then "&quot;" else if c == '\'' then "&#x27;" else [c]
  {
    EscapeByteCases(c, ENTITIES);
    if i :| 0 <= i < |ENTITIES| && ENTITIES[i].byte == c && EscapeByte(c, ENTITIES) == ENTITIES[i].text {
    } else {
      assert ENTITIES[0].byte != c && ENTITIES[1].byte != c && ENTITIES[2].byte != c;
      assert ENTITIES[3].byte != c && ENTITIES[4].byte != c;
    }
  }

  /**
   The whole text of a sanitized string: the bytes other than NUL, in order, escaped
   one by one in strict mode and as they are otherwise, cut off at the limit.
   */
  lemma SanitizedText(cfg: Config, s: string)
    ensures var kept := Filter(s, (c: char) => c != '\0');
            var full := if cfg.strictMode then Escape(kept) else kept;
            SanitizeString(cfg, s) == if |full| <= cfg.maxStringLength then full else full[..cfg.maxStringLength]
  {
    RemoveNulIsFilter(s);
    InTurnIsOnePass(RemoveNul(s));
  }

  // ---- Nested values ----

  /** A decoded JSON value; numbers, booleans and null pass unchanged. */
  datatype Json = Str(s: string) | Arr(items: seq<Json>) | Obj(fields: map<string, Json>) | Other(literal: string)

  /** How many items `sanitizeArray` keeps: it appends before it looks at the limit. */
  function Kept(cfg: Config, n: nat): nat {
    if n == 0 then 0 else if cfg.maxArrayLength < 1 then 1 else if n < cfg.maxArrayLength then n else cfg.maxArrayLength
  }

  function SanitizedKeys(cfg: Config, fields: map<string, Json>): set<string> {
    set k | k in fields :: SanitizeString(cfg, k)
  }

  /**
   `r` is a result `SanitizeInput` can return for `v`. The order in which Go walks
   a map is open, so of two keys that become the same either may survive.
   */
  ghost predicate Possible(cfg: Config, v: Json, r: Json)
    decreases v
  {
    match v
    case Str(s) => r == Str(SanitizeString(cfg, s))
    case Other(_) => r == v
    case Arr(items) =>
      && r.Arr? && |r.items| == Kept(cfg, |items|)
      && forall i :: 0 <= i < |r.items| ==> Possible(cfg, items[i], r.items[i])
    case Obj(fields) =>
      && r.Obj? && r.fields.Keys == SanitizedKeys(cfg, fields)
      && forall k' :: k' in r.fields ==>
           exists k :: k in fields && SanitizeString(cfg, k) == k' && Possible(cfg, fields[k], r.fields[k'])
  }

  method SanitizeInput(cfg: Config, v: Json) returns (r: Json)
    ensures Possible(cfg, v, r)
    decreases v, 1
  {
    match v
    case Str(s) => r := Str(SanitizeString(cfg, s));
    case Other(_) => r := v;
    case Arr(items) => r := SanitizeArray(cfg, v);
    case Obj(fields) => r := SanitizeObject(cfg, v);
  }

  method SanitizeArray(cfg: Config, v: Json) returns (r: Json)
    requires v.Arr?
    ensures Possible(cfg, v, r)
    decreases v, 0
  {
    var result: seq<Json> := [];
    var i := 0;
    while i < |v.items|
      invariant 0 <= i <= |v.items| && |result| == i && (i < cfg.maxArrayLength || i == 0)
      invariant forall k :: 0 <= k < |result| ==> Possible(cfg, v.items[k], result[k])
    {
      var sanitized := SanitizeInput(cfg, v.items[i]);
      result := result + [sanitized];
      i := i + 1;
      if |result| >= cfg.maxArrayLength {
        break;
      }
    }
    r := Arr(result);
  }

  method SanitizeObject(cfg: Config, v: Json) returns (r: Json)
    requires v.Obj?
    ensures Possible(cfg, v, r)
    decreases v, 0
  {
    var result: map<string, Json> := map[];
    var keys := v.fields.Keys;
    while keys != {}
      invariant keys <= v.fields.Keys
      invariant forall k :: k in v.fields && k !in keys ==> SanitizeString(cfg, k) in result
      invariant forall k' :: k' in result ==> Comes(cfg, v.fields, keys, k', result[k'])
      decreases |keys|
    {
      var key :| key in keys;
      var sanitizedValue := SanitizeInput(cfg, v.fields[key]);
      ghost var before, left := result, keys;
      keys := keys - {key};
      result := result[SanitizeString(cfg, key) := sanitizedValue];
      forall k' | k' in result ensures Comes(cfg, v.fields, keys, k', result[k']) {
        if k' != SanitizeString(cfg, key) {
          assert Comes(cfg, v.fields, left, k', before[k']);
        }
      }
    }
    r := Obj(result);
    assert forall k' :: k' in result ==> Comes(cfg, v.fields, {}, k', result[k']);
    assert result.Keys == SanitizedKeys(cfg, v.fields);
  }

  /** A field of the result comes from a field already taken. */
  ghost predicate Comes(cfg: Config, fields: map<string, Json>, keys: set<string>, k': string, r: Json) {
    exists k :: k in fields && k !in keys && SanitizeString(cfg, k) == k' && Possible(cfg, fields[k], r)
  }

  /** Every string and every key in the value, however deep, is clean, and arrays are short. */
  ghost predicate CleanValue(cfg: Config, v: Json)
    decreases v
  {
    match v
    case Str(s) => CleanString(cfg, s)
    case Other(_) => true
    case Arr(items) =>
      && |items| <= (if cfg.maxArrayLength < 1 then 1 else cfg.maxArrayLength)
      && forall i :: 0 <= i < |items| ==> CleanValue(cfg, items[i])
    case Obj(fields) => forall k :: k in fields ==> CleanString(cfg, k) && CleanValue(cfg, fields[k])
  }

  /** Whatever order the maps are walked in, what comes out is clean throughout. */
  lemma {:induction false} SanitizedValueIsClean(cfg: Config, v: Json, r: Json)
    requires Possible(cfg, v, r)
    ensures CleanValue(cfg, r)
    decreases v
  {
    match v
    case Str(s) => SanitizedIsClean(cfg, s);
    case Other(_) =>
    case Arr(items) =>
      forall i | 0 <= i < |r.items| ensures CleanValue(cfg, r.items[i]) {
        SanitizedValueIsClean(cfg, items[i], r.items[i]);
      }
    case Obj(fields) =>
      forall k' | k' in r.fields ensures CleanString(cfg, k') && CleanValue(cfg, r.fields[k']) {
        var k :| k in fields && SanitizeString(cfg, k) == k' && Possible(cfg, fields[k], r.fields[k']);
        SanitizedIsClean(cfg, k);
        SanitizedValueIsClean(cfg, fields[k], r.fields[k']);
      }
  }

  /**
   A sanitized array respects the configured limit exactly when the limit is
   positive, or zero for an empty array: the limit is looked at after an item was
   appended.
   */
  lemma ArrayLimitIff(cfg: Config, v: Json, r: Json)
    requires v.Arr? && Possible(cfg, v, r)
    ensures r.Arr?
    ensures |r.items| <= cfg.maxArrayLength <==>
            cfg.maxArrayLength >= 1 || (cfg.maxArrayLength == 0 && v.items == [])
  {
  }

  /** Which items survive: the first so many as the limit says, but one at least, each sanitized. */
  lemma ArrayKeeps(cfg: Config, v: Json, r: Json)
    requires v.Arr? && Possible(cfg, v, r)
    ensures r.Arr?
    ensures |r.items| == if |v.items| <= 1 || |v.items| <= cfg.maxArrayLength then |v.items|
                         else if cfg.maxArrayLength <= 1 then 1 else cfg.maxArrayLength
    ensures forall i :: 0 <= i < |r.items| ==> Possible(cfg, v.items[i], r.items[i])
  {
  }

  /** An array of one item is kept whole under a limit of zero. */
  lemma ZeroLimitKeepsOne(cfg: Config, literal: string)
    requires cfg.maxArrayLength == 0
    ensures Possible(cfg, Arr([Other(literal)]), Arr([Other(literal)]))
  {
  }

  // ---- When the result does not depend on the order ----

  /** There is always a result. */
  ghost function Result(cfg: Config, v: Json): (r: Json)
    ensures Possible(cfg, v, r)
    decreases v
  {
    match v
    case Str(s) => Str(SanitizeString(cfg, s))
    case Other(_) => v
    case Arr(items) => Arr(seq(Kept(cfg, |items|), i requires 0 <= i < Kept(cfg, |items|) => Result(cfg, items[i])))
    case Obj(fields) =>
      Obj(map k' | k' in SanitizedKeys(cfg, fields) ::
            var k :| k in fields && SanitizeString(cfg, k) == k'; Result(cfg, fields[k]))
  }

  ghost predicate Compatible(cfg: Config, a: Json, b: Json) {
    exists r :: Possible(cfg, a, r) && Possible(cfg, b, r)
  }

  /** No two keys of an object become one, unless their values come out the same too. */
  ghost predicate OrderFree(cfg: Config, v: Json)
    decreases v
  {
    match v
    case Str(_) => true
    case Other(_) => true
    case Arr(items) => forall i :: 0 <= i < Kept(cfg, |items|) ==> OrderFree(cfg, items[i])
    case Obj(fields) =>
      && (forall k :: k in fields ==> OrderFree(cfg, fields[k]))
      && (forall k, l :: k in fields && l in fields && SanitizeString(cfg, k) == SanitizeString(cfg, l) ==>
            Compatible(cfg, fields[k], fields[l]))
  }

  lemma {:induction false} OrderFreeIsUnique(cfg: Config, v: Json, r: Json, q: Json)
    requires OrderFree(cfg, v) && Possible(cfg, v, r) && Possible(cfg, v, q)
    ensures r == q
    decreases v
  {
    if v.Arr? {
      OrderFreeItems(cfg, v, r, q);
    } else if v.Obj? {
      OrderFreeFields(cfg, v, r, q);
    }
  }

  lemma {:induction false} OrderFreeFields(cfg: Config, v: Json, r: Json, q: Json)
    requires v.Obj? && OrderFree(cfg, v) && Possible(cfg, v, r) && Possible(cfg, v, q)
    ensures r == q
    decreases v, 1
  {
    forall k' | k' in r.fields.Keys ensures k' in q.fields.Keys && r.fields[k'] == q.fields[k'] {
      OrderFreeField(cfg, v, r, q, k');
    }
    SameFields(r, q);
  }

  lemma SameFields(r: Json, q: Json)
    requires r.Obj? && q.Obj? && r.fields.Keys == q.fields.Keys
    requires forall k :: k in r.fields.Keys ==> k in q.fields.Keys && r.fields[k] == q.fields[k]
    ensures r == q
  {
    assert r.fields == q.fields;
  }

  lemma {:induction false} OrderFreeItems(cfg: Config, v: Json, r: Json, q: Json)
    requires v.Arr? && OrderFree(cfg, v) && Possible(cfg, v, r) && Possible(cfg, v, q)
    ensures r == q
    decreases v, 0
  {
    forall i | 0 <= i < |r.items| ensures r.items[i] == q.items[i] {
      OrderFreeIsUnique(cfg, v.items[i], r.items[i], q.items[i]);
    }
    assert r.items == q.items;
  }

  lemma {:induction false} OrderFreeField(cfg: Config, v: Json, r: Json, q: Json, k': string)
    requires v.Obj? && OrderFree(cfg, v) && Possible(cfg, v, r) && Possible(cfg, v, q) && k' in r.fields
    ensures k' in q.fields && r.fields[k'] == q.fields[k']
    decreases v, 0
  {
    var fields := v.fields;
    var k :| k in fields && SanitizeString(cfg, k) == k' && Possible(cfg, fields[k], r.fields[k']);
    var l :| l in fields && SanitizeString(cfg, l) == k' && Possible(cfg, fields[l], q.fields[k']);
    assert Compatible(cfg, fields[k], fields[l]);
    var c :| Possible(cfg, fields[k], c) && Possible(cfg, fields[l], c);
    OrderFreeIsUnique(cfg, fields[k], r.fields[k'], c);
    OrderFreeIsUnique(cfg, fields[l], q.fields[k'], c);
  }

  /** Choosing the source of one field leaves a possible result. */
  lemma FieldFrom(cfg: Config, v: Json, k: string, value: Json)
    requires v.Obj? && k in v.fields && Possible(cfg, v.fields[k], value)
    ensures Possible(cfg, v, Obj(Result(cfg, v).fields[SanitizeString(cfg, k) := value]))
  {
    var base := Result(cfg, v).fields;
    var r := Obj(base[SanitizeString(cfg, k) := value]);
    assert SanitizeString(cfg, k) in SanitizedKeys(cfg, v.fields);
    forall k' | k' in r.fields
      ensures exists l :: l in v.fields && SanitizeString(cfg, l) == k' && Possible(cfg, v.fields[l], r.fields[k'])
    {
      if k' != SanitizeString(cfg, k) {
        assert k' in base && r.fields[k'] == base[k'];
      }
    }
  }

  lemma {:induction false} OrderMatters(cfg: Config, v: Json) returns (r: Json, q: Json)
    requires !OrderFree(cfg, v)
    ensures Possible(cfg, v, r) && Possible(cfg, v, q) && r != q
    decreases v
  {
    match v
    case Arr(items) =>
      var i :| 0 <= i < Kept(cfg, |items|) && !OrderFree(cfg, items[i]);
      var a, b := OrderMatters(cfg, items[i]);
      var base := Result(cfg, v).items;
      r, q := Arr(base[i := a]), Arr(base[i := b]);
      assert r.items[i] != q.items[i];
    case Obj(fields) =>
      var k, a, b := DifferentValues(cfg, v);
      FieldFrom(cfg, v, k.0, a);
      FieldFrom(cfg, v, k.1, b);
      var base := Result(cfg, v).fields;
      r, q := Obj(base[SanitizeString(cfg, k.0) := a]), Obj(base[SanitizeString(cfg, k.1) := b]);
      assert r.fields[SanitizeString(cfg, k.0)] != q.fields[SanitizeString(cfg, k.0)];
  }

  /** Two keys that become one (or one key) with two different values to offer. */
  lemma {:induction false} DifferentValues(cfg: Config, v: Json) returns (k: (string, string), a: Json, b: Json)
    requires v.Obj? && !OrderFree(cfg, v)
    ensures k.0 in v.fields && k.1 in v.fields && SanitizeString(cfg, k.0) == SanitizeString(cfg, k.1)
    ensures Possible(cfg, v.fields[k.0], a) && Possible(cfg, v.fields[k.1], b) && a != b
    decreases v, 0
  {
    if x :| x in v.fields && !OrderFree(cfg, v.fields[x]) {
      k := (x, x);
      a, b := OrderMatters(cfg, v.fields[x]);
    } else {
      var x, y :| x in v.fields && y in v.fields && SanitizeString(cfg, x) == SanitizeString(cfg, y) &&
                  !Compatible(cfg, v.fields[x], v.fields[y]);
      k := (x, y);
      a, b := Result(cfg, v.fields[x]), Result(cfg, v.fields[y]);
    }
  }

  ghost predicate Determined(cfg: Config, v: Json) {
    forall r, q :: Possible(cfg, v, r) && Possible(cfg, v, q) ==> r == q
  }

  /**
   The sanitized value is the same whatever order the maps are walked in, if and
   only if no object has two keys that sanitize to one with values that do not.
   */
  lemma UniqueResultIff(cfg: Config, v: Json)
    ensures Determined(cfg, v) <==> OrderFree(cfg, v)
  {
    if OrderFree(cfg, v) {
      forall r, q | Possible(cfg, v, r) && Possible(cfg, v, q) ensures r == q {
        OrderFreeIsUnique(cfg, v, r, q);
      }
    } else {
      var r, q := OrderMatters(cfg, v);
      assert !(Possible(cfg, v, r) && Possible(cfg, v, q) ==> r == q);
    }
  }

  /** Two keys that differ in a NUL byte: either value may be the one that survives. */
  lemma CollidingKeys(cfg: Config)
    requires cfg.maxStringLength >= 1
    ensures !OrderFree(cfg, Obj(map["a" := Other("1"), "a\0" := Other("2")]))
  {
    var fields := map["a" := Other("1"), "a\0" := Other("2")];
    assert SanitizeString(cfg, "a") == "a" && SanitizeString(cfg, "a\0") == "a" by {
      NulFree("a");
      assert RemoveNul("a\0") == "a";
      InTurnIsOnePass("a");
      assert Escape("a") == "a";
    }
    assert !Compatible(cfg, fields["a"], fields["a\0"]);
  }
}
