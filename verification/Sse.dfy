/**
 Server-sent events as the transport prints and scans them: `writeSSEMessage`,
 the keep-alive comment, the endpoint event, and `scanEvents` over a line
 scanner with a bounded line length. Compare section 9.2.6 of the WHATWG HTML
 Living Standard. One `char` stands for one byte.
 */
module Sse {
  import opened Common

  /** 1 MiB: a line, with its newline, has to fit the scanner's buffer. */
  const MAX_TOKEN_SIZE: nat := 1024 * 1024

  datatype Event = Event(name: string, id: string, data: string)

  datatype ScanError = Malformed(line: string) | TooLong

  /** The scanner between two lines: the event so far, and what was yielded. */
  datatype Scanner = Scanner(
    name: string, id: string, data: Option<string>, events: seq<Event>, error: Option<ScanError>)

  function Idle(events: seq<Event>): Scanner {
    Scanner("", "", None, events, None)
  }

  /** The ASCII spaces. */
  predicate IsSpace(c: char) {
    c == ' ' || ('\t' <= c <= '\r')
  }

  /** U+0085 and U+00A0 in UTF-8. */
  predicate IsSpace2(a: char, b: char) {
    a == '\U{C2}' && (b == '\U{85}' || b == '\U{A0}')
  }

  /** U+1680, U+2000 to U+200A, U+2028, U+2029, U+202F, U+205F and U+3000 in UTF-8. */
  predicate IsSpace3(a: char, b: char, c: char) {
    || (a == '\U{E1}' && b == '\U{9A}' && c == '\U{80}')
    || (a == '\U{E2}' && b == '\U{80}' &&
        ('\U{80}' <= c <= '\U{8A}' || c == '\U{A8}' || c == '\U{A9}' || c == '\U{AF}'))
    || (a == '\U{E2}' && b == '\U{81}' && c == '\U{9F}')
    || (a == '\U{E3}' && b == '\U{80}' && c == '\U{80}')
  }

  /** How many bytes the space at the front of `s` takes; 0 if there is none. */
  function SpaceAtFront(s: string): (k: nat)
    ensures k <= |s|
  {
    if |s| >= 1 && IsSpace(s[0]) then 1
    else if |s| >= 2 && IsSpace2(s[0], s[1]) then 2
    else if |s| >= 3 && IsSpace3(s[0], s[1], s[2]) then 3
    else 0
  }

  /** How many bytes the space at the end of `s` takes; 0 if there is none. */
  function SpaceAtEnd(s: string): (k: nat)
    ensures k <= |s|
  {
    var n := |s|;
    if n >= 1 && IsSpace(s[n - 1]) then 1
    else if n >= 2 && IsSpace2(s[n - 2], s[n - 1]) then 2
    else if n >= 3 && IsSpace3(s[n - 3], s[n - 2], s[n - 1]) then 3
    else 0
  }

  function TrimLeft(s: string): string
    decreases |s|
  {
    var k := SpaceAtFront(s);
    if k > 0 then TrimLeft(s[k..]) else s
  }

  function TrimRight(s: string): string
    decreases |s|
  {
    var k := SpaceAtEnd(s);
    if k > 0 then TrimRight(s[..|s| - k]) else s
  }

  function TrimSpace(s: string): string {
    TrimRight(TrimLeft(s))
  }

  /** Position of the first `c`, or the length of `s`. */
  function IndexOf(s: string, c: char): (i: nat)
    ensures i <= |s| && c !in s[..i] && (i < |s| ==> s[i] == c)
  {
    if s == [] || s[0] == c then 0 else 1 + IndexOf(s[1..], c)
  }

  function DropCR(line: string): string {
    if line != [] && Last(line) == '\r' then Front(line) else line
  }

  /** What one field does to the event so far. */
  function Assign(st: Scanner, field: string, value: string): Scanner {
    if field == "event" then st.(name := value)
    else if field == "id" then st.(id := value)
    else if field == "data" then
      st.(data := Some(if st.data.Some? then st.data.value + "\n" + value else value))
    else st
  }

  /** What one line does to the scanner. */
  function Feed(st: Scanner, line: string): Scanner {
    if line == [] then
      if st.name == "" && st.id == "" then Idle(st.events)
      else Idle(st.events + [Event(st.name, st.id, if st.data.Some? then st.data.value else "")])
    else
      var i := IndexOf(line, ':');
      if i == |line| then st.(error := Some(Malformed(line)))
      else
        Assign(st, line[..i], TrimSpace(line[i + 1..]))
  }

  /** Scan `text` to its end or to the first error. */
  function ScanFrom(st: Scanner, text: string): Scanner
    decreases |text|
  {
    if st.error.Some? || text == [] then st
    else
      var n := IndexOf(text, '\n');
      if n >= MAX_TOKEN_SIZE then st.(error := Some(TooLong))
      else if n == |text| then Feed(st, DropCR(text))
      else ScanFrom(Feed(st, DropCR(text[..n])), text[n + 1..])
  }

  lemma ScanOneLine(st: Scanner, text: string)
    requires st.error.None? && text != [] && IndexOf(text, '\n') < MAX_TOKEN_SIZE
    ensures var n := IndexOf(text, '\n');
            ScanFrom(st, text) ==
            ScanFrom(Feed(st, DropCR(text[..n])), if n == |text| then [] else text[n + 1..])
  {
    var n := IndexOf(text, '\n');
    if n == |text| {
      assert text[..n] == text;
      assert ScanFrom(Feed(st, DropCR(text)), []) == Feed(st, DropCR(text));
    } else {
      assert ScanFrom(st, text) == ScanFrom(Feed(st, DropCR(text[..n])), text[n + 1..]);
    }
  }

  /** `scanEvents`: the events it yields, and the error it yields last, if any. */
  method ScanEvents(text: string) returns (events: seq<Event>, error: Option<ScanError>)
    ensures events == ScanFrom(Idle([]), text).events
    ensures error == ScanFrom(Idle([]), text).error
  {
    events := [];
    var name, id, dataBuf: Option<string> := "", "", None;
    var rest := text;
    while rest != []
      invariant ScanFrom(Scanner(name, id, dataBuf, events, None), rest) == ScanFrom(Idle([]), text)
      decreases |rest|
    {
      var n := IndexOf(rest, '\n');
      if n >= MAX_TOKEN_SIZE {
        return events, Some(TooLong);
      }
      var line := DropCR(rest[..n]);
      ghost var st := Scanner(name, id, dataBuf, events, None);
      ScanOneLine(st, rest);
      assert ScanFrom(Feed(st, line), if n == |rest| then [] else rest[n + 1..]) == ScanFrom(Idle([]), text);
      rest := if n == |rest| then [] else rest[n + 1..];
      if line == [] {
        if !(name == "" && id == "") {
          events := events + [Event(name, id, if dataBuf.Some? then dataBuf.value else "")];
        }
        name, id, dataBuf := "", "", None;
        assert Scanner(name, id, dataBuf, events, None) == Feed(st, line);
        continue;
      }
      var i := IndexOf(line, ':');
      if i == |line| {
        return events, Some(Malformed(line));
      }
      var before, after := line[..i], TrimSpace(line[i + 1..]);
      if before == "event" {
        name := after;
      } else if before == "id" {
        id := after;
      } else if before == "data" {
        if dataBuf.Some? {
          dataBuf := Some(dataBuf.value + "\n" + after);
        } else {
          dataBuf := Some(after);
        }
      }
      assert Scanner(name, id, dataBuf, events, None) == Feed(st, line);
    }
    error := None;
  }

  // ---- Printing ----

  /** What a GET response is made of. */
  datatype Item = Frame(id: string, data: string) | KeepAlive | Endpoint(path: string)

  /** Two lines and the blank line that ends an event. */
  function Block(line1: string, line2: string): string {
    line1 + "\n" + line2 + "\n\n"
  }

  /** A field and its value, as one line. */
  function Line(field: string, value: string): string {
    field + ": " + value
  }

  function PrintItem(item: Item): string {
    match item
    case Frame(id, data) => Block(Line("id", id), Line("data", data))
    case KeepAlive => ": keep-alive\n\n"
    case Endpoint(path) => Block(Line("event", "endpoint"), Line("data", path))
  }

  function Print(items: seq<Item>): string {
    if items == [] then "" else PrintItem(items[0]) + Print(items[1..])
  }

  /** One trimmed line of text, such as `json.Marshal` and the event ids produce. */
  predicate OneLine(s: string) {
    '\n' !in s && TrimSpace(s) == s
  }

  predicate Printable(item: Item) {
    match item
    case Frame(id, data) => OneLine(id) && OneLine(data)
    case KeepAlive => true
    case Endpoint(path) => OneLine(path)
  }

  /** Every line of the item is short enough for the scanner. */
  predicate Fits(item: Item) {
    match item
    case Frame(id, data) => |Line("id", id)| < MAX_TOKEN_SIZE && |Line("data", data)| < MAX_TOKEN_SIZE
    case KeepAlive => true
    case Endpoint(path) => |Line("data", path)| < MAX_TOKEN_SIZE
  }

  /** The event an item is for. */
  function EventOf(item: Item): seq<Event> {
    match item
    case Frame(id, data) => [Event("", id, data)]
    case KeepAlive => []
    case Endpoint(path) => [Event("endpoint", "", path)]
  }

  function EventsOf(items: seq<Item>): seq<Event> {
    if items == [] then [] else EventOf(items[0]) + EventsOf(items[1..])
  }

  // ---- Scanning what was printed ----

  lemma {:induction false} IndexOfConcat(a: string, c: char, b: string)
    requires c !in a
    ensures IndexOf(a + [c] + b, c) == |a|
  {
    if a == [] {
    } else {
      assert (a + [c] + b)[1..] == a[1..] + [c] + b;
      IndexOfConcat(a[1..], c, b);
    }
  }

  /** One complete line is fed to the scanner, or is too long for it. */
  lemma ScanLine(st: Scanner, line: string, rest: string)
    requires st.error.None? && '\n' !in line
    ensures ScanFrom(st, line + "\n" + rest) ==
            if |line| < 1048576 then ScanFrom(Feed(st, DropCR(line)), rest)
            else st.(error := Some(TooLong))
  {
    IndexOfConcat(line, '\n', rest);
    var text := line + "\n" + rest;
    assert text[..|line|] == line && text[|line| + 1..] == rest;
  }

  lemma {:induction false} TrimRightLength(s: string)
    ensures |TrimRight(s)| <= |s|
    decreases |s|
  {
    var k := SpaceAtEnd(s);
    if k == 0 {
    } else {
      TrimRightLength(s[..|s| - k]);
    }
  }

  lemma {:induction false} TrimLeftLength(s: string)
    ensures |TrimLeft(s)| <= |s|
    decreases |s|
  {
    var k := SpaceAtFront(s);
    if k == 0 {
    } else {
      TrimLeftLength(s[k..]);
    }
  }

  /** A string is trimmed exactly when it has no space at either end. */
  lemma TrimmedEnds(s: string)
    ensures TrimSpace(s) == s <==> SpaceAtFront(s) == 0 && SpaceAtEnd(s) == 0
  {
    var k, j := SpaceAtFront(s), SpaceAtEnd(s);
    if k > 0 {
      TrimLeftLength(s[k..]);
      TrimRightLength(TrimLeft(s));
    } else if j > 0 {
      TrimRightLength(s[..|s| - j]);
    }
  }

  predicate AllSpaces(s: string) {
    forall i :: 0 <= i < |s| ==> IsSpace(s[i])
  }

  lemma TrimLeftOne(c: char, s: string)
    requires IsSpace(c)
    ensures TrimLeft([c] + s) == TrimLeft(s)
  {
    var t := [c] + s;
    assert SpaceAtFront(t) == 1 && t[1..] == s;
  }

  lemma TrimRightOne(s: string, c: char)
    requires IsSpace(c)
    ensures TrimRight(s + [c]) == TrimRight(s)
  {
    var t := s + [c];
    assert SpaceAtEnd(t) == 1 && t[..|t| - 1] == s;
  }

  lemma {:induction false} TrimLeftOff(a: string, s: string)
    requires AllSpaces(a)
    ensures TrimLeft(a + s) == TrimLeft(s)
  {
    if a == [] {
      assert a + s == s;
    } else {
      assert a + s == [a[0]] + (a[1..] + s);
      TrimLeftOne(a[0], a[1..] + s);
      TrimLeftOff(a[1..], s);
    }
  }

  lemma {:induction false} TrimRightOff(s: string, b: string)
    requires AllSpaces(b)
    ensures TrimRight(s + b) == TrimRight(s)
    decreases |b|
  {
    if b == [] {
      assert s + b == s;
    } else {
      assert s + b == s + Front(b) + [Last(b)];
      TrimRightOne(s + Front(b), Last(b));
      TrimRightOff(s, Front(b));
    }
  }

  /** Spaces around a value are dropped, and nothing of the value. */
  lemma TrimOff(a: string, s: string, b: string)
    requires AllSpaces(a) && AllSpaces(b) && s != [] && TrimSpace(s) == s
    ensures TrimSpace(a + s + b) == s
  {
    TrimmedEnds(s);
    TrimLeftOff(a, s + b);
    assert a + s + b == a + (s + b);
    assert SpaceAtFront(s + b) == 0;
    TrimRightOff(s, b);
  }

  lemma PlainEnds(s: string)
    requires s != [] && s[0] < '\U{80}' && Last(s) < '\U{80}' && !IsSpace(s[0]) && !IsSpace(Last(s))
    ensures TrimSpace(s) == s
  {
    TrimmedEnds(s);
  }

  /** How the scanner takes a field line apart. */
  lemma SplitLine(field: string, value: string)
    requires ':' !in field && '\n' !in field && OneLine(value)
    ensures DropCR(Line(field, value)) == Line(field, value) && '\n' !in Line(field, value)
    ensures IndexOf(Line(field, value), ':') == |field|
    ensures Line(field, value)[..|field|] == field
    ensures TrimSpace(Line(field, value)[|field| + 1..]) == value
  {
    var line := Line(field, value);
    assert line == field + [':'] + (" " + value);
    IndexOfConcat(field, ':', " " + value);
    assert line[|field| + 1..] == " " + value;
    assert (" " + value)[1..] == value;
    assert SpaceAtFront(" " + value) == 1;
    TrimmedEnds(value);
    if value != [] {
      assert Last(line) == Last(value) && !IsSpace(Last(value));
    }
  }

  /** A line the scanner takes as it is. */
  predicate Plain(line: string) {
    line != [] && line[0] != '\r' && '\n' !in line && DropCR(line) == line
  }

  predicate IsField(field: string) {
    field == "event" || field == "id" || field == "data"
  }

  lemma FieldLine(st: Scanner, field: string, value: string)
    requires IsField(field) && OneLine(value)
    ensures Plain(Line(field, value)) && Feed(st, Line(field, value)) == Assign(st, field, value)
  {
    assert ':' !in field && '\n' !in field;
    SplitLine(field, value);
    assert Line(field, value)[0] == field[0];
  }

  /** Two lines and a blank one are fed one after the other. */
  lemma ScanBlock(st: Scanner, line1: string, line2: string, rest: string)
    requires Plain(line1) && Plain(line2) && |line1| < MAX_TOKEN_SIZE && |line2| < MAX_TOKEN_SIZE
    requires st.error.None? && Feed(st, line1).error.None? && Feed(Feed(st, line1), line2).error.None?
    ensures ScanFrom(st, Block(line1, line2) + rest) == ScanFrom(Feed(Feed(Feed(st, line1), line2), []), rest)
  {
    var text3 := [] + "\n" + rest;
    var text2 := line2 + "\n" + text3;
    BlockText(line1, line2, rest);
    ScanLine(st, line1, text2);
    ScanLine(Feed(st, line1), line2, text3);
    ScanLine(Feed(Feed(st, line1), line2), [], rest);
  }

  lemma BlockText(line1: string, line2: string, rest: string)
    ensures Block(line1, line2) + rest == line1 + "\n" + (line2 + "\n" + ([] + "\n" + rest))
  {
  }

  /** A frame yields its event, if it has an id, and leaves the scanner idle. */
  lemma ScanFrame(st: Scanner, id: string, data: string, rest: string)
    requires st == Idle(st.events) && Printable(Frame(id, data)) && Fits(Frame(id, data))
    ensures ScanFrom(st, PrintItem(Frame(id, data)) + rest) ==
            ScanFrom(Idle(st.events + if id == "" then [] else [Event("", id, data)]), rest)
  {
    FieldLine(st, "id", id);
    FieldLine(Assign(st, "id", id), "data", data);
    ScanBlock(st, Line("id", id), Line("data", data), rest);
    assert id == "" ==> st.events + [] == st.events;
  }

  lemma ScanKeepAlive(st: Scanner, rest: string)
    requires st == Idle(st.events)
    ensures ScanFrom(st, PrintItem(KeepAlive) + rest) == ScanFrom(st, rest)
  {
    var comment := ": keep-alive";
    assert PrintItem(KeepAlive) + rest == comment + "\n" + ([] + "\n" + rest);
    ScanLine(st, comment, [] + "\n" + rest);
    assert IndexOf(comment, ':') == 0 && DropCR(comment) == comment;
    assert comment[..0] == "";
    ScanLine(st, [], rest);
  }

  lemma EndpointIsOneLine()
    ensures OneLine("endpoint") && |Line("event", "endpoint")| < MAX_TOKEN_SIZE
  {
    var name := "endpoint";
    assert name[0] == 'e' && Last(name) == 't';
    PlainEnds(name);
  }

  lemma ScanEndpoint(st: Scanner, path: string, rest: string)
    requires st == Idle(st.events) && OneLine(path) && Fits(Endpoint(path))
    ensures ScanFrom(st, PrintItem(Endpoint(path)) + rest) ==
            ScanFrom(Idle(st.events + [Event("endpoint", "", path)]), rest)
  {
    EndpointIsOneLine();
    FieldLine(st, "event", "endpoint");
    FieldLine(Assign(st, "event", "endpoint"), "data", path);
    ScanBlock(st, Line("event", "endpoint"), Line("data", path), rest);
  }

  predicate Identified(item: Item) {
    item.Frame? ==> item.id != ""
  }

  predicate Sound(item: Item) {
    Printable(item) && Fits(item) && Identified(item)
  }

  predicate AllSound(items: seq<Item>) {
    forall i :: 0 <= i < |items| ==> Sound(items[i])
  }

  lemma ScanItem(st: Scanner, item: Item, rest: string)
    requires st == Idle(st.events) && Sound(item)
    ensures ScanFrom(st, PrintItem(item) + rest) == ScanFrom(Idle(st.events + EventOf(item)), rest)
  {
    match item
    case Frame(id, data) => ScanFrame(st, id, data, rest);
    case KeepAlive =>
      ScanKeepAlive(st, rest);
      assert st.events + [] == st.events;
    case Endpoint(path) => ScanEndpoint(st, path, rest);
  }

  /** An item that fits yields its event, unless it is a frame without an id. */
  lemma ScanFitting(st: Scanner, item: Item, rest: string)
    requires st == Idle(st.events) && Printable(item) && Fits(item)
    ensures ScanFrom(st, PrintItem(item) + rest) ==
            ScanFrom(Idle(st.events + if Identified(item) then EventOf(item) else []), rest)
  {
    if Identified(item) {
      ScanItem(st, item, rest);
    } else {
      ScanFrame(st, item.id, item.data, rest);
    }
  }

  lemma Reassociate<T>(a: seq<T>, b: seq<T>, c: seq<T>)
    ensures a + b + c == a + (b + c)
  {
  }

  lemma ScanBlockTooLong(st: Scanner, line1: string, line2: string, rest: string)
    requires Plain(line1) && Plain(line2) && (|line1| >= MAX_TOKEN_SIZE || |line2| >= MAX_TOKEN_SIZE)
    requires st.error.None? && Feed(st, line1).error.None? && Feed(st, line1).events == st.events
    ensures ScanFrom(st, Block(line1, line2) + rest).events == st.events
    ensures ScanFrom(st, Block(line1, line2) + rest).error == Some(TooLong)
  {
    var text3 := [] + "\n" + rest;
    BlockText(line1, line2, rest);
    ScanLine(st, line1, line2 + "\n" + text3);
    ScanLine(Feed(st, line1), line2, text3);
  }

  lemma FieldsTooLong(st: Scanner, field: string, value: string, data: string, rest: string)
    requires st.error.None? && IsField(field) && OneLine(value) && OneLine(data)
    requires |Line(field, value)| >= MAX_TOKEN_SIZE || |Line("data", data)| >= MAX_TOKEN_SIZE
    ensures ScanFrom(st, Block(Line(field, value), Line("data", data)) + rest).events == st.events
    ensures ScanFrom(st, Block(Line(field, value), Line("data", data)) + rest).error == Some(TooLong)
  {
    FieldLine(st, field, value);
    FieldLine(st, "data", data);
    ScanBlockTooLong(st, Line(field, value), Line("data", data), rest);
  }

  /** An item with an over-long line stops the scan without an event. */
  lemma ScanTooLong(st: Scanner, item: Item, rest: string)
    requires st == Idle(st.events) && Printable(item) && !Fits(item)
    ensures ScanFrom(st, PrintItem(item) + rest).events == st.events
    ensures ScanFrom(st, PrintItem(item) + rest).error == Some(TooLong)
  {
    match item
    case Frame(id, data) => FieldsTooLong(st, "id", id, data, rest);
    case Endpoint(path) =>
      EndpointIsOneLine();
      FieldsTooLong(st, "event", "endpoint", path, rest);
  }

  predicate AllFit(items: seq<Item>) {
    forall i :: 0 <= i < |items| ==> Fits(items[i])
  }

  predicate AllPrintable(items: seq<Item>) {
    forall i :: 0 <= i < |items| ==> Printable(items[i])
  }

  /** The events that survive: none without an id or name, none after an over-long line. */
  function Surviving(items: seq<Item>): seq<Event> {
    if items == [] || !Fits(items[0]) then []
    else (if Identified(items[0]) then EventOf(items[0]) else []) + Surviving(items[1..])
  }

  /** What scanning a print yields, for any printable items. */
  lemma {:induction false} ScanPrinted(st: Scanner, items: seq<Item>)
    requires st == Idle(st.events) && AllPrintable(items)
    ensures ScanFrom(st, Print(items)).events == st.events + Surviving(items)
    ensures ScanFrom(st, Print(items)).error.None? <==> AllFit(items)
    ensures AllFit(items) ==> ScanFrom(st, Print(items)) == Idle(st.events + Surviving(items))
    decreases |items|
  {
    if items == [] {
    } else if !Fits(items[0]) {
      ScanTooLong(st, items[0], Print(items[1..]));
    } else {
      var yielded := if Identified(items[0]) then EventOf(items[0]) else [];
      var st' := Idle(st.events + yielded);
      ScanFitting(st, items[0], Print(items[1..]));
      ScanPrinted(st', items[1..]);
      Reassociate(st.events, yielded, Surviving(items[1..]));
      assert AllFit(items) <==> AllFit(items[1..]);
    }
  }

  lemma {:induction false} SurvivingAll(items: seq<Item>)
    requires AllPrintable(items)
    ensures |Surviving(items)| <= |EventsOf(items)|
    ensures AllSound(items) ==> Surviving(items) == EventsOf(items)
    ensures AllFit(items) && !AllSound(items) ==> |Surviving(items)| < |EventsOf(items)|
  {
    if items == [] {
    } else {
      SurvivingAll(items[1..]);
      assert AllSound(items) ==> AllSound(items[1..]);
      assert Sound(items[0]) && AllSound(items[1..]) ==> AllSound(items);
    }
  }

  /**
   Round trip: for every sequence of single-line trimmed items, scanning the
   printed text yields exactly their events, in order and without an error, if
   and only if every frame has a non-empty id and every line fits the scanner.
   */
  lemma RoundTripIff(items: seq<Item>)
    requires AllPrintable(items)
    ensures ScanFrom(Idle([]), Print(items)) == Idle(EventsOf(items)) <==> AllSound(items)
  {
    ScanPrinted(Idle([]), items);
    SurvivingAll(items);
    assert [] + Surviving(items) == Surviving(items);
  }

  /**
   An event made of data alone is never yielded, though the standard dispatches
   it: the code looks at `evt.data` before it copies the buffer into it.
   */
  lemma DataOnlyEventIsDropped(data: string)
    requires OneLine(data) && |Line("data", data)| < MAX_TOKEN_SIZE
    ensures ScanFrom(Idle([]), Line("data", data) + "\n" + "\n") == Idle([])
  {
    FieldLine(Idle([]), "data", data);
    assert "\n" == [] + "\n" + [];
    ScanLine(Idle([]), Line("data", data), "\n");
    ScanLine(Idle([]).(data := Some(data)), [], []);
  }

  // ---- Any event, field by field ----

  datatype Field = Field(name: string, value: string)

  predicate FieldOk(f: Field) {
    ':' !in f.name && '\n' !in f.name && OneLine(f.value) && |Line(f.name, f.value)| < MAX_TOKEN_SIZE
  }

  predicate FieldsOk(fs: seq<Field>) {
    forall i :: 0 <= i < |fs| ==> FieldOk(fs[i])
  }

  function PrintFields(fs: seq<Field>): string {
    if fs == [] then "" else Line(fs[0].name, fs[0].value) + "\n" + PrintFields(fs[1..])
  }

  /** The values given to a field, in order. */
  function ValuesOf(fs: seq<Field>, name: string): seq<string> {
    if fs == [] then []
    else (if fs[0].name == name then [fs[0].value] else []) + ValuesOf(fs[1..], name)
  }

  function LastOr(values: seq<string>, default: string): string {
    if values == [] then default else Last(values)
  }

  function JoinLines(values: seq<string>): string {
    if values == [] then "" else if |values| == 1 then values[0] else values[0] + "\n" + JoinLines(values[1..])
  }

  /** The data so far and more lines. */
  function Joined(data: Option<string>, values: seq<string>): Option<string> {
    if values == [] then data
    else Some(JoinLines(if data.Some? then [data.value] + values else values))
  }

  /** The scanner behind the fields: the last name and id, and all data lines. */
  function WithFields(st: Scanner, fs: seq<Field>): Scanner {
    st.(name := LastOr(ValuesOf(fs, "event"), st.name), id := LastOr(ValuesOf(fs, "id"), st.id),
        data := Joined(st.data, ValuesOf(fs, "data")))
  }

  lemma JoinLinesFirst(a: string, b: string, values: seq<string>)
    ensures JoinLines([a + "\n" + b] + values) == JoinLines([a, b] + values)
  {
    assert ([a, b] + values)[1..] == [b] + values;
    assert ([a + "\n" + b] + values)[1..] == values && ([b] + values)[1..] == values;
    if values != [] {
      assert a + "\n" + b + "\n" + JoinLines(values) == a + "\n" + (b + "\n" + JoinLines(values));
    }
  }

  lemma JoinedFirst(data: Option<string>, value: string, values: seq<string>)
    ensures Joined(data, [value] + values) ==
            Joined(Some(if data.Some? then data.value + "\n" + value else value), values)
  {
    assert [value] + [] == [value];
    if data.Some? {
      JoinLinesFirst(data.value, value, values);
      assert [data.value] + ([value] + values) == [data.value, value] + values;
      assert [data.value + "\n" + value] + [] == [data.value + "\n" + value];
    }
  }

  lemma LastOrFirst(value: string, values: seq<string>, default: string)
    ensures LastOr([value] + values, default) == LastOr(values, value)
  {
  }

  lemma ValuesFirst(f: Field, fs: seq<Field>, name: string)
    ensures ValuesOf([f] + fs, name) == if f.name == name then [f.value] + ValuesOf(fs, name) else ValuesOf(fs, name)
  {
    assert ([f] + fs)[1..] == fs && [] + ValuesOf(fs, name) == ValuesOf(fs, name);
  }

  lemma WithFirst(st: Scanner, f: Field, fs: seq<Field>)
    ensures WithFields(st, [f] + fs) == WithFields(Assign(st, f.name, f.value), fs)
  {
    ValuesFirst(f, fs, "event");
    ValuesFirst(f, fs, "id");
    ValuesFirst(f, fs, "data");
    if f.name == "event" {
      LastOrFirst(f.value, ValuesOf(fs, "event"), st.name);
    } else if f.name == "id" {
      LastOrFirst(f.value, ValuesOf(fs, "id"), st.id);
    } else if f.name == "data" {
      JoinedFirst(st.data, f.value, ValuesOf(fs, "data"));
    }
  }

  lemma FeedField(st: Scanner, f: Field, rest: string)
    requires st.error.None? && FieldOk(f)
    ensures ScanFrom(st, Line(f.name, f.value) + "\n" + rest) == ScanFrom(Assign(st, f.name, f.value), rest)
  {
    SplitLine(f.name, f.value);
    ScanLine(st, Line(f.name, f.value), rest);
    assert Feed(st, Line(f.name, f.value)) == Assign(st, f.name, f.value);
  }

  lemma PrintFirst(f: Field, fs: seq<Field>, rest: string)
    ensures PrintFields([f] + fs) + rest == Line(f.name, f.value) + "\n" + (PrintFields(fs) + rest)
  {
    assert ([f] + fs)[1..] == fs;
  }

  lemma {:induction false} ScanFields(st: Scanner, fs: seq<Field>, rest: string)
    requires st.error.None? && FieldsOk(fs)
    ensures ScanFrom(st, PrintFields(fs) + rest) == ScanFrom(WithFields(st, fs), rest)
    decreases |fs|
  {
    if fs == [] {
      assert "" + rest == rest;
    } else {
      var f, more := fs[0], fs[1..];
      assert fs == [f] + more;
      PrintFirst(f, more, rest);
      FeedField(st, f, PrintFields(more) + rest);
      ScanFields(Assign(st, f.name, f.value), more, rest);
      WithFirst(st, f, more);
    }
  }

  /**
   Any fields in any order, with a blank line, yield one event: the last name, the
   last id, and all data lines joined by newlines; other fields do not count, and
   without a name and an id there is no event.
   */
  lemma EventOfFields(events: seq<Event>, fs: seq<Field>, rest: string)
    requires FieldsOk(fs)
    ensures var name, id := LastOr(ValuesOf(fs, "event"), ""), LastOr(ValuesOf(fs, "id"), "");
            var event := Event(name, id, JoinLines(ValuesOf(fs, "data")));
            ScanFrom(Idle(events), PrintFields(fs) + ("\n" + rest)) ==
            ScanFrom(Idle(if name == "" && id == "" then events else events + [event]), rest)
  {
    ScanFields(Idle(events), fs, "\n" + rest);
    ScanBlank(WithFields(Idle(events), fs), rest);
    DataOf(fs);
  }

  lemma ScanBlank(st: Scanner, rest: string)
    requires st.error.None?
    ensures ScanFrom(st, "\n" + rest) == ScanFrom(Feed(st, []), rest)
  {
    assert [] + "\n" + rest == "\n" + rest;
    ScanLine(st, [], rest);
  }

  lemma DataOf(fs: seq<Field>)
    ensures var data := Joined(None, ValuesOf(fs, "data"));
            (if data.Some? then data.value else "") == JoinLines(ValuesOf(fs, "data"))
  {
  }

  /** Lines may end in a carriage return and a newline as well. */
  lemma CarriageReturnIsDropped(st: Scanner, line: string, rest: string)
    requires st.error.None? && '\n' !in line && '\r' !in line && |line| + 1 < MAX_TOKEN_SIZE
    ensures ScanFrom(st, line + "\r" + "\n" + rest) == ScanFrom(st, line + "\n" + rest)
  {
    ScanLine(st, line + "\r", rest);
    ScanLine(st, line, rest);
    assert DropCR(line + "\r") == line;
    assert DropCR(line) == line;
  }

  /** A line without a colon ends the scan with an error; what was yielded before it stays. */
  lemma MalformedLineStops(st: Scanner, line: string, rest: string)
    requires st.error.None? && '\n' !in line && ':' !in line && |line| < MAX_TOKEN_SIZE && DropCR(line) != []
    ensures ScanFrom(st, line + "\n" + rest) == st.(error := Some(Malformed(DropCR(line))))
  {
    ScanLine(st, line, rest);
    assert ':' !in DropCR(line);
  }

  // ---- A connection cut at any byte ----

  /** No blank line in the text, finished or not. */
  ghost predicate NoBlankLine(text: string) {
    && (text != [] ==> text[0] != '\n' && text[0] != '\r')
    && (forall i :: 0 <= i < |text| - 1 && text[i] == '\n' ==> text[i + 1] != '\n' && text[i + 1] != '\r')
  }

  lemma NoBlankLineAfter(text: string, n: nat)
    requires NoBlankLine(text) && n < |text| && text[n] == '\n'
    ensures NoBlankLine(text[n + 1..])
  {
    var rest := text[n + 1..];
    assert rest != [] ==> rest[0] == text[n + 1];
    forall i | 0 <= i < |rest| - 1 && rest[i] == '\n'
      ensures rest[i + 1] != '\n' && rest[i + 1] != '\r'
    {
      assert text[n + 1 + i] == '\n' && rest[i + 1] == text[n + 1 + i + 1];
    }
  }

  /** Only a blank line yields an event. */
  lemma FeedNonBlank(st: Scanner, line: string)
    requires line != [] && line[0] != '\r'
    ensures Feed(st, DropCR(line)).events == st.events
  {
    assert DropCR(line) != [];
  }

  lemma {:induction false} NoBlankLineNoEvent(st: Scanner, text: string)
    requires NoBlankLine(text)
    ensures ScanFrom(st, text).events == st.events
    decreases |text|
  {
    if st.error.None? && text != [] {
      var n := IndexOf(text, '\n');
      if n < MAX_TOKEN_SIZE {
        assert text[..n] != [] && text[..n][0] == text[0];
        FeedNonBlank(st, text[..n]);
        if n == |text| {
          assert text[..n] == text;
        } else {
          NoBlankLineAfter(text, n);
          NoBlankLineNoEvent(Feed(st, DropCR(text[..n])), text[n + 1..]);
        }
      }
    }
  }

  /** Only its last two bytes end a block, so a shorter prefix has no blank line. */
  lemma BlockPrefixNoBlankLine(line1: string, line2: string, k: nat)
    requires Plain(line1) && Plain(line2) && k < |Block(line1, line2)|
    ensures NoBlankLine(Block(line1, line2)[..k])
  {
    var block := Block(line1, line2);
    assert block[|line1| + 1] == line2[0];
    assert forall i :: 0 <= i < |line1| ==> block[i] == line1[i];
    assert forall i :: 0 <= i < |line2| ==> block[|line1| + 1 + i] == line2[i];
    assert forall i :: 0 <= i < |block| - 2 && block[i] == '\n' ==> i == |line1|;
  }

  lemma KeepAlivePrefix(k: nat)
    requires k < |PrintItem(KeepAlive)|
    ensures NoBlankLine(PrintItem(KeepAlive)[..k])
  {
    var comment := ": keep-alive";
    var text := PrintItem(KeepAlive);
    assert text == comment + "\n\n";
    assert forall i :: 0 <= i < |comment| ==> text[i] == comment[i] && comment[i] != '\n';
  }

  lemma ItemPrefixNoBlankLine(item: Item, k: nat)
    requires Printable(item) && k < |PrintItem(item)|
    ensures NoBlankLine(PrintItem(item)[..k])
  {
    match item
    case Frame(id, data) =>
      FieldLine(Idle([]), "id", id);
      FieldLine(Idle([]), "data", data);
      BlockPrefixNoBlankLine(Line("id", id), Line("data", data), k);
    case KeepAlive => KeepAlivePrefix(k);
    case Endpoint(path) =>
      EndpointIsOneLine();
      FieldLine(Idle([]), "event", "endpoint");
      FieldLine(Idle([]), "data", path);
      BlockPrefixNoBlankLine(Line("event", "endpoint"), Line("data", path), k);
  }

  /** How many of the items are wholly within the first `k` bytes of their print. */
  function Whole(items: seq<Item>, k: nat): (n: nat)
    ensures n <= |items|
  {
    if items == [] || k < |PrintItem(items[0])| then 0
    else 1 + Whole(items[1..], k - |PrintItem(items[0])|)
  }

  lemma CutInFirstItem(st: Scanner, items: seq<Item>, k: nat)
    requires items != [] && Printable(items[0]) && k < |PrintItem(items[0])|
    ensures ScanFrom(st, Print(items)[..k]).events == st.events
  {
    assert Print(items)[..k] == PrintItem(items[0])[..k];
    ItemPrefixNoBlankLine(items[0], k);
    NoBlankLineNoEvent(st, PrintItem(items[0])[..k]);
  }

  /** Cut behind the first item: its event was yielded, or it was too long and the scan is over. */
  lemma CutAfterFirstItem(st: Scanner, items: seq<Item>, k: nat)
    requires st == Idle(st.events) && items != [] && Printable(items[0])
    requires |PrintItem(items[0])| <= k <= |Print(items)|
    ensures Fits(items[0]) ==>
              ScanFrom(st, Print(items)[..k]) ==
              ScanFrom(Idle(st.events + if Identified(items[0]) then EventOf(items[0]) else []),
                       Print(items[1..])[..k - |PrintItem(items[0])|])
    ensures !Fits(items[0]) ==> ScanFrom(st, Print(items)[..k]).events == st.events
  {
    var head, tail := PrintItem(items[0]), Print(items[1..]);
    assert Print(items)[..k] == head + tail[..k - |head|];
    if Fits(items[0]) {
      ScanFitting(st, items[0], tail[..k - |head|]);
    } else {
      ScanTooLong(st, items[0], tail[..k - |head|]);
    }
  }

  lemma WholeSurvive(items: seq<Item>, k: nat)
    requires items != [] && |PrintItem(items[0])| <= k
    ensures Surviving(items[..Whole(items, k)]) ==
            if !Fits(items[0]) then []
            else
              (if Identified(items[0]) then EventOf(items[0]) else [])
              + Surviving(items[1..][..Whole(items[1..], k - |PrintItem(items[0])|)])
  {
    var n := Whole(items, k);
    assert items[..n][0] == items[0] && items[..n][1..] == items[1..][..n - 1];
  }

  /**
   A connection that breaks after any number of bytes has delivered exactly the
   events that survive of the items it carried completely: a half-received one is
   never yielded, whatever else its bytes make the scanner say, and nothing is
   yielded from an over-long line on.
   */
  lemma {:induction false} CutDeliversWholeItems(st: Scanner, items: seq<Item>, k: nat)
    requires st == Idle(st.events) && AllPrintable(items) && k <= |Print(items)|
    ensures ScanFrom(st, Print(items)[..k]).events == st.events + Surviving(items[..Whole(items, k)])
    decreases |items|
  {
    if items == [] {
    } else if k < |PrintItem(items[0])| {
      CutInFirstItem(st, items, k);
      assert items[..0] == [];
    } else {
      var k' := k - |PrintItem(items[0])|;
      CutAfterFirstItem(st, items, k);
      WholeSurvive(items, k);
      if Fits(items[0]) {
        var yielded := if Identified(items[0]) then EventOf(items[0]) else [];
        CutDeliversWholeItems(Idle(st.events + yielded), items[1..], k');
        Reassociate(st.events, yielded, Surviving(items[1..][..Whole(items[1..], k')]));
      }
    }
  }
}
