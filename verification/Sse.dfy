/** Server-sent events: the printer of the server and the incremental reader of its client script. */
module Sse {

  datatype Option<T> = None | Some(value: T)

  // ----- the printer -----

  function Digits(n: nat): (s: string)
    ensures s != "" && forall i :: 0 <= i < |s| ==> '0' <= s[i] <= '9'
  {
    if n < 10 then ['0' + n as char] else Digits(n / 10) + ['0' + (n % 10) as char]
  }

  /** The %ld conversion. */
  function Decimal(id: int): (s: string)
    ensures s != "" && '\n' !in s
  {
    if id < 0 then "-" + Digits(-id) else Digits(id)
  }

  /** What the arguments of `sse_format_event` stand for: an empty name and a missing text have defaults. */
  function NameOf(event: string): (e: string)
    ensures e != ""
  {
    if event == "" then "message" else event
  }

  function DataOf(data: Option<string>): string {
    if data.None? then "null" else data.value
  }

  function Block(id: int, event: string, data: string): string {
    ("id: " + Decimal(id)) + "\n" + ("event: " + event) + "\n" + ("data: " + data)
  }

  /** `sse_format_event`: None when the text does not fit. */
  function Format(outSize: nat, id: int, event: string, data: Option<string>): Option<string> {
    var text := Block(id, NameOf(event), DataOf(data)) + "\n\n";
    if |text| >= outSize then None else Some(text)
  }

  /** The seven bytes that the heartbeat really sends. */
  const PING := ": ping\n"

  /** What the server does to a connection, in order. */
  datatype Item = Ping | Event(id: int, name: string, data: Option<string>)

  /** The bytes of an item; an event that does not fit is not sent. */
  function ItemText(outSize: nat, item: Item): string {
    match item
    case Ping => PING
    case Event(id, name, data) =>
      var f := Format(outSize, id, name, data);
      if f.Some? then f.value else ""
  }

  function Sent(outSize: nat, items: seq<Item>): string {
    if items == [] then "" else ItemText(outSize, items[0]) + Sent(outSize, items[1..])
  }

  // ----- the reader -----

  /** id holds the text that the script passes to Number. */
  datatype SseEvent = SseEvent(id: Option<string>, event: Option<string>, data: Option<string>)

  const BLANK := SseEvent(None, None, None)

  function IndexOf(s: string, c: char): (i: int)
    ensures -1 <= i < |s|
    ensures i >= 0 ==> s[i] == c && c !in s[..i]
    ensures i < 0 <==> c !in s
  {
    if s == "" then -1
    else if s[0] == c then 0
    else
      var i := IndexOf(s[1..], c);
      if i < 0 then -1 else i + 1
  }

  /** The lines of a text: split("\n"). */
  function Lines(s: string): (ls: seq<string>)
    ensures ls != []
    decreases |s|
  {
    var i := IndexOf(s, '\n');
    if i < 0 then [s] else [s[..i]] + Lines(s[i + 1..])
  }

  function Value(line: string, idx: nat): string
    requires idx < |line|
  {
    var v := line[idx + 1..];
    if v != "" && v[0] == ' ' then v[1..] else v
  }

  /** The effect of one line of a block. */
  function Apply(ev: SseEvent, line: string): SseEvent {
    if line == "" || line[0] == ':' then ev
    else
      var idx := IndexOf(line, ':');
      if idx < 0 then ev
      else
        var v := Value(line, idx);
        if line[..idx] == "id" then ev.(id := Some(v))
        else if line[..idx] == "event" then ev.(event := Some(v))
        else if line[..idx] == "data" then
          ev.(data := Some(if ev.data.None? then v else ev.data.value + "\n" + v))
        else ev
  }

  function ApplyAll(ev: SseEvent, ls: seq<string>): SseEvent {
    if ls == [] then ev else Apply(ApplyAll(ev, ls[..|ls| - 1]), ls[|ls| - 1])
  }

  function Parsed(block: string): Option<SseEvent> {
    var ev := ApplyAll(BLANK, Lines(block));
    if ev == BLANK then None else Some(ev)
  }

  lemma ApplyNone()
    ensures ApplyAll(BLANK, []) == BLANK
  {
  }

  lemma ApplyNext(ls: seq<string>, i: nat)
    requires i < |ls|
    ensures ApplyAll(BLANK, ls[..i + 1]) == Apply(ApplyAll(BLANK, ls[..i]), ls[i])
  {
    assert ls[..i + 1][..i] == ls[..i];
  }

  /** `parseBlock`. */
  method ParseBlock(block: string) returns (r: Option<SseEvent>)
    ensures r == Parsed(block)
  {
    var ev := BLANK;
    var hasField := false;
    var lines := Lines(block);
    hide ApplyAll;
    ApplyNone();
    for i := 0 to |lines|
      invariant ev == ApplyAll(BLANK, lines[..i])
      invariant hasField <==> ev != BLANK
    {
      ApplyNext(lines, i);
      var line := lines[i];
      if line == "" || line[0] == ':' { continue; }
      var idx := IndexOf(line, ':');
      if idx < 0 { continue; }
      var field := line[..idx];
      var value := line[idx + 1..];
      if value != "" && value[0] == ' ' { value := value[1..]; }
      if field == "id" {
        ev := ev.(id := Some(value));
        hasField := true;
      } else if field == "event" {
        ev := ev.(event := Some(value));
        hasField := true;
      } else if field == "data" {
        ev := ev.(data := Some(if ev.data.None? then value else ev.data.value + "\n" + value));
        hasField := true;
      }
    }
    assert lines[..|lines|] == lines;
    r := if hasField then Some(ev) else None;
  }

  predicate GapAt(s: string, i: int) {
    0 <= i && i + 1 < |s| && s[i] == '\n' && s[i + 1] == '\n'
  }

  /** indexOf("\n\n"). */
  function FirstGap(s: string): (i: int)
    ensures -1 <= i
    ensures i >= 0 ==> i + 2 <= |s| && GapAt(s, i)
    ensures forall j :: GapAt(s, j) ==> 0 <= i <= j
  {
    if |s| < 2 then -1
    else if GapAt(s, 0) then 0
    else
      var i := FirstGap(s[1..]);
      assert forall j :: GapAt(s, j) ==> j > 0 && GapAt(s[1..], j - 1);
      if i < 0 then -1 else i + 1
  }

  /** All the events of the complete blocks of a text, and what is left behind them. */
  function EventsOf(text: string): (r: seq<SseEvent>)
    decreases |text|
  {
    var sep := FirstGap(text);
    if sep < 0 then []
    else First(text[..sep]) + EventsOf(text[sep + 2..])
  }

  function RestOf(text: string): (r: string)
    ensures FirstGap(r) < 0
    decreases |text|
  {
    var sep := FirstGap(text);
    if sep < 0 then text else RestOf(text[sep + 2..])
  }

  function Joined(chunks: seq<string>): string {
    if chunks == [] then "" else Joined(chunks[..|chunks| - 1]) + chunks[|chunks| - 1]
  }

  function Take<T>(s: seq<T>, n: nat): seq<T> {
    if |s| <= n then s else s[..n]
  }

  lemma GapStays(a: string, b: string)
    requires FirstGap(a) >= 0
    ensures FirstGap(a + b) == FirstGap(a)
  {
    assert GapAt(a + b, FirstGap(a));
    assert GapAt(a, FirstGap(a + b));
  }

  /** A chunk adds the events of what was left over and of itself. */
  lemma {:induction false} EventsAppend(a: string, b: string)
    ensures EventsOf(a + b) == EventsOf(a) + EventsOf(RestOf(a) + b)
    ensures RestOf(a + b) == RestOf(RestOf(a) + b)
    decreases |a|
  {
    var sep := FirstGap(a);
    if sep >= 0 {
      GapStays(a, b);
      assert (a + b)[..sep] == a[..sep] && (a + b)[sep + 2..] == a[sep + 2..] + b;
      EventsAppend(a[sep + 2..], b);
    }
  }

  function First(block: string): seq<SseEvent> {
    match Parsed(block) case None => [] case Some(ev) => [ev]
  }

  /** The inner loop of `readSse`: takes the complete blocks off the buffer until count is reached. */
  method TakeBlocks(had: seq<SseEvent>, text: string, count: nat) returns (events: seq<SseEvent>, buf: string)
    requires |had| < count
    ensures events == Take(had + EventsOf(text), count)
    ensures |events| < count ==> buf == RestOf(text)
  {
    hide GapAt, Parsed;
    events, buf := had, text;
    var sep := FirstGap(buf);
    while sep >= 0
      invariant |events| < count && sep == FirstGap(buf)
      invariant had + EventsOf(text) == events + EventsOf(buf)
      invariant RestOf(text) == RestOf(buf)
      decreases |buf|
    {
      var block := buf[..sep];
      ghost var more := EventsOf(buf[sep + 2..]);
      ghost var were := events;
      assert sep + 2 <= |buf| && EventsOf(buf) == First(block) + more;
      assert RestOf(buf) == RestOf(buf[sep + 2..]);
      buf := buf[sep + 2..];
      var ev := ParseBlock(block);
      if ev.Some? {
        events := events + [ev.value];
      }
      assert were + (First(block) + more) == events + more;
      if |events| >= count {
        return;
      }
      sep := FirstGap(buf);
    }
  }

  /** The loop of `readSse`.  However the stream is cut into chunks, the reader returns the events
      of the whole text, up to count. */
  method ReadSse(chunks: seq<string>, count: nat) returns (events: seq<SseEvent>)
    ensures events == Take(EventsOf(Joined(chunks)), count)
  {
    hide EventsOf, RestOf;
    events := [];
    var buf := "";
    var next := 0;
    NothingYet();
    while |events| < count && next < |chunks|
      invariant next <= |chunks|
      invariant events == Take(EventsOf(Joined(chunks[..next])), count)
      invariant |events| < count ==> buf == RestOf(Joined(chunks[..next]))
    {
      assert chunks[..next + 1][..next] == chunks[..next];
      EventsAppend(Joined(chunks[..next]), chunks[next]);
      buf := buf + chunks[next];
      next := next + 1;
      events, buf := TakeBlocks(events, buf, count);
    }
    if next == |chunks| {
      assert chunks[..next] == chunks;
    } else {
      Prefixes(chunks, next);
      ghost var early, all := EventsOf(Joined(chunks[..next])), EventsOf(Joined(chunks));
      assert all == early + all[|early|..];
    }
  }

  lemma NothingYet()
    ensures EventsOf("") == [] && RestOf("") == ""
  {
  }

  /** The events of a longer text start with those of a shorter one. */
  lemma {:induction false} Prefixes(chunks: seq<string>, n: nat)
    requires n <= |chunks|
    ensures EventsOf(Joined(chunks[..n])) <= EventsOf(Joined(chunks))
    decreases |chunks| - n
  {
    if n == |chunks| {
      assert chunks[..n] == chunks;
    } else {
      assert chunks[..n + 1][..n] == chunks[..n];
      EventsAppend(Joined(chunks[..n]), chunks[n]);
      Prefixes(chunks, n + 1);
    }
  }

  // ----- what the reader makes of what the printer sends -----

  predicate Line(l: string) {
    l != "" && '\n' !in l
  }

  predicate AllLines(ls: seq<string>) {
    forall i :: 0 <= i < |ls| ==> Line(ls[i])
  }

  function Terminated(ls: seq<string>): string {
    if ls == [] then "" else Terminated(ls[..|ls| - 1]) + ls[|ls| - 1] + "\n"
  }

  ghost predicate NoGaps(t: string) {
    forall j :: !GapAt(t, j)
  }

  lemma OneMoreLine(u: string, w: string)
    requires NoGaps(u) && u != "" && u[|u| - 1] != '\n' && Line(w)
    ensures NoGaps(u + "\n" + w)
  {
    var t := u + "\n" + w;
    forall j | 0 <= j && j + 1 < |t| ensures t[j] != '\n' || t[j + 1] != '\n' {
      if j + 1 < |u| {
        assert !GapAt(u, j);
      } else if j == |u| {
        assert t[j + 1] == w[0];
      } else if j > |u| {
        assert t[j] == w[j - |u| - 1];
      }
    }
  }

  /** Nonempty lines make no gap. */
  lemma {:induction false} NoGap(ls: seq<string>, last: string)
    requires AllLines(ls) && Line(last)
    ensures var t := Terminated(ls) + last; t[|t| - 1] != '\n' && NoGaps(t)
  {
    var t := Terminated(ls) + last;
    assert t[|t| - 1] == last[|last| - 1];
    if ls == [] {
      assert t == last;
    } else {
      var front, l := ls[..|ls| - 1], ls[|ls| - 1];
      NoGap(front, l);
      OneMoreLine(Terminated(front) + l, last);
      assert t == Terminated(front) + l + "\n" + last;
    }
  }

  lemma BlockEnds(ls: seq<string>, last: string, rest: string)
    requires AllLines(ls) && Line(last)
    ensures FirstGap(Terminated(ls) + last + "\n\n" + rest) == |Terminated(ls) + last|
  {
    var t := Terminated(ls) + last;
    var text := t + "\n\n" + rest;
    assert GapAt(text, |t|);
    NoGap(ls, last);
    forall j | 0 <= j < |t| ensures !GapAt(text, j) {
      assert text[j] == t[j] && (j + 1 < |t| ==> text[j + 1] == t[j + 1]) && !GapAt(t, j);
    }
  }

  lemma {:induction false} IndexOfIs(s: string, c: char, k: nat)
    requires k < |s| && s[k] == c && c !in s[..k]
    ensures IndexOf(s, c) == k
  {
    if k > 0 {
      assert s[0] in s[..k];
      assert s[1..][..k - 1] == s[..k][1..];
      IndexOfIs(s[1..], c, k - 1);
    }
  }

  lemma FirstLine(l: string, rest: string)
    requires '\n' !in l
    ensures Lines(l + "\n" + rest) == [l] + Lines(rest) && Lines(l) == [l]
  {
    var s := l + "\n" + rest;
    assert s[..|l|] == l && s[|l| + 1..] == rest;
    IndexOfIs(s, '\n', |l|);
  }

  lemma {:induction false} LinesOfTerminated(ls: seq<string>, rest: string)
    requires AllLines(ls)
    ensures Lines(Terminated(ls) + rest) == ls + Lines(rest)
  {
    hide Lines;
    if ls == [] {
      assert Terminated(ls) + rest == rest;
    } else {
      var front, l := ls[..|ls| - 1], ls[|ls| - 1];
      assert Line(l);
      FourParts(Terminated(front), l, "\n", rest);
      LinesOfTerminated(front, l + "\n" + rest);
      FirstLine(l, rest);
      assert front + ([l] + Lines(rest)) == ls + Lines(rest);
    }
  }

  lemma FourParts(a: string, b: string, c: string, d: string)
    ensures a + b + c + d == a + (b + c + d)
  {
  }

  lemma FieldLine(ev: SseEvent, field: string, v: string)
    requires field != "" && ':' !in field
    ensures Apply(ev, field + ": " + v)
         == if field == "id" then ev.(id := Some(v))
            else if field == "event" then ev.(event := Some(v))
            else if field == "data" then ev.(data := Some(if ev.data.None? then v else ev.data.value + "\n" + v))
            else ev
  {
    var line := field + ": " + v;
    assert line[..|field|] == field && line[|field| + 1..] == " " + v;
    IndexOfIs(line, ':', |field|);
  }

  lemma {:induction false} CommentsIgnored(ls: seq<string>)
    requires forall i :: 0 <= i < |ls| ==> ls[i] == ": ping"
    ensures ApplyAll(BLANK, ls) == BLANK
  {
    if ls != [] {
      CommentsIgnored(ls[..|ls| - 1]);
    }
  }

  /** The event as the server was asked to send it: the given name and data, or "message" and "null" if
      there are none. */
  function Seen(id: int, name: string, data: Option<string>): SseEvent {
    SseEvent(Some(Decimal(id)), if |name| > 0 then Some(name) else Some("message"), if data.Some? then data else Some("null"))
  }

  /** The text of the event, with 21 bytes around id, name and data, leaves room for a terminator. */
  predicate Fits(outSize: nat, id: int, name: string, data: Option<string>) {
    21 + |Decimal(id)| + (if name != "" then |name| else 7) + (if data.Some? then |data.value| else 4) < outSize
  }

  /** An event is sent if and only if it fits. */
  lemma SentIffFits(outSize: nat, id: int, name: string, data: Option<string>)
    ensures ItemText(outSize, Event(id, name, data)) != "" <==> Fits(outSize, id, name, data)
  {
    hide Decimal;
  }

  /** The lines of a block in front of its last one. */
  function Heading(pings: seq<string>, id: int, name: string): seq<string> {
    pings + ["id: " + Decimal(id)] + ["event: " + name]
  }

  lemma OneMore(ls: seq<string>, l: string)
    ensures Terminated(ls + [l]) == Terminated(ls) + l + "\n"
    ensures ApplyAll(BLANK, ls + [l]) == Apply(ApplyAll(BLANK, ls), l)
  {
    assert (ls + [l])[..|ls|] == ls;
  }

  lemma BlockText(pings: seq<string>, id: int, name: string, data: string)
    ensures Terminated(pings) + Block(id, name, data) == Terminated(Heading(pings, id, name)) + ("data: " + data)
  {
    hide Terminated, Decimal, Apply, ApplyAll;
    var l1, l2 := "id: " + Decimal(id), "event: " + name;
    OneMore(pings, l1);
    OneMore(pings + [l1], l2);
  }

  lemma HeadingLines(pings: seq<string>, id: int, name: string)
    requires forall i :: 0 <= i < |pings| ==> pings[i] == ": ping"
    requires '\n' !in name
    ensures AllLines(Heading(pings, id, name))
  {
    hide Decimal;
    assert Line("id: " + Decimal(id)) && Line("event: " + name) && Line(": ping");
  }

  lemma HeadingIsRead(pings: seq<string>, id: int, name: string)
    requires forall i :: 0 <= i < |pings| ==> pings[i] == ": ping"
    ensures ApplyAll(BLANK, Heading(pings, id, name)) == SseEvent(Some(Decimal(id)), Some(name), None)
  {
    hide Terminated, Decimal, Apply, ApplyAll;
    var l1, l2 := "id: " + Decimal(id), "event: " + name;
    OneMore(pings, l1);
    OneMore(pings + [l1], l2);
    assert "id: " == "id" + ": " && "event: " == "event" + ": ";
    CommentsIgnored(pings);
    FieldLine(BLANK, "id", Decimal(id));
    FieldLine(BLANK.(id := Some(Decimal(id))), "event", name);
  }

  /** The three lines of an event, after any number of heartbeats. */
  lemma BlockIsRead(pings: seq<string>, id: int, name: string, data: string)
    requires forall i :: 0 <= i < |pings| ==> pings[i] == ": ping"
    requires '\n' !in name && '\n' !in data
    ensures Parsed(Terminated(pings) + Block(id, name, data)) == Some(SseEvent(Some(Decimal(id)), Some(name), Some(data)))
  {
    hide Terminated, Heading, Block, Apply, ApplyAll, Lines, Decimal;
    var ls, l3 := Heading(pings, id, name), "data: " + data;
    BlockText(pings, id, name, data);
    HeadingLines(pings, id, name);
    assert "data: " == "data" + ": ";
    LinesOfTerminated(ls, l3);
    FirstLine(l3, "");
    OneMore(ls, l3);
    HeadingIsRead(pings, id, name);
    FieldLine(ApplyAll(BLANK, ls), "data", data);
  }

  predicate OneLine(item: Item) {
    item.Event? ==> '\n' !in item.name && (item.data.Some? ==> '\n' !in item.data.value)
  }

  /** The events that the client should see. */
  function Expected(outSize: nat, items: seq<Item>): seq<SseEvent> {
    if items == [] then []
    else
      (match items[0]
       case Ping => []
       case Event(id, name, data) => if Fits(outSize, id, name, data) then [Seen(id, name, data)] else [])
      + Expected(outSize, items[1..])
  }

  lemma {:induction false} EventsAreRead(outSize: nat, pings: seq<string>, items: seq<Item>)
    requires forall i :: 0 <= i < |pings| ==> pings[i] == ": ping"
    requires forall i :: 0 <= i < |items| ==> OneLine(items[i])
    ensures EventsOf(Terminated(pings) + Sent(outSize, items)) == Expected(outSize, items)
    decreases items
  {
    hide Block;
    if items == [] {
      OnlyPings(pings);
      assert Terminated(pings) + "" == Terminated(pings);
    } else {
      var rest := Sent(outSize, items[1..]);
      match items[0] {
        case Ping =>
          var more := pings + [": ping"];
          assert more[..|pings|] == pings;
          assert Terminated(pings) + (PING + rest) == Terminated(more) + rest;
          EventsAreRead(outSize, more, items[1..]);
        case Event(id, name, data) =>
          SentIffFits(outSize, id, name, data);
          if Fits(outSize, id, name, data) {
            assert OneLine(items[0]);
            OneEventIsRead(pings, id, NameOf(name), DataOf(data), rest);
            EventsAreRead(outSize, [], items[1..]);
            assert Terminated([]) + rest == rest;
          } else {
            assert "" + rest == rest;
            EventsAreRead(outSize, pings, items[1..]);
          }
      }
    }
  }

  lemma OneEventIsRead(pings: seq<string>, id: int, name: string, data: string, rest: string)
    requires forall i :: 0 <= i < |pings| ==> pings[i] == ": ping"
    requires '\n' !in name && '\n' !in data
    ensures EventsOf(Terminated(pings) + (Block(id, name, data) + "\n\n" + rest))
         == [SseEvent(Some(Decimal(id)), Some(name), Some(data))] + EventsOf(rest)
  {
    hide Terminated, Block, GapAt, Parsed;
    var b := Terminated(pings) + Block(id, name, data);
    var text := b + "\n\n" + rest;
    assert Terminated(pings) + (Block(id, name, data) + "\n\n" + rest) == text;
    BlockGap(pings, id, name, data, rest);
    assert text[..|b|] == b && text[|b| + 2..] == rest;
    BlockIsRead(pings, id, name, data);
  }

  lemma OneLineEnd(u: string)
    requires NoGaps(u) && u != "" && u[|u| - 1] != '\n'
    ensures FirstGap(u + "\n") < 0
  {
    var t := u + "\n";
    forall j | 0 <= j && j + 1 < |t| ensures !GapAt(t, j) {
      if j + 1 < |u| {
        assert !GapAt(u, j);
      }
    }
  }

  lemma PingsAreLines(pings: seq<string>)
    requires forall i :: 0 <= i < |pings| ==> pings[i] == ": ping"
    ensures AllLines(pings)
  {
    assert Line(": ping");
  }

  lemma OnlyPings(pings: seq<string>)
    requires forall i :: 0 <= i < |pings| ==> pings[i] == ": ping"
    ensures FirstGap(Terminated(pings)) < 0
  {
    PingsAreLines(pings);
    hide GapAt, NoGaps, Line;
    if pings != [] {
      var front, l := pings[..|pings| - 1], pings[|pings| - 1];
      assert AllLines(front) && Line(l);
      NoGap(front, l);
      assert Terminated(front) + l != "";
      hide AllLines;
      OneLineEnd(Terminated(front) + l);
    } else {
      assert |Terminated(pings)| < 2;
    }
  }

  lemma BlockGap(pings: seq<string>, id: int, name: string, data: string, rest: string)
    requires forall i :: 0 <= i < |pings| ==> pings[i] == ": ping"
    requires '\n' !in name && '\n' !in data
    ensures FirstGap(Terminated(pings) + Block(id, name, data) + "\n\n" + rest) == |Terminated(pings) + Block(id, name, data)|
  {
    BlockText(pings, id, name, data);
    HeadingLines(pings, id, name);
    BlockEnds(Heading(pings, id, name), "data: " + data, rest);
  }

  lemma EventsAreSent(outSize: nat, items: seq<Item>)
    requires forall i :: 0 <= i < |items| ==> OneLine(items[i])
    ensures EventsOf(Sent(outSize, items)) == Expected(outSize, items)
  {
    EventsAreRead(outSize, [], items);
    assert Terminated([]) + Sent(outSize, items) == Sent(outSize, items);
  }

  /** `readSse` at the other end of a connection.  Whatever events without newlines the server sends,
      with heartbeats anywhere between them, and however the stream is cut, the client gets exactly
      those events, in order: all of them, if it waits for that many, and otherwise the first count. */
  method ReadFromServer(ghost outSize: nat, ghost items: seq<Item>, chunks: seq<string>, count: nat)
    returns (events: seq<SseEvent>)
    requires forall i :: 0 <= i < |items| ==> OneLine(items[i])
    requires Joined(chunks) == Sent(outSize, items)
    ensures events == Take(Expected(outSize, items), count)
    ensures count >= |Expected(outSize, items)| ==> events == Expected(outSize, items)
  {
    EventsAreSent(outSize, items);
    events := ReadSse(chunks, count);
  }

  /** The same for a stream that goes on: as soon as the text received starts with what the server
      has sent for some items, those events have been read. */
  lemma NothingWaits(outSize: nat, items: seq<Item>, rest: string)
    requires forall i :: 0 <= i < |items| ==> OneLine(items[i])
    ensures Expected(outSize, items) <= EventsOf(Sent(outSize, items) + rest)
  {
    EventsAreSent(outSize, items);
    EventsAppend(Sent(outSize, items), rest);
  }

  // ----- exactly when an event survives -----

  function Size(ls: seq<string>): nat {
    if ls == [] then 0 else Size(ls[..|ls| - 1]) + |ls[|ls| - 1]| + 1
  }

  lemma {:induction false} SizeSplits(a: seq<string>, b: seq<string>)
    ensures Size(a + b) == Size(a) + Size(b)
  {
    if b == [] {
      assert a + b == a;
    } else {
      assert (a + b)[..|a + b| - 1] == a + b[..|b| - 1];
      SizeSplits(a, b[..|b| - 1]);
    }
  }

  lemma {:induction false} LinesAreWhole(s: string)
    ensures forall l :: l in Lines(s) ==> '\n' !in l
    ensures Size(Lines(s)) == |s| + 1
    decreases |s|
  {
    var i := IndexOf(s, '\n');
    if i >= 0 {
      var rest := Lines(s[i + 1..]);
      LinesAreWhole(s[i + 1..]);
      assert Lines(s) == [s[..i]] + rest;
      SizeSplits([s[..i]], rest);
      SizeOfOne(s[..i]);
    } else {
      SizeOfOne(s);
    }
  }

  lemma SizeOfOne(l: string)
    ensures Size([l]) == |l| + 1
  {
    assert [l][..0] == [];
  }

  lemma {:induction false} NamesAreOneLine(ls: seq<string>)
    requires forall l :: l in ls ==> '\n' !in l
    ensures var e := ApplyAll(BLANK, ls).event; e.Some? ==> '\n' !in e.value
  {
    if ls != [] {
      assert ls[|ls| - 1] in ls;
      NamesAreOneLine(ls[..|ls| - 1]);
    }
  }

  lemma FirstNames(block: string)
    ensures forall ev :: ev in First(block) && ev.event.Some? ==> '\n' !in ev.event.value
  {
    hide Apply, ApplyAll;
    LinesAreWhole(block);
    NamesAreOneLine(Lines(block));
  }

  /** The reader never reports an event name with a newline. */
  lemma {:induction false} ReadNamesAreOneLine(text: string)
    ensures forall ev :: ev in EventsOf(text) && ev.event.Some? ==> '\n' !in ev.event.value
    decreases |text|
  {
    hide GapAt, First;
    var sep := FirstGap(text);
    if sep >= 0 {
      FirstNames(text[..sep]);
      ReadNamesAreOneLine(text[sep + 2..]);
    }
  }

  lemma OnlyNameIsOneLine(text: string, ev: SseEvent)
    requires EventsOf(text) == [ev] && ev.event.Some?
    ensures '\n' !in ev.event.value
  {
    ReadNamesAreOneLine(text);
    assert EventsOf(text)[0] == ev;
  }

  lemma {:induction false} ApplySplits(ev: SseEvent, a: seq<string>, b: seq<string>)
    ensures ApplyAll(ev, a + b) == ApplyAll(ApplyAll(ev, a), b)
  {
    if b == [] {
      assert a + b == a;
    } else {
      assert (a + b)[..|a + b| - 1] == a + b[..|b| - 1];
      ApplySplits(ev, a, b[..|b| - 1]);
    }
  }

  /** Further lines make the data longer by less than their own length. */
  lemma {:induction false} DataGrowsLess(ev: SseEvent, ls: seq<string>)
    requires ev.data.Some?
    ensures var d := ApplyAll(ev, ls).data;
      d.Some? && |d.value| <= |ev.data.value| + Size(ls) && (ls != [] ==> |d.value| < |ev.data.value| + Size(ls))
  {
    if ls != [] {
      DataGrowsLess(ev, ls[..|ls| - 1]);
    }
  }

  /** A first data line, and then any lines. */
  lemma DataShrinks(id: int, name: string, p: string)
    requires '\n' !in name && '\n' in p
    ensures var r := Parsed(Block(id, name, p)); r.Some? && r.value.data.Some? && |r.value.data.value| < |p|
  {
    hide Terminated, Heading, Block, Apply, ApplyAll, Lines, Decimal;
    var i := IndexOf(p, '\n');
    var l0, rest := p[..i], p[i + 1..];
    var ls, l3 := Heading([], id, name), "data: " + l0;
    BlockText([], id, name, p);
    HeadingLines([], id, name);
    NothingTerminated();
    assert "" + Block(id, name, p) == Block(id, name, p);
    assert "data: " + p == l3 + "\n" + rest;
    LinesOfTerminated(ls, "data: " + p);
    FirstLine(l3, rest);
    ApplySplits(BLANK, ls + [l3], Lines(rest));
    assert ls + ([l3] + Lines(rest)) == ls + [l3] + Lines(rest);
    OneMore(ls, l3);
    HeadingIsRead([], id, name);
    assert "data: " == "data" + ": ";
    FieldLine(ApplyAll(BLANK, ls), "data", l0);
    DataGrowsLess(ApplyAll(BLANK, ls + [l3]), Lines(rest));
    LinesAreWhole(rest);
  }

  lemma NothingTerminated()
    ensures Terminated([]) == ""
  {
  }

  /** The first block of an event's text ends somewhere in its data, or right behind it. */
  lemma BlockEndsInData(id: int, name: string, data: string)
    requires '\n' !in name
    ensures var a := Block(id, name, ""); var sep := FirstGap(Block(id, name, data) + "\n\n");
      |a| <= sep <= |a| + |data|
      && (Block(id, name, data) + "\n\n")[..sep] == Block(id, name, data[..sep - |a|])
  {
    hide Terminated, Heading, Decimal;
    var a := Block(id, name, "");
    var text := Block(id, name, data) + "\n\n";
    BlockText([], id, name, "");
    HeadingLines([], id, name);
    NothingTerminated();
    assert "" + a == a && "data: " + "" == "data: ";
    NoGap(Heading([], id, name), "data: ");
    assert text == a + data + "\n\n";
    assert GapAt(text, |a| + |data|);
    var sep := FirstGap(text);
    assert text[..|a|] == a;
    assert sep >= |a| by {
      assert GapAt(text, sep);
      assert !GapAt(a, sep);
    }
    assert text[..sep] == a + data[..sep - |a|];
    assert Block(id, name, data[..sep - |a|]) == a + data[..sep - |a|];
  }

  /** What becomes of an event that fits. */
  lemma TextSurvivesIff(e: string, d: string, id: int)
    requires e != ""
    ensures EventsOf(Block(id, e, d) + "\n\n") == [SseEvent(Some(Decimal(id)), Some(e), Some(d))]
       <==> '\n' !in e && '\n' !in d
  {
    hide Block, Parsed, GapAt;
    var ev := SseEvent(Some(Decimal(id)), Some(e), Some(d));
    var text := Block(id, e, d) + "\n\n";
    if '\n' in e {
      if EventsOf(text) == [ev] {
        OnlyNameIsOneLine(text, ev);
      }
    } else if '\n' !in d {
      NothingTerminated();
      assert text == "" + (Block(id, e, d) + "\n\n" + "");
      OneEventIsRead([], id, e, d, "");
    } else {
      BlockEndsInData(id, e, d);
      var p := d[..FirstGap(text) - |Block(id, e, "")|];
      if '\n' in p {
        DataShrinks(id, e, p);
      } else {
        NothingTerminated();
        BlockIsRead([], id, e, p);
        assert "" + Block(id, e, p) == Block(id, e, p);
      }
      var r := Parsed(Block(id, e, p));
      assert r.value.data != Some(d);
      assert EventsOf(text) == [r.value] + EventsOf(text[FirstGap(text) + 2..]);
      assert EventsOf(text)[0] != ev;
    }
  }

  /** An event reaches the client as it was given if and only if it fits the buffer of the server, and its
      name and its data are single lines. */
  lemma SurvivesIffOneLine(outSize: nat, id: int, name: string, data: Option<string>)
    ensures EventsOf(ItemText(outSize, Event(id, name, data))) == [Seen(id, name, data)]
       <==> Fits(outSize, id, name, data) && '\n' !in name && (data.Some? ==> '\n' !in data.value)
  {
    SentIffFits(outSize, id, name, data);
    hide Block, Decimal, EventsOf, Fits;
    if Fits(outSize, id, name, data) {
      TextSurvivesIff(NameOf(name), DataOf(data), id);
    } else {
      NothingYet();
    }
  }

  // ----- data of several lines -----

  /** The lines of a text with newlines between them. */
  function WithNewlines(ls: seq<string>): string
    requires ls != []
  {
    if |ls| == 1 then ls[0] else WithNewlines(ls[..|ls| - 1]) + "\n" + ls[|ls| - 1]
  }

  /** A data line for every line. */
  function DataLines(ls: seq<string>): seq<string> {
    if ls == [] then [] else DataLines(ls[..|ls| - 1]) + ["data: " + ls[|ls| - 1]]
  }

  lemma {:induction false} FrontLine(ls: seq<string>)
    requires |ls| > 1
    ensures WithNewlines(ls) == ls[0] + "\n" + WithNewlines(ls[1..])
  {
    var front := ls[..|ls| - 1];
    if |ls| > 2 {
      FrontLine(front);
      assert front[1..] == ls[1..][..|ls| - 2];
      FourParts(front[0] + "\n", WithNewlines(front[1..]), "\n", ls[|ls| - 1]);
    }
  }

  /** Splitting and joining give the text back. */
  lemma {:induction false} LinesJoin(s: string)
    ensures WithNewlines(Lines(s)) == s
    decreases |s|
  {
    hide WithNewlines;
    var i := IndexOf(s, '\n');
    if i >= 0 {
      LinesJoin(s[i + 1..]);
      JoinFront(s[..i], Lines(s[i + 1..]));
      assert s == s[..i] + "\n" + s[i + 1..];
    } else {
      JoinOne(s);
    }
  }

  lemma JoinOne(l: string)
    ensures WithNewlines([l]) == l
  {
  }

  lemma JoinFront(l: string, rest: seq<string>)
    requires rest != []
    ensures WithNewlines([l] + rest) == l + "\n" + WithNewlines(rest)
  {
    FrontLine([l] + rest);
    assert ([l] + rest)[1..] == rest;
  }

  lemma {:induction false} DataIsJoined(ls: seq<string>)
    requires ls != []
    ensures ApplyAll(BLANK, DataLines(ls)) == BLANK.(data := Some(WithNewlines(ls)))
  {
    hide Apply;
    var n := |ls| - 1;
    assert "data: " == "data" + ": ";
    OneMore(DataLines(ls[..n]), "data: " + ls[n]);
    if n == 0 {
      ApplyNone();
      assert DataLines(ls[..0]) == [];
      FieldLine(BLANK, "data", ls[0]);
    } else {
      DataIsJoined(ls[..n]);
      FieldLine(ApplyAll(BLANK, DataLines(ls[..n])), "data", ls[n]);
    }
  }

  lemma {:induction false} DataLinesAreLines(ls: seq<string>)
    requires forall l :: l in ls ==> '\n' !in l
    ensures |DataLines(ls)| == |ls| && AllLines(DataLines(ls))
  {
    if ls != [] {
      var n := |ls| - 1;
      assert ls[n] in ls;
      DataLinesAreLines(ls[..n]);
      assert Line("data: " + ls[n]);
    }
  }

  /** A text of several lines that a server sends as several data lines is read back whole. */
  lemma DataLinesAreRead(data: string)
    ensures Parsed(WithNewlines(DataLines(Lines(data)))) == Some(SseEvent(None, None, Some(data)))
  {
    var ls := Lines(data);
    LinesAreWhole(data);
    LinesJoin(data);
    DataLinesAreLines(ls);
    DataIsJoined(ls);
    SplitBack(DataLines(ls));
  }

  lemma {:induction false} SplitBack(ls: seq<string>)
    requires ls != [] && AllLines(ls)
    ensures Lines(WithNewlines(ls)) == ls
  {
    hide Lines;
    assert Line(ls[0]);
    FirstLine(ls[0], if |ls| > 1 then WithNewlines(ls[1..]) else "");
    if |ls| > 1 {
      FrontLine(ls);
      assert AllLines(ls[1..]) by {
        assert forall i :: 0 <= i < |ls[1..]| ==> ls[1..][i] == ls[i + 1];
      }
      SplitBack(ls[1..]);
    }
  }

  // ----- ids -----

  function Value10(s: string): int {
    if s == "" then 0 else 10 * Value10(s[..|s| - 1]) + (s[|s| - 1] as int - '0' as int)
  }

  predicate AllDigits(s: string) {
    s != "" && forall i :: 0 <= i < |s| ==> '0' <= s[i] <= '9'
  }

  /** Number, for decimal integers. */
  function NumberOf(s: string): Option<int> {
    if AllDigits(s) then Some(Value10(s))
    else if s != "" && s[0] == '-' && AllDigits(s[1..]) then Some(-Value10(s[1..]))
    else None
  }

  lemma {:induction false} DigitsValue(n: nat)
    ensures Value10(Digits(n)) == n
  {
    if n >= 10 {
      DigitsValue(n / 10);
      assert Digits(n)[..|Digits(n)| - 1] == Digits(n / 10);
    }
  }

  /** The client gets the number that the server printed. */
  lemma IdIsExact(id: int)
    ensures NumberOf(Decimal(id)) == Some(id)
  {
    hide Digits, Value10;
    if id < 0 {
      DigitsValue(-id);
      assert Decimal(id)[0] == '-' && Decimal(id)[1..] == Digits(-id);
      assert AllDigits(Digits(-id));
    } else {
      DigitsValue(id);
      assert AllDigits(Digits(id));
    }
  }
}
