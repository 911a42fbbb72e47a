/** Escaping of text for JSON strings: into a buffer of a given size, into an allocated one, and the
    event texts that are built from it.  A char stands for a byte. */
module JsonText {
  import opened Sse

  /** The contents of a C string. */
  type CString = s: string | '\0' !in s

  // ----- what escaping means -----

  /** The text that stands for one byte inside a JSON string; other control bytes are dropped. */
  function Esc(c: char): (e: string)
    ensures |e| <= 2
  {
    if c == '"' then "\\\""
    else if c == '\\' then "\\\\"
    else if c == '\n' then "\\n"
    else if c == '\r' then "\\r"
    else if c == '\t' then "\\t"
    else if c < ' ' then ""
    else [c]
  }

  function Escaped(s: string): (e: string)
    ensures |e| <= 2 * |s|
  {
    if s == "" then "" else Escaped(s[..|s| - 1]) + Esc(s[|s| - 1])
  }

  /** How many bytes of s are escaped into a buffer of size outSize, which also holds a terminator. */
  function Fit(s: string, outSize: nat): (k: nat)
    requires outSize > 0
    ensures k <= |s|
  {
    if s == "" then 0
    else
      var k := Fit(s[..|s| - 1], outSize);
      if k == |s| - 1 && |Escaped(s)| < outSize then |s| else k
  }

  predicate Dropped(c: char) {
    c < ' ' && c != '\n' && c != '\r' && c != '\t'
  }

  /** The text without the control bytes that have no short escape. */
  function Kept(s: string): string {
    if s == "" then "" else Kept(s[..|s| - 1]) + if Dropped(s[|s| - 1]) then "" else [s[|s| - 1]]
  }

  /** The meaning of the inside of a JSON string (section 7 of RFC 8259), as far as it uses
      two-character escapes. */
  function Unescape(e: string): Option<string>
    decreases |e|
  {
    if e == "" then Some("")
    else if e[0] == '"' || e[0] < ' ' then None
    else if e[0] != '\\' then Then(e[0], Unescape(e[1..]))
    else if |e| < 2 then None
    else match e[1]
      case '"' => Then('"', Unescape(e[2..]))
      case '\\' => Then('\\', Unescape(e[2..]))
      case '/' => Then('/', Unescape(e[2..]))
      case 'b' => Then(8 as char, Unescape(e[2..]))
      case 'f' => Then(12 as char, Unescape(e[2..]))
      case 'n' => Then('\n', Unescape(e[2..]))
      case 'r' => Then('\r', Unescape(e[2..]))
      case 't' => Then('\t', Unescape(e[2..]))
      case _ => None
  }

  function Then(c: char, rest: Option<string>): Option<string> {
    if rest.None? then None else Some([c] + rest.value)
  }

  // ----- buffers -----

  /** The buffer holds a C string and what was behind it before. */
  predicate Holds(buffer: seq<char>, was: seq<char>, text: string) {
    && |buffer| == |was| && |text| < |buffer|
    && buffer == text + ['\0'] + was[|text| + 1..]
  }

  lemma FitNext(s: string, i: nat, outSize: nat)
    requires i < |s| && outSize > 0 && Fit(s[..i], outSize) == i
    ensures Escaped(s[..i + 1]) == Escaped(s[..i]) + Esc(s[i])
    ensures Fit(s[..i + 1], outSize) == if |Escaped(s[..i + 1])| < outSize then i + 1 else i
  {
    assert s[..i + 1][..i] == s[..i];
  }

  lemma {:induction false} FitStops(s: string, i: nat, outSize: nat)
    requires i < |s| && outSize > 0 && Fit(s[..i + 1], outSize) == i
    ensures Fit(s, outSize) == i
    decreases |s|
  {
    if i + 1 == |s| {
      assert s[..i + 1] == s;
    } else {
      assert s[..|s| - 1][..i + 1] == s[..i + 1];
      FitStops(s[..|s| - 1], i, outSize);
    }
  }

  /** The buffer starts with text and is otherwise as before. */
  predicate Starts(buffer: seq<char>, was: seq<char>, text: string) {
    |text| <= |was| && buffer == text + was[|text|..]
  }

  lemma StartsMore(was: seq<char>, now: seq<char>, next: seq<char>, text: string, more: string)
    requires Starts(now, was, text) && |text| + |more| <= |now|
    requires next == now[..|text|] + more + now[|text| + |more|..]
    ensures Starts(next, was, text + more)
  {
    assert now[..|text|] == text;
    assert now[|text| + |more|..] == was[|text| + |more|..];
  }

  /** memcpy into the buffer. */
  method Copy(out: array<char>, o: nat, rep: string)
    requires o + |rep| <= out.Length
    modifies out
    ensures out[..] == old(out[..o]) + rep + old(out[o + |rep|..])
  {
    for k := 0 to |rep|
      invariant out[..] == old(out[..o]) + rep[..k] + old(out[o + k..])
    {
      out[o + k] := rep[k];
    }
    assert rep[..|rep|] == rep;
  }

  lemma NoText(c: char, text: string)
    requires Dropped(c)
    ensures text + Esc(c) == text
  {
  }

  /** One turn of the loop of `event_escape_json`: full, if the escape does not fit. */
  method EscapeOne(input: CString, i: nat, out: array<char>, o: nat, ghost was: seq<char>)
    returns (next: nat, full: bool)
    requires i < |input| && o == |Escaped(input[..i])| < out.Length && Fit(input[..i], out.Length) == i
    requires Starts(out[..], was, Escaped(input[..i]))
    modifies out
    ensures full ==> next == o && out[..] == old(out[..]) && Fit(input[..i + 1], out.Length) == i
    ensures !full ==>
      && next == |Escaped(input[..i + 1])| < out.Length && Fit(input[..i + 1], out.Length) == i + 1
      && Starts(out[..], was, Escaped(input[..i + 1]))
  {
    hide Escaped, Esc, Dropped, Fit, Starts;
    var c := input[i];
    FitNext(input, i, out.Length);
    next := o;
    if Dropped(c) {
      NoText(c, Escaped(input[..i]));
      return next, false;
    }
    var rep := Replacement(c);
    if o + |rep| >= out.Length {
      return next, true;
    }
    Copy(out, o, rep);
    StartsMore(was, old(out[..]), out[..], Escaped(input[..i]), rep);
    return o + |rep|, false;
  }

  /** `event_escape_json`, for an input and a buffer that are not null. */
  method EscapeJson(input: CString, out: array<char>)
    modifies out
    ensures out.Length > 0 ==> Holds(out[..], old(out[..]), Escaped(input[..Fit(input, out.Length)]))
  {
    if out.Length == 0 { return; }
    hide Escaped, Fit, Starts, Holds;
    var o, i, full := 0, 0, false;
    ghost var was := out[..];
    while i < |input| && !full
      invariant i <= |input| && Fit(input[..i], out.Length) == i
      invariant o == |Escaped(input[..i])| < out.Length
      invariant Starts(out[..], was, Escaped(input[..i]))
      invariant full ==> i < |input| && Fit(input[..i + 1], out.Length) == i
      decreases |input| - i, !full
    {
      o, full := EscapeOne(input, i, out, o, was);
      if !full {
        i := i + 1;
      }
    }
    if full {
      FitStops(input, i, out.Length);
    } else {
      assert input[..i] == input;
    }
    Terminated(was, out[..], Escaped(input[..i]));
    out[o] := '\0';
  }

  /** The switch of `event_escape_json`: two characters, or the byte itself. */
  method Replacement(c: char) returns (rep: string)
    requires !Dropped(c)
    ensures rep == Esc(c)
  {
    match c {
      case '"' => rep := "\\\"";
      case '\\' => rep := "\\\\";
      case '\n' => rep := "\\n";
      case '\r' => rep := "\\r";
      case '\t' => rep := "\\t";
      case _ => rep := [c];
    }
  }

  lemma Terminated(was: seq<char>, now: seq<char>, text: string)
    requires Starts(now, was, text) && |text| < |now|
    ensures Holds(now[|text| := '\0'], was, text)
  {
  }

  /** As a C string, the buffer reads text. */
  predicate Reads(buffer: seq<char>, text: string) {
    '\0' !in text && |text| < |buffer| && buffer[..|text|] == text && buffer[|text|] == '\0'
  }

  function Text(input: Option<CString>): CString {
    if input.None? then "" else input.value
  }

  /** `event_escape_json`. */
  method EventEscapeJson(input: Option<CString>, out: array?<char>)
    modifies if out != null then {out} else {}
    ensures out != null && out.Length > 0 ==>
      Holds(out[..], old(out[..]), Escaped(Text(input)[..Fit(Text(input), out.Length)]))
  {
    if out == null || out.Length == 0 { return; }
    if input.None? {
      out[0] := '\0';
      return;
    }
    EscapeJson(input.value, out);
  }

  /** `event_escape_alloc`, when the allocation succeeds: the text is never cut off. */
  method EventEscapeAlloc(input: Option<CString>) returns (out: array<char>)
    ensures fresh(out) && Reads(out[..], Escaped(Text(input)))
  {
    var text := Text(input);
    out := new char[|text| * 2 + 1];
    AllFits(text, out.Length);
    EscapedIsCString(text);
    EscapeJson(text, out);
    assert text[..|text|] == text;
  }

  /** `json_escape_dup`, when the allocation succeeds. */
  method JsonEscapeDup(input: Option<CString>) returns (out: array<char>)
    ensures fresh(out) && Reads(out[..], Escaped(Text(input)))
  {
    hide Escaped, Fit;
    var text := Text(input);
    var len := |text|;
    out := new char[len * 2 + 1];
    var o := 0;
    for i := 0 to len
      invariant o == |Escaped(text[..i])| <= 2 * i
      invariant out[..o] == Escaped(text[..i])
    {
      EscapedNext(text, i);
      var c := text[i];
      if Dropped(c) { continue; }
      var rep := Replacement(c);
      Copy(out, o, rep);
      o := o + |rep|;
    }
    assert text[..len] == text;
    EscapedIsCString(text);
    out[o] := '\0';
  }

  lemma EscapedNext(s: string, i: nat)
    requires i < |s|
    ensures Escaped(s[..i + 1]) == Escaped(s[..i]) + Esc(s[i])
  {
    assert s[..i + 1][..i] == s[..i];
  }

  lemma {:induction false} EscapedIsCString(s: string)
    ensures '\0' !in Escaped(s)
  {
    if s != "" {
      EscapedIsCString(s[..|s| - 1]);
    }
  }

  // ----- what the buffers say -----

  lemma {:induction false} AllFits(s: string, outSize: nat)
    requires outSize > 2 * |s|
    ensures Fit(s, outSize) == |s|
  {
    if s != "" {
      AllFits(s[..|s| - 1], outSize);
    }
  }

  lemma {:induction false} PrefixIsShorter(s: string, j: nat)
    requires j <= |s|
    ensures |Escaped(s[..j])| <= |Escaped(s)|
    decreases |s|
  {
    if j < |s| {
      assert s[..|s| - 1][..j] == s[..j];
      PrefixIsShorter(s[..|s| - 1], j);
    } else {
      assert s[..j] == s;
    }
  }

  /** A buffer gets the longest prefix of the text whose escape fits. */
  lemma {:induction false} FitIsLongest(s: string, outSize: nat)
    requires outSize > 0
    ensures |Escaped(s[..Fit(s, outSize)])| < outSize
    ensures forall j :: Fit(s, outSize) < j <= |s| ==> |Escaped(s[..j])| >= outSize
  {
    var k := Fit(s, outSize);
    if s == "" {
      assert s[..k] == "";
    } else {
      var front := s[..|s| - 1];
      FitIsLongest(front, outSize);
      assert forall j :: 0 <= j <= |front| ==> s[..j] == front[..j];
      assert s[..|s|] == s;
      if k < |s| {
        forall j | k < j <= |s| ensures |Escaped(s[..j])| >= outSize {
          if j == |s| && k < |front| {
            assert |Escaped(front[..|front|])| >= outSize;
            PrefixIsShorter(s, |front|);
          }
        }
      }
    }
  }

  lemma {:induction false} FromTheFront(s: string)
    requires s != ""
    ensures Escaped(s) == Esc(s[0]) + Escaped(s[1..])
    ensures Kept(s) == (if Dropped(s[0]) then "" else [s[0]]) + Kept(s[1..])
  {
    hide Esc, Dropped;
    if |s| > 1 {
      var front := s[..|s| - 1];
      var last := s[|s| - 1];
      FromTheFront(front);
      assert front[1..] == s[1..][..|s[1..]| - 1] && front[0] == s[0] && s[1..][|s[1..]| - 1] == last;
      assert Escaped(s) == Escaped(front) + Esc(last) && Escaped(s[1..]) == Escaped(front[1..]) + Esc(last);
    } else {
      assert s[..0] == "" && s[1..] == "";
    }
  }

  lemma UnescapeOne(c: char, rest: string)
    ensures Unescape(Esc(c) + rest) == if Dropped(c) then Unescape(rest) else Then(c, Unescape(rest))
  {
    if Dropped(c) {
      assert Esc(c) + rest == rest;
    } else {
      assert (Esc(c) + rest)[|Esc(c)|..] == rest;
    }
  }

  /** A JSON reader gets the text back, without the control bytes that escaping drops. */
  lemma {:induction false} UnescapeEscaped(s: string)
    ensures Unescape(Escaped(s)) == Some(Kept(s))
  {
    hide Esc;
    if s != "" {
      FromTheFront(s);
      UnescapeEscaped(s[1..]);
      UnescapeOne(s[0], Escaped(s[1..]));
      assert Dropped(s[0]) ==> Kept(s) == Kept(s[1..]);
    }
  }

  /** The text comes back unchanged if and only if it has no control byte but newline, return and tab. */
  lemma {:induction false} KeptIffNothingDropped(s: string)
    ensures |Kept(s)| <= |s|
    ensures Kept(s) == s <==> forall i :: 0 <= i < |s| ==> s[i] >= ' ' || s[i] in {'\n', '\r', '\t'}
  {
    if s != "" {
      var front := s[..|s| - 1];
      KeptIffNothingDropped(front);
      assert s == front + [s[|s| - 1]];
      if Dropped(s[|s| - 1]) {
        assert |Kept(s)| < |s|;
      } else if Kept(front) == front {
        assert forall i :: 0 <= i < |front| ==> s[i] == front[i];
      } else {
        assert Kept(s)[..|Kept(s)| - 1] == Kept(front) && s[..|s| - 1] == front;
        var i :| 0 <= i < |front| && Dropped(front[i]);
        assert Dropped(s[i]);
      }
    }
  }

  /** What a buffer of any size holds is a complete JSON string text that stands for a prefix of
      the input: no escape is ever cut in two. */
  lemma BufferIsReadable(s: string, outSize: nat)
    requires outSize > 0
    ensures Unescape(Escaped(s[..Fit(s, outSize)])) == Some(Kept(s[..Fit(s, outSize)]))
  {
    UnescapeEscaped(s[..Fit(s, outSize)]);
  }

  // ----- the event texts -----

  /** What snprintf leaves in a buffer. */
  function Printed(text: string, size: nat): string
    requires size > 0
  {
    if |text| < size then text else text[..size - 1]
  }

  function Message(msg: string, now: int): string {
    "{\"type\":\"message\",\"message\":\"" + Escaped(msg) + "\",\"timestamp\":" + Decimal(now) + "}"
  }

  function WithType(kind: string, data: string, now: int): string {
    "{\"type\":\"" + Escaped(kind) + "\",\"data\":" + data + ",\"timestamp\":" + Decimal(now) + "}"
  }

  function JsonString(kind: string, str: string, now: int): string {
    "{\"type\":\"" + Escaped(kind) + "\",\"data\":\"" + Escaped(str) + "\",\"timestamp\":" + Decimal(now) + "}"
  }

  /** `event_format_message`: None for a missing message. */
  function FormatMessage(msg: Option<CString>, now: int): Option<string> {
    if msg.None? then None else Some(Printed(Message(msg.value, now), |Escaped(msg.value)| + 64))
  }

  /** `event_format_with_type`. */
  function FormatWithType(kind: Option<CString>, data: Option<CString>, now: int): Option<string> {
    if kind.None? || data.None? then None
    else Some(Printed(WithType(kind.value, data.value, now), |Escaped(kind.value)| + |data.value| + 64))
  }

  /** `event_format_json_string`. */
  function FormatJsonString(kind: Option<CString>, str: Option<CString>, now: int): Option<string> {
    if kind.None? || str.None? then None
    else Some(Printed(JsonString(kind.value, str.value, now), |Escaped(kind.value)| + |Escaped(str.value)| + 64))
  }

  function Pow10(k: nat): nat {
    if k == 0 then 1 else 10 * Pow10(k - 1)
  }

  lemma {:induction false} DigitCount(n: nat, k: nat)
    requires k > 0
    ensures |Digits(n)| <= k <==> n < Pow10(k)
  {
    if k == 1 {
      assert Pow10(1) == 10;
      assert n >= 10 ==> |Digits(n)| == |Digits(n / 10)| + 1;
    } else if n >= 10 {
      DigitCount(n / 10, k - 1);
    } else {
      PowPositive(k - 1);
    }
  }

  lemma {:induction false} PowPositive(k: nat)
    ensures Pow10(k) >= 1
  {
    if k > 0 {
      PowPositive(k - 1);
    }
  }

  lemma Powers()
    ensures Pow10(18) == 1_000_000_000_000_000_000 && Pow10(19) == 10 * Pow10(18)
  {
    assert Pow10(6) == 1_000_000;
    assert Pow10(12) == 1_000_000 * Pow10(6);
    assert Pow10(18) == 1_000_000 * Pow10(12);
  }

  predicate IsLong(t: int) {
    -0x8000_0000_0000_0000 <= t < 0x8000_0000_0000_0000
  }

  lemma LongText(t: int)
    requires IsLong(t)
    ensures |Decimal(t)| <= 20
    ensures |Decimal(t)| <= 19 <==> t > -1_000_000_000_000_000_000
  {
    Powers();
    DigitCount(if t < 0 then -t else t, 18);
    DigitCount(if t < 0 then -t else t, 19);
  }

  /** The 64 spare bytes are enough for every typed event ... */
  lemma TypedEventsAreWhole(kind: CString, data: CString, now: int)
    requires IsLong(now)
    ensures FormatWithType(Some(kind), Some(data), now) == Some(WithType(kind, data, now))
    ensures FormatJsonString(Some(kind), Some(data), now) == Some(JsonString(kind, data, now))
  {
    LongText(now);
  }

  /** ... and for a message if and only if the time is not a negative number of nineteen digits. */
  lemma MessageIsWholeIff(msg: CString, now: int)
    requires IsLong(now)
    ensures FormatMessage(Some(msg), now) == Some(Message(msg, now)) <==> now > -1_000_000_000_000_000_000
  {
    LongText(now);
  }

  // ----- what a JSON reader finds in them -----

  datatype Json = Str(s: string) | Num(n: int)

  datatype Member = Member(key: string, value: Json)

  datatype Read<T> = Failed | Done(value: T, rest: string)

  /** How much of a text lies inside the string that it begins in. */
  function Inside(t: string): (n: nat)
    ensures n <= |t|
    decreases |t|
  {
    if t == "" || t[0] == '"' then 0
    else if t[0] == '\\' && |t| >= 2 then 2 + Inside(t[2..])
    else 1 + Inside(t[1..])
  }

  function ReadString(t: string): (r: Read<string>)
    ensures r.Done? ==> |r.rest| < |t|
  {
    if t == "" || t[0] != '"' then Failed
    else
      var n := Inside(t[1..]);
      if n + 1 >= |t| then Failed
      else match Unescape(t[1..n + 1])
        case None => Failed
        case Some(s) => Done(s, t[n + 2..])
  }

  function NumberLength(t: string): (n: nat)
    ensures n <= |t|
  {
    if t != "" && (t[0] == '-' || '0' <= t[0] <= '9') then 1 + NumberLength(t[1..]) else 0
  }

  /** The values that occur: strings and integers. */
  function ReadValue(t: string): (r: Read<Json>)
    ensures r.Done? ==> |r.rest| <= |t|
  {
    if t != "" && t[0] == '"' then
      match ReadString(t)
      case Failed => Failed
      case Done(s, rest) => Done(Str(s), rest)
    else
      var n := NumberLength(t);
      match NumberOf(t[..n])
      case None => Failed
      case Some(k) => Done(Num(k), t[n..])
  }

  /** Members up to the closing brace, behind which nothing may follow. */
  function ReadMembers(t: string): Option<seq<Member>>
    decreases |t|
  {
    match ReadString(t)
    case Failed => None
    case Done(key, a) =>
      if a == "" || a[0] != ':' then None
      else match ReadValue(a[1..])
        case Failed => None
        case Done(v, b) =>
          if b == "}" then Some([Member(key, v)])
          else if b == "" || b[0] != ',' then None
          else match ReadMembers(b[1..])
            case None => None
            case Some(ms) => Some([Member(key, v)] + ms)
  }

  function ReadObject(t: string): Option<seq<Member>> {
    if t == "" || t[0] != '{' then None else ReadMembers(t[1..])
  }

  lemma InsideOne(c: char, rest: string)
    ensures Inside(Esc(c) + rest) == |Esc(c)| + Inside(rest)
  {
    if Esc(c) == "" {
      assert Esc(c) + rest == rest;
    } else {
      assert (Esc(c) + rest)[|Esc(c)|..] == rest;
    }
  }

  lemma {:induction false} EscapedInside(s: string, rest: string)
    ensures Inside(Escaped(s) + "\"" + rest) == |Escaped(s)|
    decreases |s|
  {
    hide Esc;
    if s == "" {
      assert "" + "\"" + rest == "\"" + rest;
    } else {
      FromTheFront(s);
      EscapedInside(s[1..], rest);
      InsideOne(s[0], Escaped(s[1..]) + "\"" + rest);
      assert Escaped(s) + "\"" + rest == Esc(s[0]) + (Escaped(s[1..]) + "\"" + rest);
    }
  }

  lemma QuotedIsRead(s: string, rest: string)
    ensures ReadString("\"" + Escaped(s) + "\"" + rest) == Done(Kept(s), rest)
  {
    var e := Escaped(s);
    var t := "\"" + e + "\"" + rest;
    assert t[1..] == e + "\"" + rest;
    EscapedInside(s, rest);
    UnescapeEscaped(s);
    assert t[1..|e| + 1] == e && t[|e| + 2..] == rest;
  }

  predicate Plain(s: string) {
    forall i :: 0 <= i < |s| ==> 'a' <= s[i] <= 'z'
  }

  lemma {:induction false} PlainIsItself(s: string)
    requires Plain(s)
    ensures Escaped(s) == s && Kept(s) == s
  {
    if s != "" {
      PlainIsItself(s[..|s| - 1]);
      assert s[..|s| - 1] + [s[|s| - 1]] == s;
    }
  }

  lemma KeyIsRead(key: string, rest: string)
    requires Plain(key)
    ensures ReadString("\"" + key + "\"" + rest) == Done(key, rest)
  {
    PlainIsItself(key);
    QuotedIsRead(key, rest);
  }

  lemma {:induction false} DigitsAreRead(d: string, rest: string)
    requires forall i :: 0 <= i < |d| ==> d[i] == '-' || '0' <= d[i] <= '9'
    requires rest != "" && rest[0] == '}'
    ensures NumberLength(d + rest) == |d|
  {
    if d == "" {
      assert d + rest == rest;
    } else {
      assert (d + rest)[1..] == d[1..] + rest;
      DigitsAreRead(d[1..], rest);
    }
  }

  lemma NumberIsRead(k: int)
    ensures ReadValue(Decimal(k) + "}") == Done(Num(k), "}")
  {
    var d := Decimal(k);
    DigitsAreRead(d, "}");
    IdIsExact(k);
    assert (d + "}")[..|d|] == d && (d + "}")[|d|..] == "}";
  }

  /** A member with a string, before another one. */
  function StringPart(key: string, e: string): string {
    "\"" + key + "\":\"" + e + "\","
  }

  lemma Regrouped(p: string, q: string, c: string, e: string, m: string, more: string)
    ensures p + (q + (c + q)) + e + (q + m) + more == p + q + (c + (q + e + q + (m + more)))
  {
    assert p + (q + (c + q)) == p + q + c + q;
    assert e + (q + m) + more == e + q + (m + more);
    assert p + q + c + q + (e + q + (m + more)) == p + q + (c + (q + (e + q + (m + more))));
    assert q + (e + q + (m + more)) == q + e + q + (m + more);
  }

  lemma StringPartIs(key: string, e: string, more: string)
    ensures StringPart(key, e) + more == "\"" + key + "\"" + (":" + ("\"" + e + "\"" + ("," + more)))
  {
    assert "\":\"" == "\"" + (":" + "\"") && "\"," == "\"" + ",";
    var q := "\"";
    assert StringPart(key, e) == q + key + (q + (":" + q)) + e + (q + ",");
    Regrouped(q + key, q, ":", e, ",", more);
  }

  lemma StringMember(key: string, s: string, more: string)
    requires Plain(key)
    ensures ReadMembers(StringPart(key, Escaped(s)) + more)
         == match ReadMembers(more) case None => None case Some(ms) => Some([Member(key, Str(Kept(s)))] + ms)
  {
    hide Escaped, Kept, ReadString, StringPart;
    var v := "\"" + Escaped(s) + "\"" + ("," + more);
    StringPartIs(key, Escaped(s), more);
    KeyIsRead(key, ":" + v);
    assert (":" + v)[1..] == v && v[0] == '"';
    QuotedIsRead(s, "," + more);
    assert ReadValue((":" + v)[1..]) == Done(Str(Kept(s)), "," + more);
    hide ReadValue;
    assert ("," + more)[1..] == more && ("," + more)[0] == ',';
  }

  function TimePart(now: int): string {
    "\"timestamp\":" + Decimal(now) + "}"
  }

  lemma TimeMember(now: int)
    ensures ReadMembers(TimePart(now)) == Some([Member("timestamp", Num(now))])
  {
    hide ReadString, Decimal, ReadValue;
    var v := Decimal(now) + "}";
    assert "\"timestamp\":" == "\"" + "timestamp" + "\"" + ":";
    assert TimePart(now) == "\"" + "timestamp" + "\"" + (":" + v);
    KeyIsRead("timestamp", ":" + v);
    assert (":" + v)[1..] == v;
    NumberIsRead(now);
  }

  lemma MessageHead()
    ensures "{\"type\":\"message\",\"message\":\"" == "{" + (StringPart("type", "message") + "\"message\":\"")
  {
    assert StringPart("type", "message") == "\"type\":\"" + "message\"," == "\"type\":\"message\",";
    hide StringPart;
    assert "\"type\":\"message\",\"message\":\"" == "\"type\":\"message\"," + "\"message\":\"";
    assert "{\"type\":\"message\",\"message\":\"" == "{" + "\"type\":\"message\",\"message\":\"";
  }

  lemma MessageParts(e: string, more: string)
    ensures "{\"type\":\"message\",\"message\":\"" + e + "\"," + more
         == "{" + (StringPart("type", "message") + (StringPart("message", e) + more))
  {
    MessageHead();
    assert "\"message\":\"" == "\"" + "message" + "\":\"";
    Reassociated(StringPart("type", "message"), "\"message\":\"", e, "\",", more);
  }

  lemma Reassociated(x: string, y: string, e: string, c: string, more: string)
    ensures "{" + (x + y) + e + c + more == "{" + (x + (y + e + c + more))
  {
  }

  /** A reader finds in a message event its type, the message and the time. */
  lemma MessageIsRead(msg: CString, now: int)
    ensures ReadObject(Message(msg, now))
         == Some([Member("type", Str("message")), Member("message", Str(Kept(msg))), Member("timestamp", Num(now))])
  {
    hide ReadMembers, Escaped, Kept, Decimal, StringPart;
    var m2 := StringPart("message", Escaped(msg)) + TimePart(now);
    var m1 := StringPart("type", "message") + m2;
    MessageParts(Escaped(msg), TimePart(now));
    assert "\",\"timestamp\":" == "\"," + "\"timestamp\":";
    assert Message(msg, now) == "{" + m1;
    assert ("{" + m1)[1..] == m1;
    TimeMember(now);
    StringMember("message", msg, TimePart(now));
    PlainIsItself("message");
    StringMember("type", "message", m2);
    assert [Member("type", Str("message"))] + ([Member("message", Str(Kept(msg)))] + [Member("timestamp", Num(now))])
        == [Member("type", Str("message")), Member("message", Str(Kept(msg))), Member("timestamp", Num(now))];
  }

  lemma TypedParts(k: string, rest: string)
    ensures "{\"type\":\"" + k + "\"," + rest == "{" + (StringPart("type", k) + rest)
  {
    assert "{\"type\":\"" == "{" + "\"type\":\"" && "\"type\":\"" == "\"" + "type" + "\":\"";
  }

  /** ... and in an event with a string, the type, the string and the time. */
  lemma StringEventIsRead(kind: CString, str: CString, now: int)
    ensures ReadObject(JsonString(kind, str, now))
         == Some([Member("type", Str(Kept(kind))), Member("data", Str(Kept(str))), Member("timestamp", Num(now))])
  {
    var k, e := Escaped(kind), Escaped(str);
    hide ReadMembers, Escaped, Kept, Decimal;
    var m2 := StringPart("data", e) + TimePart(now);
    var m1 := StringPart("type", k) + m2;
    assert m2 == "\"data\":\"" + (e + "\"," + TimePart(now));
    TypedParts(k, m2);
    assert "\",\"data\":\"" == "\"," + "\"data\":\"" && "\",\"timestamp\":" == "\"," + "\"timestamp\":";
    assert JsonString(kind, str, now) == "{" + m1;
    assert ("{" + m1)[1..] == m1;
    TimeMember(now);
    StringMember("data", str, TimePart(now));
    StringMember("type", kind, m2);
    assert [Member("type", Str(Kept(kind)))] + ([Member("data", Str(Kept(str)))] + [Member("timestamp", Num(now))])
        == [Member("type", Str(Kept(kind))), Member("data", Str(Kept(str))), Member("timestamp", Num(now))];
  }

  /** A member with a value that the reader reads up to the next comma. */
  lemma ValueMember(key: string, data: string, v: Json, more: string)
    requires Plain(key) && ReadValue(data + ("," + more)) == Done(v, "," + more)
    ensures ReadMembers("\"" + key + "\"" + (":" + (data + ("," + more))))
         == match ReadMembers(more) case None => None case Some(ms) => Some([Member(key, v)] + ms)
  {
    hide ReadString, ReadValue;
    var a := ":" + (data + ("," + more));
    KeyIsRead(key, a);
    assert a[0] == ':' && a[1..] == data + ("," + more);
    assert ("," + more)[1..] == more && ("," + more)[0] == ',';
  }

  /** ... and in an event with data of the caller, the type, whatever the reader makes of the data, if it
      ends where the data end, and the time. */
  lemma DataEventIsRead(kind: CString, data: CString, now: int, v: Json)
    requires ReadValue(data + ("," + TimePart(now))) == Done(v, "," + TimePart(now))
    ensures ReadObject(WithType(kind, data, now))
         == Some([Member("type", Str(Kept(kind))), Member("data", v), Member("timestamp", Num(now))])
  {
    var k := Escaped(kind);
    hide ReadMembers, Escaped, Kept, Decimal, ReadValue, StringPart;
    var m2 := "\"" + "data" + "\"" + (":" + (data + ("," + TimePart(now))));
    ValueMember("data", data, v, TimePart(now));
    TimeMember(now);
    TypedParts(k, m2);
    assert "\",\"data\":" == "\"," + ("\"" + "data" + "\"" + ":") && ",\"timestamp\":" == "," + "\"timestamp\":";
    assert WithType(kind, data, now) == "{" + (StringPart("type", k) + m2);
    assert ("{" + (StringPart("type", k) + m2))[1..] == StringPart("type", k) + m2;
    StringMember("type", kind, m2);
    assert [Member("type", Str(Kept(kind)))] + ([Member("data", v)] + [Member("timestamp", Num(now))])
        == [Member("type", Str(Kept(kind))), Member("data", v), Member("timestamp", Num(now))];
  }
}
