/** What the reader makes of a journal whose writer was cut short: a torn line spoils the one line
    glued to it, that line is always reported as malformed, and every other event is read. */
module Torn {
  import opened Common
  import Utf8
  import Json
  import opened Journal

  // ----- A scanner that every loadable text passes -----

  datatype Mode = Expect | InString | Escaped | Hex(left: nat) | After | Digits

  datatype Lex = Error | Lex(mode: Mode, depth: nat)

  const START: Lex := Lex(Expect, 0)

  function AfterStep(depth: nat, c: char): Lex {
    if depth == 0 then Error
    else if c == ':' || c == ',' then Lex(Expect, depth)
    else if c == '}' || c == ']' then Lex(After, depth - 1)
    else Error
  }

  function Step(q: Lex, c: char): Lex {
    match q
    case Error => Error
    case Lex(Expect, d) =>
      if c == '"' then (if d == 0 then Lex(InString, 0) else Lex(InString, d))
      else if IsDigit(c) then Lex(Digits, d)
      else if c == '{' || c == '[' then Lex(Expect, d + 1)
      else if (c == '}' || c == ']') && d > 0 then Lex(After, d - 1)
      else Error
    case Lex(InString, d) =>
      if c == '"' then Lex(After, d)
      else if c == '\\' then Lex(Escaped, d)
      else if c < 32 as char then Error
      else q
    case Lex(Escaped, d) =>
      if c == 'u' then Lex(Hex(4), d)
      else if c in "\"\\/nrtbf" then Lex(InString, d)
      else Error
    case Lex(Hex(k), d) =>
      if Json.HexValue(c).None? then Error
      else if k <= 1 then Lex(InString, d)
      else Lex(Hex(k - 1), d)
    case Lex(After, d) => AfterStep(d, c)
    case Lex(Digits, d) => if IsDigit(c) then q else AfterStep(d, c)
  }

  function Run(q: Lex, s: string): Lex
    decreases |s|
  {
    if s == [] then q else Run(Step(q, s[0]), s[1..])
  }

  lemma {:induction false} RunAppend(q: Lex, s: string, t: string)
    ensures Run(q, s + t) == Run(Run(q, s), t)
    decreases |s|
  {
    if s == [] {
      assert s + t == t;
    } else {
      assert (s + t)[1..] == s[1..] + t;
      RunAppend(Step(q, s[0]), s[1..], t);
    }
  }

  lemma {:induction false} ErrorStays(s: string)
    ensures Run(Error, s) == Error
  {
    if s != [] {
      ErrorStays(s[1..]);
    }
  }

  lemma RunOne(q: Lex, s: string)
    requires s != []
    ensures Run(q, s) == Run(Step(q, s[0]), s[1..])
  {
  }

  lemma CharPasses(s: string, d: nat)
    requires s != [] && s[0] != '"' && Json.ReadChar(s).Some?
    ensures Run(Lex(InString, d), s) == Run(Lex(InString, d), Json.ReadChar(s).value.1)
  {
    RunOne(Lex(InString, d), s);
    if s[0] == '\\' {
      RunOne(Lex(Escaped, d), s[1..]);
      assert s[1..][1..] == s[2..];
      if s[1] == 'u' {
        var h := s[2..];
        RunOne(Lex(Hex(4), d), h);
        RunOne(Lex(Hex(3), d), h[1..]);
        RunOne(Lex(Hex(2), d), h[2..]);
        RunOne(Lex(Hex(1), d), h[3..]);
        assert h[4..] == s[6..];
      }
    }
  }

  lemma {:induction false} StringPasses(s: string, d: nat)
    requires Json.ReadString(s).Some?
    ensures Run(Lex(InString, d), s) == Run(Lex(After, d), Json.ReadString(s).value.1)
    decreases |s|
  {
    RunOne(Lex(InString, d), s);
    if s[0] != '"' {
      CharPasses(s, d);
      StringPasses(Json.ReadChar(s).value.1, d);
    }
  }

  lemma {:induction false} DigitsPass(s: string, n: nat, d: nat)
    requires n <= |s| && AllDigits(s[..n])
    ensures Run(Lex(Digits, d), s) == Run(Lex(Digits, d), s[n..])
  {
    if n > 0 {
      assert s[..n][0] == s[0];
      RunOne(Lex(Digits, d), s);
      assert s[1..][..n - 1] == s[..n][1..];
      DigitsPass(s[1..], n - 1, d);
      assert s[1..][n - 1..] == s[n..];
    }
  }

  predicate ValueDone(q: Lex, d: nat) {
    q == Lex(After, d) || q == Lex(Digits, d)
  }

  /** The reader's value grammar, seen by the scanner: at the same depth, just after a value. */
  lemma {:induction false} ValuePasses(s: string, d: nat) returns (q: Lex)
    requires Json.ReadValue(s).Some?
    ensures ValueDone(q, d) && (s[0] == '{' ==> q == Lex(After, d))
    ensures Run(Lex(Expect, d), s) == Run(q, Json.ReadValue(s).value.1)
    decreases |s|, 0
  {
    RunOne(Lex(Expect, d), s);
    q := Lex(After, d);
    if s[0] == '"' {
      StringPasses(s[1..], d);
    } else if IsDigit(s[0]) {
      q := Lex(Digits, d);
      var n := if s[0] == '0' then 1 else Json.DigitRun(s);
      if n > 0 {
        assert AllDigits(s[1..][..n - 1]) by {
          assert s[1..][..n - 1] == s[..n][1..];
        }
        DigitsPass(s[1..], n - 1, d);
        assert s[1..][n - 1..] == s[n..];
      }
    } else if s[0] == '[' && !(2 <= |s| && s[1] == ']') {
      ItemsPass(s[1..], d);
    } else if 2 <= |s| && (s[1] == '}' || s[1] == ']') {
      RunOne(Lex(Expect, d + 1), s[1..]);
      assert s[1..][1..] == s[2..];
    } else {
      MembersPass(s[1..], d);
    }
  }

  lemma {:induction false} ItemsPass(s: string, d: nat)
    requires Json.ReadItems(s).Some?
    ensures Run(Lex(Expect, d + 1), s) == Run(Lex(After, d), Json.ReadItems(s).value.1)
    decreases |s|, 1
  {
    var rest := Json.ReadValue(s).value.1;
    var q := ValuePasses(s, d + 1);
    RunOne(q, rest);
    if rest[0] == ',' {
      ItemsPass(rest[1..], d);
    }
  }

  lemma {:induction false} MembersPass(s: string, d: nat)
    requires Json.ReadMembers(s).Some?
    ensures Run(Lex(Expect, d + 1), s) == Run(Lex(After, d), Json.ReadMembers(s).value.1)
    decreases |s|, 1
  {
    var afterKey, rest := MembersShape(s);
    KeyPasses(s, afterKey, d);
    var q := ValuePasses(afterKey[1..], d + 1);
    RunOne(q, rest);
    if rest[0] == ',' {
      MembersPass(rest[1..], d);
    }
  }

  lemma KeyPasses(s: string, afterKey: string, d: nat)
    requires s != [] && s[0] == '"' && Json.ReadString(s[1..]).Some?
    requires afterKey == Json.ReadString(s[1..]).value.1 && afterKey != [] && afterKey[0] == ':'
    ensures Run(Lex(Expect, d + 1), s) == Run(Lex(Expect, d + 1), afterKey[1..])
  {
    RunOne(Lex(Expect, d + 1), s);
    StringPasses(s[1..], d + 1);
    RunOne(Lex(After, d + 1), afterKey);
  }

  /** The pieces a successful member read goes through. */
  lemma MembersShape(s: string) returns (afterKey: string, rest: string)
    requires Json.ReadMembers(s).Some?
    ensures s != [] && s[0] == '"' && Json.ReadString(s[1..]).Some?
    ensures afterKey == Json.ReadString(s[1..]).value.1 && |afterKey| < |s|
    ensures afterKey != [] && afterKey[0] == ':' && Json.ReadValue(afterKey[1..]).Some?
    ensures rest == Json.ReadValue(afterKey[1..]).value.1 && |rest| < |s|
    ensures rest != [] && (rest[0] == '}' || rest[0] == ',')
    ensures rest[0] == '}' ==> Json.ReadMembers(s).value.1 == rest[1..]
    ensures rest[0] == ',' ==>
              Json.ReadMembers(rest[1..]).Some?
              && Json.ReadMembers(s).value.1 == Json.ReadMembers(rest[1..]).value.1
  {
    afterKey := Json.ReadString(s[1..]).value.1;
    rest := Json.ReadValue(afterKey[1..]).value.1;
  }

  lemma LoadPasses(s: string)
    requires Json.Load(s).Some?
    ensures ValueDone(Run(START, s), 0)
  {
    var q := ValuePasses(s, 0);
    assert Run(q, "") == q;
  }

  // ----- Once inside a document there is no way to a second start -----

  /** Inside some object, or past the end of the document, or refused. */
  predicate Stuck(q: Lex) {
    q.Error? || q.depth >= 1 || q.mode == After
  }

  lemma {:induction false} StuckStays(q: Lex, s: string)
    requires Stuck(q)
    ensures Stuck(Run(q, s))
    decreases |s|
  {
    if s != [] {
      StuckStays(Step(q, s[0]), s[1..]);
    }
  }

  function Text(e: Event): string {
    Json.Print(EventValue(e))
  }

  lemma QuotedKeyFront(key: string)
    requires key != [] && Json.EscapeChar(key[0]) == [key[0]]
    ensures |Json.Quote(key)| >= 3 && Json.Quote(key)[0] == '"' && Json.Quote(key)[1] == key[0]
  {
    assert Json.Escape(key)[0] == key[0];
  }

  lemma TextFront(e: Event)
    ensures |Text(e)| > 3
    ensures Text(e)[0] == '{' && Text(e)[1] == '"' && Text(e)[2] == 't'
  {
    QuotedKeyFront("ts");
    var key, ms := Json.Quote("ts"), EventValue(e).ms;
    assert Json.PrintMembers(ms)[..3] == key[..3];
    assert Text(e) == "{" + Json.PrintMembers(ms) + "}";
  }

  /** An event text read from inside a document never completes the document. */
  lemma TextNeverCompletes(q: Lex, e: Event)
    requires Stuck(q)
    ensures !ValueDone(Run(q, Text(e)), 0)
  {
    var s := Text(e);
    TextFront(e);
    RunOne(q, s);
    RunOne(Step(q, s[0]), s[1..]);
    RunOne(Step(Step(q, s[0]), s[1]), s[2..]);
    if q.Lex? && q.mode == Expect {
      Json.LoadUndoesPrint(EventValue(e));
      var after := ValuePasses(s, q.depth);
      assert Run(after, "") == after;
    } else {
      assert Step(Step(Step(q, s[0]), s[1]), s[2]) == Error;
      ErrorStays(s[3..]);
      assert s[2..][1..] == s[3..];
      assert s[1..][1..] == s[2..];
    }
  }

  // ----- Cut characters -----

  /** Whatever ASCII text follows, the bytes never decode. */
  ghost predicate Undecodable(f: seq<byte>) {
    forall rest: seq<byte> :: rest != [] && rest[0] < 0x80 ==> Utf8.Decode(f + rest).None?
  }

  lemma {:induction false} DecodeAfterText(t: string, y: seq<byte>)
    ensures Utf8.Decode(Utf8.Encode(t) + y) ==
            if Utf8.Decode(y).None? then None else Some(t + Utf8.Decode(y).value)
  {
    if t == [] {
      assert Utf8.Encode(t) + y == y;
      if Utf8.Decode(y).Some? {
        assert t + Utf8.Decode(y).value == Utf8.Decode(y).value;
      }
    } else {
      EncodeFront(t, y);
      Utf8.DecodeEncodedChar(t[0], Utf8.Encode(t[1..]) + y);
      DecodeAfterText(t[1..], y);
      if Utf8.Decode(y).Some? {
        FirstCharFront(t, Utf8.Decode(y).value);
      }
    }
  }

  lemma EncodeFront(t: string, y: seq<byte>)
    requires t != []
    ensures Utf8.Encode(t) + y == Utf8.EncodeChar(t[0]) + (Utf8.Encode(t[1..]) + y)
  {
  }

  lemma FirstCharFront(t: string, u: string)
    requires t != []
    ensures [t[0]] + (t[1..] + u) == t + u
  {
  }

  /** A character cut after its first byte cannot be completed by ASCII. */
  lemma CutCharUndecodable(c: char, f: seq<byte>)
    requires f != [] && f < Utf8.EncodeChar(c)
    ensures Undecodable(f)
  {
    forall rest: seq<byte> | rest != [] && rest[0] < 0x80 ensures Utf8.Decode(f + rest).None? {
      var b := f + rest;
      assert b[|f|] == rest[0];
      assert forall i :: 0 <= i < |f| ==> b[i] == Utf8.EncodeChar(c)[i];
      assert Utf8.DecodeChar(b).None?;
    }
  }

  lemma UndecodableAfterText(t: string, f: seq<byte>)
    requires Undecodable(f)
    ensures Undecodable(Utf8.Encode(t) + f)
  {
    forall rest: seq<byte> | rest != [] && rest[0] < 0x80
      ensures Utf8.Decode(Utf8.Encode(t) + f + rest).None?
    {
      Regroup(Utf8.Encode(t), f, rest);
      NeverDecodes(f, rest);
      DecodeAfterText(t, f + rest);
    }
  }

  /** A prefix of encoded text is encoded text, or ends in a cut character. */
  lemma {:induction false} PrefixOfEncoded(s: string, f: seq<byte>) returns (t: string)
    requires f <= Utf8.Encode(s)
    ensures t <= s && Utf8.Encode(t) <= f
    ensures f == Utf8.Encode(t) || Undecodable(f)
    ensures f != [] ==> t != [] || Undecodable(f)
  {
    t := [];
    if f != [] {
      var front := Utf8.EncodeChar(s[0]);
      if |f| < |front| {
        assert f < front;
        CutCharUndecodable(s[0], f);
      } else {
        assert f == front + f[|front|..];
        var u := PrefixOfEncoded(s[1..], f[|front|..]);
        t := [s[0]] + u;
        assert t[1..] == u;
        assert s == [s[0]] + s[1..];
        if f[|front|..] != Utf8.Encode(u) {
          UndecodableAfterText([s[0]], f[|front|..]);
          assert Utf8.Encode([s[0]]) == front + [] by {
            assert [s[0]][1..] == "";
          }
          assert front + [] == front;
        }
      }
    }
  }

  // ----- Spoilt fragments -----

  /** A fragment onto which no event line can be appended and still be read as JSON. */
  ghost predicate Spoilt(f: seq<byte>) {
    Undecodable(f) || exists t :: f == Utf8.Encode(t) && Stuck(Run(START, t))
  }

  lemma StartIsStuck(t: string, e: Event)
    requires t != [] && t <= Text(e)
    ensures Stuck(Run(START, t))
  {
    TextFront(e);
    RunOne(START, t);
    StuckStays(Lex(Expect, 1), t[1..]);
  }

  lemma BodyStartsAscii(e: Event)
    ensures |Body(e)| > 0 && Body(e)[0] < 0x80
  {
    TextFront(e);
  }

  /** A torn line is spoilt. */
  lemma TornIsSpoilt(e: Event, f: seq<byte>)
    requires f != [] && f <= Body(e)
    ensures Spoilt(f)
  {
    var t := PrefixOfEncoded(Text(e), f);
    if !Undecodable(f) {
      StartIsStuck(t, e);
    }
  }

  lemma UndecodableThenAscii(g: seq<byte>, f: seq<byte>)
    requires Undecodable(g) && f != [] && f[0] < 0x80
    ensures Undecodable(g + f)
  {
    forall rest: seq<byte> | rest != [] && rest[0] < 0x80 ensures Utf8.Decode(g + f + rest).None? {
      NeverDecodes(g, f + rest);
      Regroup(g, f, rest);
    }
  }

  lemma NeverDecodes(g: seq<byte>, more: seq<byte>)
    requires Undecodable(g) && more != [] && more[0] < 0x80
    ensures Utf8.Decode(g + more).None?
  {
  }

  lemma Regroup(x: seq<byte>, y: seq<byte>, z: seq<byte>)
    ensures x + y + z == x + (y + z)
  {
  }

  lemma StuckThenText(t: string, u: string)
    requires Stuck(Run(START, t))
    ensures Spoilt(Utf8.Encode(t) + Utf8.Encode(u))
  {
    Utf8.EncodeConcat(t, u);
    RunAppend(START, t, u);
    StuckStays(Run(START, t), u);
  }

  /** A torn line glued to a spoilt fragment is spoilt. */
  lemma SpoiltStays(g: seq<byte>, e: Event, f: seq<byte>)
    requires Spoilt(g) && f != [] && f <= Body(e)
    ensures Spoilt(g + f)
  {
    if Undecodable(g) {
      BodyStartsAscii(e);
      UndecodableThenAscii(g, f);
    } else {
      var t :| g == Utf8.Encode(t) && Stuck(Run(START, t));
      var u := PrefixOfEncoded(Text(e), f);
      if Undecodable(f) {
        UndecodableAfterText(t, f);
      } else {
        StuckThenText(t, u);
      }
    }
  }

  /** An event line glued to a spoilt fragment is malformed, not UTF-8 or not JSON, unless a limit of the
      JSON library is met before the error in it. */
  lemma GluedLineIsMalformed(rt: Runtime, g: seq<byte>, e: Event)
    requires Spoilt(g)
    ensures var c := Classify(rt, g + Body(e));
            && (c.Crash? <==> LineRaises(rt.limits, g + Body(e)))
            && (!c.Crash? ==> c.Bad? && c.malformed.rawLine == g + Body(e) && c.malformed.fault in {NotUtf8, NotJson})
  {
    CrashIffLineRaises(rt, g + Body(e));
    if Undecodable(g) {
      BodyStartsAscii(e);
    } else {
      var t :| g == Utf8.Encode(t) && Stuck(Run(START, t));
      DecodeAfterText(t, Body(e));
      Utf8.DecodeUndoesEncode(Text(e));
      if Json.Load(t + Text(e)).Some? {
        LoadPasses(t + Text(e));
        RunAppend(START, t, Text(e));
        TextNeverCompletes(Run(START, t), e);
      }
    }
  }

  // ----- Any history of appends -----

  datatype Attempt = Attempt(event: Event, io: AppendOutcome)

  /** The bytes one attempt leaves in the file (the contract of EventFile.AppendEvent). */
  function Left(a: Attempt): (f: seq<byte>)
    ensures f <= Line(a.event)
  {
    if |Line(a.event)| < PIPE_BUF_LIMIT && a.io.Wrote? && a.io.n <= |Line(a.event)|
    then Line(a.event)[..a.io.n] else []
  }

  function File(history: seq<Attempt>): seq<byte> {
    if history == [] then [] else Left(history[0]) + File(history[1..])
  }

  /** What a reader should see, given the fragment that earlier attempts left behind: a whole line
      is an event on a clean file and one malformed line on a fragment; a torn one adds to the fragment. */
  function Seen(history: seq<Attempt>, fragment: seq<byte>): (seq<Event>, seq<seq<byte>>, seq<byte>) {
    if history == [] then ([], [], fragment)
    else
      var a := history[0];
      if Left(a) != Line(a.event) then Seen(history[1..], fragment + Left(a))
      else WithLine(a.event, fragment, Seen(history[1..], []))
  }

  function WithLine(e: Event, fragment: seq<byte>, more: (seq<Event>, seq<seq<byte>>, seq<byte>))
    : (seq<Event>, seq<seq<byte>>, seq<byte>)
  {
    if fragment == [] then ([e] + more.0, more.1, more.2)
    else (more.0, [fragment + Body(e)] + more.1, more.2)
  }

  /** The lines of the file, each an event's body or a glued line. */
  ghost predicate Reads(rt: Runtime, lines: seq<seq<byte>>, events: seq<Event>, glued: seq<seq<byte>>) {
    var r := Scan(LineCheck(rt), lines);
    && (r.Some? <==> NoneRaises(rt.limits, glued))
    && (r.Some? ==>
          && r.value.0 == events
          && |r.value.1| == |glued|
          && forall k :: 0 <= k < |glued| ==> r.value.1[k].rawLine == glued[k])
  }

  ghost predicate NoneRaises(lim: Json.Limits, lines: seq<seq<byte>>) {
    forall k :: 0 <= k < |lines| ==> !LineRaises(lim, lines[k])
  }

  lemma NoneRaisesFront(lim: Json.Limits, line: seq<byte>, lines: seq<seq<byte>>)
    ensures NoneRaises(lim, [line] + lines) <==> !LineRaises(lim, line) && NoneRaises(lim, lines)
  {
    if NoneRaises(lim, [line] + lines) {
      assert ([line] + lines)[0] == line;
      assert forall k :: 0 <= k < |lines| ==> lines[k] == ([line] + lines)[k + 1];
    }
  }

  lemma ReadsFront(rt: Runtime, line: seq<byte>, lines: seq<seq<byte>>,
                   events: seq<Event>, glued: seq<seq<byte>>)
    requires Reads(rt, lines, events, glued)
    ensures Classify(rt, line).Valid? ==>
              Reads(rt, [line] + lines, [Classify(rt, line).event] + events, glued)
    ensures Classify(rt, line).Crash? || (Classify(rt, line).Bad? && Classify(rt, line).malformed.rawLine == line) ==>
              Reads(rt, [line] + lines, events, [line] + glued)
  {
    CrashIffLineRaises(rt, line);
    NoneRaisesFront(rt.limits, line, glued);
    var cls := LineCheck(rt);
    ScanAppend(cls, [line], lines);
    ScanOne(cls, line);
  }

  lemma ScanOne(cls: Classifier, line: seq<byte>)
    ensures Scan(cls, [line]) == match cls(line)
              case Valid(e) => Some(([e], [])) case Bad(m) => Some(([], [m])) case Crash => None
  {
    assert [line][..0] == [];
    match cls(line) {
      case Valid(e) => assert [] + [e] == [e];
      case Bad(m) => assert [] + [m] == [m];
      case Crash =>
    }
  }

  lemma {:induction false} HistoryReads(rt: Runtime, history: seq<Attempt>, fragment: seq<byte>)
    requires forall a :: a in history ==> WellFormed(rt, a.event)
    requires fragment == [] || Spoilt(fragment)
    requires NEWLINE !in fragment
    ensures ReadsAs(rt, fragment + File(history), Seen(history, fragment))
    decreases |history|
  {
    if history == [] {
      assert fragment + File(history) == fragment;
      SplitNoNewline(fragment);
    } else {
      var a, more := history[0], history[1..];
      assert WellFormed(rt, a.event);
      FileFront(history, fragment);
      if Left(a) != Line(a.event) {
        TornStep(a, fragment);
        HistoryReads(rt, more, fragment + Left(a));
      } else {
        HistoryReads(rt, more, []);
        WholeStep(rt, a.event, fragment, File(more), Seen(more, []));
      }
    }
  }

  ghost predicate ReadsAs(rt: Runtime, bytes: seq<byte>, seen: (seq<Event>, seq<seq<byte>>, seq<byte>)) {
    Reads(rt, Lines(bytes), seen.0, seen.1) && Fragment(bytes) == seen.2
  }

  lemma FileFront(history: seq<Attempt>, fragment: seq<byte>)
    requires history != []
    ensures fragment + File(history) == fragment + Left(history[0]) + File(history[1..])
    ensures [] + File(history[1..]) == File(history[1..])
  {
  }

  lemma TornStep(a: Attempt, fragment: seq<byte>)
    requires Left(a) != Line(a.event)
    requires fragment == [] || Spoilt(fragment)
    requires NEWLINE !in fragment
    ensures fragment + Left(a) == [] || Spoilt(fragment + Left(a))
    ensures NEWLINE !in fragment + Left(a)
  {
    BodyHasNoNewline(a.event);
    assert Left(a) <= Body(a.event);
    if Left(a) == [] {
      assert fragment + Left(a) == fragment;
    } else if fragment == [] {
      TornIsSpoilt(a.event, Left(a));
      assert fragment + Left(a) == Left(a);
    } else {
      SpoiltStays(fragment, a.event, Left(a));
    }
  }

  lemma WholeLines(e: Event, fragment: seq<byte>, more: seq<byte>)
    requires NEWLINE !in fragment
    ensures Lines(fragment + Line(e) + more) == [fragment + Body(e)] + Lines(more)
    ensures Fragment(fragment + Line(e) + more) == Fragment(more)
  {
    LinesFromPieces(fragment + Line(e) + more, [fragment + Body(e)], Split(more)) by {
      LineSplits(e, fragment, more);
    }
  }

  lemma WholeStep(rt: Runtime, e: Event, fragment: seq<byte>, more: seq<byte>,
                  seen: (seq<Event>, seq<seq<byte>>, seq<byte>))
    requires WellFormed(rt, e)
    requires fragment == [] || Spoilt(fragment)
    requires NEWLINE !in fragment
    requires ReadsAs(rt, more, seen)
    ensures ReadsAs(rt, fragment + Line(e) + more, WithLine(e, fragment, seen))
  {
    var line := fragment + Body(e);
    WholeLines(e, fragment, more);
    ReadsFront(rt, line, Lines(more), seen.0, seen.1);
    if fragment == [] {
      assert line == Body(e);
      ClassifyWritten(rt, e);
    } else {
      GluedLineIsMalformed(rt, fragment, e);
    }
  }

  /** Main result: after any appends, each answered by the system in any way, a read from the start
      returns exactly when no glued line meets a limit of the JSON library; and then it returns exactly
      the events that `Seen` lists, in order; each glued line is reported malformed, once; a fragment at
      the end stays unread. */
  lemma AnyHistoryIsRead(rt: Runtime, history: seq<Attempt>)
    requires forall a :: a in history ==> WellFormed(rt, a.event)
    ensures var (events, glued, rest) := Seen(history, []);
            var r := Tail(LineCheck(rt), Some(File(history)), 0);
            && (r.Some? <==> NoneRaises(rt.limits, glued))
            && (r.Some? ==>
                  && r.value.valid == events
                  && |r.value.malformed| == |glued|
                  && (forall k :: 0 <= k < |glued| ==> r.value.malformed[k].rawLine == glued[k])
                  && r.value.offset == |File(history)| - |rest|)
  {
    HistoryReads(rt, history, []);
    assert [] + File(history) == File(history);
    assert File(history)[0..] == File(history);
  }

  // ----- Torn writes that make the reader raise -----

  /** An append of e cut after its first six bytes, `{"ts":`. */
  function CutAtKey(e: Event): Attempt {
    Attempt(e, Wrote(|Json.OPENING|, true, true))
  }

  /** n appends cut there, then one that goes through. */
  function CutsThenWhole(e: Event, n: nat): seq<Attempt> {
    if n == 0 then [Attempt(e, Wrote(|Line(e)|, true, true))] else [CutAtKey(e)] + CutsThenWhole(e, n - 1)
  }

  lemma QuotedTs()
    ensures Json.Quote("ts") == "\"ts\""
  {
    Json.EscapeFront("ts", "");
    Json.EscapeFront("s", "");
  }

  lemma PrefixOfJoined(key: string, value: string, rest: string)
    ensures "{" + key + ":" <= "{" + (key + ":" + value + "," + rest) + "}"
  {
    assert "{" + (key + ":" + value + "," + rest) + "}" == "{" + key + ":" + (value + "," + rest + "}");
  }

  lemma TextOpens(e: Event)
    ensures Json.OPENING <= Text(e) && |Text(e)| > |Json.OPENING|
  {
    var ms := EventValue(e).ms;
    QuotedTs();
    PrefixOfJoined(Json.Quote("ts"), Json.Print(ms.value), Json.PrintMembers(ms.rest));
    assert ms.rest.Member?;
    assert Json.PrintMembers(ms) == Json.Quote("ts") + ":" + Json.Print(ms.value) + "," + Json.PrintMembers(ms.rest);
    assert Text(e) == "{" + Json.PrintMembers(ms) + "}";
  }

  lemma {:induction false} AsciiEncodes(s: string)
    requires forall i :: 0 <= i < |s| ==> s[i] < 0x80 as char
    ensures |Utf8.Encode(s)| == |s|
  {
    if s != "" {
      AsciiEncodes(s[1..]);
    }
  }

  lemma CutLeavesOpening(e: Event)
    requires |Line(e)| < PIPE_BUF_LIMIT
    ensures Left(CutAtKey(e)) == Utf8.Encode(Json.OPENING) && Left(CutAtKey(e)) != Line(e)
  {
    TextOpens(e);
    AsciiEncodes(Json.OPENING);
    var rest := Text(e)[|Json.OPENING|..];
    assert Text(e) == Json.OPENING + rest;
    Utf8.EncodeConcat(Json.OPENING, rest);
  }

  lemma SeenWhole(e: Event, fragment: seq<byte>)
    requires |Line(e)| < PIPE_BUF_LIMIT && fragment != []
    ensures Seen(CutsThenWhole(e, 0), fragment) == ([], [fragment + Body(e)], [])
  {
    var h := CutsThenWhole(e, 0);
    assert Left(h[0]) == Line(e) && h[1..] == [];
    assert [fragment + Body(e)] + [] == [fragment + Body(e)];
  }

  lemma SeenCut(e: Event, more: seq<Attempt>, fragment: seq<byte>)
    requires |Line(e)| < PIPE_BUF_LIMIT
    ensures Seen([CutAtKey(e)] + more, fragment) == Seen(more, fragment + Utf8.Encode(Json.OPENING))
  {
    CutLeavesOpening(e);
    assert ([CutAtKey(e)] + more)[1..] == more;
  }

  lemma GrownFragment(fragment: seq<byte>, n: nat, body: seq<byte>)
    ensures fragment + Utf8.Encode(Json.OPENING) + Utf8.Encode(Json.Repeated(Json.OPENING, n)) + body
         == fragment + Utf8.Encode(Json.Repeated(Json.OPENING, n + 1)) + body
  {
    Utf8.EncodeConcat(Json.OPENING, Json.Repeated(Json.OPENING, n));
    Regroup(fragment, Utf8.Encode(Json.OPENING), Utf8.Encode(Json.Repeated(Json.OPENING, n)));
  }

  lemma {:induction false} SeenAfterCuts(e: Event, n: nat, fragment: seq<byte>)
    requires |Line(e)| < PIPE_BUF_LIMIT && (n > 0 || fragment != [])
    ensures Seen(CutsThenWhole(e, n), fragment)
         == ([], [fragment + Utf8.Encode(Json.Repeated(Json.OPENING, n)) + Body(e)], [])
    decreases n
  {
    if n == 0 {
      SeenWhole(e, fragment);
      assert fragment + [] == fragment;
    } else {
      AsciiEncodes(Json.OPENING);
      SeenCut(e, CutsThenWhole(e, n - 1), fragment);
      SeenAfterCuts(e, n - 1, fragment + Utf8.Encode(Json.OPENING));
      GrownFragment(fragment, n - 1, Body(e));
    }
  }

  /** The event behind as many openings as there are levels. */
  lemma NestedEventRaises(lim: Json.Limits, e: Event)
    ensures LineRaises(lim, [] + Utf8.Encode(Json.Repeated(Json.OPENING, lim.depth)) + Body(e))
  {
    var nested := Json.Repeated(Json.OPENING, lim.depth);
    assert [] + Utf8.Encode(nested) + Body(e) == Utf8.Encode(nested) + Utf8.Encode(Text(e));
    Utf8.EncodeConcat(nested, Text(e));
    Utf8.DecodeUndoesEncode(nested + Text(e));
    TextFront(e);
    Json.DeepNestRaises(lim, lim.depth, Text(e));
  }

  /** As many appends in a row cut there as the library has levels, and the next whole event makes the
      reader raise. */
  lemma CutsMakeTheReaderRaise(rt: Runtime, e: Event)
    requires WellFormed(rt, e) && |Line(e)| < PIPE_BUF_LIMIT && rt.limits.depth > 0
    ensures Tail(LineCheck(rt), Some(File(CutsThenWhole(e, rt.limits.depth))), 0).None?
  {
    var history := CutsThenWhole(e, rt.limits.depth);
    CutsHoldOnly(e, rt.limits.depth);
    AnyHistoryIsRead(rt, history);
    SeenAfterCuts(e, rt.limits.depth, []);
    NestedEventRaises(rt.limits, e);
    assert LineRaises(rt.limits, Seen(history, []).1[0]);
  }

  lemma {:induction false} CutsHoldOnly(e: Event, n: nat)
    ensures forall a :: a in CutsThenWhole(e, n) ==> a.event == e
  {
    if n > 0 {
      CutsHoldOnly(e, n - 1);
    }
  }

  // ----- How much is lost -----

  /** A line is lost only to a torn line before it: no more events are spoilt than lines were torn. */
  lemma {:induction false} SpoiltAtMostTorn(history: seq<Attempt>, fragment: seq<byte>)
    ensures var (events, glued, rest) := Seen(history, fragment);
            && |events| + |glued| == Whole(history)
            && |glued| <= Partial(history) + (if fragment == [] then 0 else 1)
    decreases |history|
  {
    if history != [] {
      var a := history[0];
      if Left(a) != Line(a.event) {
        SpoiltAtMostTorn(history[1..], fragment + Left(a));
      } else {
        SpoiltAtMostTorn(history[1..], []);
      }
    }
  }

  /** How many attempts left a whole line, and how many left part of one. */
  function Whole(history: seq<Attempt>): nat {
    if history == [] then 0
    else Whole(history[1..]) + if Left(history[0]) == Line(history[0].event) then 1 else 0
  }

  function Partial(history: seq<Attempt>): nat {
    if history == [] then 0
    else
      Partial(history[1..])
      + if Left(history[0]) != Line(history[0].event) && Left(history[0]) != [] then 1 else 0
  }
}
