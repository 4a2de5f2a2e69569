/** The event journal: an appending writer and an incremental reader that carries a byte offset. */
module Journal {
  import opened Common
  import Utf8
  import Json

  datatype Kind = Done | Fail | Wait

  datatype Event = Event(ts: string, kind: Kind, payload: Json.Members)

  datatype Fault = Refused | NotUtf8 | NotJson | NotObject | BadKind | BadSchema | BadTime | BadPayload | BadReason

  datatype Malformed = Malformed(rawLine: seq<byte>, fault: Fault)

  /** What the reader makes of one line. Crash: an exception that the reader does not handle, from the
      JSON library's limits or from looking an array or object up in the set of known kinds. */
  datatype Verdict = Valid(event: Event) | Bad(malformed: Malformed) | Crash

  /** What the reader gets from its interpreter: the timestamp test, and the limits of loading JSON. */
  datatype Runtime = Runtime(iso: string -> bool, limits: Json.Limits)

  type Classifier = seq<byte> -> Verdict

  const NEWLINE: byte := 10
  const SCHEMA_VERSION: nat := 1
  const PIPE_BUF_LIMIT: nat := 4096

  function KindName(k: Kind): string {
    match k
    case Done => "done"
    case Fail => "fail"
    case Wait => "wait"
  }

  function KindOf(v: Option<Json.Value>): Option<Kind> {
    match v
    case Some(Text(s)) =>
      if s == "done" then Some(Done) else if s == "fail" then Some(Fail)
      else if s == "wait" then Some(Wait) else None
    case _ => None
  }

  /** The payload's reason when it is a non-empty string, otherwise empty. */
  function ReasonOf(payload: Json.Members): string {
    match Json.Lookup(payload, "reason")
    case Some(Text(s)) => s
    case _ => ""
  }

  /** The values that cannot be looked up in a set. */
  predicate Unhashable(v: Json.Value) {
    v.Array? || v.Object?
  }

  /** The schema check on a decoded object, in the reader's order. `rt.iso` is the timestamp test. */
  function Validate(rt: Runtime, ms: Json.Members, raw: seq<byte>): Verdict {
    var kind := Json.Lookup(ms, "kind");
    if kind.Some? && Unhashable(kind.value) then Crash
    else if KindOf(kind).None? then Bad(Malformed(raw, BadKind))
    else if Json.Lookup(ms, "schema_version") != Some(Json.Nat(SCHEMA_VERSION)) then Bad(Malformed(raw, BadSchema))
    else
      match Json.Lookup(ms, "ts")
      case Some(Text(ts)) =>
        if !rt.iso(ts) then Bad(Malformed(raw, BadTime))
        else
          (match Json.Lookup(ms, "payload")
           case Some(Object(payload)) =>
             if KindOf(kind).value != Done && ReasonOf(payload) == "" then Bad(Malformed(raw, BadReason))
             else Valid(Event(ts, KindOf(kind).value, payload))
           case _ => Bad(Malformed(raw, BadPayload)))
      case _ => Bad(Malformed(raw, BadTime))
  }

  function Classify(rt: Runtime, raw: seq<byte>): Verdict {
    match Utf8.Decode(raw)
    case None => Bad(Malformed(raw, NotUtf8))
    case Some(text) =>
      match Json.Loads(rt.limits, text)
      case Raised => Crash
      case NoJson => Bad(Malformed(raw, NotJson))
      case Parsed(Object(ms)) => Validate(rt, ms, raw)
      case Parsed(_) => Bad(Malformed(raw, NotObject))
  }

  /** The reader's own classifier. */
  function LineCheck(rt: Runtime): Classifier {
    raw => Classify(rt, raw)
  }

  // ----- When the check of a line raises -----

  predicate KindIsUnhashable(v: Json.Value) {
    v.Object? && Json.Lookup(v.ms, "kind").Some? && Unhashable(Json.Lookup(v.ms, "kind").value)
  }

  /** The bytes decode, and either a limit is met before a syntax error, or the text is an object whose
      kind is an array or object. */
  predicate LineRaises(lim: Json.Limits, raw: seq<byte>) {
    && Utf8.Decode(raw).Some?
    && var text := Utf8.Decode(raw).value;
       Json.ValueRaises(lim, text, lim.depth) || (Json.Load(text).Some? && KindIsUnhashable(Json.Load(text).value))
  }

  /** The check raises exactly on those lines, whatever the timestamp test says. */
  lemma CrashIffLineRaises(rt: Runtime, raw: seq<byte>)
    ensures Classify(rt, raw).Crash? <==> LineRaises(rt.limits, raw)
  {
  }

  /** On a line that is a printed value: exactly when the value goes beyond a limit or has such a kind. */
  lemma PrintedLineRaises(lim: Json.Limits, v: Json.Value)
    ensures LineRaises(lim, Utf8.Encode(Json.Print(v))) <==> !Json.Within(lim, v, lim.depth) || KindIsUnhashable(v)
  {
    Utf8.DecodeUndoesEncode(Json.Print(v));
    Json.LoadUndoesPrint(v);
    Json.LoadsIsExact(lim, Json.Print(v));
  }

  /** Lines that raise, under any limits: an object as kind, an array as kind, a numeral one digit too
      long, objects nested one level too deep. */
  lemma LinesThatRaise(lim: Json.Limits)
    ensures LineRaises(lim, Utf8.Encode("{\"kind\":{}}"))
    ensures LineRaises(lim, Utf8.Encode("{\"kind\":[]}"))
    ensures LineRaises(lim, Utf8.Encode(Json.Repeated("1", lim.digits + 1)))
    ensures LineRaises(lim, Utf8.Encode(Json.Repeated(Json.OPENING, lim.depth) + "{"))
  {
    ObjectKindRaises(lim);
    ArrayKindRaises(lim);
    LongNumeralRaises(lim);
    DeepNestRaises(lim);
  }

  lemma ObjectKindRaises(lim: Json.Limits)
    ensures LineRaises(lim, Utf8.Encode("{\"kind\":{}}"))
  {
    PrintedLineRaises(lim, Json.Object(Json.Member("kind", Json.Object(Json.NoMembers), Json.NoMembers)));
    PrintedKind();
  }

  lemma ArrayKindRaises(lim: Json.Limits)
    ensures LineRaises(lim, Utf8.Encode("{\"kind\":[]}"))
  {
    PrintedLineRaises(lim, Json.Object(Json.Member("kind", Json.Array(Json.NoItems), Json.NoMembers)));
    PrintedKind();
  }

  lemma LongNumeralRaises(lim: Json.Limits)
    ensures LineRaises(lim, Utf8.Encode(Json.Repeated("1", lim.digits + 1)))
  {
    Json.LongNumeralRaises(lim);
    Utf8.DecodeUndoesEncode(Json.Repeated("1", lim.digits + 1));
  }

  lemma DeepNestRaises(lim: Json.Limits)
    ensures LineRaises(lim, Utf8.Encode(Json.Repeated(Json.OPENING, lim.depth) + "{"))
  {
    Json.DeepNestRaises(lim, lim.depth, "{");
    Utf8.DecodeUndoesEncode(Json.Repeated(Json.OPENING, lim.depth) + "{");
  }

  /** A line that does not outgrow the limits raises only for its kind. */
  lemma ShortLineRaisesForKindOnly(lim: Json.Limits, raw: seq<byte>)
    requires |raw| <= lim.digits && |raw| <= lim.depth
    ensures LineRaises(lim, raw) <==>
              Utf8.Decode(raw).Some? && Json.Load(Utf8.Decode(raw).value).Some?
              && KindIsUnhashable(Json.Load(Utf8.Decode(raw).value).value)
  {
    Utf8.DecodedIsShorter(raw);
    if Utf8.Decode(raw).Some? && Json.ValueRaises(lim, Utf8.Decode(raw).value, lim.depth) {
      Json.RaiseIsLong(lim, Utf8.Decode(raw).value, lim.depth);
    }
  }

  lemma PrintedKind()
    ensures Json.Print(Json.Object(Json.Member("kind", Json.Object(Json.NoMembers), Json.NoMembers)))
         == "{\"kind\":{}}"
    ensures Json.Print(Json.Object(Json.Member("kind", Json.Array(Json.NoItems), Json.NoMembers)))
         == "{\"kind\":[]}"
  {
    Json.EscapeFront("kind", ""); Json.EscapeFront("ind", ""); Json.EscapeFront("nd", ""); Json.EscapeFront("d", "");
    assert Json.Quote("kind") == "\"kind\"";
  }

  // ----- Which lines are let through -----

  /** The line's bytes decode, and load within the limits to an object with these members. */
  predicate LoadsTo(rt: Runtime, raw: seq<byte>, ms: Json.Members) {
    Utf8.Decode(raw).Some? && Json.Loads(rt.limits, Utf8.Decode(raw).value) == Json.Parsed(Json.Object(ms))
  }

  predicate NamesKind(ms: Json.Members, kind: Kind) {
    Json.Lookup(ms, "kind") == Some(Json.Text(match kind case Done => "done" case Fail => "fail" case Wait => "wait"))
  }

  predicate HasVersion(ms: Json.Members) {
    Json.Lookup(ms, "schema_version") == Some(Json.Nat(1))
  }

  predicate HasTime(rt: Runtime, ms: Json.Members, ts: string) {
    Json.Lookup(ms, "ts") == Some(Json.Text(ts)) && rt.iso(ts)
  }

  predicate HasPayload(ms: Json.Members, payload: Json.Members) {
    Json.Lookup(ms, "payload") == Some(Json.Object(payload))
  }

  ghost predicate HasReason(payload: Json.Members) {
    exists reason: string :: reason != "" && Json.Lookup(payload, "reason") == Some(Json.Text(reason))
  }

  /** Main result: a line is accepted as an event exactly when it loads to an object that names the event's
      kind, the number 1 as schema version, its timestamp, and its payload, with a non-empty reason for
      fail and wait. */
  lemma AcceptedIff(rt: Runtime, raw: seq<byte>, e: Event)
    ensures Classify(rt, raw) == Valid(e) <==>
              exists ms :: LoadsTo(rt, raw, ms) && Describes(rt, ms, e)
  {
    if Classify(rt, raw).Valid? {
      var ms := Json.Loads(rt.limits, Utf8.Decode(raw).value).value.ms;
      assert LoadsTo(rt, raw, ms);
      ReasonIsThere(Classify(rt, raw).event.payload);
      KindIsNamed(ms, Classify(rt, raw).event.kind);
    }
    if ms :| LoadsTo(rt, raw, ms) && Describes(rt, ms, e) {
      KindIsNamed(ms, e.kind);
      ReasonIsThere(e.payload);
    }
  }

  ghost predicate Describes(rt: Runtime, ms: Json.Members, e: Event) {
    && NamesKind(ms, e.kind) && HasVersion(ms) && HasTime(rt, ms, e.ts) && HasPayload(ms, e.payload)
    && (e.kind == Done || HasReason(e.payload))
  }

  lemma KindIsNamed(ms: Json.Members, kind: Kind)
    ensures NamesKind(ms, kind) <==> KindOf(Json.Lookup(ms, "kind")) == Some(kind)
  {
  }

  lemma ReasonIsThere(payload: Json.Members)
    ensures HasReason(payload) <==> ReasonOf(payload) != ""
  {
  }

  /** The first check that a line fails, if it fails one before its kind turns out to be no text to look up. */
  ghost predicate FirstFault(rt: Runtime, raw: seq<byte>, fault: Fault) {
    match fault
    case Refused => false
    case NotUtf8 => Utf8.Decode(raw).None?
    case NotJson => Utf8.Decode(raw).Some? && Json.Loads(rt.limits, Utf8.Decode(raw).value) == Json.NoJson
    case NotObject =>
      Utf8.Decode(raw).Some?
      && exists v: Json.Value :: !v.Object? && Json.Loads(rt.limits, Utf8.Decode(raw).value) == Json.Parsed(v)
    case _ => exists ms :: LoadsTo(rt, raw, ms) && FirstMissing(rt, ms, fault)
  }

  /** The same among the checks on an object: kind, version, time, payload, reason. */
  ghost predicate FirstMissing(rt: Runtime, ms: Json.Members, fault: Fault) {
    var kind := exists k :: NamesKind(ms, k);
    var time := exists ts :: HasTime(rt, ms, ts);
    match fault
    case BadKind =>
      !kind && (forall v :: Json.Lookup(ms, "kind") == Some(v) ==> !v.Array? && !v.Object?)
    case BadSchema => kind && !HasVersion(ms)
    case BadTime => kind && HasVersion(ms) && !time
    case BadPayload => kind && HasVersion(ms) && time && !exists p :: HasPayload(ms, p)
    case BadReason =>
      kind && HasVersion(ms) && time && !NamesKind(ms, Done) && exists p :: HasPayload(ms, p) && !HasReason(p)
    case _ => false
  }

  /** Main result: a line is reported malformed, with that very line, for the first check that it fails and
      for no other. With CrashIffLineRaises and AcceptedIff this says what becomes of every line. */
  lemma RejectedForFirstFault(rt: Runtime, raw: seq<byte>, line: seq<byte>, fault: Fault)
    ensures Classify(rt, raw) == Bad(Malformed(line, fault)) <==> line == raw && FirstFault(rt, raw, fault)
  {
    if Utf8.Decode(raw).Some? {
      var loaded := Json.Loads(rt.limits, Utf8.Decode(raw).value);
      if loaded.Parsed? && loaded.value.Object? {
        assert LoadsTo(rt, raw, loaded.value.ms);
        ObjectRejected(rt, raw, loaded.value.ms, line, fault);
      }
    }
  }

  lemma ObjectRejected(rt: Runtime, raw: seq<byte>, ms: Json.Members, line: seq<byte>, fault: Fault)
    ensures Validate(rt, ms, raw) == Bad(Malformed(line, fault)) <==> line == raw && FirstMissing(rt, ms, fault)
  {
    KindIsThere(ms);
    TimeIsThere(rt, ms);
    PayloadIsThere(ms);
  }

  lemma KindIsThere(ms: Json.Members)
    ensures (exists k :: NamesKind(ms, k)) <==> KindOf(Json.Lookup(ms, "kind")).Some?
    ensures NamesKind(ms, Done) <==> KindOf(Json.Lookup(ms, "kind")) == Some(Done)
  {
    if KindOf(Json.Lookup(ms, "kind")).Some? {
      KindIsNamed(ms, KindOf(Json.Lookup(ms, "kind")).value);
    }
    if k :| NamesKind(ms, k) {
      KindIsNamed(ms, k);
    }
  }

  lemma PayloadIsThere(ms: Json.Members)
    ensures (exists p :: HasPayload(ms, p)) <==>
              match Json.Lookup(ms, "payload") case Some(Object(_)) => true case _ => false
    ensures forall p :: HasPayload(ms, p) ==> (HasReason(p) <==> ReasonOf(p) != "")
  {
    match Json.Lookup(ms, "payload")
    case Some(Object(p)) =>
      assert HasPayload(ms, p);
      ReasonIsThere(p);
    case _ =>
  }

  lemma TimeIsThere(rt: Runtime, ms: Json.Members)
    ensures (exists ts :: HasTime(rt, ms, ts)) <==>
              match Json.Lookup(ms, "ts") case Some(Text(ts)) => rt.iso(ts) case _ => false
  {
    match Json.Lookup(ms, "ts")
    case Some(Text(ts)) =>
      if rt.iso(ts) {
        assert HasTime(rt, ms, ts);
      }
    case _ =>
  }

  // ----- Lines -----

  /** The pieces between newlines, the last one being what follows the final newline. */
  function Split(b: seq<byte>): (r: seq<seq<byte>>)
    ensures 1 <= |r|
    ensures |r[|r| - 1]| <= |b|
  {
    if b == [] then [[]] else Push(b[0], Split(b[1..]))
  }

  /** One byte in front of split bytes: a newline ends an empty piece, any other joins the first one. */
  function Push(c: byte, r: seq<seq<byte>>): (t: seq<seq<byte>>)
    requires 1 <= |r|
    ensures 1 <= |t|
    ensures |t[|t| - 1]| <= |r[|r| - 1]| + 1
  {
    if c == NEWLINE then [[]] + r else [[c] + r[0]] + r[1..]
  }

  function Lines(b: seq<byte>): seq<seq<byte>> {
    Split(b)[..|Split(b)| - 1]
  }

  function Fragment(b: seq<byte>): seq<byte> {
    Split(b)[|Split(b)| - 1]
  }

  /** Bytes up to and including the last newline. */
  function Consumed(b: seq<byte>): (n: nat)
    ensures n <= |b|
  {
    |b| - |Fragment(b)|
  }

  function Unlines(lines: seq<seq<byte>>): seq<byte> {
    if lines == [] then [] else lines[0] + [NEWLINE] + Unlines(lines[1..])
  }

  /** Splitting loses nothing: the lines with their newlines and the fragment make up the input, and
      no piece has a newline in it. */
  lemma {:induction false} SplitIsExact(b: seq<byte>)
    ensures Unlines(Lines(b)) + Fragment(b) == b
    ensures forall k :: 0 <= k < |Split(b)| ==> NEWLINE !in Split(b)[k]
  {
    if b != [] {
      SplitIsExact(b[1..]);
      assert b == [b[0]] + b[1..];
      if b[0] == NEWLINE {
        JoinEmptyLine(Split(b[1..]));
      } else {
        JoinPushed(b[0], Split(b[1..]));
      }
    }
  }

  /** The text that pieces stand for. */
  function Joined(r: seq<seq<byte>>): seq<byte>
    requires |r| >= 1
  {
    Unlines(r[..|r| - 1]) + r[|r| - 1]
  }

  lemma JoinEmptyLine(r: seq<seq<byte>>)
    requires |r| >= 1
    ensures Joined([[]] + r) == [NEWLINE] + Joined(r)
  {
    var lines := ([[]] + r)[..|r|];
    assert lines[1..] == r[..|r| - 1];
    assert Unlines(lines) == [] + [NEWLINE] + Unlines(lines[1..]);
  }

  lemma JoinPushed(c: byte, r: seq<seq<byte>>)
    requires |r| >= 1
    ensures Joined([[c] + r[0]] + r[1..]) == [c] + Joined(r)
  {
    var s := [[c] + r[0]] + r[1..];
    if |r| == 1 {
      assert s[..0] == [] && r[..0] == [];
    } else {
      var lines, was := s[..|s| - 1], r[..|r| - 1];
      assert lines[0] == [c] + r[0] && lines[1..] == was[1..];
      assert Unlines(lines) == [c] + r[0] + [NEWLINE] + Unlines(was[1..]);
      assert Unlines(was) == r[0] + [NEWLINE] + Unlines(was[1..]);
      assert Unlines(lines) == [c] + Unlines(was);
    }
  }

  predicate Terminated(a: seq<byte>) {
    a == [] || a[|a| - 1] == NEWLINE
  }

  /** Splitting after a terminated front: its lines, then the pieces of what follows. */
  lemma {:induction false} SplitAppend(a: seq<byte>, b: seq<byte>)
    requires Terminated(a)
    ensures Split(a + b) == Lines(a) + Split(b)
    ensures Fragment(a) == []
  {
    if a == [] {
      assert a + b == b;
    } else {
      if a[0] != NEWLINE {
        TerminatedHasLine(a[1..]);
      }
      SplitAppend(a[1..], b);
      SplitAppendFirst(a, b);
      PushThenAppend(a[0], Split(a[1..]), Split(b));
    }
  }

  lemma SplitAppendFirst(a: seq<byte>, b: seq<byte>)
    requires a != []
    ensures Split(a + b) == Push(a[0], Split(a[1..] + b))
  {
    assert (a + b)[1..] == a[1..] + b;
  }

  lemma {:induction false} TerminatedHasLine(a: seq<byte>)
    requires a != [] && a[|a| - 1] == NEWLINE
    ensures |Split(a)| > 1
  {
    if a[0] != NEWLINE {
      TerminatedHasLine(a[1..]);
    }
  }

  /** Pushing a byte, then replacing the last piece by more pieces, in either order. */
  lemma PushThenAppend(c: byte, r: seq<seq<byte>>, more: seq<seq<byte>>)
    requires 1 <= |r| && 1 <= |more| && (c == NEWLINE || 1 < |r|)
    ensures Push(c, r)[..|Push(c, r)| - 1] + more == Push(c, r[..|r| - 1] + more)
    ensures Push(c, r)[|Push(c, r)| - 1] == r[|r| - 1]
  {
    var all := r[..|r| - 1] + more;
    if c != NEWLINE {
      assert all[0] == r[0];
      assert all[1..] == r[1..|r| - 1] + more;
    }
  }

  lemma {:induction false} SplitNoNewline(b: seq<byte>)
    requires NEWLINE !in b
    ensures Split(b) == [b]
  {
    if b != [] {
      SplitNoNewline(b[1..]);
      assert b == [b[0]] + b[1..];
    }
  }

  lemma {:induction false} UnlinesTerminated(lines: seq<seq<byte>>)
    ensures Terminated(Unlines(lines))
  {
    if lines != [] {
      UnlinesTerminated(lines[1..]);
    }
  }

  /** The consumed prefix is the longest one that is empty or ends with a newline. */
  lemma ConsumedIsLongest(b: seq<byte>)
    ensures Terminated(b[..Consumed(b)])
    ensures forall n :: Consumed(b) < n <= |b| ==> !Terminated(b[..n])
  {
    SplitIsExact(b);
    UnlinesTerminated(Lines(b));
    var f := Fragment(b);
    assert b[..Consumed(b)] == Unlines(Lines(b));
    assert b[Consumed(b)..] == f;
    forall n | Consumed(b) < n <= |b| ensures !Terminated(b[..n]) {
      assert b[..n][n - 1] == f[n - 1 - Consumed(b)];
      assert f == Split(b)[|Split(b)| - 1];
    }
  }

  // ----- Reading -----

  datatype Tailed = Tailed(offset: nat, valid: seq<Event>, malformed: seq<Malformed>)

  /** Valid events and malformed lines in line order; None when some line's check raises. */
  function Scan(cls: Classifier, lines: seq<seq<byte>>): Option<(seq<Event>, seq<Malformed>)> {
    if lines == [] then Some(([], []))
    else
      match (Scan(cls, lines[..|lines| - 1]), cls(lines[|lines| - 1]))
      case (Some((v, m)), Valid(e)) => Some((v + [e], m))
      case (Some((v, m)), Bad(x)) => Some((v, m + [x]))
      case _ => None
  }

  /** What one tail from `offset` returns; None file means the journal does not exist yet. */
  function Tail(cls: Classifier, file: Option<seq<byte>>, offset: nat): Option<Tailed> {
    match file
    case None => Some(Tailed(offset, [], []))
    case Some(bytes) =>
      var from := if offset > |bytes| then 0 else offset;
      TailChunk(cls, bytes[from..], from)
  }

  /** The complete lines of one chunk that starts at file position `from`. */
  function TailChunk(cls: Classifier, chunk: seq<byte>, from: nat): Option<Tailed> {
    Located(Scan(cls, Lines(chunk)), from + Consumed(chunk))
  }

  function Located(scanned: Option<(seq<Event>, seq<Malformed>)>, offset: nat): Option<Tailed> {
    match scanned
    case None => None
    case Some((v, m)) => Some(Tailed(offset, v, m))
  }

  /** What lies at the journal's path: nothing, something that is not a regular file, or a file that may
      turn out to be impossible to open without following a link. */
  datatype Entry = Missing | NotRegular | Regular(bytes: seq<byte>, opens: bool)

  const REFUSAL: Malformed := Malformed([], Refused)

  /** Where a tail of a file that long starts: from zero again when the file has shrunk. */
  function StartOf(bytes: seq<byte>, offset: nat): (from: nat)
    ensures from <= |bytes| && (from == offset || (from == 0 && offset > |bytes|))
  {
    if offset > |bytes| then 0 else offset
  }

  /** A tail of whatever is there: what cannot be read is reported once and moves the offset nowhere. */
  function TailEntry(cls: Classifier, entry: Entry, offset: nat): Option<Tailed> {
    match entry
    case Missing => Tail(cls, None, offset)
    case NotRegular => Some(Tailed(offset, [], [REFUSAL]))
    case Regular(bytes, opens) =>
      if opens || StartOf(bytes, offset) == |bytes| then Tail(cls, Some(bytes), offset)
      else Some(Tailed(StartOf(bytes, offset), [], [REFUSAL]))
  }

  /** The reader: kind test, size test, one chunk, then a loop over the complete lines. */
  method TailEvents(cls: Classifier, entry: Entry, offset: nat) returns (r: Option<Tailed>)
    ensures r == TailEntry(cls, entry, offset)
    ensures entry.Missing? ==> r == Some(Tailed(offset, [], []))
    ensures entry.NotRegular? ==> r == Some(Tailed(offset, [], [Malformed([], Refused)]))
    ensures entry.Regular? && entry.opens ==> r == Tail(cls, Some(entry.bytes), offset)
    ensures entry.Regular? && entry.opens && |entry.bytes| < offset ==> r == Tail(cls, Some(entry.bytes), 0)
    ensures entry.Regular? && !entry.opens && offset < |entry.bytes| ==>
              r == Some(Tailed(offset, [], [Malformed([], Refused)]))
  {
    if entry.Missing? {
      return Some(Tailed(offset, [], []));
    }
    if entry.NotRegular? {
      return Some(Tailed(offset, [], [REFUSAL]));
    }
    var bytes := entry.bytes;
    var from := offset;
    if from > |bytes| {
      from := 0;
    }
    if from == |bytes| {
      EmptyChunk(cls, bytes[from..], from);
      return Some(Tailed(from, [], []));
    }
    if !entry.opens {
      return Some(Tailed(from, [], [REFUSAL]));
    }
    r := ReadChunk(cls, bytes[from..], from);
  }

  /** Split one chunk; everything after its last newline is left for a later tail. */
  method ReadChunk(cls: Classifier, chunk: seq<byte>, from: nat) returns (r: Option<Tailed>)
    ensures r == TailChunk(cls, chunk, from)
  {
    var pieces := Split(chunk);
    var complete := pieces[..|pieces| - 1];
    var consumed := |chunk| - |pieces[|pieces| - 1]|;
    var scanned := ScanLines(cls, complete);
    if scanned.None? {
      return None;
    }
    var (valid, malformed) := scanned.value;
    r := Some(Tailed(from + consumed, valid, malformed));
  }

  lemma EmptyChunk(cls: Classifier, chunk: seq<byte>, from: nat)
    requires chunk == []
    ensures TailChunk(cls, chunk, from) == Some(Tailed(from, [], []))
  {
    assert Lines(chunk) == [];
  }

  /** The reader's loop over the complete lines; it stops with the first check that raises. */
  method ScanLines(cls: Classifier, complete: seq<seq<byte>>) returns (r: Option<(seq<Event>, seq<Malformed>)>)
    ensures r == Scan(cls, complete)
  {
    var valid: seq<Event>, malformed: seq<Malformed> := [], [];
    var k := 0;
    while k < |complete|
      invariant 0 <= k <= |complete|
      invariant Scan(cls, complete[..k]) == Some((valid, malformed))
    {
      assert complete[..k + 1][..k] == complete[..k];
      match cls(complete[k]) {
        case Valid(e) => valid := valid + [e];
        case Bad(m) => malformed := malformed + [m];
        case Crash =>
          CrashStopsScan(cls, complete, k);
          return None;
      }
      k := k + 1;
    }
    assert complete[..k] == complete;
    r := Some((valid, malformed));
  }

  lemma {:induction false} CrashStopsScan(cls: Classifier, lines: seq<seq<byte>>, k: nat)
    requires k < |lines| && cls(lines[k]).Crash?
    ensures Scan(cls, lines).None?
  {
    if k < |lines| - 1 {
      CrashStopsScan(cls, lines[..|lines| - 1], k);
    }
  }

  /** The reader returns exactly when no complete line's check raises, and then every complete line
      is classified once: the counts add up, and valid lines and malformed lines keep file order. */
  lemma {:induction false} ScanIsTotalUnlessCrash(cls: Classifier, lines: seq<seq<byte>>)
    ensures Scan(cls, lines).Some? <==> forall k :: 0 <= k < |lines| ==> !cls(lines[k]).Crash?
    ensures Scan(cls, lines).Some? ==>
              |Scan(cls, lines).value.0| + |Scan(cls, lines).value.1| == |lines|
  {
    if lines != [] {
      ScanIsTotalUnlessCrash(cls, lines[..|lines| - 1]);
      if forall k :: 0 <= k < |lines| ==> !cls(lines[k]).Crash? {
        assert forall k :: 0 <= k < |lines| - 1 ==> lines[..|lines| - 1][k] == lines[k];
        assert !cls(lines[|lines| - 1]).Crash?;
      }
    }
  }

  /** A tail raises exactly when some complete line of what it reads has bytes that raise. */
  lemma TailRaisesIff(rt: Runtime, bytes: seq<byte>, offset: nat)
    ensures var lines := Lines(bytes[if offset > |bytes| then 0 else offset..]);
            Tail(LineCheck(rt), Some(bytes), offset).None?
            <==> exists k :: 0 <= k < |lines| && LineRaises(rt.limits, lines[k])
  {
    var lines := Lines(bytes[if offset > |bytes| then 0 else offset..]);
    ScanIsTotalUnlessCrash(LineCheck(rt), lines);
    forall k | 0 <= k < |lines| ensures LineCheck(rt)(lines[k]).Crash? <==> LineRaises(rt.limits, lines[k]) {
      CrashIffLineRaises(rt, lines[k]);
    }
  }

  /** Two consecutive scans put together. */
  function Both(a: Option<(seq<Event>, seq<Malformed>)>, b: Option<(seq<Event>, seq<Malformed>)>)
    : Option<(seq<Event>, seq<Malformed>)>
  {
    match (a, b)
    case (Some((v, m)), Some((v', m'))) => Some((v + v', m + m'))
    case _ => None
  }

  lemma {:induction false} ScanAppend(cls: Classifier, a: seq<seq<byte>>, b: seq<seq<byte>>)
    ensures Scan(cls, a + b) == Both(Scan(cls, a), Scan(cls, b))
  {
    if b == [] {
      assert a + b == a;
      match Scan(cls, a) {
        case Some((v, m)) => assert v + [] == v && m + [] == m;
        case None =>
      }
    } else {
      var n := |b| - 1;
      assert (a + b)[..|a + b| - 1] == a + b[..n];
      assert (a + b)[|a + b| - 1] == b[n];
      ScanAppend(cls, a, b[..n]);
      match (Scan(cls, a), Scan(cls, b[..n]), cls(b[n])) {
        case (Some((v, m)), Some((v', m')), Valid(e)) => assert v + v' + [e] == v + (v' + [e]);
        case (Some((v, m)), Some((v', m')), Bad(x)) => assert m + m' + [x] == m + (m' + [x]);
        case _ =>
      }
    }
  }

  // ----- Incremental reading agrees with one reading -----

  /** An offset just past a newline, or zero, and within the file. */
  predicate Boundary(bytes: seq<byte>, offset: nat) {
    offset <= |bytes| && (offset == 0 || bytes[offset - 1] == NEWLINE)
  }

  /** A tail from a boundary ends at a boundary, never behind where it started. */
  lemma TailEndsAtBoundary(cls: Classifier, bytes: seq<byte>, offset: nat)
    requires Boundary(bytes, offset) && Tail(cls, Some(bytes), offset).Some?
    ensures var r := Tail(cls, Some(bytes), offset).value;
            offset <= r.offset && Boundary(bytes, r.offset)
  {
    var chunk := bytes[offset..];
    ConsumedIsLongest(chunk);
    var n := Consumed(chunk);
    if n > 0 {
      assert chunk[..n][n - 1] == bytes[offset + n - 1];
    }
  }

  /** What a first tail and the ones after it return together. */
  function Prepend(first: Tailed, more: Option<Tailed>): Option<Tailed> {
    match more
    case None => None
    case Some(t) => Some(Tailed(t.offset, first.valid + t.valid, first.malformed + t.malformed))
  }

  /** Each tail starts where the one before it ended; the lists are concatenated. */
  function Tails(cls: Classifier, snapshots: seq<seq<byte>>, offset: nat): Option<Tailed> {
    if snapshots == [] then Some(Tailed(offset, [], []))
    else
      match Tail(cls, Some(snapshots[0]), offset)
      case None => None
      case Some(first) => Prepend(first, Tails(cls, snapshots[1..], first.offset))
  }

  ghost predicate AppendOnly(snapshots: seq<seq<byte>>) {
    forall i, j :: 0 <= i <= j < |snapshots| ==> snapshots[i] <= snapshots[j]
  }

  /** A terminated front and whatever follows it, read one after the other. */
  lemma ChunkInTwo(cls: Classifier, a: seq<byte>, b: seq<byte>, from: nat)
    requires Terminated(a)
    ensures TailChunk(cls, a + b, from) ==
            if TailChunk(cls, a, from).None? then None
            else Prepend(TailChunk(cls, a, from).value, TailChunk(cls, b, from + |a|))
  {
    LinesAppend(a, b);
    ScanInTwo(cls, Lines(a), Lines(b), from + |a|, from + |a| + Consumed(b));
  }

  lemma ScanInTwo(cls: Classifier, x: seq<seq<byte>>, y: seq<seq<byte>>, middle: nat, end: nat)
    ensures var first := Located(Scan(cls, x), middle);
            Located(Scan(cls, x + y), end) ==
            if first.None? then None else Prepend(first.value, Located(Scan(cls, y), end))
  {
    ScanAppend(cls, x, y);
    LocatedBoth(Scan(cls, x), Scan(cls, y), middle, end);
  }

  lemma LocatedBoth(x: Option<(seq<Event>, seq<Malformed>)>, y: Option<(seq<Event>, seq<Malformed>)>,
                    middle: nat, end: nat)
    ensures Located(Both(x, y), end) ==
            if Located(x, middle).None? then None else Prepend(Located(x, middle).value, Located(y, end))
  {
  }

  lemma LinesAppend(a: seq<byte>, b: seq<byte>)
    requires Terminated(a)
    ensures Lines(a + b) == Lines(a) + Lines(b)
    ensures Consumed(a) == |a|
    ensures Consumed(a + b) == |a| + Consumed(b)
  {
    assert Fragment(a) == [] by {
      SplitAppend(a, b);
    }
    LinesFromPieces(a + b, Lines(a), Split(b)) by {
      SplitAppend(a, b);
    }
  }

  lemma LinesFromPieces(c: seq<byte>, x: seq<seq<byte>>, r: seq<seq<byte>>)
    requires 1 <= |r| && Split(c) == x + r
    ensures Lines(c) == x + r[..|r| - 1]
    ensures Fragment(c) == r[|r| - 1]
  {
    AllButLast(x, r);
  }

  lemma AllButLast(x: seq<seq<byte>>, r: seq<seq<byte>>)
    requires 1 <= |r|
    ensures (x + r)[..|x + r| - 1] == x + r[..|r| - 1]
    ensures (x + r)[|x + r| - 1] == r[|r| - 1]
  {
  }

  /** The unread fragment contributes no line. */
  lemma FragmentAddsNothing(cls: Classifier, chunk: seq<byte>)
    ensures Terminated(chunk[..Consumed(chunk)])
    ensures Lines(chunk[..Consumed(chunk)]) == Lines(chunk)
    ensures Fragment(chunk[..Consumed(chunk)]) == []
  {
    var n := Consumed(chunk);
    var a, f := chunk[..n], chunk[n..];
    ConsumedIsLongest(chunk);
    SplitIsExact(chunk);
    assert f == Fragment(chunk);
    assert NEWLINE !in Split(chunk)[|Split(chunk)| - 1];
    SplitNoNewline(f);
    LinesAppend(a, f);
    assert a + f == chunk;
  }

  /** A file read up to now and later from where that stopped, against reading it later only. */
  lemma TailInTwo(cls: Classifier, early: seq<byte>, late: seq<byte>, offset: nat)
    requires early <= late && Boundary(early, offset)
    ensures var first := Tail(cls, Some(early), offset);
            Tail(cls, Some(late), offset) ==
            if first.None? then None else Prepend(first.value, Tail(cls, Some(late), first.value.offset))
  {
    var read := ReadPart(cls, early[offset..], offset);
    TailGoesOn(cls, early, late, offset, read) by {
      TailIsChunk(cls, early, offset);
      LateInTwo(early, late, offset, read);
    }
  }

  lemma TailIsChunk(cls: Classifier, bytes: seq<byte>, offset: nat)
    requires offset <= |bytes|
    ensures Tail(cls, Some(bytes), offset) == TailChunk(cls, bytes[offset..], offset)
  {
  }

  lemma TailGoesOn(cls: Classifier, early: seq<byte>, late: seq<byte>, offset: nat, read: seq<byte>)
    requires Tail(cls, Some(early), offset) == TailChunk(cls, read, offset) && Terminated(read)
    requires offset + |read| <= |late| && late[offset..] == read + late[offset + |read|..]
    ensures var first := Tail(cls, Some(early), offset);
            Tail(cls, Some(late), offset) ==
            if first.None? then None else Prepend(first.value, Tail(cls, Some(late), first.value.offset))
  {
    TailSplits(cls, late, offset, read, late[offset + |read|..]);
  }

  /** The part of a chunk that one tail consumes: reading it alone gives the same. */
  lemma ReadPart(cls: Classifier, chunk: seq<byte>, from: nat) returns (read: seq<byte>)
    ensures read <= chunk && Terminated(read)
    ensures TailChunk(cls, chunk, from) == TailChunk(cls, read, from)
  {
    FragmentAddsNothing(cls, chunk);
    read := chunk[..Consumed(chunk)];
  }

  lemma LateInTwo(early: seq<byte>, late: seq<byte>, offset: nat, read: seq<byte>)
    requires early <= late && offset <= |early| && read <= early[offset..]
    ensures offset + |read| <= |late|
    ensures late[offset..] == read + late[offset + |read|..]
  {
    assert forall k :: 0 <= k < |read| ==> read[k] == early[offset..][k] == late[offset + k];
  }

  lemma TailSplits(cls: Classifier, late: seq<byte>, offset: nat, read: seq<byte>, rest: seq<byte>)
    requires offset + |read| <= |late| && late[offset..] == read + rest && late[offset + |read|..] == rest
    requires Terminated(read)
    ensures var first := TailChunk(cls, read, offset);
            && (first.Some? ==> first.value.offset == offset + |read|)
            && Tail(cls, Some(late), offset) ==
               if first.None? then None else Prepend(first.value, Tail(cls, Some(late), offset + |read|))
  {
    LinesAppend(read, rest);
    ChunkInTwo(cls, read, rest, offset);
  }

  /** Main result: for an append-only journal, any schedule of tails that carries the offset forward
      returns together what one tail of the final file returns (and raises when that one raises). */
  lemma {:induction false} ScheduleAgreesWithOneTail(cls: Classifier, snapshots: seq<seq<byte>>, offset: nat)
    requires snapshots != [] && AppendOnly(snapshots)
    requires Boundary(snapshots[0], offset)
    ensures Tails(cls, snapshots, offset) == Tail(cls, Some(snapshots[|snapshots| - 1]), offset)
  {
    var first, last := snapshots[0], snapshots[|snapshots| - 1];
    var r := Tail(cls, Some(first), offset);
    if |snapshots| == 1 {
      assert r.Some? ==> r.value.valid + [] == r.value.valid && r.value.malformed + [] == r.value.malformed;
    } else {
      TailInTwo(cls, first, last, offset);
      if r.Some? {
        TailEndsAtBoundary(cls, first, offset);
        assert first <= snapshots[1];
        assert Boundary(snapshots[1], r.value.offset);
        ScheduleAgreesWithOneTail(cls, snapshots[1..], r.value.offset);
      }
    }
  }

  // ----- Writing -----

  function EventValue(e: Event): Json.Value {
    Json.Object(Json.Member("ts", Json.Text(e.ts),
                Json.Member("kind", Json.Text(KindName(e.kind)),
                Json.Member("payload", Json.Object(e.payload),
                Json.Member("schema_version", Json.Nat(SCHEMA_VERSION), Json.NoMembers)))))
  }

  function Body(e: Event): seq<byte> {
    Utf8.Encode(Json.Print(EventValue(e)))
  }

  function Line(e: Event): seq<byte> {
    Body(e) + [NEWLINE]
  }

  function Written(es: seq<Event>): seq<byte> {
    if es == [] then [] else Line(es[0]) + Written(es[1..])
  }

  /** How the operating system answers one append. */
  datatype AppendOutcome = OpenFails | WriteFails | Wrote(n: nat, synced: bool, closed: bool)

  class EventFile {
    var bytes: seq<byte>

    constructor ()
      ensures bytes == []
    {
      bytes := [];
    }

    /** One O_APPEND write of one line. Success means the whole line is there; every failure leaves a
        prefix of the line, and too large a line leaves nothing. */
    method AppendEvent(e: Event, io: AppendOutcome) returns (ok: bool)
      requires io.Wrote? ==> io.n <= |Line(e)|
      modifies this
      ensures ok <==> |Line(e)| < PIPE_BUF_LIMIT && io == Wrote(|Line(e)|, true, true)
      ensures ok ==> bytes == old(bytes) + Written([e])
      ensures bytes == old(bytes) +
                       if |Line(e)| < PIPE_BUF_LIMIT && io.Wrote? then Line(e)[..io.n] else []
    {
      var encoded := Line(e);
      assert Written([e]) == encoded + [];
      if |encoded| >= PIPE_BUF_LIMIT {
        return false;
      }
      match io {
        case OpenFails => return false;
        case WriteFails => return false;
        case Wrote(n, synced, closed) =>
          bytes := bytes + encoded[..n];
          if n != |encoded| || !synced || !closed {
            return false;
          }
          ok := true;
      }
    }
  }

  /** What the signal commands build: a timestamp from the clock, a reason with fail and wait, nothing
      beyond the reader's limits. */
  predicate WellFormed(rt: Runtime, e: Event) {
    && rt.iso(e.ts) && (e.kind != Done ==> ReasonOf(e.payload) != "")
    && Json.Within(rt.limits, EventValue(e), rt.limits.depth)
  }

  predicate OnlyTexts(ms: Json.Members) {
    ms.Member? ==> ms.value.Text? && OnlyTexts(ms.rest)
  }

  lemma {:induction false} TextsAreWithin(lim: Json.Limits, ms: Json.Members, left: nat)
    requires OnlyTexts(ms)
    ensures Json.MembersWithin(lim, ms, left)
  {
    if ms.Member? {
      TextsAreWithin(lim, ms.rest, left);
    }
  }

  /** The payloads of the signal commands hold texts only, and so their events stay within any limits that
      admit one digit and two levels. */
  lemma SignalsAreWithin(lim: Json.Limits, e: Event)
    requires lim.digits >= 1 && lim.depth >= 2 && OnlyTexts(e.payload)
    ensures Json.Within(lim, EventValue(e), lim.depth)
  {
    TextsAreWithin(lim, e.payload, lim.depth - 2);
    var left := lim.depth - 1;
    var last := Json.Member("schema_version", Json.Nat(SCHEMA_VERSION), Json.NoMembers);
    assert |Decimal(SCHEMA_VERSION)| == 1;
    assert Json.MembersWithin(lim, Json.NoMembers, left);
    assert Json.MembersWithin(lim, last, left);
    var fromPayload := Json.Member("payload", Json.Object(e.payload), last);
    assert Json.MembersWithin(lim, fromPayload, left);
    var fromKind := Json.Member("kind", Json.Text(KindName(e.kind)), fromPayload);
    assert Json.MembersWithin(lim, fromKind, left);
  }

  /** Every event the writer accepts, whatever its payload, stays within limits of 4096 digits and levels. */
  lemma AcceptedEventsAreWithin(lim: Json.Limits, e: Event)
    requires |Line(e)| < PIPE_BUF_LIMIT
    requires lim.digits >= PIPE_BUF_LIMIT && lim.depth >= PIPE_BUF_LIMIT
    ensures Json.Within(lim, EventValue(e), lim.depth)
  {
    PrintedLineRaises(lim, EventValue(e));
    ShortLineRaisesForKindOnly(lim, Body(e));
    Utf8.DecodeUndoesEncode(Json.Print(EventValue(e)));
    Json.LoadUndoesPrint(EventValue(e));
    EventKind(e);
  }

  lemma EventKind(e: Event)
    ensures Json.Lookup(EventValue(e).ms, "kind") == Some(Json.Text(KindName(e.kind)))
  {
    var ms := EventValue(e).ms;
    LookupStep(ms, "kind"); LookupStep(ms.rest, "kind"); LookupStep(ms.rest.rest, "kind");
    LookupStep(ms.rest.rest.rest, "kind");
  }

  lemma LookupStep(ms: Json.Members, key: string)
    requires ms.Member?
    ensures Json.Lookup(ms, key) ==
            if Json.Lookup(ms.rest, key).Some? then Json.Lookup(ms.rest, key)
            else if ms.key == key then Some(ms.value) else None
  {
  }

  // ----- The reader undoes the writer -----

  lemma ClassifyWritten(rt: Runtime, e: Event)
    requires WellFormed(rt, e)
    ensures Classify(rt, Body(e)) == Valid(e)
  {
    Utf8.DecodeUndoesEncode(Json.Print(EventValue(e)));
    Json.LoadUndoesPrint(EventValue(e));
    Json.LoadsIsExact(rt.limits, Json.Print(EventValue(e)));
    var ms := EventValue(e).ms;
    var last := Json.Member("schema_version", Json.Nat(SCHEMA_VERSION), Json.NoMembers);
    var fromPayload := Json.Member("payload", Json.Object(e.payload), last);
    var fromKind := Json.Member("kind", Json.Text(KindName(e.kind)), fromPayload);
    assert ms == Json.Member("ts", Json.Text(e.ts), fromKind);
    LookupStep(ms, "ts"); LookupStep(fromKind, "ts"); LookupStep(fromPayload, "ts"); LookupStep(last, "ts");
    LookupStep(ms, "kind"); LookupStep(fromKind, "kind"); LookupStep(fromPayload, "kind"); LookupStep(last, "kind");
    LookupStep(ms, "payload"); LookupStep(fromKind, "payload"); LookupStep(fromPayload, "payload");
    LookupStep(last, "payload");
    LookupStep(ms, "schema_version"); LookupStep(fromKind, "schema_version");
    LookupStep(fromPayload, "schema_version"); LookupStep(last, "schema_version");
    assert KindOf(Some(Json.Text(KindName(e.kind)))) == Some(e.kind);
  }

  lemma BodyHasNoNewline(e: Event)
    ensures NEWLINE !in Body(e)
  {
    Json.PrintHasNoNewline(EventValue(e));
    Utf8.NewlineOnlyFromNewline(Json.Print(EventValue(e)));
  }

  function Bodies(es: seq<Event>): seq<seq<byte>> {
    seq(|es|, i requires 0 <= i < |es| => Body(es[i]))
  }

  lemma WrittenLines(es: seq<Event>, rest: seq<byte>)
    ensures Split(Written(es) + rest) == Bodies(es) + Split(rest)
  {
    WrittenIsUnlines(es);
    forall e ensures NEWLINE !in Body(e) {
      BodyHasNoNewline(e);
    }
    SplitUnlines(Bodies(es), rest);
  }

  lemma {:induction false} WrittenIsUnlines(es: seq<Event>)
    ensures Written(es) == Unlines(Bodies(es))
  {
    if es != [] {
      WrittenIsUnlines(es[1..]);
      assert Bodies(es)[1..] == Bodies(es[1..]);
    }
  }

  /** Splitting newline-free lines that were joined gives them back. */
  lemma {:induction false} SplitUnlines(lines: seq<seq<byte>>, rest: seq<byte>)
    requires forall k :: 0 <= k < |lines| ==> NEWLINE !in lines[k]
    ensures Split(Unlines(lines) + rest) == lines + Split(rest)
  {
    if lines == [] {
      assert Unlines(lines) + rest == rest;
    } else {
      UnlinesFront(lines, rest);
      FirstLine(lines[0], Unlines(lines[1..]) + rest);
      SplitUnlines(lines[1..], rest);
      PutFirst(lines, Split(rest));
    }
  }

  lemma UnlinesFront(lines: seq<seq<byte>>, rest: seq<byte>)
    requires lines != []
    ensures Unlines(lines) + rest == lines[0] + [NEWLINE] + (Unlines(lines[1..]) + rest)
  {
  }

  lemma PutFirst(lines: seq<seq<byte>>, more: seq<seq<byte>>)
    requires lines != []
    ensures [lines[0]] + (lines[1..] + more) == lines + more
  {
  }

  lemma FirstLine(b: seq<byte>, more: seq<byte>)
    requires NEWLINE !in b
    ensures Split(b + [NEWLINE] + more) == [b] + Split(more)
  {
    LineThenNewline(b);
    SplitAppend(b + [NEWLINE], more);
  }

  /** A line behind a newline-free fragment is one line holding both. */
  lemma LineSplits(e: Event, fragment: seq<byte>, more: seq<byte>)
    requires NEWLINE !in fragment
    ensures Split(fragment + Line(e) + more) == [fragment + Body(e)] + Split(more)
  {
    BodyHasNoNewline(e);
    var one := fragment + Body(e);
    assert fragment + Line(e) + more == one + [NEWLINE] + more;
    FirstLine(one, more);
  }

  lemma {:induction false} LineThenNewline(b: seq<byte>)
    requires NEWLINE !in b
    ensures Split(b + [NEWLINE]) == [b, []]
  {
    if b == [] {
      assert b + [NEWLINE] == [NEWLINE];
      assert [NEWLINE][1..] == [];
    } else {
      assert (b + [NEWLINE])[1..] == b[1..] + [NEWLINE];
      LineThenNewline(b[1..]);
      assert b == [b[0]] + b[1..];
    }
  }

  lemma {:induction false} ScanBodies(rt: Runtime, es: seq<Event>)
    requires forall e :: e in es ==> WellFormed(rt, e)
    ensures Scan(LineCheck(rt), Bodies(es)) == Some((es, []))
  {
    if es != [] {
      var n := |es| - 1;
      ScanBodies(rt, es[..n]);
      assert Bodies(es)[..n] == Bodies(es[..n]);
      ClassifyWritten(rt, es[n]);
      assert es == es[..n] + [es[n]];
    }
  }

  /** Main result: reading what was appended gives exactly those events, in order, nothing malformed,
      and leaves a torn fragment at the end unread. */
  lemma TailUndoesAppends(rt: Runtime, es: seq<Event>, fragment: seq<byte>, file: seq<byte>)
    requires forall e :: e in es ==> WellFormed(rt, e)
    requires NEWLINE !in fragment
    requires file == Written(es) + fragment
    ensures Tail(LineCheck(rt), Some(file), 0) == Some(Tailed(|Written(es)|, es, []))
  {
    ReadBack(rt, file, es, fragment) by {
      WrittenPieces(es, fragment);
    }
  }

  /** A file whose lines are the events' bodies reads back as the events. */
  lemma ReadBack(rt: Runtime, file: seq<byte>, es: seq<Event>, fragment: seq<byte>)
    requires forall e :: e in es ==> WellFormed(rt, e)
    requires Lines(file) == Bodies(es) && Fragment(file) == fragment
    ensures Tail(LineCheck(rt), Some(file), 0) == Some(Tailed(|file| - |fragment|, es, []))
  {
    ScanBodies(rt, es);
    TailFromStart(LineCheck(rt), file, Bodies(es), fragment, es);
  }

  lemma WrittenPieces(es: seq<Event>, fragment: seq<byte>)
    requires NEWLINE !in fragment
    ensures Lines(Written(es) + fragment) == Bodies(es)
    ensures Fragment(Written(es) + fragment) == fragment
  {
    LinesAre(Written(es) + fragment, Bodies(es), fragment) by {
      WrittenLines(es, fragment);
      SplitNoNewline(fragment);
    }
  }

  lemma TailFromStart(cls: Classifier, file: seq<byte>, lines: seq<seq<byte>>, fragment: seq<byte>, es: seq<Event>)
    requires Lines(file) == lines && Fragment(file) == fragment
    requires Scan(cls, lines) == Some((es, []))
    ensures Tail(cls, Some(file), 0) == Some(Tailed(|file| - |fragment|, es, []))
  {
    WholeSlice(file);
  }

  lemma LinesAre(b: seq<byte>, lines: seq<seq<byte>>, fragment: seq<byte>)
    requires Split(b) == lines + [fragment]
    ensures Lines(b) == lines && Fragment(b) == fragment
  {
    LinesFromPieces(b, lines, [fragment]);
  }

  lemma WholeSlice(b: seq<byte>)
    ensures b[0..] == b
  {
  }
}
