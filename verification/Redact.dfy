/** The terminal-log filter: seven ordered global substitutions, each line on its own.
    A pattern is a fixed-length head followed by a bounded run of one character class. */
module Redact {
  import opened Common

  datatype CharClass =
    | One(c: char)
    | Two(a: char, b: char)
    | AlphaNum
    | AlphaNumUnderDash
    | AlphaNumDotUnderDash
    | UpperNum

  predicate Has(k: CharClass, c: char) {
    match k
    case One(x) => c == x
    case Two(x, y) => c == x || c == y
    case AlphaNum => IsAlphaNum(c)
    case AlphaNumUnderDash => IsAlphaNum(c) || c == '_' || c == '-'
    case AlphaNumDotUnderDash => IsAlphaNum(c) || c == '.' || c == '_' || c == '-'
    case UpperNum => 'A' <= c <= 'Z' || IsDigit(c)
  }

  predicate IsAlphaNum(c: char) {
    'A' <= c <= 'Z' || 'a' <= c <= 'z' || IsDigit(c)
  }

  datatype Shape = Pattern(head: seq<CharClass>, tail: CharClass, least: nat, most: Option<nat>)

  /** A pattern never matches the empty word. */
  type Pattern = p: Shape | 0 < |p.head| + p.least witness Pattern([AlphaNum], AlphaNum, 0, None)

  function Literal(s: string): (h: seq<CharClass>)
    ensures |h| == |s| && forall i :: 0 <= i < |s| ==> h[i] == One(s[i])
  {
    seq(|s|, i requires 0 <= i < |s| => One(s[i]))
  }

  const MARK: string := "[REDACTED]"

  const PATTERNS: seq<Pattern> := [
    Pattern(Literal("ghp_"), AlphaNum, 30, None),
    Pattern(Literal("gho_"), AlphaNum, 30, None),
    Pattern(Literal("ghs_"), AlphaNum, 30, None),
    Pattern(Literal("sk-ant-"), AlphaNumUnderDash, 30, None),
    Pattern(Literal("sk-"), AlphaNum, 30, None),
    Pattern([Two('B', 'b')] + Literal("earer "), AlphaNumDotUnderDash, 20, None),
    Pattern(Literal("AKIA"), UpperNum, 16, Some(16))
  ]

  // ----- What a match is (the regular expression's language) -----

  /** The word w belongs to the pattern's language. */
  predicate Matches(p: Pattern, w: string) {
    && |p.head| + p.least <= |w|
    && (p.most.Some? ==> |w| <= |p.head| + p.most.value)
    && (forall i :: 0 <= i < |p.head| ==> Has(p.head[i], w[i]))
    && (forall i :: |p.head| <= i < |w| ==> Has(p.tail, w[i]))
  }

  predicate MatchesAt(p: Pattern, s: string, a: int, b: int) {
    0 <= a <= b <= |s| && Matches(p, s[a..b])
  }

  /** No match starts at position a of s. */
  ghost predicate NoStart(p: Pattern, s: string, a: int) {
    forall b :: !MatchesAt(p, s, a, b)
  }

  /** No substring of s belongs to the pattern's language. */
  ghost predicate Free(p: Pattern, s: string) {
    forall a :: NoStart(p, s, a)
  }

  /** spans is the list of substitutions that leftmost-longest matching makes in s from position
      `from` on: each span is a match, no longer match starts where it starts, and no match starts
      between the end of the previous span and its start. */
  ghost predicate LeftmostLongest(p: Pattern, s: string, from: nat, spans: seq<(nat, nat)>)
    decreases |spans|
  {
    if spans == [] then
      forall a :: from <= a ==> NoStart(p, s, a)
    else
      var (a, b) := spans[0];
      && from <= a < b
      && MatchesAt(p, s, a, b)
      && (forall b' :: MatchesAt(p, s, a, b') ==> b' <= b)
      && (forall a' :: from <= a' < a ==> NoStart(p, s, a'))
      && LeftmostLongest(p, s, b, spans[1..])
  }

  /** s from position `from` on, with each span replaced by the mark and all else kept. */
  ghost function Replaced(s: string, from: nat, spans: seq<(nat, nat)>): string
    decreases |spans|
  {
    if spans == [] then
      if from <= |s| then s[from..] else []
    else
      var (a, b) := spans[0];
      (if from <= a <= |s| then s[from..a] else []) + MARK + Replaced(s, b, spans[1..])
  }

  // ----- The scanner -----

  /** Length of the longest run of class k in s from i, no longer than `most` when given. */
  function Run(k: CharClass, s: string, i: nat, most: Option<nat>): (n: nat)
    requires i <= |s|
    ensures i + n <= |s| && (most.Some? ==> n <= most.value)
    ensures forall j :: i <= j < i + n ==> Has(k, s[j])
    ensures i + n == |s| || (most.Some? && n == most.value) || !Has(k, s[i + n])
    decreases |s| - i
  {
    if i == |s| || !Has(k, s[i]) || most == Some(0) then 0
    else 1 + Run(k, s, i + 1, if most.Some? then Some(most.value - 1) else None)
  }

  predicate HeadAt(p: Pattern, s: string, i: nat) {
    i + |p.head| <= |s| && forall j :: 0 <= j < |p.head| ==> Has(p.head[j], s[i + j])
  }

  /** End of the longest match starting at i, if there is one. */
  function MatchEnd(p: Pattern, s: string, i: nat): (end: Option<nat>)
    requires i <= |s|
    ensures end.Some? ==> i < end.value <= |s|
  {
    if HeadAt(p, s, i) && p.least <= Run(p.tail, s, i + |p.head|, p.most) then
      Some(i + |p.head| + Run(p.tail, s, i + |p.head|, p.most))
    else None
  }

  /** The scanner's test at one position agrees with the language, and takes the longest match. */
  lemma MatchEndIsLongest(p: Pattern, s: string, i: nat)
    requires i <= |s|
    ensures NoStart(p, s, i) <==> MatchEnd(p, s, i).None?
    ensures MatchEnd(p, s, i).Some? ==>
              && MatchesAt(p, s, i, MatchEnd(p, s, i).value)
              && forall b :: MatchesAt(p, s, i, b) ==> b <= MatchEnd(p, s, i).value
  {
    forall b | MatchesAt(p, s, i, b)
      ensures MatchEnd(p, s, i).Some? && b <= MatchEnd(p, s, i).value
    {
      LongestFrom(p, s, i, b);
    }
    if MatchEnd(p, s, i).Some? {
      ScannedMatches(p, s, i);
    }
  }

  lemma ScannedMatches(p: Pattern, s: string, i: nat)
    requires i <= |s| && MatchEnd(p, s, i).Some?
    ensures MatchesAt(p, s, i, MatchEnd(p, s, i).value)
  {
    var w := s[i..MatchEnd(p, s, i).value];
    forall j | |p.head| <= j < |w| ensures Has(p.tail, w[j]) {
      assert w[j] == s[i + j];
    }
  }

  lemma {:induction false} RunCovers(k: CharClass, s: string, i: nat, most: Option<nat>, m: nat)
    requires i + m <= |s| && (most.Some? ==> m <= most.value)
    requires forall j :: i <= j < i + m ==> Has(k, s[j])
    ensures m <= Run(k, s, i, most)
    decreases m
  {
    if m > 0 {
      RunCovers(k, s, i + 1, if most.Some? then Some(most.value - 1) else None, m - 1);
    }
  }

  lemma LongestFrom(p: Pattern, s: string, i: nat, b: nat)
    requires i <= |s| && MatchesAt(p, s, i, b)
    ensures MatchEnd(p, s, i).Some? && b <= MatchEnd(p, s, i).value
  {
    var w, h := s[i..b], i + |p.head|;
    forall j | 0 <= j < |p.head| ensures Has(p.head[j], s[i + j]) {
      assert w[j] == s[i + j];
    }
    forall j | h <= j < b ensures Has(p.tail, s[j]) {
      assert w[j - i] == s[j];
    }
    RunCovers(p.tail, s, h, p.most, b - h);
  }

  /** One `s/pattern/[REDACTED]/g` applied to s from position i on. */
  function Pass(p: Pattern, s: string, i: nat): string
    requires i <= |s|
    decreases |s| - i
  {
    if i == |s| then []
    else
      match MatchEnd(p, s, i)
      case Some(end) => MARK + Pass(p, s, end)
      case None => [s[i]] + Pass(p, s, i + 1)
  }

  function Passes(ps: seq<Pattern>, s: string): string
  {
    if ps == [] then s else Passes(ps[1..], Pass(ps[0], s, 0))
  }

  /** The whole filter on one line. */
  function Redact(line: string): string {
    Passes(PATTERNS, line)
  }

  // ----- A pass is leftmost-longest substitution -----

  function Spans(p: Pattern, s: string, i: nat): seq<(nat, nat)>
    requires i <= |s|
    decreases |s| - i
  {
    if i == |s| then []
    else
      match MatchEnd(p, s, i)
      case Some(end) => [(i, end)] + Spans(p, s, end)
      case None => Spans(p, s, i + 1)
  }

  /** A longest match in front of a leftmost-longest list of substitutions. */
  lemma SpanInFront(p: Pattern, s: string, i: nat, end: nat, rest: seq<(nat, nat)>)
    requires i < end && MatchesAt(p, s, i, end)
    requires forall b :: MatchesAt(p, s, i, b) ==> b <= end
    requires LeftmostLongest(p, s, end, rest)
    ensures LeftmostLongest(p, s, i, [(i, end)] + rest)
  {
    assert ([(i, end)] + rest)[1..] == rest;
  }

  /** A position where no match starts may be passed over. */
  lemma NoSpanHere(p: Pattern, s: string, i: nat, spans: seq<(nat, nat)>)
    requires NoStart(p, s, i) && LeftmostLongest(p, s, i + 1, spans)
    ensures LeftmostLongest(p, s, i, spans)
  {
    forall a | i <= a && (i + 1 <= a ==> NoStart(p, s, a)) ensures NoStart(p, s, a) {
    }
  }

  /** The scanner finds the leftmost-longest substitutions. */
  lemma {:induction false} SpansAreLeftmostLongest(p: Pattern, s: string, i: nat)
    requires i <= |s|
    ensures LeftmostLongest(p, s, i, Spans(p, s, i))
    decreases |s| - i
  {
    MatchEndIsLongest(p, s, i);
    if i < |s| {
      var end := MatchEnd(p, s, i);
      if end.Some? {
        SpansAreLeftmostLongest(p, s, end.value);
        SpanInFront(p, s, i, end.value, Spans(p, s, end.value));
      } else {
        SpansAreLeftmostLongest(p, s, i + 1);
        NoSpanHere(p, s, i, Spans(p, s, i + 1));
      }
    }
  }

  /** Leftmost-longest matching determines the substitutions, and a pass makes exactly those. */
  lemma {:induction false} PassReplacesLeftmostLongest(p: Pattern, s: string, i: nat, spans: seq<(nat, nat)>)
    requires i <= |s|
    requires LeftmostLongest(p, s, i, spans)
    ensures Pass(p, s, i) == Replaced(s, i, spans)
    decreases |s| - i
  {
    if i < |s| {
      NextSpan(p, s, i, spans);
      var end := MatchEnd(p, s, i);
      if end.Some? {
        PassReplacesLeftmostLongest(p, s, end.value, spans[1..]);
        assert s[i..i] + MARK == MARK;
      } else {
        PassReplacesLeftmostLongest(p, s, i + 1, spans);
        CopyOne(s, i, spans);
      }
    }
  }

  /** The scanner's choice at i is the one the next span makes. */
  lemma NextSpan(p: Pattern, s: string, i: nat, spans: seq<(nat, nat)>)
    requires i < |s| && LeftmostLongest(p, s, i, spans)
    ensures MatchEnd(p, s, i).Some? ==> spans != [] && spans[0] == (i, MatchEnd(p, s, i).value)
    ensures MatchEnd(p, s, i).None? ==>
              LeftmostLongest(p, s, i + 1, spans) && (spans == [] || i < spans[0].0 <= |s|)
  {
    MatchEndIsLongest(p, s, i);
    if spans != [] {
      assert !NoStart(p, s, spans[0].0);
    }
  }

  lemma SliceOne(s: string, i: nat, b: nat)
    requires i < b <= |s|
    ensures s[i..b] == [s[i]] + s[i + 1..b]
  {
  }

  lemma Regroup(c: char, x: string, y: string, z: string)
    ensures [c] + x + y + z == [c] + (x + y + z)
  {
  }

  lemma CopyOne(s: string, i: nat, spans: seq<(nat, nat)>)
    requires i < |s| && (spans == [] || i < spans[0].0 <= |s|)
    ensures Replaced(s, i, spans) == [s[i]] + Replaced(s, i + 1, spans)
  {
    if spans == [] {
      SliceOne(s, i, |s|);
    } else {
      var (a, b) := spans[0];
      SliceOne(s, i, a);
      Regroup(s[i], s[i + 1..a], MARK, Replaced(s, b, spans[1..]));
    }
  }

  // ----- No pass makes a match for any pattern -----

  /** What makes the mark inert: no match may contain a bracket, and every match is longer than it. */
  predicate Inert(q: Pattern) {
    && |q.head| + q.least > |MARK|
    && !Has(q.tail, '[') && !Has(q.tail, ']')
    && (forall j :: 0 <= j < |q.head| ==> !Has(q.head[j], '[') && !Has(q.head[j], ']'))
  }

  lemma MatchHasNoBracket(q: Pattern, w: string)
    requires Inert(q) && Matches(q, w)
    ensures '[' !in w && ']' !in w
  {
    forall j | 0 <= j < |w| ensures w[j] != '[' && w[j] != ']' {
      if j < |q.head| {
        assert Has(q.head[j], w[j]);
      }
    }
  }

  lemma PrefixBehindChar(c: char, rest: string, w: string)
    requires w != [] && w <= [c] + rest
    ensures w[0] == c && w[1..] <= rest
  {
    assert forall j :: 0 <= j < |w| ==> w[j] == ([c] + rest)[j];
  }

  lemma OneMoreCopied(s: string, i: nat, w: string)
    requires w != [] && i < |s| && w[0] == s[i]
    requires i + |w| <= |s| && w[1..] == s[i + 1..i + |w|]
    ensures w == s[i..i + |w|]
  {
    assert w == [w[0]] + w[1..];
  }

  lemma NoCopyOfMark(p: Pattern, s: string, i: nat, w: string)
    requires i <= |s| && w != [] && w <= Pass(p, s, i) && '[' !in w
    ensures i < |s| && MatchEnd(p, s, i).None?
  {
    assert w[0] == Pass(p, s, i)[0];
  }

  /** A bracket-free word at the front of a pass's output was copied from the input. */
  lemma {:induction false} FrontIsCopied(p: Pattern, s: string, i: nat, w: string)
    requires i <= |s|
    requires w <= Pass(p, s, i) && '[' !in w
    ensures i + |w| <= |s| && w == s[i..i + |w|]
    ensures w != [] ==> MatchEnd(p, s, i).None?
    decreases |s| - i
  {
    if w != [] {
      NoCopyOfMark(p, s, i, w);
      PrefixBehindChar(s[i], Pass(p, s, i + 1), w);
      FrontIsCopied(p, s, i + 1, w[1..]);
      OneMoreCopied(s, i, w);
    }
  }

  lemma SliceOfRest(front: string, rest: string, a: int, b: int)
    requires |front| <= a <= b <= |front| + |rest|
    ensures (front + rest)[a..b] == rest[a - |front|..b - |front|]
  {
  }

  lemma SliceHoldsMarkEnd(rest: string, a: int, b: int)
    requires 0 <= a < |MARK| < b <= |MARK| + |rest|
    ensures ']' in (MARK + rest)[a..b]
  {
    assert (MARK + rest)[a..b][|MARK| - 1 - a] == MARK[|MARK| - 1];
  }

  /** A match behind the first character of a mark lies behind the whole mark. */
  lemma MatchBehindMark(q: Pattern, rest: string, a: int, b: int)
    requires Inert(q) && 0 < a
    requires MatchesAt(q, MARK + rest, a, b)
    ensures |MARK| <= a && MatchesAt(q, rest, a - |MARK|, b - |MARK|)
  {
    MatchHasNoBracket(q, (MARK + rest)[a..b]);
    if a < |MARK| {
      SliceHoldsMarkEnd(rest, a, b);
    } else {
      SliceOfRest(MARK, rest, a, b);
    }
  }

  lemma MatchBehindChar(q: Pattern, c: char, rest: string, a: int, b: int)
    requires 0 < a && MatchesAt(q, [c] + rest, a, b)
    ensures MatchesAt(q, rest, a - 1, b - 1)
  {
    SliceOfRest([c], rest, a, b);
  }

  /** A match that starts after the front of the output lies wholly in the rest of it. */
  lemma MatchIsInTheRest(p: Pattern, q: Pattern, s: string, i: nat, a: int, b: int)
    requires i < |s| && Inert(q) && 0 < a
    requires MatchesAt(q, Pass(p, s, i), a, b)
    ensures MatchEnd(p, s, i).Some? ==>
              MatchesAt(q, Pass(p, s, MatchEnd(p, s, i).value), a - |MARK|, b - |MARK|)
    ensures MatchEnd(p, s, i).None? ==> MatchesAt(q, Pass(p, s, i + 1), a - 1, b - 1)
  {
    var end := MatchEnd(p, s, i);
    if end.Some? {
      MatchBehindMark(q, Pass(p, s, end.value), a, b);
    } else {
      MatchBehindChar(q, s[i], Pass(p, s, i + 1), a, b);
    }
  }

  /** Every match in a pass's output is a match of its input, at a place where the pass's own
      pattern does not match. */
  lemma {:induction false} MatchComesFromInput(p: Pattern, q: Pattern, s: string, i: nat, a: int, b: int)
    returns (k: nat)
    requires i <= |s| && Inert(q)
    requires MatchesAt(q, Pass(p, s, i), a, b)
    ensures !NoStart(q, s, k) && NoStart(p, s, k)
    decreases |s| - i
  {
    if a == 0 {
      var w := Pass(p, s, i)[0..b];
      MatchHasNoBracket(q, w);
      FrontIsCopied(p, s, i, w);
      MatchEndIsLongest(p, s, i);
      assert MatchesAt(q, s, i, i + b);
      k := i;
    } else {
      MatchIsInTheRest(p, q, s, i, a, b);
      var end := MatchEnd(p, s, i);
      if end.Some? {
        k := MatchComesFromInput(p, q, s, end.value, a - |MARK|, b - |MARK|);
      } else {
        k := MatchComesFromInput(p, q, s, i + 1, a - 1, b - 1);
      }
    }
  }

  /** A pass removes every match of its own pattern and makes no match of any other. */
  lemma PassKeepsFree(p: Pattern, q: Pattern, s: string)
    requires Inert(q)
    requires p == q || Free(q, s)
    ensures Free(q, Pass(p, s, 0))
  {
    forall a ensures NoStart(q, Pass(p, s, 0), a) {
      if !NoStart(q, Pass(p, s, 0), a) {
        var b :| MatchesAt(q, Pass(p, s, 0), a, b);
        var k := MatchComesFromInput(p, q, s, 0, a, b);
      }
    }
  }

  lemma {:induction false} FreeIsUnchanged(p: Pattern, s: string, i: nat)
    requires i <= |s| && Free(p, s)
    ensures Pass(p, s, i) == s[i..]
    decreases |s| - i
  {
    if i < |s| {
      MatchEndIsLongest(p, s, i);
      FreeIsUnchanged(p, s, i + 1);
    }
  }

  lemma {:induction false} PassesFree(ps: seq<Pattern>, done: seq<Pattern>, s: string)
    requires forall p :: p in ps + done ==> Inert(p)
    requires forall p :: p in done ==> Free(p, s)
    ensures forall p :: p in ps + done ==> Free(p, Passes(ps, s))
    decreases |ps|
  {
    if ps != [] {
      var t := Pass(ps[0], s, 0);
      forall p | p in done + [ps[0]] ensures Free(p, t) {
        PassKeepsFree(ps[0], p, s);
      }
      assert forall p :: p in ps + done <==> p in ps[1..] + (done + [ps[0]]);
      PassesFree(ps[1..], done + [ps[0]], t);
    }
  }

  lemma {:induction false} PassesUnchanged(ps: seq<Pattern>, s: string)
    requires forall p :: p in ps ==> Inert(p) && Free(p, s)
    ensures Passes(ps, s) == s
  {
    if ps != [] {
      FreeIsUnchanged(ps[0], s, 0);
      PassesUnchanged(ps[1..], s);
    }
  }

  lemma PatternsAreInert()
    ensures forall p :: p in PATTERNS ==> Inert(p)
  {
    forall k | 0 <= k < |PATTERNS| ensures Inert(PATTERNS[k]) {
    }
  }

  /** Main result: after the filter no substring of the line matches any of the seven patterns. */
  lemma RedactLeavesNoMatch(line: string)
    ensures forall p :: p in PATTERNS ==> Free(p, Redact(line))
  {
    PatternsAreInert();
    PassesFree(PATTERNS, [], line);
    assert PATTERNS + [] == PATTERNS;
  }

  /** A line is left alone exactly when nothing in it matches; so the filter is idempotent. */
  lemma RedactUnchangedIffFree(line: string)
    ensures Redact(line) == line <==> forall p :: p in PATTERNS ==> Free(p, line)
    ensures Redact(Redact(line)) == Redact(line)
  {
    PatternsAreInert();
    RedactLeavesNoMatch(line);
    PassesUnchanged(PATTERNS, Redact(line));
    if forall p :: p in PATTERNS ==> Free(p, line) {
      PassesUnchanged(PATTERNS, line);
    }
  }

  // ----- The seven kinds of secret, spelled out -----

  predicate AllIn(s: string, more: set<char>) {
    forall c :: c in s ==> 'A' <= c <= 'Z' || 'a' <= c <= 'z' || '0' <= c <= '9' || c in more
  }

  predicate GitHubToken(w: string) {
    |w| >= 34 && w[..4] in {"ghp_", "gho_", "ghs_"} && AllIn(w[4..], {})
  }

  predicate AnthropicKey(w: string) {
    |w| >= 37 && w[..7] == "sk-ant-" && AllIn(w[7..], {'_', '-'})
  }

  predicate OtherKey(w: string) {
    |w| >= 33 && w[..3] == "sk-" && AllIn(w[3..], {})
  }

  predicate BearerToken(w: string) {
    |w| >= 27 && w[..7] in {"Bearer ", "bearer "} && AllIn(w[7..], {'.', '_', '-'})
  }

  predicate AwsKeyId(w: string) {
    |w| == 20 && w[..4] == "AKIA" && forall c :: c in w ==> 'A' <= c <= 'Z' || '0' <= c <= '9'
  }

  predicate Secret(w: string) {
    GitHubToken(w) || AnthropicKey(w) || OtherKey(w) || BearerToken(w) || AwsKeyId(w)
  }

  ghost predicate HoldsSecret(s: string) {
    exists a, b :: 0 <= a <= b <= |s| && Secret(s[a..b])
  }

  lemma TailIsIn(p: Pattern, w: string, k: nat, more: set<char>)
    requires |p.head| == k <= |w|
    requires forall c :: Has(p.tail, c) <==> 'A' <= c <= 'Z' || 'a' <= c <= 'z' || '0' <= c <= '9' || c in more
    ensures (forall i :: k <= i < |w| ==> Has(p.tail, w[i])) <==> AllIn(w[k..], more)
  {
    if forall i :: k <= i < |w| ==> Has(p.tail, w[i]) {
      forall c | c in w[k..] ensures Has(p.tail, c) {
        var i :| 0 <= i < |w[k..]| && w[k..][i] == c;
        assert w[k + i] == c;
      }
    }
    if AllIn(w[k..], more) {
      forall i | k <= i < |w| ensures Has(p.tail, w[i]) {
        assert w[i] == w[k..][i - k];
      }
    }
  }

  lemma HeadIs(head: string, w: string)
    requires |head| <= |w|
    ensures (forall i :: 0 <= i < |head| ==> Has(Literal(head)[i], w[i])) <==> w[..|head|] == head
  {
    if w[..|head|] == head {
      forall i | 0 <= i < |head| ensures Has(Literal(head)[i], w[i]) {
        assert w[..|head|][i] == head[i];
      }
    }
  }

  lemma LiteralMatches(head: string, tail: CharClass, least: nat, w: string, more: set<char>)
    requires 0 < |head|
    requires forall c :: Has(tail, c) <==> 'A' <= c <= 'Z' || 'a' <= c <= 'z' || '0' <= c <= '9' || c in more
    ensures Matches(Pattern(Literal(head), tail, least, None), w) <==>
              |w| >= |head| + least && w[..|head|] == head && AllIn(w[|head|..], more)
  {
    if |w| >= |head| + least {
      HeadIs(head, w);
      TailIsIn(Pattern(Literal(head), tail, least, None), w, |head|, more);
    }
  }

  lemma BearerMatches(w: string)
    ensures Matches(PATTERNS[5], w) <==> BearerToken(w)
  {
    var p := PATTERNS[5];
    assert |p.head| == 7;
    if |w| >= 27 {
      TailIsIn(p, w, 7, {'.', '_', '-'});
      assert forall i :: 1 <= i < 7 ==> p.head[i] == One("earer "[i - 1]);
      if Matches(p, w) {
        assert w[..7] == (if w[0] == 'B' then "Bearer " else "bearer ");
      } else if w[..7] in {"Bearer ", "bearer "} {
        forall i | 0 <= i < 7 ensures Has(p.head[i], w[i]) {
          assert w[i] == w[..7][i];
        }
      }
    }
  }

  lemma AwsMatches(w: string)
    ensures Matches(PATTERNS[6], w) <==> AwsKeyId(w)
  {
    var p := PATTERNS[6];
    assert |p.head| == 4;
    if |w| == 20 {
      HeadIs("AKIA", w);
      assert w[..4] == "AKIA" ==> w[0] == 'A' && w[1] == 'K' && w[2] == 'I' && w[3] == 'A' by {
        assert w[..4] == [w[0], w[1], w[2], w[3]];
      }
      assert AwsKeyId(w) ==> forall i :: 4 <= i < |w| ==> w[i] in w;
    }
  }

  /** The seven patterns are exactly these kinds of secret. */
  lemma PatternsAreSecrets(w: string)
    ensures (exists p :: p in PATTERNS && Matches(p, w)) <==> Secret(w)
  {
    LiteralMatches("ghp_", AlphaNum, 30, w, {});
    LiteralMatches("gho_", AlphaNum, 30, w, {});
    LiteralMatches("ghs_", AlphaNum, 30, w, {});
    LiteralMatches("sk-ant-", AlphaNumUnderDash, 30, w, {'_', '-'});
    LiteralMatches("sk-", AlphaNum, 30, w, {});
    BearerMatches(w);
    AwsMatches(w);
    SomePattern(w);
  }

  lemma SomePattern(w: string)
    ensures (exists p :: p in PATTERNS && Matches(p, w)) <==>
              || Matches(PATTERNS[0], w) || Matches(PATTERNS[1], w) || Matches(PATTERNS[2], w)
              || Matches(PATTERNS[3], w) || Matches(PATTERNS[4], w) || Matches(PATTERNS[5], w)
              || Matches(PATTERNS[6], w)
  {
    assert |PATTERNS| == 7;
  }

  lemma FreeOfSecrets(s: string)
    ensures (forall p :: p in PATTERNS ==> Free(p, s)) <==> !HoldsSecret(s)
  {
    if forall p :: p in PATTERNS ==> Free(p, s) {
      forall a, b | 0 <= a <= b <= |s| ensures !Secret(s[a..b]) {
        PatternsAreSecrets(s[a..b]);
        forall p | p in PATTERNS ensures !Matches(p, s[a..b]) {
          assert NoStart(p, s, a) && !MatchesAt(p, s, a, b);
        }
      }
    }
    if !HoldsSecret(s) {
      forall p, a, b | p in PATTERNS ensures !MatchesAt(p, s, a, b) {
        if 0 <= a <= b <= |s| {
          PatternsAreSecrets(s[a..b]);
        }
      }
    }
  }

  /** Main result: the filtered line holds no secret, and a line is changed exactly when it holds one. */
  lemma NoSecretIsLeft(line: string)
    ensures !HoldsSecret(Redact(line))
    ensures Redact(line) == line <==> !HoldsSecret(line)
  {
    RedactLeavesNoMatch(line);
    RedactUnchangedIffFree(line);
    FreeOfSecrets(line);
    FreeOfSecrets(Redact(line));
  }

  // ----- The order of the passes -----

  lemma {:induction false} PassesInTwo(ps: seq<Pattern>, qs: seq<Pattern>, s: string)
    ensures Passes(ps + qs, s) == Passes(qs, Passes(ps, s))
  {
    if ps == [] {
      assert ps + qs == qs;
    } else {
      assert (ps + qs)[1..] == ps[1..] + qs;
      PassesInTwo(ps[1..], qs, Pass(ps[0], s, 0));
    }
  }

  /** A line that is one match from end to end becomes the mark. */
  lemma WholeLineMatch(p: Pattern, s: string)
    requires s != [] && Matches(p, s)
    ensures Pass(p, s, 0) == MARK
  {
    MatchEndIsLongest(p, s, 0);
    assert s[0..|s|] == s;
    assert MatchesAt(p, s, 0, |s|);
    assert MARK + [] == MARK;
  }

  lemma MarkIsFree(p: Pattern)
    requires Inert(p)
    ensures Free(p, MARK)
  {
    forall a, b ensures !MatchesAt(p, MARK, a, b) {
    }
  }

  /** The long kind of key goes first: a line that is such a key disappears whole, even where a shorter kind
      of key is part of it. */
  lemma AnthropicKeyVanishesWhole(key: string)
    requires AnthropicKey(key)
    requires forall a, b :: 0 <= a <= b <= |key| ==> !GitHubToken(key[a..b])
    ensures Redact(key) == "[REDACTED]"
  {
    var before, after := PATTERNS[..3], PATTERNS[4..];
    assert PATTERNS == before + ([PATTERNS[3]] + after);
    PassesInTwo(before, [PATTERNS[3]] + after, key);
    PatternsAreInert();
    forall p | p in before ensures Inert(p) && Free(p, key) {
      assert p in PATTERNS;
      NoTokenNoMatch(p, key);
    }
    PassesUnchanged(before, key);
    LiteralMatches("sk-ant-", AlphaNumUnderDash, 30, key, {'_', '-'});
    WholeLineMatch(PATTERNS[3], key);
    forall p | p in after ensures Inert(p) && Free(p, MARK) {
      assert p in PATTERNS;
      MarkIsFree(p);
    }
    PassesUnchanged(after, MARK);
  }

  lemma NoTokenNoMatch(p: Pattern, s: string)
    requires p in PATTERNS[..3]
    requires forall a, b :: 0 <= a <= b <= |s| ==> !GitHubToken(s[a..b])
    ensures Free(p, s)
  {
    forall a, b ensures !MatchesAt(p, s, a, b) {
      if 0 <= a <= b <= |s| {
        LiteralMatches("ghp_", AlphaNum, 30, s[a..b], {});
        LiteralMatches("gho_", AlphaNum, 30, s[a..b], {});
        LiteralMatches("ghs_", AlphaNum, 30, s[a..b], {});
        assert p == PATTERNS[0] || p == PATTERNS[1] || p == PATTERNS[2];
      }
    }
  }
}
