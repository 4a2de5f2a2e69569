/** The fragment of JSON modelled here: strings, natural numbers, arrays and objects,
    printed compactly the way the signal writer prints them, and read back. */
module Json {
  import opened Common

  datatype Value = Text(s: string) | Nat(n: nat) | Array(items: Items) | Object(ms: Members)
  datatype Items = NoItems | Item(value: Value, rest: Items)
  datatype Members = NoMembers | Member(key: string, value: Value, rest: Members)

  /** The value a decoded dictionary holds under a key: the last one written. */
  function Lookup(ms: Members, key: string): Option<Value> {
    match ms
    case NoMembers => None
    case Member(k, v, rest) =>
      var later := Lookup(rest, key);
      if later.Some? then later else if k == key then Some(v) else None
  }

  predicate HasKey(ms: Members, key: string) {
    ms.Member? && (ms.key == key || HasKey(ms.rest, key))
  }

  function Appended(front: Members, back: Members): Members {
    match front
    case NoMembers => back
    case Member(k, v, rest) => Member(k, v, Appended(rest, back))
  }

  /** Of several members with one key the last one counts; a key that is not there has no value. */
  lemma {:induction false} LastMemberCounts(front: Members, key: string, v: Value, back: Members)
    requires !HasKey(back, key)
    ensures Lookup(back, key) == None && Lookup(Appended(front, Member(key, v, back)), key) == Some(v)
    decreases back, front
  {
    if back.Member? {
      LastMemberCounts(NoMembers, key, v, back.rest);
    }
    if front.Member? {
      LastMemberCounts(front.rest, key, v, back);
    }
  }

  // ----- Printing -----

  function HexDigit(d: nat): char
    requires d < 16
  {
    if d < 10 then DigitChar(d) else (('a' as int) + (d - 10)) as char
  }

  /** Escaping of one character, everything below U+0020, the quote and the backslash
      (RFC 8259, section 7); all other characters stand for themselves. */
  function EscapeChar(c: char): (r: string)
    ensures r != []
  {
    if c == '"' then "\\\""
    else if c == '\\' then "\\\\"
    else if c == '\n' then "\\n"
    else if c == '\r' then "\\r"
    else if c == '\t' then "\\t"
    else if c == 8 as char then "\\b"
    else if c == 12 as char then "\\f"
    else if c < 32 as char then "\\u00" + [HexDigit((c as int) / 16), HexDigit((c as int) % 16)]
    else [c]
  }

  function Escape(s: string): string {
    if s == [] then [] else EscapeChar(s[0]) + Escape(s[1..])
  }

  function Quote(s: string): string {
    "\"" + Escape(s) + "\""
  }

  function Print(v: Value): (r: string)
    decreases v, 0
  {
    match v
    case Text(s) => Quote(s)
    case Nat(n) => Decimal(n)
    case Array(items) => "[" + PrintItems(items) + "]"
    case Object(ms) => "{" + PrintMembers(ms) + "}"
  }

  function PrintItems(items: Items): string
    decreases items, 0
  {
    match items
    case NoItems => ""
    case Item(v, NoItems) => Print(v)
    case Item(v, rest) => Print(v) + "," + PrintItems(rest)
  }

  function PrintMembers(ms: Members): string
    decreases ms, 0
  {
    match ms
    case NoMembers => ""
    case Member(k, v, NoMembers) => Quote(k) + ":" + Print(v)
    case Member(k, v, rest) => Quote(k) + ":" + Print(v) + "," + PrintMembers(rest)
  }

  // ----- Reading -----

  function HexValue(c: char): Option<nat> {
    if IsDigit(c) then Some(c as int - '0' as int)
    else if 'a' <= c <= 'f' then Some(c as int - 'a' as int + 10)
    else if 'A' <= c <= 'F' then Some(c as int - 'A' as int + 10)
    else None
  }

  /** The character a \uXXXX escape stands for, when it is one. */
  function HexEscape(s: string): (r: Option<char>) {
    if |s| < 4 then None
    else
      match (HexValue(s[0]), HexValue(s[1]), HexValue(s[2]), HexValue(s[3]))
      case (Some(a), Some(b), Some(c), Some(d)) =>
        var n := ((a * 16 + b) * 16 + c) * 16 + d;
        if 0 <= n < 0xD800 || 0xE000 <= n < 0x10000 then Some(n as char) else None
      case _ => None
  }

  /** One character of a string body and the text after it. */
  function ReadChar(s: string): (r: Option<(char, string)>)
    requires s != []
    ensures r.Some? ==> |r.value.1| < |s|
  {
    if s[0] != '\\' then
      if s[0] < 32 as char then None else Some((s[0], s[1..]))
    else if |s| < 2 then None
    else if s[1] == '"' || s[1] == '\\' || s[1] == '/' then Some((s[1], s[2..]))
    else if s[1] == 'n' then Some(('\n', s[2..]))
    else if s[1] == 'r' then Some(('\r', s[2..]))
    else if s[1] == 't' then Some(('\t', s[2..]))
    else if s[1] == 'b' then Some((8 as char, s[2..]))
    else if s[1] == 'f' then Some((12 as char, s[2..]))
    else if s[1] == 'u' then
      match HexEscape(s[2..])
      case Some(c) => Some((c, s[6..]))
      case None => None
    else None
  }

  /** A string after its opening quote, and the text after its closing quote. */
  function ReadString(s: string): (r: Option<(string, string)>)
    ensures r.Some? ==> |r.value.1| < |s|
    decreases |s|
  {
    if s == [] then None
    else if s[0] == '"' then Some(([], s[1..]))
    else
      match ReadChar(s)
      case None => None
      case Some((c, rest)) =>
        match ReadString(rest)
        case None => None
        case Some((t, after)) => Some(([c] + t, after))
  }

  function DigitRun(s: string): (n: nat)
    ensures n <= |s| && AllDigits(s[..n])
    ensures n < |s| ==> !IsDigit(s[n])
  {
    if s == [] || !IsDigit(s[0]) then 0
    else
      var n := 1 + DigitRun(s[1..]);
      assert s[..n] == [s[0]] + s[1..][..n - 1];
      n
  }

  function ReadValue(s: string): (r: Option<(Value, string)>)
    ensures r.Some? ==> |r.value.1| < |s|
    decreases |s|, 0
  {
    if s == [] then None
    else if s[0] == '"' then
      match ReadString(s[1..])
      case None => None
      case Some((t, rest)) => Some((Text(t), rest))
    else if IsDigit(s[0]) then
      var n := if s[0] == '0' then 1 else DigitRun(s);
      Some((Nat(Number(s[..n])), s[n..]))
    else if s[0] == '[' then
      if 2 <= |s| && s[1] == ']' then Some((Array(NoItems), s[2..]))
      else
        match ReadItems(s[1..])
        case None => None
        case Some((items, rest)) => Some((Array(items), rest))
    else if s[0] == '{' then
      if 2 <= |s| && s[1] == '}' then Some((Object(NoMembers), s[2..]))
      else
        match ReadMembers(s[1..])
        case None => None
        case Some((ms, rest)) => Some((Object(ms), rest))
    else None
  }

  /** Items up to and including the closing bracket. */
  function ReadItems(s: string): (r: Option<(Items, string)>)
    ensures r.Some? ==> |r.value.1| < |s|
    decreases |s|, 1
  {
    match ReadValue(s)
    case None => None
    case Some((v, rest)) =>
      if rest == [] then None
      else if rest[0] == ']' then Some((Item(v, NoItems), rest[1..]))
      else if rest[0] == ',' then
        match ReadItems(rest[1..])
        case None => None
        case Some((more, after)) => Some((Item(v, more), after))
      else None
  }

  /** Members up to and including the closing brace. */
  function ReadMembers(s: string): (r: Option<(Members, string)>)
    ensures r.Some? ==> |r.value.1| < |s|
    decreases |s|, 1
  {
    if s == [] || s[0] != '"' then None
    else
      match ReadString(s[1..])
      case None => None
      case Some((k, afterKey)) =>
        if afterKey == [] || afterKey[0] != ':' then None
        else
          match ReadValue(afterKey[1..])
          case None => None
          case Some((v, rest)) =>
            if rest == [] then None
            else if rest[0] == '}' then Some((Member(k, v, NoMembers), rest[1..]))
            else if rest[0] == ',' then
              match ReadMembers(rest[1..])
              case None => None
              case Some((ms, after)) => Some((Member(k, v, ms), after))
            else None
  }

  /** A whole text as one value. */
  function Load(s: string): Option<Value> {
    match ReadValue(s)
    case Some((v, rest)) => if rest == [] then Some(v) else None
    case None => None
  }

  // ----- Where the interpreter gives up -----

  /** The two limits of the interpreter: digits it turns into an integer, and nesting it recurses to. */
  datatype Limits = Limits(digits: nat, depth: nat)

  /** Reading a value at the front of s raises: it comes to a numeral with too many digits, or to an array
      or object below the last level, before it comes to a syntax error. `left` levels are left. */
  predicate ValueRaises(lim: Limits, s: string, left: nat)
    decreases |s|, 0
  {
    if s == [] then false
    else if IsDigit(s[0]) then s[0] != '0' && DigitRun(s) > lim.digits
    else if s[0] == '[' then left == 0 || ItemsRaise(lim, s[1..], left - 1)
    else if s[0] == '{' then left == 0 || MembersRaise(lim, s[1..], left - 1)
    else false
  }

  predicate ItemsRaise(lim: Limits, s: string, left: nat)
    decreases |s|, 1
  {
    || ValueRaises(lim, s, left)
    || (ReadValue(s).Some?
        && var rest := ReadValue(s).value.1;
           rest != [] && rest[0] == ',' && ItemsRaise(lim, rest[1..], left))
  }

  predicate MembersRaise(lim: Limits, s: string, left: nat)
    decreases |s|, 1
  {
    && s != [] && s[0] == '"' && ReadString(s[1..]).Some?
    && var afterKey := ReadString(s[1..]).value.1;
    && afterKey != [] && afterKey[0] == ':'
    && (ValueRaises(lim, afterKey[1..], left)
        || (ReadValue(afterKey[1..]).Some?
            && var rest := ReadValue(afterKey[1..]).value.1;
               rest != [] && rest[0] == ',' && MembersRaise(lim, rest[1..], left)))
  }

  datatype Loaded = Parsed(value: Value) | NoJson | Raised

  function Loads(lim: Limits, s: string): Loaded {
    if ValueRaises(lim, s, lim.depth) then Raised
    else if Load(s).Some? then Parsed(Load(s).value) else NoJson
  }

  /** Every numeral of the value is short enough, and it nests no deeper than `left`. */
  predicate Within(lim: Limits, v: Value, left: nat) {
    match v
    case Text(_) => true
    case Nat(n) => n == 0 || |Decimal(n)| <= lim.digits
    case Array(items) => left > 0 && ItemsWithin(lim, items, left - 1)
    case Object(ms) => left > 0 && MembersWithin(lim, ms, left - 1)
  }

  predicate ItemsWithin(lim: Limits, items: Items, left: nat) {
    match items
    case NoItems => true
    case Item(v, rest) => Within(lim, v, left) && ItemsWithin(lim, rest, left)
  }

  predicate MembersWithin(lim: Limits, ms: Members, left: nat) {
    match ms
    case NoMembers => true
    case Member(_, v, rest) => Within(lim, v, left) && MembersWithin(lim, rest, left)
  }

  lemma NumeralRaises(lim: Limits, s: string)
    requires s != [] && IsDigit(s[0])
    ensures var n := if s[0] == '0' then 1 else DigitRun(s);
            (s[0] != '0' && DigitRun(s) > lim.digits)
            <==> !(Number(s[..n]) == 0 || |Decimal(Number(s[..n]))| <= lim.digits)
  {
    var n := if s[0] == '0' then 1 else DigitRun(s);
    assert s[..n][0] == s[0];
    DecimalOfNumber(s[..n]);
    if s[0] == '0' {
      assert s[..1] == "0";
      assert "0"[..0] == "" && Number("") == 0;
    }
  }

  /** Where a value can be read at all, reading it raises exactly when the value goes beyond a limit. */
  lemma {:induction false} RaisesIffBeyond(lim: Limits, s: string, left: nat)
    requires ReadValue(s).Some?
    ensures ValueRaises(lim, s, left) <==> !Within(lim, ReadValue(s).value.0, left)
    decreases |s|, 0
  {
    if IsDigit(s[0]) {
      NumeralRaises(lim, s);
    } else if s[0] == '[' && left > 0 {
      if 2 <= |s| && s[1] == ']' {
        assert ReadValue(s[1..]).None? && !ValueRaises(lim, s[1..], left - 1);
      } else {
        ItemsRaiseIffBeyond(lim, s[1..], left - 1);
      }
    } else if s[0] == '{' && !(2 <= |s| && s[1] == '}') && left > 0 {
      MembersRaiseIffBeyond(lim, s[1..], left - 1);
    }
  }

  lemma {:induction false} ItemsRaiseIffBeyond(lim: Limits, s: string, left: nat)
    requires ReadItems(s).Some?
    ensures ItemsRaise(lim, s, left) <==> !ItemsWithin(lim, ReadItems(s).value.0, left)
    decreases |s|, 1
  {
    var rest := ReadValue(s).value.1;
    RaisesIffBeyond(lim, s, left);
    if rest[0] == ',' {
      ItemsRaiseIffBeyond(lim, rest[1..], left);
    }
  }

  lemma {:induction false} MembersRaiseIffBeyond(lim: Limits, s: string, left: nat)
    requires ReadMembers(s).Some?
    ensures MembersRaise(lim, s, left) <==> !MembersWithin(lim, ReadMembers(s).value.0, left)
    decreases |s|, 1
  {
    var afterKey := ReadString(s[1..]).value.1;
    var rest := ReadValue(afterKey[1..]).value.1;
    RaisesIffBeyond(lim, afterKey[1..], left);
    if rest[0] == ',' {
      MembersRaiseIffBeyond(lim, rest[1..], left);
    }
  }

  /** A text that parses raises exactly when its value goes beyond a limit. */
  lemma LoadsIsExact(lim: Limits, s: string)
    requires Load(s).Some?
    ensures Loads(lim, s) == if Within(lim, Load(s).value, lim.depth) then Parsed(Load(s).value) else Raised
  {
    RaisesIffBeyond(lim, s, lim.depth);
  }

  function Repeated(unit: string, n: nat): string {
    if n == 0 then "" else unit + Repeated(unit, n - 1)
  }

  const OPENING: string := "{\"ts\":"

  lemma OpeningFront(after: string)
    ensures var s := OPENING + after;
            && s[0] == '{' && s[1..] != [] && s[1..][0] == '"'
            && ReadString(s[1..][1..]) == Some(("ts", ":" + after))
  {
    var s := OPENING + after;
    EscapeFront("ts", ""); EscapeFront("s", "");
    assert Escape("ts") == "ts";
    ReadEscaped("ts", ":" + after);
    assert s[1..][1..] == Escape("ts") + "\"" + (":" + after);
  }

  /** An object opened below the last level raises, whether or not the text is ever closed. */
  lemma {:induction false} DeepNestRaises(lim: Limits, left: nat, inner: string)
    requires inner != "" && inner[0] == '{'
    ensures ValueRaises(lim, Repeated(OPENING, left) + inner, left)
  {
    if left > 0 {
      var after := Repeated(OPENING, left - 1) + inner;
      OpeningFront(after);
      DeepNestRaises(lim, left - 1, inner);
      assert Repeated(OPENING, left) + inner == OPENING + after;
      assert (":" + after)[1..] == after;
    }
  }

  /** A numeral one digit too long raises. */
  lemma LongNumeralRaises(lim: Limits)
    ensures ValueRaises(lim, Repeated("1", lim.digits + 1), lim.depth)
  {
    OnesAreDigits(lim.digits + 1);
    var s := Repeated("1", lim.digits + 1);
    assert s == "1" + Repeated("1", lim.digits);
    DigitRunOfNumeral(s, "");
    assert s + "" == s;
  }

  lemma {:induction false} OnesAreDigits(n: nat)
    ensures |Repeated("1", n)| == n && AllDigits(Repeated("1", n))
  {
    if n > 0 {
      OnesAreDigits(n - 1);
    }
  }

  /** A text must be long to raise: a character a level, or more digits than the limit. */
  lemma {:induction false} RaiseIsLong(lim: Limits, s: string, left: nat)
    requires ValueRaises(lim, s, left)
    ensures |s| > left || |s| > lim.digits
    decreases |s|, 0
  {
    if s[0] == '[' && left > 0 {
      ItemsRaiseIsLong(lim, s[1..], left - 1);
    } else if s[0] == '{' && left > 0 {
      MembersRaiseIsLong(lim, s[1..], left - 1);
    }
  }

  lemma {:induction false} ItemsRaiseIsLong(lim: Limits, s: string, left: nat)
    requires ItemsRaise(lim, s, left)
    ensures |s| > left || |s| > lim.digits
    decreases |s|, 1
  {
    if ValueRaises(lim, s, left) {
      RaiseIsLong(lim, s, left);
    } else {
      ItemsRaiseIsLong(lim, ReadValue(s).value.1[1..], left);
    }
  }

  lemma {:induction false} MembersRaiseIsLong(lim: Limits, s: string, left: nat)
    requires MembersRaise(lim, s, left)
    ensures |s| > left || |s| > lim.digits
    decreases |s|, 1
  {
    var afterKey := ReadString(s[1..]).value.1;
    if ValueRaises(lim, afterKey[1..], left) {
      RaiseIsLong(lim, afterKey[1..], left);
    } else {
      MembersRaiseIsLong(lim, ReadValue(afterKey[1..]).value.1[1..], left);
    }
  }

  // ----- Reading undoes printing -----

  lemma ReadEscapedChar(c: char, rest: string)
    ensures ReadChar(EscapeChar(c) + rest) == Some((c, rest))
    ensures (EscapeChar(c) + rest)[0] != '"'
  {
    var e := EscapeChar(c);
    var s := e + rest;
    assert s[|e|..] == rest;
    if |e| == 6 {
      var n := c as int;
      assert HexValue(HexDigit(n / 16)) == Some(n / 16);
      assert HexValue(HexDigit(n % 16)) == Some(n % 16);
      assert s[2..][..4] == ['0', '0', HexDigit(n / 16), HexDigit(n % 16)];
      assert HexEscape(s[2..]) == Some(c);
    }
  }

  lemma {:induction false} ReadEscaped(t: string, rest: string)
    ensures ReadString(Escape(t) + "\"" + rest) == Some((t, rest))
  {
    if t == [] {
      assert Escape(t) + "\"" + rest == "\"" + rest;
    } else {
      var after := Escape(t[1..]) + "\"" + rest;
      EscapeFront(t, rest);
      ReadEscapedChar(t[0], after);
      ReadEscaped(t[1..], rest);
      assert t == [t[0]] + t[1..];
    }
  }

  lemma EscapeFront(t: string, after: string)
    requires t != []
    ensures Escape(t) + "\"" + after == EscapeChar(t[0]) + (Escape(t[1..]) + "\"" + after)
  {
  }

  lemma {:induction false} DigitRunOfNumeral(d: string, rest: string)
    requires AllDigits(d) && (rest == [] || !IsDigit(rest[0]))
    ensures DigitRun(d + rest) == |d|
  {
    if d == [] {
      assert d + rest == rest;
    } else {
      assert (d + rest)[1..] == d[1..] + rest;
      DigitRunOfNumeral(d[1..], rest);
    }
  }

  /** Whatever follows a printed value inside a document: nothing, a comma, a bracket or a brace. */
  predicate Delimited(rest: string) {
    rest == [] || rest[0] == ',' || rest[0] == ']' || rest[0] == '}'
  }

  lemma {:induction false} ReadPrinted(v: Value, rest: string)
    requires Delimited(rest)
    ensures ReadValue(Print(v) + rest) == Some((v, rest))
    decreases v, 0
  {
    match v
    case Text(t) =>
      ReadPrintedText(t, rest);
    case Nat(n) =>
      ReadPrintedNat(n, rest);
    case Array(items) =>
      if items.Item? {
        PrintedItemsStart(items);
        ReadPrintedItems(items, rest);
      }
      ReadBracketed(items, PrintItems(items), rest);
    case Object(ms) =>
      if ms.Member? {
        PrintedMembersStart(ms);
        ReadPrintedMembers(ms, rest);
      }
      ReadBraced(ms, PrintMembers(ms), rest);
  }

  lemma ReadBracketed(items: Items, body: string, rest: string)
    requires items.NoItems? ==> body == ""
    requires items.Item? ==> body != "" && body[0] != ']' && ReadItems(body + "]" + rest) == Some((items, rest))
    ensures ReadValue("[" + body + "]" + rest) == Some((Array(items), rest))
  {
    var inner := body + "]" + rest;
    assert "[" + body + "]" + rest == ['['] + inner;
    if items.NoItems? {
      assert inner[1..] == rest;
    }
    ReadBracket(items, inner, rest);
  }

  lemma ReadBracket(items: Items, inner: string, rest: string)
    requires inner != ""
    requires items.NoItems? ==> inner[0] == ']' && inner[1..] == rest
    requires items.Item? ==> inner[0] != ']' && ReadItems(inner) == Some((items, rest))
    ensures ReadValue(['['] + inner) == Some((Array(items), rest))
  {
    var s := ['['] + inner;
    assert s[1..] == inner && s[2..] == inner[1..];
  }

  lemma PrintedStart(v: Value)
    ensures Print(v) != [] && Print(v)[0] != ']'
  {
    match v
    case Text(s) => assert Quote(s)[0] == '"';
    case Nat(n) => assert IsDigit(Decimal(n)[0]);
    case Array(items) =>
    case Object(ms) =>
  }

  lemma PrintedItemsStart(items: Items)
    requires items.Item?
    ensures PrintItems(items) != [] && PrintItems(items)[0] != ']'
  {
    PrintedStart(items.value);
  }

  function AfterItem(more: Items, rest: string): (r: string)
    ensures Delimited(r) && r != []
  {
    if more.NoItems? then "]" + rest else "," + (PrintItems(more) + "]" + rest)
  }

  lemma PrintedItemShape(items: Items, rest: string)
    requires items.Item?
    ensures PrintItems(items) + "]" + rest == Print(items.value) + AfterItem(items.rest, rest)
  {
    var v := Print(items.value);
    if items.rest.NoItems? {
      assert v + "]" + rest == v + ("]" + rest);
    } else {
      var m := PrintItems(items.rest);
      assert v + "," + m + "]" + rest == v + ("," + (m + "]" + rest));
    }
  }

  lemma {:induction false} ReadPrintedItems(items: Items, rest: string)
    requires items.Item?
    ensures ReadItems(PrintItems(items) + "]" + rest) == Some((items, rest))
    decreases items, 0
  {
    var Item(v, more) := items;
    var tail := AfterItem(more, rest);
    PrintedItemShape(items, rest);
    ReadPrinted(v, tail);
    if more.Item? {
      ReadPrintedItems(more, rest);
      assert tail[1..] == PrintItems(more) + "]" + rest;
    } else {
      assert tail[1..] == rest;
    }
  }

  lemma ReadBraced(ms: Members, body: string, rest: string)
    requires ms.NoMembers? ==> body == ""
    requires ms.Member? ==> body != "" && body[0] == '"' && ReadMembers(body + "}" + rest) == Some((ms, rest))
    ensures ReadValue("{" + body + "}" + rest) == Some((Object(ms), rest))
  {
    var inner := body + "}" + rest;
    assert "{" + body + "}" + rest == ['{'] + inner;
    if ms.NoMembers? {
      assert inner[1..] == rest;
    }
    ReadBrace(ms, inner, rest);
  }

  lemma ReadBrace(ms: Members, inner: string, rest: string)
    requires inner != ""
    requires ms.NoMembers? ==> inner[0] == '}' && inner[1..] == rest
    requires ms.Member? ==> inner[0] == '"' && ReadMembers(inner) == Some((ms, rest))
    ensures ReadValue(['{'] + inner) == Some((Object(ms), rest))
  {
    var s := ['{'] + inner;
    assert s[1..] == inner && s[2..] == inner[1..];
  }

  lemma ReadPrintedText(t: string, rest: string)
    ensures ReadValue(Quote(t) + rest) == Some((Text(t), rest))
  {
    var s := Quote(t) + rest;
    assert s[0] == '"';
    assert s[1..] == Escape(t) + "\"" + rest;
    ReadEscaped(t, rest);
  }

  lemma ReadPrintedNat(n: nat, rest: string)
    requires Delimited(rest)
    ensures ReadValue(Decimal(n) + rest) == Some((Nat(n), rest))
  {
    var d := Decimal(n);
    var s := d + rest;
    DigitRunOfNumeral(d, rest);
    NumberOfDecimal(n);
    ZeroIsAlone(n);
    assert s[0] == d[0] && IsDigit(d[0]);
    assert s[..|d|] == d && s[|d|..] == rest;
  }

  lemma ZeroIsAlone(n: nat)
    ensures Decimal(n)[0] == '0' ==> |Decimal(n)| == 1
  {
  }

  lemma PrintedMembersStart(ms: Members)
    requires ms.Member?
    ensures PrintMembers(ms) != [] && PrintMembers(ms)[0] == '"'
  {
    assert Quote(ms.key)[0] == '"';
  }

  lemma {:induction false} ReadPrintedMembers(ms: Members, rest: string)
    requires ms.Member?
    ensures ReadMembers(PrintMembers(ms) + "}" + rest) == Some((ms, rest))
    decreases ms, 0
  {
    var Member(k, v, more) := ms;
    var tail := AfterValue(more, rest);
    PrintedMemberShape(ms, rest);
    ReadEscaped(k, ":" + (Print(v) + tail));
    ReadPrinted(v, tail);
    if more.Member? {
      ReadPrintedMembers(more, rest);
    }
    var s := PrintMembers(ms) + "}" + rest;
    var afterKey := ":" + (Print(v) + tail);
    assert afterKey[1..] == Print(v) + tail;
    assert ReadString(s[1..]) == Some((k, afterKey));
    assert ReadValue(afterKey[1..]) == Some((v, tail));
    if more.NoMembers? {
      assert tail[1..] == rest;
    } else {
      assert tail[1..] == PrintMembers(more) + "}" + rest;
    }
  }

  function AfterValue(more: Members, rest: string): (r: string)
    ensures Delimited(r) && r != []
  {
    if more.NoMembers? then "}" + rest else "," + (PrintMembers(more) + "}" + rest)
  }

  /** Regrouping of the pieces of one printed member followed by more text. */
  lemma Regroup(k: string, v: string, more: string)
    ensures var s := "\"" + k + "\"" + ":" + v + more;
            s != [] && s[0] == '"' && s[1..] == k + "\"" + (":" + (v + more))
  {
    var s := "\"" + k + "\"" + ":" + v + more;
    assert s == "\"" + (k + "\"" + (":" + (v + more)));
  }

  lemma PrintedMemberShape(ms: Members, rest: string)
    requires ms.Member?
    ensures var s := PrintMembers(ms) + "}" + rest;
            && s != [] && s[0] == '"'
            && s[1..] == Escape(ms.key) + "\"" + (":" + (Print(ms.value) + AfterValue(ms.rest, rest)))
  {
    var k, v, after := Escape(ms.key), Print(ms.value), AfterValue(ms.rest, rest);
    Regroup(k, v, after);
    var one := "\"" + k + "\"" + ":" + v;
    if ms.rest.NoMembers? {
      GroupLast(one, rest);
    } else {
      GroupMore(one, PrintMembers(ms.rest), rest);
    }
  }

  lemma GroupLast(one: string, rest: string)
    ensures one + "}" + rest == one + ("}" + rest)
  {
  }

  lemma GroupMore(one: string, m: string, rest: string)
    ensures one + "," + m + "}" + rest == one + ("," + (m + "}" + rest))
  {
  }

  /** Loading a printed value gives it back. */
  lemma LoadUndoesPrint(v: Value)
    ensures Load(Print(v)) == Some(v)
  {
    ReadPrinted(v, "");
    assert Print(v) + "" == Print(v);
  }

  // ----- A printed value is one line -----

  lemma {:induction false} EscapedHasNoNewline(s: string)
    ensures '\n' !in Escape(s)
  {
    if s != [] {
      EscapedHasNoNewline(s[1..]);
      assert '\n' !in EscapeChar(s[0]) by {
        if |EscapeChar(s[0])| == 6 {
          var n := s[0] as int;
          assert HexDigit(n / 16) != '\n' && HexDigit(n % 16) != '\n';
        }
      }
    }
  }

  lemma {:induction false} PrintHasNoNewline(v: Value)
    ensures '\n' !in Print(v)
    decreases v, 0
  {
    match v
    case Text(s) => EscapedHasNoNewline(s);
    case Nat(n) =>
      forall i | 0 <= i < |Decimal(n)| ensures Decimal(n)[i] != '\n' {
        assert IsDigit(Decimal(n)[i]);
      }
    case Array(items) => PrintItemsHasNoNewline(items);
    case Object(ms) => PrintMembersHasNoNewline(ms);
  }

  lemma {:induction false} PrintItemsHasNoNewline(items: Items)
    ensures '\n' !in PrintItems(items)
    decreases items, 0
  {
    match items
    case NoItems =>
    case Item(v, rest) =>
      PrintHasNoNewline(v);
      PrintItemsHasNoNewline(rest);
  }

  lemma {:induction false} PrintMembersHasNoNewline(ms: Members)
    ensures '\n' !in PrintMembers(ms)
    decreases ms, 0
  {
    match ms
    case NoMembers =>
    case Member(k, v, rest) =>
      EscapedHasNoNewline(k);
      PrintHasNoNewline(v);
      PrintMembersHasNoNewline(rest);
  }
}
