/** The JSON the event stream carries, at the level of characters.

    The server writes each event payload with Python's `json.dumps` under its
    default settings (every character outside printable ASCII escaped,
    separators ", " and ": "); the browser reads it back with
    `JSON.parse`. Payloads are flat objects whose values are strings or
    `true`, so only that fragment of JSON is modelled on both sides: `Dumps`
    writes such an object, `ParseObject` reads one (and reports failure for
    anything outside the fragment). The two are proved inverse, and every
    written payload is proved to be a single line of printable ASCII. */
module Json {
  import opened Wrappers
  import opened Strings

  /** The values a payload carries. */
  datatype Value = JString(str: string) | JTrue | JFalse | JNull

  /** A JSON object, as the list of its members in order. */
  type Object = seq<(string, Value)>

  // ----- writing (Python json.dumps) -----

  function HexDigit(d: nat): (c: char)
    requires d < 16
  {
    if d < 10 then ('0' as int + d) as char else ('a' as int + d - 10) as char
  }

  /** Two lower-case hex digits of a byte. */
  function Hex2(b: nat): string
    requires b < 256
  {
    [HexDigit(b / 16), HexDigit(b % 16)]
  }

  /** `'{0:04x}'.format(n)`: four lower-case hex digits. */
  function Hex4(n: nat): string
    requires n < 0x10000
  {
    Hex2(n / 256) + Hex2(n % 256)
  }

  /** Characters that `json.dumps` writes as themselves: printable ASCII
      other than the quote and the backslash. */
  predicate Plain(c: char) {
    ' ' <= c <= '~' && c != '"' && c != '\\'
  }

  /** The letter `json.dumps` writes after a backslash for the quote, the
      backslash and five control characters. */
  function ShortEscape(c: char): Option<char> {
    if c == '"' then Some('"')
    else if c == '\\' then Some('\\')
    else if c == '\n' then Some('n')
    else if c == '\r' then Some('r')
    else if c == '\t' then Some('t')
    else if c == '\U{0008}' then Some('b')
    else if c == '\U{000C}' then Some('f')
    else None
  }

  /** `\uXXXX` for a UTF-16 code unit. */
  function UnicodeEscape(n: nat): string
    requires n < 0x10000
  {
    "\\u" + Hex4(n)
  }

  /** How `json.dumps` writes one character of a string: a two-character
      escape where there is one, the character itself when it is plain,
      `\uXXXX` for the rest of the Basic Multilingual Plane and a
      `\uXXXX\uXXXX` surrogate pair above it. */
  function EscapeChar(c: char): string {
    match ShortEscape(c)
    case Some(e) => ['\\', e]
    case None =>
      if Plain(c) then [c]
      else if c as int < 0x10000 then UnicodeEscape(c as int)
      else
        var n := c as int - 0x10000;
        UnicodeEscape(0xD800 + n / 1024) + UnicodeEscape(0xDC00 + n % 1024)
  }

  function EscapeString(s: string): string {
    if |s| == 0 then "" else EscapeChar(s[0]) + EscapeString(s[1..])
  }

  /** A string of plain characters is written as itself. */
  lemma {:induction false} PlainUnescaped(s: string)
    requires forall i :: 0 <= i < |s| ==> Plain(s[i])
    ensures EscapeString(s) == s
  {
    if |s| > 0 {
      PlainUnescaped(s[1..]);
      assert [s[0]] + s[1..] == s;
    }
  }

  function DumpString(s: string): string {
    "\"" + EscapeString(s) + "\""
  }

  /** A text between double quotes, with nothing escaped. */
  function Quote(s: string): string {
    "\"" + s + "\""
  }

  /** A string of plain characters is written as itself between quotes. */
  lemma PlainDumpString(s: string)
    requires forall i :: 0 <= i < |s| ==> Plain(s[i])
    ensures DumpString(s) == Quote(s)
  {
    PlainUnescaped(s);
  }

  function DumpValue(v: Value): string {
    match v
    case JString(s) => DumpString(s)
    case JTrue => "true"
    case JFalse => "false"
    case JNull => "null"
  }

  function DumpMember(m: (string, Value)): string {
    DumpString(m.0) + ": " + DumpValue(m.1)
  }

  function DumpMembers(o: Object): string {
    if |o| == 0 then ""
    else if |o| == 1 then DumpMember(o[0])
    else DumpMember(o[0]) + ", " + DumpMembers(o[1..])
  }

  /** `json.dumps(o)` for a flat object. */
  function Dumps(o: Object): string {
    "{" + DumpMembers(o) + "}"
  }

  // ----- reading (JavaScript JSON.parse) -----

  predicate IsJsonSpace(c: char) {
    c == ' ' || c == '\t' || c == '\n' || c == '\r'
  }

  function SkipSpace(s: string): (r: string)
    ensures |r| <= |s|
    ensures |r| == 0 || !IsJsonSpace(r[0])
  {
    if |s| > 0 && IsJsonSpace(s[0]) then SkipSpace(s[1..]) else s
  }

  predicate IsHexDigit(c: char) {
    ('0' <= c <= '9') || ('a' <= c <= 'f') || ('A' <= c <= 'F')
  }

  function HexValue(c: char): (d: nat)
    requires IsHexDigit(c)
    ensures d < 16
  {
    if '0' <= c <= '9' then c as int - '0' as int
    else if 'a' <= c <= 'f' then c as int - 'a' as int + 10
    else c as int - 'A' as int + 10
  }

  /** Four hex digits (either case) at the front of `s`. */
  function ParseHex4(s: string): (r: Option<(nat, string)>)
    ensures r.Some? ==> |s| >= 4 && r.value.0 < 0x10000 && r.value.1 == s[4..]
  {
    if |s| >= 4 && IsHexDigit(s[0]) && IsHexDigit(s[1]) && IsHexDigit(s[2]) && IsHexDigit(s[3]) then
      Some((((HexValue(s[0]) * 16 + HexValue(s[1])) * 16 + HexValue(s[2])) * 16 + HexValue(s[3]), s[4..]))
    else None
  }

  /** Decodes a `\u` escape whose four digits have been read as `code`, with
      `rest` the text after them; a high surrogate must be followed by an
      escaped low surrogate. A lone surrogate is not a character of a
      `string` here, so it is reported as a failure. */
  function ParseUnicode(code: nat, rest: string): (r: Option<(char, string)>)
    requires code < 0x10000
    ensures r.Some? ==> |r.value.1| <= |rest|
  {
    if code < 0xD800 || 0xE000 <= code then Some((code as char, rest))
    else if code < 0xDC00 && |rest| >= 2 && rest[0] == '\\' && rest[1] == 'u' then
      match ParseHex4(rest[2..])
      case Some((low, after)) =>
        if 0xDC00 <= low < 0xE000 then
          Some(((0x10000 + (code - 0xD800) * 1024 + (low - 0xDC00)) as char, after))
        else None
      case None => None
    else None
  }

  /** The character `JSON.parse` reads for a backslash followed by `e`,
      other than `\u`. */
  function Unescape(e: char): Option<char> {
    if e == '"' then Some('"')
    else if e == '\\' then Some('\\')
    else if e == '/' then Some('/')
    else if e == 'b' then Some('\U{0008}')
    else if e == 'f' then Some('\U{000C}')
    else if e == 'n' then Some('\n')
    else if e == 'r' then Some('\r')
    else if e == 't' then Some('\t')
    else None
  }

  /** One character of a string literal, raw or escaped. The closing quote,
      a raw control character and an unknown escape are not characters. */
  function ParseChar(s: string): (r: Option<(char, string)>)
    ensures r.Some? ==> |r.value.1| < |s|
  {
    if |s| == 0 || s[0] == '"' || s[0] < ' ' then None
    else if s[0] != '\\' then Some((s[0], s[1..]))
    else if |s| < 2 then None
    else if s[1] == 'u' then
      match ParseHex4(s[2..])
      case Some((code, rest)) => ParseUnicode(code, rest)
      case None => None
    else
      match Unescape(s[1])
      case Some(c) => Some((c, s[2..]))
      case None => None
  }

  /** The rest of a string literal after its opening quote: its characters
      and the text after the closing quote. */
  function ParseStringBody(s: string): (r: Option<(string, string)>)
    ensures r.Some? ==> |r.value.1| < |s|
    decreases |s|
  {
    if |s| > 0 && s[0] == '"' then Some(("", s[1..]))
    else
      match ParseChar(s)
      case None => None
      case Some((c, rest)) =>
        match ParseStringBody(rest)
        case None => None
        case Some((body, after)) => Some(([c] + body, after))
  }

  function ParseValue(s: string): (r: Option<(Value, string)>)
    ensures r.Some? ==> |r.value.1| < |s|
  {
    if |s| > 0 && s[0] == '"' then
      match ParseStringBody(s[1..])
      case Some((body, after)) => Some((JString(body), after))
      case None => None
    else if StartsWith(s, "true") then Some((JTrue, s[4..]))
    else if StartsWith(s, "false") then Some((JFalse, s[5..]))
    else if StartsWith(s, "null") then Some((JNull, s[4..]))
    else None
  }

  /** One `"key": value` member, with the spaces JSON allows around the
      colon, and the text after it. */
  function ParseMember(s: string): (r: Option<((string, Value), string)>)
    ensures r.Some? ==> |r.value.1| < |s|
  {
    if |s| > 0 && s[0] == '"' then
      match ParseStringBody(s[1..])
      case None => None
      case Some((key, afterKey)) =>
        var t := SkipSpace(afterKey);
        if |t| > 0 && t[0] == ':' then
          match ParseValue(SkipSpace(t[1..]))
          case None => None
          case Some((v, after)) => Some(((key, v), after))
        else None
    else None
  }

  /** Members separated by commas up to and including the closing brace,
      after any leading spaces. */
  function ParseMembers(s: string): (r: Option<(Object, string)>)
    decreases |s|, 1
  {
    ParseMembersAt(SkipSpace(s))
  }

  /** `ParseMembers` on a text that starts at a member. */
  function ParseMembersAt(s: string): (r: Option<(Object, string)>)
    decreases |s|, 0
  {
    match ParseMember(s)
    case None => None
    case Some((m, afterMember)) =>
      var t := SkipSpace(afterMember);
      if |t| > 0 && t[0] == '}' then Some(([m], t[1..]))
      else if |t| > 0 && t[0] == ',' then
        match ParseMembers(t[1..])
        case None => None
        case Some((ms, after)) => Some(([m] + ms, after))
      else None
  }

  /** `JSON.parse(s)` for a text that holds one flat object and nothing
      else but spaces; None where `JSON.parse` would throw or where the
      text lies outside the fragment modelled. */
  function ParseObject(s: string): Option<Object> {
    var t := SkipSpace(s);
    if |t| > 0 && t[0] == '{' then
      var u := SkipSpace(t[1..]);
      var inner: Option<(Object, string)> :=
        if |u| > 0 && u[0] == '}' then Some(([], u[1..]))
        else ParseMembers(u);
      match inner
      case None => None
      case Some((o, after)) => if SkipSpace(after) == "" then Some(o) else None
    else None
  }

  /** The value of the last member named `key` (what `JSON.parse` keeps when
      a key repeats), if any. */
  function Member(o: Object, key: string): (r: Option<Value>)
    ensures r.Some? <==> exists i :: 0 <= i < |o| && o[i].0 == key
    ensures r.Some? ==> exists i :: 0 <= i < |o| && o[i] == (key, r.value)
    ensures forall i :: 0 <= i < |o| && o[i].0 == key && (forall j :: i < j < |o| ==> o[j].0 != key) ==> r == Some(o[i].1)
  {
    if |o| == 0 then None
    else if o[|o| - 1].0 == key then Some(o[|o| - 1].1)
    else
      var p := o[..|o| - 1];
      var r := Member(p, key);
      assert forall i :: 0 <= i < |p| ==> p[i] == o[i];
      r
  }

  // ----- the round trip -----

  lemma HexDigitRoundTrip(d: nat)
    requires d < 16
    ensures IsHexDigit(HexDigit(d)) && HexValue(HexDigit(d)) == d
  {
  }

  lemma Hex4RoundTrip(n: nat, rest: string)
    requires n < 0x10000
    ensures ParseHex4(Hex4(n) + rest) == Some((n, rest))
  {
    var s := Hex4(n) + rest;
    HexDigitRoundTrip(n / 256 / 16);
    HexDigitRoundTrip(n / 256 % 16);
    HexDigitRoundTrip(n % 256 / 16);
    HexDigitRoundTrip(n % 256 % 16);
    assert s[4..] == rest;
    assert n / 256 == n / 256 / 16 * 16 + n / 256 % 16;
    assert n % 256 == n % 256 / 16 * 16 + n % 256 % 16;
  }

  lemma ShortEscapeRoundTrip(c: char)
    requires ShortEscape(c).Some?
    ensures ShortEscape(c).value != 'u' && Unescape(ShortEscape(c).value) == Some(c)
  {
  }

  /** Reading back a `\uXXXX` escape of a character outside the surrogate
      range gives the character. */
  lemma BmpRoundTrip(c: char, rest: string)
    requires c as int < 0x10000
    ensures ParseChar(UnicodeEscape(c as int) + rest) == Some((c, rest))
  {
    var s := UnicodeEscape(c as int) + rest;
    Hex4RoundTrip(c as int, rest);
    assert s[2..] == Hex4(c as int) + rest;
  }

  /** Reading back a surrogate pair gives the character above the Basic
      Multilingual Plane that it encodes. */
  lemma PairRoundTrip(c: char, rest: string)
    requires c as int >= 0x10000
    ensures var n := c as int - 0x10000;
            ParseChar(UnicodeEscape(0xD800 + n / 1024) + UnicodeEscape(0xDC00 + n % 1024) + rest) == Some((c, rest))
  {
    var n := c as int - 0x10000;
    var q, r := n / 1024, n % 1024;
    assert q * 1024 + r == n && q < 1024;
    PairAt(c, 0xD800 + q, 0xDC00 + r, rest);
  }

  /** A high and a low surrogate escape, one after the other, read as the
      character they encode. */
  lemma PairAt(c: char, hi: nat, lo: nat, rest: string)
    requires 0xD800 <= hi < 0xDC00 && 0xDC00 <= lo < 0xE000
    requires 0x10000 + (hi - 0xD800) * 1024 + (lo - 0xDC00) == c as int
    ensures ParseChar(UnicodeEscape(hi) + UnicodeEscape(lo) + rest) == Some((c, rest))
  {
    var tail := UnicodeEscape(lo) + rest;
    var s := UnicodeEscape(hi) + tail;
    assert ParseHex4(s[2..]) == Some((hi, tail)) by {
      assert s[2..] == Hex4(hi) + tail;
      Hex4RoundTrip(hi, tail);
    }
    LowSurrogateAt(c, hi, lo, rest);
    EscapeAt(s, hi, tail);
    assert UnicodeEscape(hi) + UnicodeEscape(lo) + rest == s;
  }

  /** After a high surrogate, the escape of a low one completes the
      character. */
  lemma LowSurrogateAt(c: char, hi: nat, lo: nat, rest: string)
    requires 0xD800 <= hi < 0xDC00 && 0xDC00 <= lo < 0xE000
    requires 0x10000 + (hi - 0xD800) * 1024 + (lo - 0xDC00) == c as int
    ensures ParseUnicode(hi, UnicodeEscape(lo) + rest) == Some((c, rest))
  {
    var tail := UnicodeEscape(lo) + rest;
    assert tail[2..] == Hex4(lo) + rest;
    Hex4RoundTrip(lo, rest);
  }

  /** A `\u` escape reads as its code unit and whatever that code unit
      makes of the text after it. */
  lemma EscapeAt(s: string, code: nat, rest: string)
    requires code < 0x10000
    requires |s| >= 2 && s[0] == '\\' && s[1] == 'u' && ParseHex4(s[2..]) == Some((code, rest))
    ensures ParseChar(s) == ParseUnicode(code, rest)
  {
  }

  /** Reading back one written character gives the character. */
  lemma EscapeCharRoundTrip(c: char, rest: string)
    ensures |EscapeChar(c)| > 0 && EscapeChar(c)[0] != '"'
    ensures ParseChar(EscapeChar(c) + rest) == Some((c, rest))
  {
    var s := EscapeChar(c) + rest;
    match ShortEscape(c)
    case Some(e) =>
      ShortEscapeRoundTrip(c);
      assert s[2..] == rest;
    case None =>
      if Plain(c) {
        assert s[1..] == rest;
      } else if c as int < 0x10000 {
        BmpRoundTrip(c, rest);
      } else {
        PairRoundTrip(c, rest);
      }
  }

  lemma {:induction false} EscapeStringRoundTrip(s: string, rest: string)
    ensures ParseStringBody(EscapeString(s) + "\"" + rest) == Some((s, rest))
  {
    if |s| == 0 {
      assert EscapeString(s) + "\"" + rest == "\"" + rest;
    } else {
      var tail := EscapeString(s[1..]) + "\"" + rest;
      EscapeCharRoundTrip(s[0], tail);
      EscapeStringRoundTrip(s[1..], rest);
      assert EscapeString(s) + "\"" + rest == EscapeChar(s[0]) + tail;
      assert [s[0]] + s[1..] == s;
    }
  }

  /** Reading back a written string literal gives the string. */
  lemma DumpStringRoundTrip(s: string, rest: string)
    ensures |DumpString(s)| > 0 && DumpString(s)[0] == '"'
    ensures ParseStringBody((DumpString(s) + rest)[1..]) == Some((s, rest))
  {
    assert (DumpString(s) + rest)[1..] == EscapeString(s) + "\"" + rest;
    EscapeStringRoundTrip(s, rest);
  }

  lemma DumpValueRoundTrip(v: Value, rest: string)
    ensures ParseValue(DumpValue(v) + rest) == Some((v, rest))
  {
    var s := DumpValue(v) + rest;
    match v
    case JString(str) =>
      DumpStringRoundTrip(str, rest);
    case JTrue =>
      assert s[..4] == "true" && s[4..] == rest;
    case JFalse =>
      assert s[..5] == "false" && s[5..] == rest;
    case JNull =>
      assert s[..4] == "null" && s[4..] == rest;
  }

  /** How `ParseMember` reads a member whose parts have been read. */
  lemma MemberOf(s: string, key: string, afterKey: string, v: Value, after: string)
    requires |s| > 0 && s[0] == '"' && ParseStringBody(s[1..]) == Some((key, afterKey))
    requires var t := SkipSpace(afterKey);
             |t| > 0 && t[0] == ':' && ParseValue(SkipSpace(t[1..])) == Some((v, after))
    ensures ParseMember(s) == Some(((key, v), after))
  {
  }

  /** The text after a written separator `: ` or `, `. */
  lemma SeparatorStep(sep: char, x: string)
    requires sep == ':' || sep == ','
    requires |x| > 0 && !IsJsonSpace(x[0])
    ensures var t := [sep, ' '] + x;
            SkipSpace(t) == t && |t| > 0 && t[0] == sep && SkipSpace(t[1..]) == x
  {
    var t := [sep, ' '] + x;
    assert t[1..] == " " + x;
    FirstNotSpace(x);
  }

  lemma DumpMemberRoundTrip(m: (string, Value), rest: string)
    ensures ParseMember(DumpMember(m) + rest) == Some((m, rest))
  {
    var afterKey := ": " + (DumpValue(m.1) + rest);
    var s := DumpMember(m) + rest;
    assert s == DumpString(m.0) + afterKey;
    DumpStringRoundTrip(m.0, afterKey);
    DumpValueStart(m.1, rest);
    SeparatorStep(':', DumpValue(m.1) + rest);
    DumpValueRoundTrip(m.1, rest);
    MemberOf(s, m.0, afterKey, m.1, rest);
  }

  /** A written value never starts with a space. */
  lemma FirstNotSpace(s: string)
    requires |s| > 0 && !IsJsonSpace(s[0])
    ensures SkipSpace(" " + s) == s
  {
    assert (" " + s)[1..] == s;
  }

  lemma DumpValueStart(v: Value, rest: string)
    ensures |DumpValue(v) + rest| > 0 && !IsJsonSpace((DumpValue(v) + rest)[0])
  {
  }

  lemma SkipLeadingSpace(s: string)
    ensures SkipSpace(" " + s) == SkipSpace(s)
  {
    assert (" " + s)[1..] == s;
  }

  /** A written member starts with the quote of its key. */
  lemma DumpMemberStart(m: (string, Value), rest: string)
    ensures var s := DumpMember(m) + rest; |s| > 0 && s[0] == '"' && SkipSpace(s) == s
  {
    DumpStringRoundTrip(m.0, "");
  }

  /** How `ParseMembersAt` continues once a member has been read. */
  lemma MembersAfterMember(s: string, m: (string, Value), after: string)
    requires ParseMember(s) == Some((m, after))
    ensures var t := SkipSpace(after);
            ParseMembersAt(s) ==
              if |t| > 0 && t[0] == '}' then Some(([m], t[1..]))
              else if |t| > 0 && t[0] == ',' then
                match ParseMembers(t[1..])
                case None => None
                case Some((ms, rest)) => Some(([m] + ms, rest))
              else None
  {
  }

  lemma LastMemberRoundTrip(m: (string, Value), rest: string)
    ensures ParseMembers(DumpMember(m) + "}" + rest) == Some(([m], rest))
  {
    var after := "}" + rest;
    var s := DumpMember(m) + after;
    assert DumpMember(m) + "}" + rest == s;
    DumpMemberStart(m, after);
    DumpMemberRoundTrip(m, after);
    assert SkipSpace(after) == after && after[1..] == rest;
    MembersAfterMember(s, m, after);
  }

  /** A member followed by a comma and further members. */
  lemma MembersStep(s: string, m: (string, Value), tail: string, ms: Object, rest: string)
    requires ParseMember(s) == Some((m, ", " + tail))
    requires ParseMembers(tail) == Some((ms, rest))
    ensures ParseMembersAt(s) == Some(([m] + ms, rest))
  {
    var after := ", " + tail;
    assert SkipSpace(after) == after && after[1..] == " " + tail;
    SkipLeadingSpace(tail);
    MembersAfterMember(s, m, after);
  }

  lemma NextMemberRoundTrip(m: (string, Value), tail: string, ms: Object, rest: string)
    requires ParseMembers(tail) == Some((ms, rest))
    ensures ParseMembers(DumpMember(m) + ", " + tail) == Some(([m] + ms, rest))
  {
    var s := DumpMember(m) + (", " + tail);
    assert DumpMember(m) + ", " + tail == s;
    DumpMemberStart(m, ", " + tail);
    DumpMemberRoundTrip(m, ", " + tail);
    MembersStep(s, m, tail, ms, rest);
  }

  lemma DumpMembersUnfold(o: Object, rest: string)
    requires |o| > 1
    ensures DumpMembers(o) + "}" + rest == DumpMember(o[0]) + ", " + (DumpMembers(o[1..]) + "}" + rest)
  {
  }

  lemma {:induction false} DumpMembersRoundTrip(o: Object, rest: string)
    requires |o| > 0
    ensures ParseMembers(DumpMembers(o) + "}" + rest) == Some((o, rest))
  {
    if |o| == 1 {
      LastMemberRoundTrip(o[0], rest);
      assert [o[0]] == o;
    } else {
      var tail := DumpMembers(o[1..]) + "}" + rest;
      DumpMembersRoundTrip(o[1..], rest);
      NextMemberRoundTrip(o[0], tail, o[1..], rest);
      DumpMembersUnfold(o, rest);
      assert [o[0]] + o[1..] == o;
    }
  }

  /** Written members start with the quote of the first key. */
  lemma DumpMembersStart(o: Object, rest: string)
    requires |o| > 0
    ensures var s := DumpMembers(o) + rest; |s| > 0 && s[0] == '"' && SkipSpace(s) == s
  {
    if |o| == 1 {
      DumpMemberStart(o[0], rest);
    } else {
      DumpMemberStart(o[0], ", " + DumpMembers(o[1..]) + rest);
      assert DumpMembers(o) + rest == DumpMember(o[0]) + (", " + DumpMembers(o[1..]) + rest);
    }
  }

  /** How `ParseObject` reads an object of at least one member. */
  lemma ObjectOf(s: string, o: Object)
    requires |s| > 0 && s[0] == '{' && SkipSpace(s) == s
    requires var u := s[1..]; |u| > 0 && u[0] == '"' && SkipSpace(u) == u && ParseMembers(u) == Some((o, ""))
    ensures ParseObject(s) == Some(o)
  {
  }

  lemma EmptyObjectRoundTrip()
    ensures ParseObject("{}") == Some([])
  {
    assert "{}"[1..] == "}";
  }

  /** A written object is a brace followed by its members and a brace. */
  lemma DumpsShape(o: Object)
    ensures var s := Dumps(o); |s| > 0 && s[0] == '{' && SkipSpace(s) == s && s[1..] == DumpMembers(o) + "}" + ""
  {
    BracedShape(DumpMembers(o), Dumps(o));
  }

  lemma BracedShape(m: string, s: string)
    requires s == "{" + m + "}"
    ensures |s| > 0 && s[0] == '{' && SkipSpace(s) == s && s[1..] == m + "}" + ""
  {
    assert s[0] == '{';
    assert !IsJsonSpace(s[0]);
    assert s[1..] == m + "}";
    assert m + "}" + "" == m + "}";
  }

  /** `JSON.parse` reads back exactly the object `json.dumps` wrote. */
  lemma DumpsRoundTrip(o: Object)
    ensures ParseObject(Dumps(o)) == Some(o)
  {
    if |o| == 0 {
      assert Dumps(o) == "{}";
      EmptyObjectRoundTrip();
    } else {
      DumpsShape(o);
      DumpMembersStart(o, "}");
      DumpMembersRoundTrip(o, "");
      ObjectOf(Dumps(o), o);
    }
  }

  // ----- the written text is one line of printable ASCII -----

  predicate Printable(s: string) {
    forall i :: 0 <= i < |s| ==> ' ' <= s[i] <= '~'
  }

  lemma PrintableAppend(a: string, b: string)
    requires Printable(a) && Printable(b)
    ensures Printable(a + b)
  {
    assert forall i :: 0 <= i < |a| ==> (a + b)[i] == a[i];
    assert forall i :: |a| <= i < |a + b| ==> (a + b)[i] == b[i - |a|];
  }

  lemma PrintableUnicodeEscape(n: nat)
    requires n < 0x10000
    ensures Printable(UnicodeEscape(n))
  {
  }

  lemma PrintableEscapeChar(c: char)
    ensures Printable(EscapeChar(c))
  {
    match ShortEscape(c)
    case Some(e) =>
      assert Printable(['\\', e]);
    case None =>
      if Plain(c) {
        assert Printable([c]);
      } else if c as int < 0x10000 {
        PrintableUnicodeEscape(c as int);
      } else {
        var n := c as int - 0x10000;
        var hi, lo := 0xD800 + n / 1024, 0xDC00 + n % 1024;
        assert EscapeChar(c) == UnicodeEscape(hi) + UnicodeEscape(lo);
        PrintableUnicodeEscape(hi);
        PrintableUnicodeEscape(lo);
        PrintableAppend(UnicodeEscape(hi), UnicodeEscape(lo));
      }
  }

  lemma {:induction false} PrintableEscapeString(s: string)
    ensures Printable(EscapeString(s))
  {
    if |s| > 0 {
      PrintableEscapeChar(s[0]);
      PrintableEscapeString(s[1..]);
      PrintableAppend(EscapeChar(s[0]), EscapeString(s[1..]));
    }
  }

  lemma PrintableDumpString(s: string)
    ensures Printable(DumpString(s))
  {
    PrintableEscapeString(s);
    PrintableAppend("\"", EscapeString(s));
    PrintableAppend("\"" + EscapeString(s), "\"");
  }

  lemma PrintableDumpMember(m: (string, Value))
    ensures Printable(DumpMember(m))
  {
    PrintableDumpString(m.0);
    assert Printable(DumpValue(m.1)) by {
      if m.1.JString? {
        PrintableDumpString(m.1.str);
      }
    }
    PrintableAppend(DumpString(m.0), ": ");
    PrintableAppend(DumpString(m.0) + ": ", DumpValue(m.1));
  }

  lemma {:induction false} PrintableDumpMembers(o: Object)
    ensures Printable(DumpMembers(o))
  {
    if |o| == 1 {
      PrintableDumpMember(o[0]);
    } else if |o| > 1 {
      var head, tail := DumpMember(o[0]), DumpMembers(o[1..]);
      assert DumpMembers(o) == head + ", " + tail;
      PrintableDumpMember(o[0]);
      PrintableDumpMembers(o[1..]);
      PrintableAppend(head, ", ");
      PrintableAppend(head + ", ", tail);
    }
  }

  /** Every payload `json.dumps` writes is printable ASCII, so it holds no
      line break, starts with `{` and ends with `}`. */
  lemma DumpsIsOneLine(o: Object)
    ensures Printable(Dumps(o))
    ensures '\n' !in Dumps(o)
    ensures Dumps(o)[0] == '{' && Dumps(o)[|Dumps(o)| - 1] == '}'
  {
    PrintableDumpMembers(o);
    PrintableAppend("{", DumpMembers(o));
    PrintableAppend("{" + DumpMembers(o), "}");
  }
}
