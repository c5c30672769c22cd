/** The cursor of a ban walk, hub/bans.go: a JSON array of a revision and an identity, as unpadded
    base64url. Texts are byte strings: a character stands for one byte of UTF-8. */
module BanCursor {
  import opened Base64url
  import opened Octetted
  import opened Wrappers

  datatype Cursor = Cursor(revision: nat, platform: string, playerID: string)

  // ---- JSON strings ----

  const BACKSPACE := 8 as char
  const FORM_FEED := 12 as char

  // The character after the backslash of a two-character escape.
  function ShortEscape(c: char): (e: Option<char>)
  {
    if c == '"' || c == '\\' then Some(c)
    else if c == '\n' then Some('n')
    else if c == '\r' then Some('r')
    else if c == '\t' then Some('t')
    else if c == BACKSPACE then Some('b')
    else if c == FORM_FEED then Some('f')
    else None
  }

  function ShortUnescape(e: char): (c: Option<char>) {
    if e == '"' || e == '\\' then Some(e)
    else if e == 'n' then Some('\n')
    else if e == 'r' then Some('\r')
    else if e == 't' then Some('\t')
    else if e == 'b' then Some(BACKSPACE)
    else if e == 'f' then Some(FORM_FEED)
    else None
  }

  // Written as \u00XX: the other control characters, and what HTML would read.
  predicate LongEscaped(c: char) {
    ShortEscape(c).None? && (c < ' ' || c == '<' || c == '>' || c == '&')
  }

  function HexDigit(n: nat): (c: char)
    requires n < 16
  {
    if n < 10 then (48 + n) as char else (87 + n) as char
  }

  function HexValue(c: char): (n: Option<nat>)
    ensures n.Some? ==> n.value < 16
  {
    var code := c as int;
    if 48 <= code < 58 then Some(code - 48)
    else if 97 <= code < 103 then Some(code - 87)
    else None
  }

  lemma HexBack(n: nat)
    requires n < 16
    ensures HexValue(HexDigit(n)) == Some(n)
  {
  }

  function Escaped(c: char): (text: string)
    ensures text != ""
  {
    if ShortEscape(c).Some? then ['\\', ShortEscape(c).value]
    else if LongEscaped(c) then ['\\', 'u', '0', '0', HexDigit(c as int / 16 % 16), HexDigit(c as int % 16)]
    else [c]
  }

  // U+2028 and U+2029 in UTF-8, which JavaScript would read as line ends.
  const SEPARATOR: seq<char> := [226 as char, 128 as char]
  const LINE_SEPARATOR: seq<char> := SEPARATOR + [168 as char]
  const PARAGRAPH_SEPARATOR: seq<char> := SEPARATOR + [169 as char]

  // How much of a text is written as one escape or as it is.
  function Unit(s: string): (n: nat)
    requires s != ""
    ensures n == 1 || (n == 3 && 3 <= |s| && (s[..3] == LINE_SEPARATOR || s[..3] == PARAGRAPH_SEPARATOR))
    ensures 1 <= n <= |s|
  {
    if 3 <= |s| && (s[..3] == LINE_SEPARATOR || s[..3] == PARAGRAPH_SEPARATOR) then 3 else 1
  }

  function UnitText(unit: string): (text: string)
    requires |unit| == 1 || unit == LINE_SEPARATOR || unit == PARAGRAPH_SEPARATOR
    ensures text != ""
  {
    if |unit| == 1 then Escaped(unit[0])
    else "\\u202" + [if unit == LINE_SEPARATOR then '8' else '9']
  }

  // A unit read back: it, and how much text it took.
  function Unescaped(text: string): (r: Option<(string, nat)>)
    ensures r.Some? ==> 0 < r.value.1 <= |text|
  {
    if text == "" || text[0] == '"' then None
    else if text[0] != '\\' then Some(([text[0]], 1))
    else if |text| < 2 then None
    else if text[1] != 'u' then
      var c := ShortUnescape(text[1]);
      if c.None? then None else Some(([c.value], 2))
    else if |text| < 6 then None
    else
      match LongUnescape(text[2..6])
      case None => None
      case Some(unit) => Some((unit, 6))
  }

  // The four hex digits of an escape the cursor may hold: an ASCII character or a separator.
  function LongUnescape(digits: string): (unit: Option<string>)
    requires |digits| == 4
  {
    if digits == "2028" then Some(LINE_SEPARATOR)
    else if digits == "2029" then Some(PARAGRAPH_SEPARATOR)
    else if digits[0] != '0' || digits[1] != '0' then None
    else
      var high, low := HexValue(digits[2]), HexValue(digits[3]);
      if high.None? || low.None? || high.value >= 8 then None else Some([(16 * high.value + low.value) as char])
  }

  lemma EscapedBack(c: char, rest: string)
    requires c as int < 256
    ensures Unescaped(Escaped(c) + rest) == Some(([c], |Escaped(c)|))
  {
    if ShortEscape(c).None? && LongEscaped(c) {
      HexBack(c as int / 16 % 16);
      HexBack(c as int % 16);
      assert (Escaped(c) + rest)[2..6] == Escaped(c)[2..6];
    }
  }

  lemma SeparatorBack(unit: string, rest: string)
    requires unit == LINE_SEPARATOR || unit == PARAGRAPH_SEPARATOR
    ensures Unescaped(UnitText(unit) + rest) == Some((unit, 6))
  {
    var text := UnitText(unit) + rest;
    assert text[2..6] == if unit == LINE_SEPARATOR then "2028" else "2029";
    assert LINE_SEPARATOR[2] != PARAGRAPH_SEPARATOR[2];
  }

  lemma UnescapedBack(unit: string, rest: string)
    requires IsBytes(unit) && (|unit| == 1 || unit == LINE_SEPARATOR || unit == PARAGRAPH_SEPARATOR)
    ensures Unescaped(UnitText(unit) + rest) == Some((unit, |UnitText(unit)|))
  {
    if |unit| == 1 {
      EscapedBack(unit[0], rest);
      assert [unit[0]] == unit;
    } else {
      SeparatorBack(unit, rest);
    }
  }

  // A string with its closing quote.
  function Quoted(s: string): (text: string) {
    if s == "" then ['"'] else UnitText(s[..Unit(s)]) + Quoted(s[Unit(s)..])
  }

  // A string read up to its closing quote, and what follows.
  function Unquoted(text: string): (r: Option<(string, string)>)
    decreases |text|
  {
    if text == "" then None
    else if text[0] == '"' then Some(("", text[1..]))
    else
      match Unescaped(text)
      case None => None
      case Some((unit, taken)) =>
        match Unquoted(text[taken..])
        case None => None
        case Some((s, rest)) => Some((unit + s, rest))
  }

  lemma UnquotedStep(text: string, unit: string, taken: nat, tail: string, s: string, rest: string)
    requires Unescaped(text) == Some((unit, taken)) && taken <= |text| && text[taken..] == tail
    requires Unquoted(tail) == Some((s, rest))
    ensures Unquoted(text) == Some((unit + s, rest))
  {
  }

  lemma QuotedStep(s: string, rest: string)
    requires s != ""
    ensures Quoted(s) + rest == UnitText(s[..Unit(s)]) + (Quoted(s[Unit(s)..]) + rest)
  {
  }

  lemma {:induction false} UnquotedBack(s: string, rest: string)
    requires IsBytes(s)
    ensures Unquoted(Quoted(s) + rest) == Some((s, rest))
    decreases |s|
  {
    if s == "" {
      assert (Quoted(s) + rest)[1..] == rest;
    } else {
      var unit, after := s[..Unit(s)], s[Unit(s)..];
      var head, tail := UnitText(unit), Quoted(after) + rest;
      UnquotedBack(after, rest);
      UnescapedBack(unit, tail);
      QuotedStep(s, rest);
      assert (head + tail)[|head|..] == tail;
      UnquotedStep(head + tail, unit, |head|, tail, after, rest);
      assert s == unit + after;
    }
  }

  // ---- Decimal numbers ----

  predicate Digit(c: char) {
    48 <= c as int < 58
  }

  function Decimal(n: nat): (text: string)
    ensures text != "" && forall i :: 0 <= i < |text| ==> Digit(text[i])
  {
    var last := (48 + n % 10) as char;
    if n < 10 then [last] else Decimal(n / 10) + [last]
  }

  // The number the leading digits of a text spell, and what follows them.
  function Digits(text: string): (n: nat)
    ensures n <= |text|
  {
    if text == "" || !Digit(text[0]) then 0 else 1 + Digits(text[1..])
  }

  function DigitValue(c: char): (n: nat)
    requires Digit(c)
  {
    c as int - 48
  }

  function Number(text: string): (n: nat)
    requires forall i :: 0 <= i < |text| ==> Digit(text[i])
  {
    if text == "" then 0 else Number(text[..|text| - 1]) * 10 + DigitValue(text[|text| - 1])
  }

  lemma {:induction false} NumberBack(n: nat)
    ensures Number(Decimal(n)) == n
  {
    var last := (48 + n % 10) as char;
    if n >= 10 {
      NumberBack(n / 10);
      assert Decimal(n)[..|Decimal(n)| - 1] == Decimal(n / 10);
    } else {
      assert [last][..0] == "";
    }
  }

  lemma {:induction false} DigitsLead(digits: string, rest: string)
    requires forall i :: 0 <= i < |digits| ==> Digit(digits[i])
    requires rest == "" || !Digit(rest[0])
    ensures Digits(digits + rest) == |digits|
  {
    if digits == "" {
      assert digits + rest == rest;
    } else {
      assert (digits + rest)[1..] == digits[1..] + rest;
      DigitsLead(digits[1..], rest);
    }
  }

  lemma {:induction false} DigitsAreDigits(text: string)
    ensures forall i :: 0 <= i < Digits(text) ==> Digit(text[i])
  {
    if text != "" && Digit(text[0]) {
      DigitsAreDigits(text[1..]);
    }
  }

  // A number read off the front of a text.
  function ReadNumber(text: string): (r: Option<(nat, string)>)
  {
    var n := Digits(text);
    if n == 0 then None else DigitsAreDigits(text); Some((Number(text[..n]), text[n..]))
  }

  lemma ReadNumberBack(n: nat, rest: string)
    requires rest == "" || !Digit(rest[0])
    ensures ReadNumber(Decimal(n) + rest) == Some((n, rest))
  {
    var text := Decimal(n) + rest;
    DigitsLead(Decimal(n), rest);
    assert text[..|Decimal(n)|] == Decimal(n) && text[|Decimal(n)|..] == rest;
    NumberBack(n);
  }

  // ---- The cursor ----

  // A comma and a string after it.
  function ReadString(text: string): (r: Option<(string, string)>) {
    if |text| < 2 || text[0] != ',' || text[1] != '"' then None else Unquoted(text[2..])
  }

  function StringText(s: string): (text: string) {
    [',', '"'] + Quoted(s)
  }

  lemma ReadStringBack(s: string, rest: string)
    requires IsBytes(s)
    ensures ReadString(StringText(s) + rest) == Some((s, rest))
  {
    var text := StringText(s) + rest;
    assert text[2..] == Quoted(s) + rest;
    UnquotedBack(s, rest);
  }

  // The two strings that end the array.
  function IdentityText(platform: string, playerID: string): (text: string) {
    StringText(platform) + (StringText(playerID) + [']'])
  }

  function ReadIdentity(text: string): (r: Option<(string, string)>) {
    match ReadString(text)
    case None => None
    case Some((platform, rest)) => ReadPlayer(platform, rest)
  }

  function ReadPlayer(platform: string, text: string): (r: Option<(string, string)>) {
    match ReadString(text)
    case None => None
    case Some((playerID, rest)) => if rest != [']'] then None else Some((platform, playerID))
  }

  lemma ReadPlayerBack(platform: string, playerID: string)
    requires IsBytes(playerID)
    ensures ReadPlayer(platform, StringText(playerID) + [']']) == Some((platform, playerID))
  {
    ReadStringBack(playerID, [']']);
  }

  lemma ReadIdentityBack(platform: string, playerID: string)
    requires IsBytes(platform) && IsBytes(playerID)
    ensures ReadIdentity(IdentityText(platform, playerID)) == Some((platform, playerID))
  {
    ReadStringBack(platform, StringText(playerID) + [']']);
    ReadPlayerBack(platform, playerID);
  }

  function CursorText(cursor: Cursor): (text: string) {
    ['['] + (Decimal(cursor.revision) + IdentityText(cursor.platform, cursor.playerID))
  }

  // Reads an array as CursorText writes it; a platform is never empty.
  function ReadCursor(text: string): (cursor: Option<Cursor>) {
    if text == "" || text[0] != '[' then None
    else
      match ReadNumber(text[1..])
      case None => None
      case Some((revision, rest)) => WithIdentity(revision, ReadIdentity(rest))
  }

  function WithIdentity(revision: nat, identity: Option<(string, string)>): (cursor: Option<Cursor>) {
    match identity
    case None => None
    case Some((platform, playerID)) => if platform == "" then None else Some(Cursor(revision, platform, playerID))
  }

  predicate Issuable(cursor: Cursor) {
    cursor.platform != "" && IsBytes(cursor.platform) && IsBytes(cursor.playerID)
  }

  lemma ReadCursorBack(cursor: Cursor)
    requires Issuable(cursor)
    ensures ReadCursor(CursorText(cursor)) == Some(cursor)
  {
    var rest := IdentityText(cursor.platform, cursor.playerID);
    assert CursorText(cursor)[1..] == Decimal(cursor.revision) + rest;
    assert rest[0] == ',';
    ReadNumberBack(cursor.revision, rest);
    ReadIdentityBack(cursor.platform, cursor.playerID);
  }

  lemma {:induction false} QuotedBytes(s: string)
    requires IsBytes(s)
    ensures IsBytes(Quoted(s))
  {
    if s != "" {
      QuotedBytes(s[Unit(s)..]);
      BytesConcat(UnitText(s[..Unit(s)]), Quoted(s[Unit(s)..]));
    }
  }

  lemma BytesConcat(a: string, b: string)
    requires IsBytes(a) && IsBytes(b)
    ensures IsBytes(a + b)
  {
  }

  lemma DecimalBytes(n: nat)
    ensures IsBytes(Decimal(n))
  {
    var digits := Decimal(n);
    assert forall i :: 0 <= i < |digits| ==> Digit(digits[i]);
  }

  lemma StringBytes(s: string)
    requires IsBytes(s)
    ensures IsBytes(StringText(s))
  {
    QuotedBytes(s);
    BytesConcat([',', '"'], Quoted(s));
  }

  lemma IdentityBytes(platform: string, playerID: string)
    requires IsBytes(platform) && IsBytes(playerID)
    ensures IsBytes(IdentityText(platform, playerID))
  {
    StringBytes(platform);
    StringBytes(playerID);
    BytesConcat(StringText(playerID), [']']);
    BytesConcat(StringText(platform), StringText(playerID) + [']']);
  }

  lemma CursorBytes(cursor: Cursor)
    requires Issuable(cursor)
    ensures IsBytes(CursorText(cursor))
  {
    var digits, rest := Decimal(cursor.revision), IdentityText(cursor.platform, cursor.playerID);
    DecimalBytes(cursor.revision);
    IdentityBytes(cursor.platform, cursor.playerID);
    BytesConcat(digits, rest);
    BytesConcat(['['], digits + rest);
  }

  function EncodeBanWalkCursor(cursor: Cursor): (value: string)
    requires Issuable(cursor)
  {
    CursorBytes(cursor);
    Encode(Bytes(CursorText(cursor)))
  }

  function ParseBanWalkCursor(value: string): (cursor: Option<Cursor>) {
    match Decode(value)
    case None => None
    case Some(octets) => ReadCursor(FromBytes(octets))
  }

  /** Every cursor issued parses back to the revision and place it was issued for, so no two are
      written alike. */
  lemma IssuedParsesBack(cursor: Cursor)
    requires Issuable(cursor)
    ensures ParseBanWalkCursor(EncodeBanWalkCursor(cursor)) == Some(cursor)
  {
    CursorBytes(cursor);
    DecodeOfEncode(Bytes(CursorText(cursor)));
    FromBytesOfBytes(CursorText(cursor));
    ReadCursorBack(cursor);
  }

  lemma IssuedNotEmpty(cursor: Cursor)
    requires Issuable(cursor)
    ensures EncodeBanWalkCursor(cursor) != ""
  {
    CursorBytes(cursor);
    assert Bytes(CursorText(cursor)) != [];
  }

  // Printable ASCII that JSON writes as it is.
  predicate Plain(s: string) {
    forall i :: 0 <= i < |s| ==> ' ' <= s[i] <= '~' && s[i] !in {'"', '\\', '<', '>', '&'}
  }

  lemma {:induction false} PlainQuoted(s: string)
    requires Plain(s)
    ensures Quoted(s) == s + "\""
  {
    if s != "" {
      assert s[..1] == [s[0]];
      assert s == [s[0]] + s[1..];
      PlainQuoted(s[1..]);
    }
  }

  lemma PlainString(s: string)
    requires Plain(s)
    ensures StringText(s) == ",\"" + s + "\""
  {
    PlainQuoted(s);
  }

  lemma Regroup(a: string, b: string, c: string, d: string, e: string)
    ensures a + (b + (c + (d + e))) == a + b + c + d + e
  {
  }

  /** Of plain names a cursor is the array as one would write it. */
  lemma PlainCursor(cursor: Cursor)
    requires Plain(cursor.platform) && Plain(cursor.playerID)
    ensures CursorText(cursor) ==
            "[" + Decimal(cursor.revision) + (",\"" + cursor.platform + "\"") + (",\"" + cursor.playerID + "\"") + "]"
  {
    PlainString(cursor.platform);
    PlainString(cursor.playerID);
    Regroup("[", Decimal(cursor.revision), StringText(cursor.platform), StringText(cursor.playerID), "]");
  }
}
