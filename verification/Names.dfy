/** The identifier grammars: dotted names drawn from letters, digits, `_` and `-`. KV names,
    redaction paths, event types and scope patterns are four spellings of one alphabet. */
module Names {
  import opened Text

  const MAX_EVENT_TYPE := 128
  const MAX_SCOPE_PATTERN := 128
  const MAX_REDACT_PATH := 128
  const MAX_NAMESPACE := 64

  predicate IdentifierChar(c: char) {
    'a' <= c <= 'z' || 'A' <= c <= 'Z' || '0' <= c <= '9' || c == '_' || c == '-'
  }

  predicate Segment(s: string) {
    s != "" && forall c :: c in s ==> IdentifierChar(c)
  }

  /** The grammar of section 12.1 of the protocol specification (spec/protocol.md): non-empty segments separated by dots. */
  predicate DottedName(s: string) {
    forall segment :: segment in Split(s, '.') ==> Segment(segment)
  }

  /** hub/kv.go: one pass with a running segment length, no splitting. */
  method ValidKVName(value: string, maxLength: nat) returns (ok: bool)
    ensures ok <==> |value| <= maxLength && DottedName(value)
  {
    EmptyIsNoName();
    if value == "" || |value| > maxLength {
      return false;
    }
    var segmentLength := 0;
    for i := 0 to |value|
      invariant OpenName(value[..i], segmentLength)
    {
      var c := value[i];
      assert value[..i + 1] == value[..i] + [c];
      assert value == value[..i] + [c] + value[i + 1..];
      if IdentifierChar(c) {
        OpenNameStep(value[..i], segmentLength, c);
        segmentLength := segmentLength + 1;
      } else if c == '.' {
        if segmentLength == 0 {
          EmptySegmentStays(value[..i], value[i + 1..]);
          return false;
        }
        OpenNameStep(value[..i], segmentLength, c);
        segmentLength := 0;
      } else {
        BadCharacterStays(value[..i], c, value[i + 1..]);
        return false;
      }
    }
    assert value[..|value|] == value;
    OpenNameDone(value, segmentLength);
    return segmentLength > 0;
  }

  lemma EmptyIsNoName()
    ensures !DottedName("")
  {
    assert Split("", '.') == [""];
    assert "" in Split("", '.');
    assert !Segment("");
  }

  // Every finished segment is good, and the open one has `segmentLength` good characters.
  ghost predicate OpenName(s: string, segmentLength: nat) {
    var parts := Split(s, '.');
    && |parts[|parts| - 1]| == segmentLength
    && (forall c :: c in parts[|parts| - 1] ==> IdentifierChar(c))
    && (forall segment :: segment in parts[..|parts| - 1] ==> Segment(segment))
  }

  lemma OpenNameStep(s: string, segmentLength: nat, c: char)
    requires OpenName(s, segmentLength)
    requires IdentifierChar(c) || (c == '.' && segmentLength > 0)
    ensures OpenName(s + [c], if c == '.' then 0 else segmentLength + 1)
  {
    SplitSnoc(s, c, '.');
    var parts := Split(s, '.');
    var next := Split(s + [c], '.');
    if c == '.' {
      assert next[..|next| - 1] == parts == parts[..|parts| - 1] + [parts[|parts| - 1]];
    } else {
      assert next[..|next| - 1] == parts[..|parts| - 1];
    }
  }

  lemma OpenNameDone(s: string, segmentLength: nat)
    requires OpenName(s, segmentLength)
    ensures DottedName(s) <==> segmentLength > 0
  {
    var parts := Split(s, '.');
    assert parts == parts[..|parts| - 1] + [parts[|parts| - 1]];
    assert parts[|parts| - 1] in parts;
    assert segmentLength > 0 ==> Segment(parts[|parts| - 1]);
  }

  // A dot after an empty segment spoils the name, whatever follows.
  lemma EmptySegmentStays(s: string, rest: string)
    requires OpenName(s, 0)
    ensures !DottedName(s + ['.'] + rest)
  {
    SplitConcat(s, rest, '.');
    var parts := Split(s, '.');
    assert parts[|parts| - 1] == "" && "" in Split(s + ['.'] + rest, '.');
    assert !Segment("");
  }

  // A character outside the alphabet spoils the name, wherever it stands.
  lemma {:induction false} BadCharacterStays(s: string, c: char, rest: string)
    requires !IdentifierChar(c) && c != '.'
    ensures !DottedName(s + [c] + rest)
  {
    var whole := s + [c] + rest;
    assert whole[|s|] == c && c in whole;
    SplitChars(whole);
    var part :| part in Split(whole, '.') && c in part;
    assert !Segment(part);
  }

  lemma {:induction false} DottedNameChars(s: string)
    requires DottedName(s)
    ensures s != ""
    ensures forall c :: c in s ==> IdentifierChar(c) || c == '.'
  {
    EmptyIsNoName();
    SplitChars(s);
  }

  lemma {:induction false} SplitChars(s: string)
    ensures forall c :: c in s && c != '.' ==> exists part :: part in Split(s, '.') && c in part
  {
    forall c | c in s && c != '.' ensures exists part :: part in Split(s, '.') && c in part {
      var parts := Split(s, '.');
      if c == s[0] {
        assert parts[0] in parts && c in parts[0];
      } else {
        SplitChars(s[1..]);
        assert c in s[1..];
        var part :| part in Split(s[1..], '.') && c in part;
        var i :| 0 <= i < |Split(s[1..], '.')| && Split(s[1..], '.')[i] == part;
        assert c in parts[if s[0] == '.' then i + 1 else i];
      }
    }
  }

  /** hub/webhooks.go: the same grammar, decided by splitting. */
  predicate ValidRedactPath(path: string) {
    path != "" && |path| <= MAX_REDACT_PATH && DottedName(path)
  }

  /** hub/events.go: a dotted name with a namespace in front of it. */
  predicate ValidEventType(t: string) {
    t != "" && |t| <= MAX_EVENT_TYPE && |Split(t, '.')| >= 2 && DottedName(t)
  }

  /** hub/scope.go: `*`, a `{prefix}.*` namespace, or an exact identifier. */
  predicate ValidScopePattern(pattern: string) {
    || pattern == "*"
    || (&& |pattern| <= MAX_SCOPE_PATTERN
        && !(HasSuffix(pattern, ".*") && TrimSuffix(pattern, ".*") == "")
        && !(!HasSuffix(pattern, ".*") && '*' in pattern)
        && DottedName(TrimSuffix(pattern, ".*")))
  }

  // The loop the three splitting validators share.
  method CheckSegments(segments: seq<string>) returns (ok: bool)
    ensures ok <==> forall segment :: segment in segments ==> Segment(segment)
  {
    for k := 0 to |segments|
      invariant forall j :: 0 <= j < k ==> Segment(segments[j])
    {
      var segment := segments[k];
      assert segment in segments;
      if segment == "" {
        return false;
      }
      for i := 0 to |segment|
        invariant forall j :: 0 <= j < i ==> IdentifierChar(segment[j])
      {
        if !IdentifierChar(segment[i]) {
          assert segment[i] in segment;
          return false;
        }
      }
    }
    ok := true;
  }

  method CheckRedactPath(path: string) returns (ok: bool)
    ensures ok <==> ValidRedactPath(path)
  {
    if path == "" || |path| > MAX_REDACT_PATH {
      return false;
    }
    ok := CheckSegments(Split(path, '.'));
  }

  method CheckEventType(t: string) returns (ok: bool)
    ensures ok <==> ValidEventType(t)
  {
    if t == "" || |t| > MAX_EVENT_TYPE {
      return false;
    }
    var segments := Split(t, '.');
    if |segments| < 2 {
      return false;
    }
    ok := CheckSegments(segments);
  }

  method CheckScopePattern(pattern: string) returns (ok: bool)
    ensures ok <==> ValidScopePattern(pattern)
  {
    if pattern == "*" {
      return true;
    }
    if |pattern| > MAX_SCOPE_PATTERN {
      return false;
    }
    var isPrefix, literal := HasSuffix(pattern, ".*"), TrimSuffix(pattern, ".*");
    if (isPrefix && literal == "") || (!isPrefix && '*' in pattern) {
      return false;
    }
    ok := CheckSegments(Split(literal, '.'));
  }

  lemma SegmentExtends(stem: string, tail: string)
    requires DottedName(stem) && Segment(tail)
    ensures DottedName(stem + "." + tail)
  {
    assert '.' !in tail;
    SplitWithout(tail, '.');
    SplitConcat(stem, tail, '.');
  }

  // A pattern that names one value: neither the catch-all nor a namespace.
  predicate ExactPattern(pattern: string) {
    pattern != "" && pattern != "*" && !HasSuffix(pattern, ".*")
  }

  lemma DottedNameIsExact(s: string)
    requires DottedName(s)
    ensures ExactPattern(s) && '*' !in s
  {
    DottedNameChars(s);
    assert '*' !in s;
    assert ".*"[1] == '*';
  }

  /** Every legal event type, and every legal KV namespace, is a legal exact scope pattern: no
      value a grant is meant to name falls outside the grammar of grants. */
  lemma LegalValuesAreExactPatterns(s: string)
    requires ValidEventType(s) || (|s| <= MAX_NAMESPACE && DottedName(s))
    ensures ValidScopePattern(s) && ExactPattern(s)
  {
    DottedNameIsExact(s);
  }

  /** The grammars differ only in their caps and in whether a namespace is required: a
      redaction path is exactly what the one-pass scanner accepts at 128 characters, and an
      event type is exactly that with a dot in it. */
  lemma OneGrammar(s: string)
    ensures ValidRedactPath(s) <==> |s| <= 128 && DottedName(s)
    ensures ValidEventType(s) <==> |s| <= 128 && DottedName(s) && '.' in s
  {
    EmptyIsNoName();
    if '.' in s {
      var i :| 0 <= i < |s| && s[i] == '.';
      assert s == s[..i] + ['.'] + s[i + 1..];
      SplitConcat(s[..i], s[i + 1..], '.');
    } else {
      SplitWithout(s, '.');
    }
  }

  /** A scope pattern is the catch-all, a dotted name, or one followed by `.*`, within the length. */
  lemma ScopePatternMeans(pattern: string)
    ensures ValidScopePattern(pattern) <==>
            pattern == "*" || (|pattern| <= 128 && (DottedName(pattern) || exists stem :: DottedName(stem) && pattern == stem + ".*"))
  {
    if DottedName(pattern) {
      DottedNameIsExact(pattern);
    }
    if HasSuffix(pattern, ".*") {
      var stem := TrimSuffix(pattern, ".*");
      assert pattern == stem + ".*";
      EmptyIsNoName();
    }
    if stem :| DottedName(stem) && pattern == stem + ".*" {
      assert HasSuffix(pattern, ".*") && TrimSuffix(pattern, ".*") == stem;
      EmptyIsNoName();
    }
  }

  /** The characters of a name. */
  lemma AlphabetIs(c: char)
    ensures IdentifierChar(c) <==>
            c in "ABCDEFGHIJKLMNOPQRSTUVWXYZ" || c in "abcdefghijklmnopqrstuvwxyz" || c in "0123456789" || c in "_-"
  {
    Letters('A', "ABCDEFGHIJKLMNOPQRSTUVWXYZ", c);
    Letters('a', "abcdefghijklmnopqrstuvwxyz", c);
    Letters('0', "0123456789", c);
  }

  lemma Letters(first: char, run: string, c: char)
    requires forall i :: 0 <= i < |run| ==> run[i] as int == first as int + i
    ensures c in run <==> first <= c && (c as int) < first as int + |run|
  {
    if first <= c && (c as int) < first as int + |run| {
      assert run[c as int - first as int] == c;
    }
  }
}
