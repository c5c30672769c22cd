/** Unpadded base64url, section 5 of RFC 4648, as Go's base64.RawURLEncoding reads and writes it. */
module Base64url {
  import opened Wrappers

  // Octets and six-bit groups, most significant bit pair first.
  type Pair = n: nat | n < 4
  datatype Octet = Octet(a: Pair, b: Pair, c: Pair, d: Pair)
  datatype Sextet = Sextet(a: Pair, b: Pair, c: Pair)

  function OctetOf(n: nat): (o: Octet)
    requires n < 256
    ensures 16 * (4 * o.a + o.b) + (4 * o.c + o.d) == n
  {
    var high, low := n / 16, n % 16;
    Octet(high / 4, high % 4, low / 4, low % 4)
  }

  function OctetNumber(o: Octet): (n: nat)
    ensures n < 256 && OctetOf(n) == o
  {
    var high, low := 4 * o.a + o.b, 4 * o.c + o.d;
    assert (16 * high + low) / 16 == high && (16 * high + low) % 16 == low;
    16 * high + low
  }

  function SextetOf(n: nat): (s: Sextet)
    requires n < 64
    ensures 16 * s.a + 4 * s.b + s.c == n
  {
    Sextet(n / 16, n % 16 / 4, n % 4)
  }

  function SextetNumber(s: Sextet): (n: nat)
    ensures n < 64 && SextetOf(n) == s
  {
    var low := 4 * s.b + s.c;
    assert (16 * s.a + low) / 16 == s.a && (16 * s.a + low) % 16 == low;
    16 * s.a + low
  }

  // Table 2 of RFC 4648.
  function Symbol(s: Sextet): (c: char)
    ensures c != '\n' && c != '\r'
  {
    SymbolOf(SextetNumber(s))
  }

  function SymbolOf(n: nat): (c: char)
    requires n < 64
    ensures c != '\n' && c != '\r'
  {
    if n < 26 then (65 + n) as char
    else if n < 52 then (71 + n) as char
    else if n < 62 then (n - 4) as char
    else if n == 62 then '-'
    else '_'
  }

  function NumberOf(c: char): (n: Option<nat>)
    ensures n.Some? ==> n.value < 64 && SymbolOf(n.value) == c
  {
    var code := c as int;
    if 65 <= code < 91 then Some(code - 65)
    else if 97 <= code < 123 then Some(code - 71)
    else if 48 <= code < 58 then Some(code + 4)
    else if c == '-' then Some(62)
    else if c == '_' then Some(63)
    else None
  }

  function Value(c: char): (s: Option<Sextet>)
    ensures s.Some? ==> Symbol(s.value) == c
  {
    var n := NumberOf(c);
    if n.None? then None
    else
      var s := SextetOf(n.value);
      assert SextetNumber(s) == n.value;
      Some(s)
  }

  lemma ValueOfSymbol(s: Sextet)
    ensures Value(Symbol(s)) == Some(s)
  {
    NumberOfSymbol(SextetNumber(s));
  }

  lemma NumberOfSymbol(n: nat)
    requires n < 64
    ensures NumberOf(SymbolOf(n)) == Some(n)
  {
  }

  // Three octets make four groups; one or two left over make two or three, filled up with zeros.
  function Groups(octets: seq<Octet>): (groups: seq<Sextet>) {
    if octets == [] then []
    else
      var x := octets[0];
      if |octets| == 1 then [Sextet(x.a, x.b, x.c), Sextet(x.d, 0, 0)]
      else
        var y := octets[1];
        if |octets| == 2 then [Sextet(x.a, x.b, x.c), Sextet(x.d, y.a, y.b), Sextet(y.c, y.d, 0)]
        else
          var z := octets[2];
          [Sextet(x.a, x.b, x.c), Sextet(x.d, y.a, y.b), Sextet(y.c, y.d, z.a), Sextet(z.b, z.c, z.d)] + Groups(octets[3..])
  }

  // A lone last group is no octet at all; the spare bits of a short last quantum are dropped.
  function Octets(groups: seq<Sextet>): (octets: Option<seq<Octet>>) {
    if groups == [] then Some([])
    else if |groups| == 1 then None
    else
      var p, q := groups[0], groups[1];
      if |groups| == 2 then Some([Octet(p.a, p.b, p.c, q.a)])
      else
        var r := groups[2];
        if |groups| == 3 then Some([Octet(p.a, p.b, p.c, q.a), Octet(q.b, q.c, r.a, r.b)])
        else
          var s := groups[3];
          match Octets(groups[4..])
          case None => None
          case Some(rest) =>
            Some([Octet(p.a, p.b, p.c, q.a), Octet(q.b, q.c, r.a, r.b), Octet(r.c, s.a, s.b, s.c)] + rest)
  }

  lemma {:induction false} OctetsOfGroups(octets: seq<Octet>)
    ensures Octets(Groups(octets)) == Some(octets)
  {
    if |octets| > 2 {
      OctetsOfGroups(octets[3..]);
      assert Groups(octets)[4..] == Groups(octets[3..]);
      assert octets == [octets[0], octets[1], octets[2]] + octets[3..];
    } else if |octets| == 2 {
      var x, y := octets[0], octets[1];
      var groups := Groups(octets);
      assert groups == [Sextet(x.a, x.b, x.c), Sextet(x.d, y.a, y.b), Sextet(y.c, y.d, 0)];
      assert Octets(groups) == Some([x, y]);
      assert octets == [x, y];
    } else if |octets| == 1 {
      assert octets == [octets[0]];
    }
  }

  // The spare bits of a short last quantum are zero.
  predicate ZeroPadded(groups: seq<Sextet>) {
    if |groups| > 3 then ZeroPadded(groups[4..])
    else if |groups| == 3 then groups[2].c == 0
    else if |groups| == 2 then groups[1].b == 0 && groups[1].c == 0
    else true
  }

  lemma {:induction false} GroupsOfOctets(groups: seq<Sextet>)
    requires Octets(groups).Some?
    ensures Groups(Octets(groups).value) == groups <==> ZeroPadded(groups)
  {
    if |groups| > 3 {
      GroupsOfOctets(groups[4..]);
      FirstQuantum(groups);
    } else if |groups| == 3 {
      assert groups == [groups[0], groups[1], groups[2]];
    } else if |groups| == 2 {
      assert groups == [groups[0], groups[1]];
    }
  }

  lemma FirstQuantum(groups: seq<Sextet>)
    requires |groups| > 3 && Octets(groups).Some?
    ensures Octets(groups[4..]).Some?
    ensures Groups(Octets(groups).value) == groups <==> Groups(Octets(groups[4..]).value) == groups[4..]
  {
    var rest := Octets(groups[4..]).value;
    var octets := Octets(groups).value;
    assert octets[3..] == rest && |octets| >= 3;
    assert Groups(octets) == [groups[0], groups[1], groups[2], groups[3]] + Groups(rest);
    assert groups == [groups[0], groups[1], groups[2], groups[3]] + groups[4..];
    assert Groups(octets)[4..] == Groups(rest);
  }

  function Symbols(groups: seq<Sextet>): (text: string)
    ensures |text| == |groups| && forall i :: 0 <= i < |groups| ==> text[i] == Symbol(groups[i])
  {
    seq(|groups|, i requires 0 <= i < |groups| => Symbol(groups[i]))
  }

  function Values(text: string): (groups: Option<seq<Sextet>>)
    ensures groups.Some? ==> Symbols(groups.value) == text
  {
    if text == "" then Some([])
    else
      var first, rest := Value(text[0]), Values(text[1..]);
      if first.None? || rest.None? then None else Some([first.value] + rest.value)
  }

  lemma {:induction false} ValuesOfSymbols(groups: seq<Sextet>)
    ensures Values(Symbols(groups)) == Some(groups)
  {
    if groups != [] {
      var text := Symbols(groups);
      ValuesOfSymbols(groups[1..]);
      ValueOfSymbol(groups[0]);
      assert text[1..] == Symbols(groups[1..]) && text[0] == Symbol(groups[0]);
      assert groups == [groups[0]] + groups[1..];
    }
  }

  // Go's decoder passes over line ends wherever they stand.
  function SkipLineEnds(text: string): (rest: string)
    ensures '\n' !in rest && '\r' !in rest
    ensures '\n' !in text && '\r' !in text ==> rest == text
    ensures |rest| == |text| <==> '\n' !in text && '\r' !in text
    ensures |rest| <= |text|
  {
    if text == "" then ""
    else (if text[0] == '\n' || text[0] == '\r' then "" else [text[0]]) + SkipLineEnds(text[1..])
  }

  function Encode(octets: seq<Octet>): (text: string) {
    Symbols(Groups(octets))
  }

  function Decode(text: string): (octets: Option<seq<Octet>>) {
    var groups := Values(SkipLineEnds(text));
    if groups.None? then None else Octets(groups.value)
  }

  lemma NoLineEnds(groups: seq<Sextet>)
    ensures SkipLineEnds(Symbols(groups)) == Symbols(groups)
  {
    forall i | 0 <= i < |groups| ensures Symbols(groups)[i] != '\n' && Symbols(groups)[i] != '\r' {
      assert Symbols(groups)[i] == Symbol(groups[i]);
    }
  }

  /** What is encoded decodes to itself. */
  lemma DecodeOfEncode(octets: seq<Octet>)
    ensures Decode(Encode(octets)) == Some(octets)
  {
    NoLineEnds(Groups(octets));
    ValuesOfSymbols(Groups(octets));
    OctetsOfGroups(octets);
  }

  // A text with no line end whose last quantum's spare bits are zero.
  predicate Canonical(text: string) {
    && '\n' !in text && '\r' !in text
    && Values(text).Some? && ZeroPadded(Values(text).value)
  }

  /** A text that decodes is the encoding of what it decodes to exactly when it is canonical. */
  lemma EncodeOfDecode(text: string)
    requires Decode(text).Some?
    ensures Encode(Decode(text).value) == text <==> Canonical(text)
  {
    var groups := Values(SkipLineEnds(text)).value;
    var octets := Octets(groups).value;
    GroupsOfOctets(groups);
    NoLineEnds(Groups(octets));
    if Encode(octets) == text {
      ValuesOfSymbols(Groups(octets));
    }
  }

  const UPPER := "ABCDEFGHIJKLMNOPQRSTUVWXYZ"
  const LOWER := "abcdefghijklmnopqrstuvwxyz"
  const DIGITS := "0123456789"
  const ALPHABET := UPPER + LOWER + DIGITS + "-_"

  lemma RunsAre()
    ensures forall i :: 0 <= i < |UPPER| ==> UPPER[i] as int == 65 + i
    ensures forall i :: 0 <= i < |LOWER| ==> LOWER[i] as int == 97 + i
    ensures forall i :: 0 <= i < |DIGITS| ==> DIGITS[i] as int == 48 + i
  {
  }

  /** The alphabet, Table 2 of RFC 4648. */
  lemma AlphabetIs(n: nat)
    requires n < 64
    ensures |ALPHABET| == 64 && SymbolOf(n) == ALPHABET[n]
  {
    RunsAre();
    assert ALPHABET[n] == if n < 26 then UPPER[n] else if n < 52 then LOWER[n - 26] else if n < 62 then DIGITS[n - 52] else "-_"[n - 62];
  }

  /** A group of three pairs is the symbol of the number they make. */
  lemma SymbolIs(a: Pair, b: Pair, c: Pair)
    ensures |ALPHABET| == 64 && Symbol(Sextet(a, b, c)) == ALPHABET[16 * a + 4 * b + c]
  {
    AlphabetIs(SextetNumber(Sextet(a, b, c)));
  }

  /** One, two and three octets are cut into sixes from the most significant bits down. */
  lemma QuantaAre(x: Octet, y: Octet, z: Octet)
    ensures Encode([x]) == [Symbol(Sextet(x.a, x.b, x.c)), Symbol(Sextet(x.d, 0, 0))]
    ensures Encode([x, y]) == [Symbol(Sextet(x.a, x.b, x.c)), Symbol(Sextet(x.d, y.a, y.b)), Symbol(Sextet(y.c, y.d, 0))]
    ensures Encode([x, y, z]) ==
            [Symbol(Sextet(x.a, x.b, x.c)), Symbol(Sextet(x.d, y.a, y.b)), Symbol(Sextet(y.c, y.d, z.a)), Symbol(Sextet(z.b, z.c, z.d))]
  {
    assert [x, y, z][3..] == [] && Groups([]) == [];
  }

  /** And what follows three octets is encoded after them. */
  lemma EncodesByQuanta(octets: seq<Octet>)
    requires |octets| >= 3
    ensures Encode(octets) == Encode(octets[..3]) + Encode(octets[3..])
  {
    assert Groups(octets[..3][3..]) == [];
  }
}
