/** The byte order every range and cursor in the store relies on ("C" collation). */
module ByteOrder {
  import opened Text

  predicate Less(a: string, b: string) {
    b != "" && (a == "" || a[0] < b[0] || (a[0] == b[0] && Less(a[1..], b[1..])))
  }

  predicate AtMost(a: string, b: string) {
    a == b || Less(a, b)
  }

  lemma {:induction false} LessIrreflexive(a: string)
    ensures !Less(a, a)
  {
    if a != "" {
      LessIrreflexive(a[1..]);
    }
  }

  lemma {:induction false} LessTransitive(a: string, b: string, c: string)
    requires Less(a, b) && Less(b, c)
    ensures Less(a, c)
  {
    if a != "" && a[0] == b[0] == c[0] {
      LessTransitive(a[1..], b[1..], c[1..]);
    }
  }

  lemma {:induction false} LessTotal(a: string, b: string)
    ensures a == b || Less(a, b) || Less(b, a)
  {
    if a != "" && b != "" && a[0] == b[0] {
      LessTotal(a[1..], b[1..]);
      assert a == [a[0]] + a[1..] && b == [b[0]] + b[1..];
    }
  }

  /** A half-open byte range selects a prefix: raising the last byte of the lower bound by one
      gives an upper bound that admits the prefix and nothing else. */
  lemma {:induction false} RangeIsPrefix(s: string, stem: string, last: char, next: char)
    requires last as int + 1 == next as int
    ensures AtMost(stem + [last], s) && Less(s, stem + [next]) <==> HasPrefix(s, stem + [last])
  {
    var low, high := stem + [last], stem + [next];
    if stem == "" {
      if s != "" {
        assert low == [last] && high == [next] && low[1..] == "" && high[1..] == "";
        assert Less(low[1..], s[1..]) <==> s[1..] != "";
        assert Less(s[1..], high[1..]) == false;
        assert AtMost(low, s) <==> s == low || last < s[0] || (last == s[0] && s[1..] != "");
        assert Less(s, high) <==> s[0] < next;
        assert HasPrefix(s, low) <==> s[0] == last;
        assert s == [s[0]] + s[1..];
      }
    } else if s != "" {
      RangeIsPrefix(s[1..], stem[1..], last, next);
      assert low[1..] == stem[1..] + [last] && high[1..] == stem[1..] + [next];
      assert s == [s[0]] + s[1..] && low == [low[0]] + low[1..];
      assert low <= s <==> low[0] == s[0] && low[1..] <= s[1..];
      assert s == low <==> s[0] == low[0] && s[1..] == low[1..];
    }
  }
}
