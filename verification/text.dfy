/** String helpers from Go's standard library, used by the modelled code:
    decimal printing (`%d`, `%02d`), decimal parsing, and `strings.Split`. */
module Text {

  /** The ASCII digit for d. */
  function DigitChar(d: nat): (c: char)
    requires d < 10
    ensures '0' <= c <= '9'
    ensures c as int - '0' as int == d
  {
    ('0' as int + d) as char
  }

  predicate IsDigits(s: string)
  {
    forall i :: 0 <= i < |s| ==> '0' <= s[i] <= '9'
  }

  /** Decimal notation of n without leading zeros, as `%d` prints it. */
  function Decimal(n: nat): (s: string)
    ensures |s| >= 1 && IsDigits(s)
    ensures n < 10 <==> |s| == 1
  {
    if n < 10 then [DigitChar(n)] else Decimal(n / 10) + [DigitChar(n % 10)]
  }

  /** The number a string of decimal digits denotes. */
  function DigitsValue(s: string): nat
    requires IsDigits(s)
  {
    if s == [] then 0 else DigitsValue(s[..|s| - 1]) * 10 + (s[|s| - 1] as int - '0' as int)
  }

  /** Parsing what `Decimal` prints gives the number back. */
  lemma {:induction false} DecimalRoundTrip(n: nat)
    ensures DigitsValue(Decimal(n)) == n
  {
    if n >= 10 {
      var s := Decimal(n);
      assert s[..|s| - 1] == Decimal(n / 10);
      DecimalRoundTrip(n / 10);
    }
  }

  /** Distinct numbers print differently. */
  lemma DecimalInjective(a: nat, b: nat)
    ensures Decimal(a) == Decimal(b) <==> a == b
  {
    DecimalRoundTrip(a);
    DecimalRoundTrip(b);
  }

  /** `%02d`: at least two characters, zero padded; a negative number keeps
      its sign and needs no padding to reach the width. */
  function Pad2(n: int): string
  {
    if n < 0 then "-" + Decimal(-n)
    else if n < 10 then "0" + Decimal(n)
    else Decimal(n)
  }

  lemma Pad2TwoDigits(n: int)
    requires 0 <= n < 100
    ensures Pad2(n) == [DigitChar(n / 10), DigitChar(n % 10)]
  {
    if n >= 10 {
      assert Decimal(n / 10) == [DigitChar(n / 10)];
    }
  }

  /** `%02d:%02d:%02d`, the clock notation of a time of day. */
  function Clock(h: int, m: int, s: int): string
  {
    Pad2(h) + ":" + Pad2(m) + ":" + Pad2(s)
  }

  /** For fields below 100, the clock notation has eight characters and
      determines the three fields. */
  lemma ClockInjective(h: int, m: int, s: int, h': int, m': int, s': int)
    requires 0 <= h < 100 && 0 <= m < 100 && 0 <= s < 100
    requires 0 <= h' < 100 && 0 <= m' < 100 && 0 <= s' < 100
    ensures |Clock(h, m, s)| == 8
    ensures Clock(h, m, s) == Clock(h', m', s') <==> h == h' && m == m' && s == s'
  {
    Pad2TwoDigits(h); Pad2TwoDigits(m); Pad2TwoDigits(s);
    Pad2TwoDigits(h'); Pad2TwoDigits(m'); Pad2TwoDigits(s');
    var c, c' := Clock(h, m, s), Clock(h', m', s');
    if c == c' {
      assert c[0] == c'[0] && c[1] == c'[1] && c[3] == c'[3] && c[4] == c'[4] && c[6] == c'[6] && c[7] == c'[7];
      assert h == (h / 10) * 10 + h % 10 && h' == (h' / 10) * 10 + h' % 10;
      assert m == (m / 10) * 10 + m % 10 && m' == (m' / 10) * 10 + m' % 10;
      assert s == (s / 10) * 10 + s % 10 && s' == (s' / 10) * 10 + s' % 10;
    }
  }

  /** `strings.Split(s, sep)` for a one-character separator: the pieces
      between separators, in order; an empty s gives one empty piece. */
  function Split(s: string, sep: char): (parts: seq<string>)
    ensures |parts| >= 1
  {
    if s == [] then [[]]
    else
      var rest := Split(s[1..], sep);
      if s[0] == sep then [[]] + rest
      else [[s[0]] + rest[0]] + rest[1..]
  }

  /** `strings.Join(parts, sep)`. */
  function Join(parts: seq<string>, sep: char): string
    requires |parts| >= 1
  {
    if |parts| == 1 then parts[0] else parts[0] + [sep] + Join(parts[1..], sep)
  }

  /** Split yields one piece more than there are separators, and no piece
      holds a separator. */
  lemma {:induction false} SplitShape(s: string, sep: char)
    ensures |Split(s, sep)| == multiset(s)[sep] + 1
    ensures forall k :: 0 <= k < |Split(s, sep)| ==> sep !in Split(s, sep)[k]
  {
    if s != [] {
      SplitShape(s[1..], sep);
      assert s == [s[0]] + s[1..];
      assert multiset(s) == multiset([s[0]]) + multiset(s[1..]);
    }
  }

  /** Joining the pieces with the separator gives back the split string. */
  lemma {:induction false} JoinSplit(s: string, sep: char)
    ensures Join(Split(s, sep), sep) == s
  {
    if s != [] {
      var rest := Split(s[1..], sep);
      JoinSplit(s[1..], sep);
      if s[0] == sep {
        assert Split(s, sep) == [[]] + rest;
        assert Join(Split(s, sep), sep) == [] + [sep] + Join(rest, sep);
      } else if |rest| > 1 {
        assert Join(rest, sep) == rest[0] + [sep] + Join(rest[1..], sep);
        assert Split(s, sep)[1..] == rest[1..];
      }
    }
  }

  lemma {:induction false} SplitNoSeparator(s: string, sep: char)
    requires sep !in s
    ensures Split(s, sep) == [s]
  {
    if s != [] {
      SplitNoSeparator(s[1..], sep);
      assert [s[0]] + s[1..] == s;
    }
  }

  lemma {:induction false} SplitAfterPiece(a: string, sep: char, b: string)
    requires sep !in a
    ensures Split(a + [sep] + b, sep) == [a] + Split(b, sep)
  {
    if a != [] {
      assert (a + [sep] + b)[1..] == a[1..] + [sep] + b;
      SplitAfterPiece(a[1..], sep, b);
      assert [a[0]] + a[1..] == a;
    } else {
      assert (a + [sep] + b)[1..] == b;
    }
  }

  /** Splitting a join of separator-free pieces gives back the pieces. */
  lemma {:induction false} SplitJoin(parts: seq<string>, sep: char)
    requires |parts| >= 1
    requires forall k :: 0 <= k < |parts| ==> sep !in parts[k]
    ensures Split(Join(parts, sep), sep) == parts
  {
    if |parts| == 1 {
      SplitNoSeparator(parts[0], sep);
    } else {
      SplitJoin(parts[1..], sep);
      SplitAfterPiece(parts[0], sep, Join(parts[1..], sep));
      assert [parts[0]] + parts[1..] == parts;
    }
  }

  /** A string as Go's `%q` prints it, for strings that need no escaping
      (no quote, backslash or unprintable character). */
  function GoQuote(s: string): (q: string)
    ensures |q| == |s| + 2 && q[0] == '"' && q[|q| - 1] == '"' && q[1..|q| - 1] == s
  {
    "\"" + s + "\""
  }

  /** The quoted elements separated by ", ", as inside a Go composite literal. */
  function QuotedList(xs: seq<string>): string
  {
    if xs == [] then "" else if |xs| == 1 then GoQuote(xs[0]) else GoQuote(xs[0]) + ", " + QuotedList(xs[1..])
  }

  /** A `[]string` as Go's `%#v` prints it: `[]string(nil)` for a nil slice,
      which is the only empty one here, and otherwise a composite literal
      of the quoted elements. */
  function GoSliceSyntax(xs: seq<string>): (r: string)
    ensures xs == [] <==> r == "[]string(nil)"
    ensures |r| >= 10 && r[..8] == "[]string"
    ensures xs != [] ==> r[..9] == "[]string{" && r[|r| - 1] == '}'
  {
    if xs == [] then "[]string(nil)"
    else
      var r := "[]string{" + QuotedList(xs) + "}";
      // The literal differs from the nil rendering at its ninth character.
      assert r[8] == '{' != "[]string(nil)"[8];
      r
  }

  /** The rendering the flag tests expect for the values "a", "b" and "c". */
  lemma GoSliceSyntaxExample()
    ensures GoSliceSyntax(Split("a,b,c", ',')) == "[]string{\"a\", \"b\", \"c\"}"
  {
  }
}
