/** The string operations the bot relies on: Rust's `str::split`, `str::trim`,
    `str::contains`, `join`, the decimal `Display` of integers and the ordering of `String`. */
module Text {

  import opened Wrappers

  // ---------------------------------------------------------------- whitespace and trim

  /** Rust's `char::is_whitespace`: the Unicode White_Space property. */
  predicate IsWhitespace(c: char) {
    ('\t' <= c <= '\r') || c == ' ' || c == '\U{0085}' || c == '\U{00A0}' || c == '\U{1680}'
    || ('\U{2000}' <= c <= '\U{200A}') || c == '\U{2028}' || c == '\U{2029}' || c == '\U{202F}'
    || c == '\U{205F}' || c == '\U{3000}'
  }

  predicate AllWhitespace(s: string) {
    forall i :: 0 <= i < |s| ==> IsWhitespace(s[i])
  }

  /** How many whitespace characters `trim_start` drops. */
  function LeadingSpace(s: string): (k: nat)
    ensures k <= |s| && AllWhitespace(s[..k])
    ensures k == |s| || !IsWhitespace(s[k])
    decreases |s|
  {
    if s != [] && IsWhitespace(s[0]) then
      var k := LeadingSpace(s[1..]);
      assert s[..k + 1] == [s[0]] + s[1..][..k];
      k + 1
    else 0
  }

  /** How many characters `trim_end` keeps. */
  function KeptBeforeSpace(s: string): (k: nat)
    ensures k <= |s| && AllWhitespace(s[k..])
    ensures k == 0 || !IsWhitespace(s[k - 1])
    decreases |s|
  {
    if s != [] && IsWhitespace(s[|s| - 1]) then
      var k := KeptBeforeSpace(s[..|s| - 1]);
      assert s[k..] == s[..|s| - 1][k..] + [s[|s| - 1]];
      k
    else |s|
  }

  /** `trim_start`: drops the leading whitespace and nothing else. */
  function TrimStart(s: string): string {
    s[LeadingSpace(s)..]
  }

  /** `trim_end`: drops the trailing whitespace and nothing else. */
  function TrimEnd(s: string): string {
    s[..KeptBeforeSpace(s)]
  }

  /** `trim`: the infix `s[i..j]` left after dropping whitespace at both ends. */
  function Trim(s: string): string {
    TrimEnd(TrimStart(s))
  }

  /** What `trim` keeps: a contiguous piece of the input, framed only by whitespace, with
      no whitespace at either of its ends. */
  lemma {:induction false} TrimIsInfix(s: string)
    ensures var r := Trim(s); var i := LeadingSpace(s);
      i + |r| <= |s| && s[i..i + |r|] == r
      && AllWhitespace(s[..i]) && AllWhitespace(s[i + |r|..])
      && (r == [] || (!IsWhitespace(r[0]) && !IsWhitespace(r[|r| - 1])))
  {
    var i := LeadingSpace(s);
    var k := KeptBeforeSpace(s[i..]);
    Framed(s, i, k);
  }

  /** The piece `s[i..][..k]` between a whitespace prefix of length `i` and a whitespace
      suffix, when neither boundary character is whitespace. */
  lemma Framed(s: string, i: nat, k: nat)
    requires i <= |s| && AllWhitespace(s[..i]) && (i == |s| || !IsWhitespace(s[i]))
    requires k <= |s| - i && AllWhitespace(s[i..][k..]) && (k == 0 || !IsWhitespace(s[i..][k - 1]))
    ensures var r := s[i..][..k];
      i + |r| <= |s| && s[i..i + |r|] == r
      && AllWhitespace(s[..i]) && AllWhitespace(s[i + |r|..])
      && (r == [] || (!IsWhitespace(r[0]) && !IsWhitespace(r[|r| - 1])))
  {
    var t := s[i..];
    var r := t[..k];
    assert s[i..i + k] == r;
    assert s[i + k..] == t[k..];
    if k > 0 {
      assert r[0] == s[i] && r[k - 1] == t[k - 1];
    }
  }

  /** A word without surrounding whitespace is left as it is. */
  lemma TrimKeepsBareWord(s: string)
    requires s == [] || (!IsWhitespace(s[0]) && !IsWhitespace(s[|s| - 1]))
    ensures Trim(s) == s
  {
  }

  // ---------------------------------------------------------------- split and join

  /** `ss.join(sep)`. */
  function Join(ss: seq<string>, sep: string): string
    decreases |ss|
  {
    if ss == [] then "" else if |ss| == 1 then ss[0] else ss[0] + sep + Join(ss[1..], sep)
  }

  lemma JoinPrepend(x: string, y: string, t: seq<string>, sep: string)
    ensures Join([x + y] + t, sep) == x + Join([y] + t, sep)
  {
    assert ([x + y] + t)[1..] == t;
    assert ([y] + t)[1..] == t;
  }

  /** The number of occurrences of `c` in `s`. */
  function Count(s: string, c: char): nat
    decreases |s|
  {
    if s == [] then 0 else (if s[0] == c then 1 else 0) + Count(s[1..], c)
  }

  /** `s.split(sep)` for a one-character separator: the pieces between separators, an empty
      piece wherever two separators touch or one stands at either end, and `[""]` for `""`. */
  function Split(s: string, sep: char): (r: seq<string>)
    ensures |r| == Count(s, sep) + 1
    ensures forall i :: 0 <= i < |r| ==> sep !in r[i]
    ensures Join(r, [sep]) == s
    decreases |s|
  {
    if s == [] then [""]
    else
      var rest := Split(s[1..], sep);
      if s[0] == sep then
        assert ([""] + rest)[1..] == rest;
        [""] + rest
      else
        assert Join([[s[0]] + rest[0]] + rest[1..], [sep]) == [s[0]] + Join([rest[0]] + rest[1..], [sep]) by {
          JoinPrepend([s[0]], rest[0], rest[1..], [sep]);
        }
        assert [rest[0]] + rest[1..] == rest;
        [[s[0]] + rest[0]] + rest[1..]
  }

  /** Splitting undoes joining when no piece contains the separator. */
  lemma {:induction false} SplitJoin(ss: seq<string>, sep: char)
    requires |ss| >= 1
    requires forall i :: 0 <= i < |ss| ==> sep !in ss[i]
    ensures Split(Join(ss, [sep]), sep) == ss
    decreases |ss|, |ss[0]|
  {
    if |ss[0]| > 0 {
      var c := ss[0][0];
      var tail := [ss[0][1..]] + ss[1..];
      assert [c] + ss[0][1..] == ss[0];
      JoinPrepend([c], ss[0][1..], ss[1..], [sep]);
      assert [ss[0]] + ss[1..] == ss;
      assert tail[0] == ss[0][1..];
      assert forall i :: 1 <= i < |tail| ==> tail[i] == ss[i];
      SplitJoin(tail, sep);
      var j := Join(ss, [sep]);
      assert j == [c] + Join(tail, [sep]);
      assert j[1..] == Join(tail, [sep]);
      assert j[0] == c && c != sep;
      assert tail[1..] == ss[1..];
    } else if |ss| > 1 {
      SplitJoin(ss[1..], sep);
      var j := Join(ss, [sep]);
      assert j == [sep] + Join(ss[1..], [sep]);
      assert j[1..] == Join(ss[1..], [sep]);
      assert [""] + ss[1..] == ss;
    }
  }

  // ---------------------------------------------------------------- substring search

  /** `s.contains(p)` for a string pattern. */
  predicate Contains(s: string, p: string)
    decreases |s|
  {
    |p| <= |s| && (s[..|p|] == p || Contains(s[1..], p))
  }

  /** The pattern `p` occurs in `s` starting at position `i`. */
  predicate OccursAt(s: string, p: string, i: nat) {
    i + |p| <= |s| && s[i..i + |p|] == p
  }

  /** `Contains` finds exactly the positions where the pattern occurs. */
  lemma {:induction false} ContainsIff(s: string, p: string)
    ensures Contains(s, p) <==> exists i: nat :: OccursAt(s, p, i)
    decreases |s|
  {
    if |p| <= |s| {
      if s[..|p|] != p {
        ContainsIff(s[1..], p);
        if exists i: nat :: OccursAt(s, p, i) {
          var i: nat :| OccursAt(s, p, i);
          assert i > 0;
          assert s[1..][i - 1..i - 1 + |p|] == s[i..i + |p|];
          assert OccursAt(s[1..], p, i - 1);
        }
        if Contains(s[1..], p) {
          var i: nat :| OccursAt(s[1..], p, i);
          assert s[i + 1..i + 1 + |p|] == s[1..][i..i + |p|];
          assert OccursAt(s, p, i + 1);
        }
      } else {
        assert OccursAt(s, p, 0);
      }
    } else {
      forall i: nat ensures !OccursAt(s, p, i) { }
    }
  }

  /** A pattern occurring at position `i` is found. */
  lemma ContainsAt(s: string, p: string, i: nat)
    requires OccursAt(s, p, i)
    ensures Contains(s, p)
  {
    ContainsIff(s, p);
  }

  // ---------------------------------------------------------------- decimal numerals

  predicate IsDigit(c: char) {
    '0' <= c <= '9'
  }

  function DigitChar(d: nat): (c: char)
    requires d < 10
    ensures IsDigit(c) && (c as int) - ('0' as int) == d
  {
    (('0' as int) + d) as char
  }

  function DigitValue(c: char): (d: nat)
    requires IsDigit(c)
    ensures d < 10 && DigitChar(d) == c
  {
    (c as int) - ('0' as int)
  }

  /** The decimal numeral of a natural number, without leading zeros. */
  function NatDigits(n: nat): (r: string)
    ensures |r| >= 1
    ensures forall i :: 0 <= i < |r| ==> IsDigit(r[i])
    ensures r[0] == '0' ==> n == 0
    decreases n
  {
    if n < 10 then [DigitChar(n)] else NatDigits(n / 10) + [DigitChar(n % 10)]
  }

  /** The value of a (possibly empty) string of decimal digits. */
  function ParseDigits(s: string): nat
    requires forall i :: 0 <= i < |s| ==> IsDigit(s[i])
    decreases |s|
  {
    if s == [] then 0 else ParseDigits(s[..|s| - 1]) * 10 + DigitValue(s[|s| - 1])
  }

  lemma {:induction false} ParseNatDigits(n: nat)
    ensures ParseDigits(NatDigits(n)) == n
    decreases n
  {
    if n >= 10 {
      var r := NatDigits(n);
      var p := NatDigits(n / 10);
      assert r[..|r| - 1] == p && r[|r| - 1] == DigitChar(n % 10);
      ParseNatDigits(n / 10);
    }
  }

  /** `i64`'s `Display`: an optional minus sign followed by the digits. */
  function Decimal(n: int): string {
    if n < 0 then "-" + NatDigits(-n) else NatDigits(n)
  }

  /** Reading a numeral back: `str::parse::<i64>` restricted to what `Decimal` prints. */
  function ParseDecimal(s: string): (r: Option<int>) {
    if s == [] then None
    else if s[0] == '-' then
      if |s| >= 2 && forall i :: 1 <= i < |s| ==> IsDigit(s[i]) then
        var magnitude: int := ParseDigits(s[1..]);
        Some(-magnitude)
      else None
    else if forall i :: 0 <= i < |s| ==> IsDigit(s[i]) then Some(ParseDigits(s)) else None
  }

  lemma {:induction false} NumeralRoundTrip(n: nat)
    ensures ParseDecimal(NatDigits(n)) == Some(n)
  {
    ParseNatDigits(n);
    var d := NatDigits(n);
    assert IsDigit(d[0]);
  }

  lemma {:induction false} NegativeRoundTrip(n: int)
    requires n < 0
    ensures ParseDecimal("-" + NatDigits(-n)) == Some(n)
  {
    ParseNatDigits(-n);
    SignedParse(NatDigits(-n));
  }

  /** A minus sign followed by digits reads back as the negated digits. */
  lemma SignedParse(m: string)
    requires |m| >= 1 && forall i :: 0 <= i < |m| ==> IsDigit(m[i])
    ensures ParseDecimal("-" + m) == Some(-(ParseDigits(m) as int))
  {
    var d := "-" + m;
    assert d[0] == '-' && d[1..] == m;
    forall i | 1 <= i < |d| ensures IsDigit(d[i]) {
      assert d[i] == m[i - 1];
    }
  }

  lemma {:induction false} DecimalRoundTrip(n: int)
    ensures ParseDecimal(Decimal(n)) == Some(n)
  {
    if n < 0 {
      NegativeRoundTrip(n);
    } else {
      NumeralRoundTrip(n);
    }
  }

  lemma {:induction false} DecimalInjective(a: int, b: int)
    requires Decimal(a) == Decimal(b)
    ensures a == b
  {
    DecimalRoundTrip(a);
    DecimalRoundTrip(b);
  }

  /** The longest prefix of decimal digits. */
  function LeadingDigits(s: string): (r: string)
    ensures |r| <= |s| && r == s[..|r|]
    ensures forall i :: 0 <= i < |r| ==> IsDigit(r[i])
    decreases |s|
  {
    if s != [] && IsDigit(s[0]) then [s[0]] + LeadingDigits(s[1..]) else ""
  }

  /** The leading digits of a numeral followed by a non-digit are the numeral. */
  lemma {:induction false} LeadingDigitsOfNumeral(d: string, t: string)
    requires forall i :: 0 <= i < |d| ==> IsDigit(d[i])
    requires t == [] || !IsDigit(t[0])
    ensures LeadingDigits(d + t) == d
    decreases |d|
  {
    if d != [] {
      assert (d + t)[1..] == d[1..] + t;
      LeadingDigitsOfNumeral(d[1..], t);
      assert [d[0]] + d[1..] == d;
    } else {
      assert d + t == t;
    }
  }

  /** A natural number's numeral followed by a non-digit: the leading digits are the
      numeral, they read back as the number, and what follows them is left as it was. */
  lemma NumeralThen(n: nat, g: string, t: string)
    requires g != [] && !IsDigit(g[0])
    ensures var v := NatDigits(n) + g + t;
      && IsDigit(v[0]) && LeadingDigits(v) == NatDigits(n)
      && ParseDigits(LeadingDigits(v)) == n && g <= v[|NatDigits(n)|..]
  {
    var v := NatDigits(n) + g + t;
    assert v == NatDigits(n) + (g + t);
    LeadingDigitsOfNumeral(NatDigits(n), g + t);
    ParseNatDigits(n);
    assert v[|NatDigits(n)|..] == g + t;
  }

  // ---------------------------------------------------------------- ordering of strings

  /** `String`'s `Ord`: lexicographic by code point (UTF-8 byte order agrees with it). */
  predicate LexLess(a: string, b: string)
    decreases |a|
  {
    if a == [] then b != []
    else if b == [] then false
    else if a[0] != b[0] then a[0] < b[0]
    else LexLess(a[1..], b[1..])
  }

  lemma {:induction false} LexIrreflexive(a: string)
    ensures !LexLess(a, a)
    decreases |a|
  {
    if a != [] {
      LexIrreflexive(a[1..]);
    }
  }

  lemma {:induction false} LexTotal(a: string, b: string)
    requires a != b
    ensures LexLess(a, b) || LexLess(b, a)
    decreases |a|
  {
    if a != [] && b != [] && a[0] == b[0] {
      assert a == [a[0]] + a[1..] && b == [b[0]] + b[1..];
      LexTotal(a[1..], b[1..]);
    }
  }

  lemma {:induction false} LexAsymmetric(a: string, b: string)
    requires LexLess(a, b)
    ensures !LexLess(b, a)
    decreases |a|
  {
    if a != [] && b != [] && a[0] == b[0] {
      LexAsymmetric(a[1..], b[1..]);
    }
  }

  lemma {:induction false} LexTransitive(a: string, b: string, c: string)
    requires LexLess(a, b) && LexLess(b, c)
    ensures LexLess(a, c)
    decreases |a|
  {
    if a != [] && b != [] && c != [] && a[0] == b[0] && b[0] == c[0] {
      LexTransitive(a[1..], b[1..], c[1..]);
    }
  }
}
