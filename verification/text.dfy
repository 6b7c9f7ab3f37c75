/** The Python string operations the client relies on, over `seq<char>`:
    `str.strip(c)`, `sep.join(parts)`, `str.split(c)`, the `in` substring test,
    `str(n)` for integers and an approximation of what `int()` accepts. */
module Text {

  /** `n` copies of `c`. */
  function Repeat(c: char, n: nat): (r: string)
    ensures |r| == n
  {
    if n == 0 then "" else [c] + Repeat(c, n - 1)
  }

  lemma {:induction false} RepeatAdd(c: char, x: nat, y: nat)
    ensures Repeat(c, x) + Repeat(c, y) == Repeat(c, x + y)
    decreases x
  {
    if x > 0 {
      RepeatAdd(c, x - 1, y);
      assert Repeat(c, x) + Repeat(c, y) == [c] + (Repeat(c, x - 1) + Repeat(c, y));
    }
  }

  /** Neither starts nor ends with `c`: the shape `strip(c)` leaves behind. */
  predicate Unpadded(s: string, c: char) {
    |s| == 0 || (s[0] != c && s[|s| - 1] != c)
  }

  // ---------------------------------------------------------------------------
  // str.strip
  // ---------------------------------------------------------------------------

  /** Python's `s.lstrip(c)`: `s` is a run of `c` followed by the result,
      which does not itself start with `c`. */
  function StripLeft(s: string, c: char): (r: string)
    ensures |r| <= |s| && s == Repeat(c, |s| - |r|) + r
    ensures |r| > 0 ==> r[0] != c
    decreases |s|
  {
    if |s| > 0 && s[0] == c then
      var r := StripLeft(s[1..], c);
      Regroup([c], Repeat(c, |s| - 1 - |r|), r);
      assert s == [c] + s[1..];
      r
    else
      s
  }

  /** Python's `s.rstrip(c)`: `s` is the result followed by a run of `c`,
      and the result does not itself end with `c`. */
  function StripRight(s: string, c: char): (r: string)
    ensures |r| <= |s| && s == r + Repeat(c, |s| - |r|)
    ensures |r| > 0 ==> r[|r| - 1] != c
    decreases |s|
  {
    if |s| > 0 && s[|s| - 1] == c then
      var r := StripRight(s[..|s| - 1], c);
      RepeatAdd(c, |s| - 1 - |r|, 1);
      assert Repeat(c, 1) == [c];
      Regroup(r, Repeat(c, |s| - 1 - |r|), [c]);
      assert s == s[..|s| - 1] + [c];
      r
    else
      s
  }

  /** Python's `s.strip(c)` for a single character `c`. */
  function Strip(s: string, c: char): (r: string)
    ensures Unpadded(r, c)
    ensures |r| <= |s|
  {
    StripRight(StripLeft(s, c), c)
  }

  /** Every string is its stripped core padded with `c` on both sides. */
  lemma StripDecompose(s: string, c: char) returns (a: nat, b: nat)
    ensures s == Repeat(c, a) + Strip(s, c) + Repeat(c, b)
  {
    var left := StripLeft(s, c);
    var r := StripRight(left, c);
    a := |s| - |left|;
    b := |left| - |r|;
    assert s == Repeat(c, a) + (r + Repeat(c, b));
  }

  lemma {:induction false} StripLeftPadded(c: char, n: nat, x: string)
    requires |x| == 0 || x[0] != c
    ensures StripLeft(Repeat(c, n) + x, c) == x
    decreases n
  {
    if n == 0 {
      assert Repeat(c, n) + x == x;
    } else {
      var s := Repeat(c, n) + x;
      assert s == [c] + (Repeat(c, n - 1) + x);
      assert s[1..] == Repeat(c, n - 1) + x;
      StripLeftPadded(c, n - 1, x);
    }
  }

  lemma {:induction false} StripRightPadded(c: char, x: string, m: nat)
    requires |x| == 0 || x[|x| - 1] != c
    ensures StripRight(x + Repeat(c, m), c) == x
    decreases m
  {
    if m == 0 {
      assert x + Repeat(c, m) == x;
    } else {
      var s := x + Repeat(c, m);
      RepeatAdd(c, m - 1, 1);
      assert s == (x + Repeat(c, m - 1)) + [c];
      StripRightPadded(c, x, m - 1);
    }
  }

  /** `strip` recovers the core of any padded unpadded string: the
      independent characterisation of what `Strip` computes. */
  lemma {:induction false} StripPadded(c: char, n: nat, t: string, m: nat)
    requires Unpadded(t, c)
    ensures Strip(Repeat(c, n) + t + Repeat(c, m), c) == t
  {
    var s := Repeat(c, n) + t + Repeat(c, m);
    if t == "" {
      RepeatAdd(c, n, m);
      assert s == Repeat(c, n + m) + "";
      StripLeftPadded(c, n + m, "");
    } else {
      assert s == Repeat(c, n) + (t + Repeat(c, m));
      StripLeftPadded(c, n, t + Repeat(c, m));
      StripRightPadded(c, t, m);
    }
  }

  /** `lstrip` of `s + c` keeps that final `c` unless `s` was all `c`. */
  lemma {:induction false} StripLeftAppend(s: string, c: char)
    ensures StripLeft(s + [c], c) == if StripLeft(s, c) == "" then "" else StripLeft(s, c) + [c]
    decreases |s|
  {
    if |s| > 0 {
      assert (s + [c])[1..] == s[1..] + [c];
      StripLeftAppend(s[1..], c);
    }
  }

  /** One extra `c` in front is stripped away. */
  lemma StripIgnoresLeadingChar(s: string, c: char)
    ensures Strip([c] + s, c) == Strip(s, c)
  {
    assert ([c] + s)[1..] == s;
  }

  /** One extra `c` behind is stripped away. */
  lemma StripIgnoresTrailingChar(s: string, c: char)
    ensures Strip(s + [c], c) == Strip(s, c)
  {
    StripLeftAppend(s, c);
    var left := StripLeft(s, c);
    if left != "" {
      assert (left + [c])[..|left|] == left;
    }
  }

  /** Extra copies of `c` on either side never change the result of `strip`. */
  lemma StripIgnoresPadding(s: string, c: char, n: nat, m: nat)
    ensures Strip(Repeat(c, n) + s + Repeat(c, m), c) == Strip(s, c)
  {
    var x := s + Repeat(c, m);
    StripIgnoresLeading(x, c, n);
    StripIgnoresTrailing(s, c, m);
    Regroup(Repeat(c, n), s, Repeat(c, m));
  }

  lemma {:induction false} StripIgnoresLeading(s: string, c: char, n: nat)
    ensures Strip(Repeat(c, n) + s, c) == Strip(s, c)
    decreases n
  {
    if n > 0 {
      StripIgnoresLeading(s, c, n - 1);
      StripLeadingStep(s, c, n);
    } else {
      RepeatNone(c, s);
    }
  }

  lemma StripLeadingStep(s: string, c: char, n: nat)
    requires n > 0 && Strip(Repeat(c, n - 1) + s, c) == Strip(s, c)
    ensures Strip(Repeat(c, n) + s, c) == Strip(s, c)
  {
    RepeatCons(c, n, s);
    StripIgnoresLeadingChar(Repeat(c, n - 1) + s, c);
  }

  lemma {:induction false} StripIgnoresTrailing(s: string, c: char, m: nat)
    ensures Strip(s + Repeat(c, m), c) == Strip(s, c)
    decreases m
  {
    if m > 0 {
      StripIgnoresTrailing(s, c, m - 1);
      StripTrailingStep(s, c, m);
    } else {
      RepeatNone(c, s);
    }
  }

  lemma StripTrailingStep(s: string, c: char, m: nat)
    requires m > 0 && Strip(s + Repeat(c, m - 1), c) == Strip(s, c)
    ensures Strip(s + Repeat(c, m), c) == Strip(s, c)
  {
    RepeatSnoc(c, m, s);
    StripDropsLast(s + Repeat(c, m), s + Repeat(c, m - 1), c);
  }

  lemma StripDropsLast(t: string, u: string, c: char)
    requires t == u + [c]
    ensures Strip(t, c) == Strip(u, c)
  {
    StripIgnoresTrailingChar(u, c);
  }

  lemma RepeatCons(c: char, n: nat, s: string)
    requires n > 0
    ensures Repeat(c, n) + s == [c] + (Repeat(c, n - 1) + s)
  {
  }

  lemma RepeatSnoc(c: char, m: nat, s: string)
    requires m > 0
    ensures s + Repeat(c, m) == (s + Repeat(c, m - 1)) + [c]
  {
    RepeatAdd(c, m - 1, 1);
    assert Repeat(c, 1) == [c];
    Regroup(s, Repeat(c, m - 1), [c]);
  }

  lemma RepeatNone(c: char, s: string)
    ensures Repeat(c, 0) + s == s && s + Repeat(c, 0) == s
  {
  }

  // ---------------------------------------------------------------------------
  // str.join and str.split
  // ---------------------------------------------------------------------------

  /** Python's `sep.join(parts)`. */
  function Join(sep: string, parts: seq<string>): (r: string)
    ensures |parts| > 0 ==> parts[0] <= r
  {
    if |parts| == 0 then ""
    else if |parts| == 1 then parts[0]
    else parts[0] + sep + Join(sep, parts[1..])
  }

  lemma JoinPrependToHead(sep: string, h: string, parts: seq<string>)
    requires |parts| >= 1
    ensures Join(sep, [h + parts[0]] + parts[1..]) == h + Join(sep, parts)
  {
    var ps := [h + parts[0]] + parts[1..];
    if |parts| > 1 {
      assert ps[1..] == parts[1..];
    }
  }

  lemma {:induction false} JoinLast(sep: string, parts: seq<string>)
    requires |parts| >= 2
    ensures Join(sep, parts) == Join(sep, parts[..|parts| - 1]) + sep + parts[|parts| - 1]
    decreases |parts|
  {
    if |parts| > 2 {
      JoinLast(sep, parts[1..]);
      assert parts[1..][..|parts| - 2] == parts[..|parts| - 1][1..];
    }
  }

  /** Python's `s.count(c)` for a single character. */
  function Occurrences(s: string, c: char): nat
    decreases |s|
  {
    if |s| == 0 then 0 else (if s[0] == c then 1 else 0) + Occurrences(s[1..], c)
  }

  /** Python's `s.split(c)` for a single separator character: never empty,
      and no piece holds a separator. */
  function Split(s: string, c: char): (r: seq<string>)
    ensures |r| >= 1
    ensures forall i :: 0 <= i < |r| ==> c !in r[i]
    decreases |s|
  {
    if |s| == 0 then [""]
    else
      var rest := Split(s[1..], c);
      if s[0] == c then [""] + rest
      else [[s[0]] + rest[0]] + rest[1..]
  }

  /** A split has one piece more than there are separators. */
  lemma {:induction false} SplitCount(s: string, c: char)
    ensures |Split(s, c)| == Occurrences(s, c) + 1
    decreases |s|
  {
    if |s| > 0 {
      SplitCount(s[1..], c);
    }
  }

  /** Joining the pieces of a split gives back the original string. */
  lemma {:induction false} JoinSplit(s: string, c: char)
    ensures Join([c], Split(s, c)) == s
    decreases |s|
  {
    if |s| > 0 {
      JoinSplit(s[1..], c);
      var rest := Split(s[1..], c);
      assert s == [s[0]] + s[1..];
      if s[0] == c {
        assert ([""] + rest)[1..] == rest;
      } else {
        JoinPrependToHead([c], [s[0]], rest);
      }
    }
  }

  lemma {:induction false} SplitWithoutSeparator(p: string, c: char)
    requires c !in p
    ensures Split(p, c) == [p]
    decreases |p|
  {
    if |p| > 0 {
      assert p[1..] + [] == p[1..];
      SplitWithoutSeparator(p[1..], c);
      assert [p[0]] + p[1..] == p;
    }
  }

  /** Splitting at a separator splits each side independently. */
  lemma {:induction false} SplitAppend(x: string, c: char, t: string)
    ensures Split(x + [c] + t, c) == Split(x, c) + Split(t, c)
    decreases |x|
  {
    if |x| == 0 {
      SplitAppendEmpty(x, c, t);
    } else {
      SplitAppend(x[1..], c, t);
      SplitAppendStep(x, c, t);
    }
  }

  /** A separator-free token followed by the separator comes out as the
      first piece, ahead of the pieces of the rest. */
  lemma SplitFirst(a: string, c: char, t: string)
    requires c !in a
    ensures Split(a + [c] + t, c) == [a] + Split(t, c)
  {
    SplitAppend(a, c, t);
    SplitWithoutSeparator(a, c);
  }

  /** Two separator-free tokens, each followed by the separator, are the
      first two pieces, ahead of the pieces of the rest. */
  lemma SplitFirstTwo(a: string, b: string, c: char, t: string)
    requires c !in a && c !in b
    ensures Split(a + [c] + b + [c] + t, c) == [a, b] + Split(t, c)
  {
    var u := b + [c] + t;
    assert a + [c] + b + [c] + t == a + [c] + u;
    SplitFirst(a, c, u);
    SplitFirst(b, c, t);
  }

  /** The first piece of a separator-free token followed by nothing or by a
      separator is that token. */
  lemma SplitHead(a: string, c: char, rest: string)
    requires c !in a
    requires rest == [] || rest[0] == c
    ensures Split(a + rest, c)[0] == a
  {
    if rest == [] {
      assert a + rest == a;
      SplitWithoutSeparator(a, c);
    } else {
      assert a + rest == a + [c] + rest[1..];
      SplitFirst(a, c, rest[1..]);
    }
  }

  lemma SplitAppendEmpty(x: string, c: char, t: string)
    requires |x| == 0
    ensures Split(x + [c] + t, c) == Split(x, c) + Split(t, c)
  {
    var s := x + [c] + t;
    assert s[0] == c && s[1..] == t;
  }

  lemma SplitAppendStep(x: string, c: char, t: string)
    requires |x| > 0
    requires Split(x[1..] + [c] + t, c) == Split(x[1..], c) + Split(t, c)
    ensures Split(x + [c] + t, c) == Split(x, c) + Split(t, c)
  {
    var a, y := x[0], x[1..];
    assert x == [a] + y;
    assert x + [c] + t == [a] + (y + [c] + t);
    SplitCons(a, y, c);
    SplitCons(a, y + [c] + t, c);
    if a == c {
      Regroup([""], Split(y, c), Split(t, c));
    } else {
      ConsHeadAppend([a], Split(y, c), Split(t, c));
    }
  }

  /** One step of `Split`: a leading separator starts a new empty piece,
      any other leading character joins the first piece. */
  lemma SplitCons(a: char, y: string, c: char)
    ensures Split([a] + y, c) ==
      if a == c then [""] + Split(y, c) else [[a] + Split(y, c)[0]] + Split(y, c)[1..]
  {
    assert ([a] + y)[1..] == y;
  }

  lemma ConsHeadAppend(h: string, sx: seq<string>, st: seq<string>)
    requires |sx| >= 1
    ensures [h + (sx + st)[0]] + (sx + st)[1..] == ([h + sx[0]] + sx[1..]) + st
  {
    assert (sx + st)[1..] == sx[1..] + st;
  }

  lemma Regroup<T>(a: seq<T>, b: seq<T>, c: seq<T>)
    ensures a + (b + c) == (a + b) + c
  {
  }

  /** Split undoes Join when no part holds the separator. */
  lemma {:induction false} SplitJoin(parts: seq<string>, c: char)
    requires |parts| >= 1
    requires forall i :: 0 <= i < |parts| ==> c !in parts[i]
    ensures Split(Join([c], parts), c) == parts
    decreases |parts|
  {
    if |parts| == 1 {
      SplitWithoutSeparator(parts[0], c);
    } else {
      SplitJoin(parts[1..], c);
      SplitWithoutSeparator(parts[0], c);
      SplitAppend(parts[0], c, Join([c], parts[1..]));
      assert [parts[0]] + parts[1..] == parts;
    }
  }

  /** `s.split(c)[-1]`: the text after the last `c`, or all of `s` if there is none. */
  function LastToken(s: string, c: char): (r: string)
    ensures c !in r
    ensures |r| <= |s| && s[|s| - |r|..] == r
    ensures |r| == |s| || s[|s| - |r| - 1] == c
  {
    var parts := Split(s, c);
    var r := parts[|parts| - 1];
    JoinSplit(s, c);
    if |parts| >= 2 then
      JoinLast([c], parts);
      r
    else
      r
  }

  /** The last token of `prefix + c + t` is `t` whenever `t` holds no `c`. */
  lemma LastTokenAfterSeparator(prefix: string, c: char, t: string)
    requires c !in t
    ensures LastToken(prefix + [c] + t, c) == t
  {
    var s := prefix + [c] + t;
    var r := LastToken(s, c);
    assert s[|s| - |t|..] == t;
    assert s[|s| - |t| - 1] == c;
  }

  // ---------------------------------------------------------------------------
  // the `in` operator on strings
  // ---------------------------------------------------------------------------

  /** Python's `sub in s`. */
  function Contains(s: string, sub: string): (r: bool)
    ensures r ==> |sub| <= |s|
    ensures sub <= s ==> r
  {
    assert sub <= s ==> OccursAt(s, sub, 0);
    exists i | 0 <= i <= |s| - |sub| :: OccursAt(s, sub, i)
  }

  /** `sub` occurs in `s` starting at index `i`. */
  predicate OccursAt(s: string, sub: string, i: int) {
    0 <= i <= |s| - |sub| && s[i..i + |sub|] == sub
  }

  lemma ContainsSuffix(s: string, sub: string)
    ensures Contains(s + sub, sub)
  {
    var t := s + sub;
    assert OccursAt(t, sub, |s|);
  }

  // ---------------------------------------------------------------------------
  // integers as text
  // ---------------------------------------------------------------------------

  predicate IsDigit(ch: char) {
    '0' <= ch <= '9'
  }

  predicate AllDigits(t: string) {
    forall k :: 0 <= k < |t| ==> IsDigit(t[k])
  }

  /** What Python's `int(t)` accepts, approximated as an optional sign followed
      by one or more ASCII digits: every non-empty digit string is accepted,
      and an accepted literal is digits throughout except for a leading sign. */
  function IsIntLiteral(t: string): (r: bool)
    ensures |t| > 0 && AllDigits(t) ==> r
    ensures |t| > 1 && (t[0] == '+' || t[0] == '-') && AllDigits(t[1..]) ==> r
    ensures r ==> |t| > 0 && (IsDigit(t[0]) || t[0] == '+' || t[0] == '-') && IsDigit(t[|t| - 1])
    ensures r ==> forall k :: 0 < k < |t| ==> IsDigit(t[k])
  {
    var digits := if |t| > 0 && (t[0] == '+' || t[0] == '-') then t[1..] else t;
    assert |digits| > 0 && |digits| < |t| ==> digits[|digits| - 1] == t[|t| - 1];
    |digits| > 0 && AllDigits(digits)
  }

  /** The value `int(t)` gives for an accepted literal. */
  function IntValue(t: string): (n: int)
    requires IsIntLiteral(t)
    ensures n < 0 ==> t[0] == '-'
    ensures t[0] == '-' ==> n <= 0
  {
    if t[0] == '-' then -(DigitsValue(t[1..]) as int)
    else if t[0] == '+' then DigitsValue(t[1..])
    else DigitsValue(t)
  }

  /** The digit character for `d`: the one whose offset from `'0'` is `d`. */
  function DigitChar(d: nat): (ch: char)
    requires d < 10
    ensures IsDigit(ch) && ch as int - '0' as int == d
  {
    ('0' as int + d) as char
  }

  /** The numeric value of a string of decimal digits. */
  function DigitsValue(t: string): nat
    requires AllDigits(t)
  {
    if |t| == 0 then 0
    else DigitsValue(t[..|t| - 1]) * 10 + (t[|t| - 1] as int - '0' as int)
  }

  /** Python's `str(n)` for a non-negative integer. */
  function Decimal(n: nat): (r: string)
    ensures |r| > 0 && AllDigits(r)
    ensures n == 0 ==> r == "0"
    ensures n > 0 ==> r[0] != '0'
    decreases n
  {
    if n < 10 then [DigitChar(n)] else Decimal(n / 10) + [DigitChar(n % 10)]
  }

  /** Reading back the decimal text of `n` gives `n`. */
  lemma {:induction false} DecimalRoundTrip(n: nat)
    ensures DigitsValue(Decimal(n)) == n
    decreases n
  {
    var r := Decimal(n);
    if n >= 10 {
      DecimalRoundTrip(n / 10);
      assert r[..|r| - 1] == Decimal(n / 10);
    }
  }

  /** A digit string without a leading zero has a positive value. */
  lemma {:induction false} LeadingDigitPositive(t: string)
    requires |t| > 0 && AllDigits(t) && t[0] != '0'
    ensures DigitsValue(t) > 0
    decreases |t|
  {
    if |t| > 1 {
      var u := t[..|t| - 1];
      assert u[0] == t[0];
      LeadingDigitPositive(u);
    } else {
      assert t[..0] == "";
    }
  }

  /** Every digit string without a leading zero is the decimal text of its
      value: with `DecimalRoundTrip`, `Decimal` and `DigitsValue` are
      inverse bijections between the naturals and these strings. */
  lemma {:induction false} DecimalCanonical(t: string)
    requires |t| > 0 && AllDigits(t) && (t[0] != '0' || t == "0")
    ensures Decimal(DigitsValue(t)) == t
    decreases |t|
  {
    var last := t[|t| - 1];
    var d := last as int - '0' as int;
    if |t| == 1 {
      assert t[..0] == "";
      assert DigitsValue(t) == d;
      assert DigitChar(d) == last;
      assert t == [last];
    } else {
      var u := t[..|t| - 1];
      assert u[0] == t[0] && t[0] != '0';
      LeadingDigitPositive(u);
      DecimalCanonical(u);
      var n := DigitsValue(t);
      assert n == DigitsValue(u) * 10 + d;
      assert n / 10 == DigitsValue(u) && n % 10 == d;
      assert DigitChar(d) == last;
      assert t == u + [last];
    }
  }
}
