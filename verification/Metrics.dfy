/** The evaluation metrics: Python's whitespace strip and split, per-example scores, aggregation. */
module Metrics {
  import opened Types

  // ----- strings ------------------------------------------------------------------------------------

  /** The characters `str.strip` and `str.split` treat as whitespace. */
  predicate Space(c: char) {
    || '\t' <= c <= '\r' || '\U{1C}' <= c <= ' ' || c == '\U{85}' || c == '\U{A0}' || c == '\U{1680}'
    || '\U{2000}' <= c <= '\U{200A}' || c == '\U{2028}' || c == '\U{2029}' || c == '\U{202F}'
    || c == '\U{205F}' || c == '\U{3000}'
  }

  /** They are these 29. */
  lemma SpaceIs(c: char)
    ensures Space(c) <==> (c in "\t\n\U{0B}\U{0C}\r\U{1C}\U{1D}\U{1E}\U{1F} \U{85}\U{A0}\U{1680}\U{2000}\U{2001}\U{2002}\U{2003}\U{2004}"
      || c in "\U{2005}\U{2006}\U{2007}\U{2008}\U{2009}\U{200A}\U{2028}\U{2029}\U{202F}\U{205F}\U{3000}")
  {
  }

  predicate Blank(s: string) {
    forall i :: 0 <= i < |s| ==> Space(s[i])
  }

  predicate Solid(s: string) {
    s != "" && forall i :: 0 <= i < |s| ==> !Space(s[i])
  }

  function StripLeft(s: string): string {
    if s != "" && Space(s[0]) then StripLeft(s[1..]) else s
  }

  function StripRight(s: string): string {
    if s != "" && Space(s[|s| - 1]) then StripRight(s[..|s| - 1]) else s
  }

  function Strip(s: string): string {
    StripRight(StripLeft(s))
  }

  /** The length of the word `s` begins with. */
  function Word(s: string): (n: nat)
    ensures n <= |s| && (n < |s| ==> Space(s[n])) && forall i :: 0 <= i < n ==> !Space(s[i])
  {
    if s == "" || Space(s[0]) then 0 else 1 + Word(s[1..])
  }

  function Split(s: string): (tokens: seq<string>)
    ensures forall i :: 0 <= i < |tokens| ==> Solid(tokens[i])
    decreases |s|
  {
    if s == "" then []
    else if Space(s[0]) then Split(s[1..])
    else [s[..Word(s)]] + Split(s[Word(s)..])
  }

  lemma {:induction false} WordUnique(s: string, n: nat)
    requires n <= |s| && (n < |s| ==> Space(s[n])) && forall i :: 0 <= i < n ==> !Space(s[i])
    ensures Word(s) == n
  {
    if n > 0 {
      WordUnique(s[1..], n - 1);
    }
  }

  /** Stripping takes whitespace only, off both ends, and all of it. */
  lemma {:induction false} StripLeftTakes(s: string) returns (before: string)
    ensures s == before + StripLeft(s) && Blank(before)
    ensures StripLeft(s) != "" ==> !Space(StripLeft(s)[0])
  {
    before := "";
    if s != "" && Space(s[0]) {
      var rest := StripLeftTakes(s[1..]);
      before := [s[0]] + rest;
      assert s == [s[0]] + s[1..];
    }
  }

  lemma {:induction false} StripRightTakes(s: string) returns (after: string)
    ensures s == StripRight(s) + after && Blank(after)
    ensures StripRight(s) != "" ==> !Space(StripRight(s)[|StripRight(s)| - 1])
  {
    after := "";
    if s != "" && Space(s[|s| - 1]) {
      var rest := StripRightTakes(s[..|s| - 1]);
      after := rest + [s[|s| - 1]];
      assert s == s[..|s| - 1] + [s[|s| - 1]];
    }
  }

  lemma {:induction false} SplitBlankBefore(before: string, s: string)
    requires Blank(before)
    ensures Split(before + s) == Split(s)
  {
    if before == "" {
      assert before + s == s;
    } else {
      SplitBlankBefore(before[1..], s);
      assert (before + s)[1..] == before[1..] + s;
    }
  }

  lemma {:induction false} SplitBlankAfter(s: string, after: string)
    requires Blank(after)
    ensures Split(s + after) == Split(s)
    decreases |s|
  {
    if s == "" {
      SplitBlankBefore(after, "");
      assert s + after == after + "";
    } else if Space(s[0]) {
      SplitBlankAfter(s[1..], after);
      assert (s + after)[1..] == s[1..] + after;
    } else {
      var n := Word(s);
      WordUnique(s + after, n);
      SplitBlankAfter(s[n..], after);
      assert (s + after)[n..] == s[n..] + after && (s + after)[..n] == s[..n];
    }
  }

  // ----- what stripping and splitting mean ------------------------------------------------------------

  lemma {:induction false} StripLeftBlank(before: string, s: string)
    requires Blank(before)
    ensures StripLeft(before + s) == StripLeft(s)
  {
    if before == "" {
      assert before + s == s;
    } else {
      StripLeftBlank(before[1..], s);
      assert (before + s)[1..] == before[1..] + s;
    }
  }

  lemma {:induction false} StripRightBlank(s: string, after: string)
    requires Blank(after)
    ensures StripRight(s + after) == StripRight(s)
  {
    if after == "" {
      assert s + after == s;
    } else {
      var n := |after| - 1;
      StripRightBlank(s, after[..n]);
      assert (s + after)[..|s + after| - 1] == s + after[..n];
    }
  }

  lemma BlankStrips(s: string)
    requires Blank(s)
    ensures Strip(s) == ""
  {
    StripLeftBlank(s, "");
    assert s + "" == s;
  }

  /** Whitespace around a string does not survive stripping. */
  lemma StripIgnores(before: string, s: string, after: string)
    requires Blank(before) && Blank(after)
    ensures Strip(before + s + after) == Strip(s)
  {
    assert before + s + after == before + (s + after);
    StripLeftBlank(before, s + after);
    var lead := StripLeftTakes(s);
    var core := StripLeft(s);
    assert s + after == lead + (core + after);
    StripLeftBlank(lead, core + after);
    if core == "" {
      assert core + after == after;
      BlankStrips(after);
    } else {
      assert StripLeft(core + after) == core + after;
      StripRightBlank(core, after);
    }
  }

  /** The same text up to whitespace at the ends. */
  ghost predicate SameCore(p: string, e: string) {
    exists s, a, b, c, d :: Blank(a) && Blank(b) && Blank(c) && Blank(d) && p == a + s + b && e == c + s + d
  }

  lemma StripDecomposes(p: string) returns (a: string, b: string)
    ensures Blank(a) && Blank(b) && p == a + Strip(p) + b
  {
    a := StripLeftTakes(p);
    b := StripRightTakes(StripLeft(p));
  }

  /** What an exact match means: 1 if prediction and expectation share a core, else 0. */
  lemma ExactMatchIff(prediction: Option<string>, expected: Option<string>)
    ensures ExactMatch(prediction, expected) == if SameCore(Text(prediction), Text(expected)) then 1.0 else 0.0
  {
    var p, e := Text(prediction), Text(expected);
    if SameCore(p, e) {
      var s, a, b, c, d :| Blank(a) && Blank(b) && Blank(c) && Blank(d) && p == a + s + b && e == c + s + d;
      StripIgnores(a, s, b);
      StripIgnores(c, s, d);
    }
    if Strip(p) == Strip(e) {
      var a, b := StripDecomposes(p);
      var c, d := StripDecomposes(e);
      assert SameCore(p, e);
    }
  }

  /** A word is its own only token. */
  lemma SplitOfWord(s: string)
    requires Solid(s)
    ensures Split(s) == [s]
  {
    WordUnique(s, |s|);
    assert s[..|s|] == s && s[|s|..] == "";
  }

  lemma WordLonger(a: string, rest: string)
    requires a != "" && !Space(a[0]) && rest != "" && Space(rest[0])
    ensures var n := Word(a); 1 <= n <= |a| && Word(a + rest) == n && (a + rest)[n..] == a[n..] + rest && (a + rest)[..n] == a[..n]
  {
    WordUnique(a + rest, Word(a));
  }

  lemma {:induction false} SplitBefore(a: string, rest: string)
    requires rest != "" && Space(rest[0])
    ensures Split(a + rest) == Split(a) + Split(rest)
    decreases |a|
  {
    if a == "" {
      assert a + rest == rest;
    } else if Space(a[0]) {
      SplitBefore(a[1..], rest);
      assert (a + rest)[1..] == a[1..] + rest;
    } else {
      WordLonger(a, rest);
      SplitBefore(a[Word(a)..], rest);
    }
  }

  /** A whitespace character separates. */
  lemma SplitAtSpace(a: string, c: char, b: string)
    requires Space(c)
    ensures Split(a + [c] + b) == Split(a) + Split(b)
  {
    assert a + [c] + b == a + ([c] + b);
    SplitBefore(a, [c] + b);
    assert ([c] + b)[1..] == b;
  }

  /** Joining puts one space between tokens. */
  lemma {:induction false} JoinAdds(a: seq<string>, b: seq<string>)
    requires a != [] && b != []
    ensures Join(a + b) == Join(a) + " " + Join(b)
  {
    if |a| > 1 {
      JoinAdds(a[1..], b);
      assert (a + b)[1..] == a[1..] + b;
      assert a[0] + " " + (Join(a[1..]) + " " + Join(b)) == a[0] + " " + Join(a[1..]) + " " + Join(b);
    } else {
      assert (a + b)[1..] == b;
    }
  }

  /** Stripping does not change the tokens. */
  lemma SplitOfStrip(s: string)
    ensures Split(Strip(s)) == Split(s)
  {
    var before := StripLeftTakes(s);
    var after := StripRightTakes(StripLeft(s));
    SplitBlankBefore(before, StripLeft(s));
    SplitBlankAfter(Strip(s), after);
  }

  /** `" ".join(tokens)`. */
  function Join(tokens: seq<string>): string {
    if tokens == [] then ""
    else if |tokens| == 1 then tokens[0]
    else tokens[0] + " " + Join(tokens[1..])
  }

  /** Splitting undoes joining. */
  lemma {:induction false} SplitOfJoin(tokens: seq<string>)
    requires forall i :: 0 <= i < |tokens| ==> Solid(tokens[i])
    ensures Split(Join(tokens)) == tokens
  {
    if tokens != [] {
      var t, rest := tokens[0], if |tokens| == 1 then "" else " " + Join(tokens[1..]);
      var s := Join(tokens);
      assert s == t + rest;
      WordUnique(s, |t|);
      assert s[..|t|] == t && s[|t|..] == rest;
      if |tokens| > 1 {
        SplitOfJoin(tokens[1..]);
        assert rest[1..] == Join(tokens[1..]);
        assert tokens == [t] + tokens[1..];
      }
    }
  }

  // ----- scores of one example ----------------------------------------------------------------------

  /** A null string counts as the empty one. */
  function Text(s: Option<string>): (r: string)
    ensures s.Some? ==> r == s.value
    ensures s.None? ==> r == ""
  {
    match s
    case Some(t) => t
    case None => ""
  }

  function ExactMatch(prediction: Option<string>, expected: Option<string>): real {
    if Strip(Text(prediction)) == Strip(Text(expected)) then 1.0 else 0.0
  }

  function Matches(a: seq<string>, b: seq<string>): (n: nat)
    ensures n <= |a| && n <= |b|
  {
    if a == [] || b == [] then 0 else (if a[0] == b[0] then 1 else 0) + Matches(a[1..], b[1..])
  }

  function TokenAccuracy(prediction: Option<string>, expected: Option<string>): real {
    var p, e := Split(Text(prediction)), Split(Text(expected));
    var most := if |p| > |e| then |p| else |e|;
    if most == 0 then 1.0 else Matches(p, e) as real / most as real
  }

  lemma {:induction false} AllMatchIffEqual(a: seq<string>, b: seq<string>)
    ensures Matches(a, b) == |a| == |b| <==> a == b
  {
    if a != [] && b != [] {
      AllMatchIffEqual(a[1..], b[1..]);
      assert a == [a[0]] + a[1..] && b == [b[0]] + b[1..];
    }
  }

  ghost function Agreeing(a: seq<string>, b: seq<string>): set<int> {
    set i | 0 <= i < |a| && i < |b| && a[i] == b[i]
  }

  lemma AgreeingFirst(a: seq<string>, b: seq<string>)
    requires a != [] && b != []
    ensures |Agreeing(a, b)| == |Agreeing(a[1..], b[1..])| + if a[0] == b[0] then 1 else 0
  {
    var rest, moved := Agreeing(a[1..], b[1..]), Agreeing(a, b) - {0};
    forall i ensures i in moved <==> i - 1 in rest {
      if 1 <= i < |a| && i < |b| {
        assert a[i] == a[1..][i - 1] && b[i] == b[1..][i - 1];
      }
    }
    Shifted(rest, moved);
    assert Agreeing(a, b) == if a[0] == b[0] then moved + {0} else moved;
  }

  ghost function AnyOf<T>(s: set<T>): (x: T)
    requires s != {}
    ensures x in s
  {
    var x :| x in s;
    x
  }

  lemma {:induction false} Shifted(s: set<int>, t: set<int>)
    requires forall i :: i in t <==> i - 1 in s
    ensures |t| == |s|
    decreases |s|
  {
    if |s| == 0 {
      assert forall i :: i !in t;
      assert t == {};
    } else {
      var x := AnyOf(s);
      assert x + 1 in t;
      Shifted(s - {x}, t - {x + 1});
    }
  }

  /** The matches are the positions at which the two lists agree. */
  lemma {:induction false} MatchesCounted(a: seq<string>, b: seq<string>)
    ensures Matches(a, b) == |Agreeing(a, b)|
  {
    if a != [] && b != [] {
      MatchesCounted(a[1..], b[1..]);
      AgreeingFirst(a, b);
    } else {
      assert Agreeing(a, b) == {};
    }
  }

  /** Token accuracy is a fraction, and 1 exactly when the tokens agree. */
  lemma TokenAccuracyIsFraction(prediction: Option<string>, expected: Option<string>)
    ensures 0.0 <= TokenAccuracy(prediction, expected) <= 1.0
    ensures TokenAccuracy(prediction, expected) == 1.0 <==> Split(Text(prediction)) == Split(Text(expected))
  {
    var p, e := Split(Text(prediction)), Split(Text(expected));
    var most := if |p| > |e| then |p| else |e|;
    AllMatchIffEqual(p, e);
    if most > 0 {
      FractionBounds(Matches(p, e), most);
    }
  }

  /** Token accuracy is the share of positions that agree, of the longer list's length; 1 without tokens. */
  lemma TokenAccuracyCounts(prediction: Option<string>, expected: Option<string>)
    ensures var p, e := Split(Text(prediction)), Split(Text(expected));
            && (p == e == [] ==> TokenAccuracy(prediction, expected) == 1.0)
            && (|p| >= |e| && p != [] ==> TokenAccuracy(prediction, expected) == |Agreeing(p, e)| as real / |p| as real)
            && (|e| >= |p| && e != [] ==> TokenAccuracy(prediction, expected) == |Agreeing(p, e)| as real / |e| as real)
  {
    MatchesCounted(Split(Text(prediction)), Split(Text(expected)));
  }

  lemma FractionBounds(n: nat, d: nat)
    requires n <= d && d > 0
    ensures 0.0 <= n as real / d as real <= 1.0
    ensures n as real / d as real == 1.0 <==> n == d
  {
    var q := n as real / d as real;
    assert q * d as real == n as real;
    assert q < 0.0 ==> q * d as real < 0.0;
    assert q > 1.0 ==> (q - 1.0) * d as real > 0.0;
  }

  /** An exact match is never scored below its token accuracy's reach. */
  lemma ExactWithinTokens(prediction: Option<string>, expected: Option<string>)
    ensures ExactMatch(prediction, expected) <= TokenAccuracy(prediction, expected)
  {
    TokenAccuracyIsFraction(prediction, expected);
    SplitOfStrip(Text(prediction));
    SplitOfStrip(Text(expected));
  }

  // ----- percentiles ------------------------------------------------------------------------------------

  function InsertReal(x: real, s: seq<real>): seq<real> {
    if s == [] || x <= s[0] then [x] + s else [s[0]] + InsertReal(x, s[1..])
  }

  function Sorted(s: seq<real>): seq<real> {
    if s == [] then [] else InsertReal(s[0], Sorted(s[1..]))
  }

  predicate Ascending(s: seq<real>) {
    forall i, k :: 0 <= i <= k < |s| ==> s[i] <= s[k]
  }

  lemma {:induction false} InsertRealContents(x: real, s: seq<real>)
    ensures multiset(InsertReal(x, s)) == multiset(s) + multiset{x}
  {
    if s != [] && x > s[0] {
      InsertRealContents(x, s[1..]);
      assert s == [s[0]] + s[1..];
    }
  }

  lemma AscendingCons(x: real, s: seq<real>)
    requires Ascending(s) && forall i :: 0 <= i < |s| ==> x <= s[i]
    ensures Ascending([x] + s)
  {
  }

  lemma {:induction false} InsertRealAscending(x: real, s: seq<real>)
    requires Ascending(s)
    ensures Ascending(InsertReal(x, s))
  {
    if s != [] && x > s[0] {
      InsertRealAscending(x, s[1..]);
      InsertRealContents(x, s[1..]);
      var r := InsertReal(x, s[1..]);
      forall i | 0 <= i < |r| ensures s[0] <= r[i] {
        assert r[i] in multiset(r);
        assert r[i] == x || r[i] in s[1..];
      }
      AscendingCons(s[0], r);
    }
  }

  lemma {:induction false} SortedIsSorted(s: seq<real>)
    ensures Ascending(Sorted(s)) && multiset(Sorted(s)) == multiset(s) && |Sorted(s)| == |s|
  {
    if s != [] {
      SortedIsSorted(s[1..]);
      InsertRealAscending(s[0], Sorted(s[1..]));
      InsertRealContents(s[0], Sorted(s[1..]));
      assert s == [s[0]] + s[1..];
      assert |multiset(Sorted(s))| == |multiset(s)|;
    }
  }

  /** Linear interpolation of an ascending list at a fractional position. */
  function At(s: seq<real>, rank: real): real
    requires s != [] && 0.0 <= rank <= (|s| - 1) as real
  {
    var low := rank.Floor;
    var high := if low + 1 < |s| then low + 1 else |s| - 1;
    s[low] + (s[high] - s[low]) * (rank - low as real)
  }

  /** Where percentile `p` falls in an ascending list of `n`. */
  function Rank(p: real, n: nat): (r: real)
    requires 0.0 <= p <= 100.0 && n >= 1
    ensures 0.0 <= r <= (n - 1) as real
  {
    p / 100.0 * (n - 1) as real
  }

  lemma RankGrows(p: real, q: real, n: nat)
    requires 0.0 <= p <= q <= 100.0 && n >= 1
    ensures Rank(p, n) <= Rank(q, n)
  {
    assert (q / 100.0 - p / 100.0) * (n - 1) as real >= 0.0;
  }

  function Percentile(values: seq<real>, p: real): real
    requires 0.0 <= p <= 100.0
  {
    if values == [] then 0.0
    else
      SortedIsSorted(values);
      At(Sorted(values), Rank(p, |values|))
  }

  lemma ProductNonNegative(x: real, y: real)
    requires x >= 0.0 && y >= 0.0
    ensures x * y >= 0.0
  {
  }

  lemma SlopeGrows(d: real, f: real, g: real)
    requires 0.0 <= d && f <= g
    ensures d * f <= d * g
  {
    ProductNonNegative(d, g - f);
    assert d * (g - f) == d * g - d * f;
  }

  lemma Between(a: real, b: real, f: real)
    requires a <= b && 0.0 <= f <= 1.0
    ensures a <= a + (b - a) * f <= b
  {
    ProductNonNegative(b - a, f);
    SlopeGrows(b - a, f, 1.0);
  }

  /** Between its neighbours, interpolation stays between their values. */
  lemma AtBounds(s: seq<real>, rank: real)
    requires s != [] && Ascending(s) && 0.0 <= rank <= (|s| - 1) as real
    ensures s[rank.Floor] <= At(s, rank)
    ensures rank.Floor + 1 < |s| ==> At(s, rank) <= s[rank.Floor + 1]
  {
    var low := rank.Floor;
    var high := if low + 1 < |s| then low + 1 else |s| - 1;
    Between(s[low], s[high], rank - low as real);
  }

  lemma AtMonotone(s: seq<real>, q: real, r: real)
    requires s != [] && Ascending(s) && 0.0 <= q <= r <= (|s| - 1) as real
    ensures At(s, q) <= At(s, r)
  {
    if q.Floor == r.Floor {
      var low := q.Floor;
      var high := if low + 1 < |s| then low + 1 else |s| - 1;
      var d, f, g := s[high] - s[low], q - low as real, r - low as real;
      SlopeGrows(d, f, g);
      assert At(s, q) == s[low] + d * f && At(s, r) == s[low] + d * g;
    } else {
      AtBounds(s, q);
      AtBounds(s, r);
      assert s[q.Floor + 1] <= s[r.Floor];
    }
  }

  /** The percentile grows with `p`. */
  lemma PercentileMonotone(values: seq<real>, p: real, q: real)
    requires 0.0 <= p <= q <= 100.0
    ensures Percentile(values, p) <= Percentile(values, q)
  {
    if values != [] {
      var n := |values|;
      SortedIsSorted(values);
      RankGrows(p, q, n);
      AtMonotone(Sorted(values), Rank(p, n), Rank(q, n));
    }
  }

  lemma RankIs(k: nat, n: nat)
    requires n >= 2 && k < n
    ensures var p := 100.0 * (k as real / (n - 1) as real); 0.0 <= p <= 100.0 && Rank(p, n) == k as real
  {
    var d := (n - 1) as real;
    var f := k as real / d;
    FractionBounds(k, n - 1);
    assert 100.0 * f / 100.0 == f;
    assert f * d == k as real;
  }

  /** At the ranks of the sample the percentile is the sample itself: the smallest value at 0, the
  largest at 100, the k-th in between. */
  lemma PercentileAtRank(values: seq<real>, k: nat)
    requires |values| >= 2 && k < |values|
    ensures var p := 100.0 * (k as real / (|values| - 1) as real);
            0.0 <= p <= 100.0 && |Sorted(values)| == |values| && Percentile(values, p) == Sorted(values)[k]
  {
    SortedIsSorted(values);
    RankIs(k, |values|);
  }

  lemma AtBetween(s: seq<real>, k: nat, f: real)
    requires k + 1 < |s| && 0.0 <= f < 1.0
    ensures At(s, k as real + f) == s[k] + (s[k + 1] - s[k]) * f
  {
    var r := k as real + f;
    var d := s[k + 1] - s[k];
    assert r.Floor == k;
    assert At(s, r) == s[k] + d * (r - k as real);
    assert r - k as real == f;
  }

  /** Where percentile `p` falls between the k-th smallest value and the next, at fraction `f` of the way,
  it interpolates linearly. */
  lemma PercentileBetween(values: seq<real>, p: real, k: nat, f: real)
    requires 0.0 <= p <= 100.0 && k + 1 < |values| && 0.0 <= f < 1.0
    requires p / 100.0 * (|values| - 1) as real == k as real + f
    ensures |Sorted(values)| == |values|
    ensures Percentile(values, p) == Sorted(values)[k] + (Sorted(values)[k + 1] - Sorted(values)[k]) * f
  {
    SortedIsSorted(values);
    assert Rank(p, |values|) == k as real + f;
    AtBetween(Sorted(values), k, f);
  }

  /** No sample, and a single one. */
  lemma PercentileSmall(x: real, p: real)
    requires 0.0 <= p <= 100.0
    ensures Percentile([], p) == 0.0 && Percentile([x], p) == x
  {
    assert Sorted([x]) == [x];
  }

  // ----- aggregation --------------------------------------------------------------------------------------

  datatype Score = Score(exactMatch: real, tokenAccuracy: real, latency: Option<real>)

  datatype Metric = Metric(name: string, value: real, samples: nat)

  function Sum(s: seq<real>): real {
    if s == [] then 0.0 else s[0] + Sum(s[1..])
  }

  function Mean(s: seq<real>): real
    requires s != []
  {
    Sum(s) / |s| as real
  }

  function Exacts(scores: seq<Score>): seq<real> {
    seq(|scores|, i requires 0 <= i < |scores| => scores[i].exactMatch)
  }

  function TokenAccuracies(scores: seq<Score>): seq<real> {
    seq(|scores|, i requires 0 <= i < |scores| => scores[i].tokenAccuracy)
  }

  function Latencies(scores: seq<Score>): seq<real> {
    if scores == [] then []
    else (match scores[0].latency case Some(l) => [l] case None => []) + Latencies(scores[1..])
  }

  function LatencyMetrics(l: seq<real>): seq<Metric> {
    if l == [] then []
    else [Metric("latency_mean_ms", Mean(l), |l|), Metric("latency_p50_ms", Percentile(l, 50.0), |l|),
          Metric("latency_p95_ms", Percentile(l, 95.0), |l|)]
  }

  function Aggregate(scores: seq<Score>): seq<Metric> {
    if scores == [] then []
    else
      [Metric("exact_match", Mean(Exacts(scores)), |scores|), Metric("token_accuracy", Mean(TokenAccuracies(scores)), |scores|)]
      + LatencyMetrics(Latencies(scores))
  }

  lemma LatencyShape(l: seq<real>, i: nat)
    requires i < |LatencyMetrics(l)|
    ensures var metric := LatencyMetrics(l)[i];
            && l != [] && i <= 2 && metric.samples == |l|
            && (i == 0 ==> metric.name == "latency_mean_ms" && metric.value == Mean(l))
            && (i == 1 ==> metric.name == "latency_p50_ms" && metric.value == Percentile(l, 50.0))
            && (i == 2 ==> metric.name == "latency_p95_ms" && metric.value == Percentile(l, 95.0))
  {
  }

  lemma AggregateAt(scores: seq<Score>, i: nat)
    requires i < |Aggregate(scores)|
    ensures scores != []
    ensures i == 0 ==> Aggregate(scores)[i] == Metric("exact_match", Mean(Exacts(scores)), |scores|)
    ensures i == 1 ==> Aggregate(scores)[i] == Metric("token_accuracy", Mean(TokenAccuracies(scores)), |scores|)
    ensures i >= 2 ==> i - 2 < |LatencyMetrics(Latencies(scores))|
                       && Aggregate(scores)[i] == LatencyMetrics(Latencies(scores))[i - 2]
  {
  }

  /** Every metric of the aggregate: its name, its value, its sample count. */
  lemma AggregateShape(scores: seq<Score>, i: nat)
    requires i < |Aggregate(scores)|
    ensures var metric := Aggregate(scores)[i];
            && scores != []
            && (metric.name == "exact_match" <==> i == 0) && (metric.name == "token_accuracy" <==> i == 1)
            && (i == 0 ==> metric.value == Mean(Exacts(scores)) && metric.samples == |scores|)
            && (i == 1 ==> metric.value == Mean(TokenAccuracies(scores)) && metric.samples == |scores|)
            && (i >= 2 ==> metric in LatencyMetrics(Latencies(scores)))
            && (i >= 2 ==> i <= 4 && Latencies(scores) != [] && metric.samples == |Latencies(scores)|)
            && (i == 2 ==> metric.name == "latency_mean_ms" && metric.value == Mean(Latencies(scores)))
            && (i == 3 ==> metric.name == "latency_p50_ms" && metric.value == Percentile(Latencies(scores), 50.0))
            && (i == 4 ==> metric.name == "latency_p95_ms" && metric.value == Percentile(Latencies(scores), 95.0))
  {
    AggregateAt(scores, i);
    if i >= 2 {
      LatencyShape(Latencies(scores), i - 2);
    }
  }

  lemma {:induction false} SumAdds(a: seq<real>, b: seq<real>)
    ensures Sum(a + b) == Sum(a) + Sum(b) && (|a| == 1 ==> Sum(a) == a[0])
  {
    if a == [] {
      assert a + b == b;
    } else {
      SumAdds(a[1..], b);
      assert (a + b)[1..] == a[1..] + b;
    }
  }

  lemma {:induction false} SumMonotone(a: seq<real>, b: seq<real>)
    requires |a| == |b| && forall i :: 0 <= i < |a| ==> a[i] <= b[i]
    ensures Sum(a) <= Sum(b)
  {
    if a != [] {
      SumMonotone(a[1..], b[1..]);
    }
  }

  lemma QuotientMonotone(x: real, y: real, n: nat)
    requires n > 0 && x <= y
    ensures x / n as real <= y / n as real
  {
    assert y / n as real - x / n as real == (y - x) / n as real;
  }

  lemma AccuracyOrdered(scores: seq<Score>)
    requires scores != [] && forall i :: 0 <= i < |scores| ==> scores[i].exactMatch <= scores[i].tokenAccuracy
    ensures Mean(Exacts(scores)) <= Mean(TokenAccuracies(scores))
  {
    SumMonotone(Exacts(scores), TokenAccuracies(scores));
    QuotientMonotone(Sum(Exacts(scores)), Sum(TokenAccuracies(scores)), |scores|);
  }

  lemma LatenciesOrdered(l: seq<real>, a: Metric, b: Metric)
    requires a in LatencyMetrics(l) && b in LatencyMetrics(l) && a.name == "latency_p50_ms" && b.name == "latency_p95_ms"
    ensures a.value <= b.value
  {
    PercentileMonotone(l, 50.0, 95.0);
  }

  /** Whatever the scored examples: the exact-match rate is at most the token accuracy and the median
  latency at most the 95th percentile. */
  lemma AggregateOrdered(scores: seq<Score>, a: Metric, b: Metric)
    requires forall i :: 0 <= i < |scores| ==> scores[i].exactMatch <= scores[i].tokenAccuracy
    requires a in Aggregate(scores) && b in Aggregate(scores)
    ensures a.name == "exact_match" && b.name == "token_accuracy" ==> a.value <= b.value
    ensures a.name == "latency_p50_ms" && b.name == "latency_p95_ms" ==> a.value <= b.value
  {
    var i :| 0 <= i < |Aggregate(scores)| && Aggregate(scores)[i] == a;
    var k :| 0 <= k < |Aggregate(scores)| && Aggregate(scores)[k] == b;
    AggregateShape(scores, i);
    AggregateShape(scores, k);
    AccuracyOrdered(scores);
    if a.name == "latency_p50_ms" && b.name == "latency_p95_ms" {
      LatenciesOrdered(Latencies(scores), a, b);
    }
  }
}
