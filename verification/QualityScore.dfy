/** The connection score: median latency, sample deviation and drop rate, over the reals. */
module QualityScore {
  import opened Prelude

  datatype Report = Report(score: int, rtt: real, dropPct: real, jitter: real)

  predicate LeqReal(a: real, b: real) { a <= b }

  function Sorted(s: seq<real>): seq<real> {
    if s == [] then [] else InsertBy(LeqReal, s[0], Sorted(s[1..]))
  }

  function Sum(s: seq<real>): real {
    if s == [] then 0.0 else s[0] + Sum(s[1..])
  }

  function Mean(s: seq<real>): real
    requires s != []
  {
    Sum(s) / |s| as real
  }

  function Square(x: real): real { x * x }

  /** The sum of the squared distances to c. */
  function Spread(s: seq<real>, c: real): real {
    if s == [] then 0.0 else Square(s[0] - c) + Spread(s[1..], c)
  }

  function Median(s: seq<real>): real
    requires s != []
  {
    var a, n := Sorted(s), |s|;
    SortedSpec(s);
    if n % 2 == 0 then (a[n / 2 - 1] + a[n / 2]) / 2.0 else a[n / 2]
  }

  /** The sample standard deviation, by the law of the square root. */
  predicate IsJitter(s: seq<real>, j: real) {
    if |s| < 2 then j == 0.0
    else j >= 0.0 && j * j == Spread(s, Mean(s)) / (|s| - 1) as real
  }

  function Drops(cycles: seq<bool>): nat {
    if cycles == [] then 0 else (if cycles[0] then 0 else 1) + Drops(cycles[1..])
  }

  function DropPct(cycles: seq<bool>): real {
    if cycles == [] then 0.0 else Drops(cycles) as real / |cycles| as real * 100.0
  }

  function Max(a: real, b: real): real {
    if a >= b then a else b
  }

  function LatencyPart(median: real): real {
    if 100.0 < median <= 400.0 then 50.0 - (median - 100.0) / 300.0 * 25.0
    else if median > 400.0 then Max(0.0, 25.0 - (median - 400.0) / 200.0 * 25.0)
    else 50.0
  }

  function DropPart(dropPct: real): real {
    Max(0.0, 30.0 - dropPct / 50.0 * 30.0)
  }

  function JitterPart(jitter: real): real {
    if 20.0 < jitter <= 150.0 then 20.0 - (jitter - 20.0) / 130.0 * 10.0
    else if jitter > 150.0 then Max(0.0, 10.0 - (jitter - 150.0) / 100.0 * 10.0)
    else 20.0
  }

  /** Halves away from zero. */
  function Round(x: real): int {
    if x >= 0.0 then (x + 0.5).Floor else -((0.5 - x).Floor)
  }

  function Round1(x: real): real {
    Round(x * 10.0) as real / 10.0
  }

  function Clamp(score: int): int {
    if score < 0 then 0 else if score > 100 then 100 else score
  }

  function Total(rtts: seq<real>, cycles: seq<bool>, jitter: real): real
    requires rtts != []
  {
    LatencyPart(Median(rtts)) + DropPart(DropPct(cycles)) + JitterPart(jitter)
  }

  function Quality(rtts: seq<real>, cycles: seq<bool>, jitter: real): Report {
    if rtts == [] then Report(100, 0.0, 0.0, 0.0)
    else
      var score := Clamp(Round(Total(rtts, cycles, jitter)));
      Report(score, Round1(Median(rtts)), Round1(DropPct(cycles)), Round1(jitter))
  }

  // ---- Sorting and sums

  lemma {:induction false} InsertSums(x: real, s: seq<real>, c: real)
    ensures Sum(InsertBy(LeqReal, x, s)) == x + Sum(s)
    ensures Spread(InsertBy(LeqReal, x, s), c) == Square(x - c) + Spread(s, c)
  {
    hide Square;
    if s != [] && !(x <= s[0]) {
      InsertSums(x, s[1..], c);
    }
  }

  lemma SortedNothing()
    ensures Sorted([]) == [] && Ascending(LeqReal, [])
  {
  }

  lemma {:induction false} SortedSpec(s: seq<real>)
    ensures Ascending(LeqReal, Sorted(s))
    ensures multiset(Sorted(s)) == multiset(s) && |Sorted(s)| == |s|
  {
    hide Ascending, InsertBy;
    if s == [] {
      SortedNothing();
    } else {
      SortedSpec(s[1..]);
      InsertBySorts(LeqReal, s[0], Sorted(s[1..]));
      InsertByKeeps(LeqReal, s[0], Sorted(s[1..]));
      assert s == [s[0]] + s[1..];
    }
    assert |Sorted(s)| == |multiset(Sorted(s))| == |multiset(s)| == |s|;
  }

  lemma {:induction false} SortedSums(s: seq<real>, c: real)
    ensures Sum(Sorted(s)) == Sum(s) && Spread(Sorted(s), c) == Spread(s, c)
  {
    hide InsertBy, Square;
    if s == [] {
    } else {
      SortedSums(s[1..], c);
      InsertSums(s[0], Sorted(s[1..]), c);
    }
  }

  lemma SortedUnique(s: seq<real>, a: seq<real>)
    requires Ascending(LeqReal, a) && multiset(a) == multiset(s)
    ensures a == Sorted(s)
  {
    SortedSpec(s);
    AscendingIsUnique(LeqReal, a, Sorted(s));
  }

  lemma {:induction false} DropsCounts(cycles: seq<bool>)
    ensures Drops(cycles) == multiset(cycles)[false] <= |cycles|
  {
    if cycles != [] {
      DropsCounts(cycles[1..]);
      assert cycles == [cycles[0]] + cycles[1..];
    }
  }

  lemma {:induction false} SpreadNonNegative(s: seq<real>, c: real)
    ensures Spread(s, c) >= 0.0
  {
    if s != [] {
      SpreadNonNegative(s[1..], c);
      SquareNonNegative(s[0] - c);
    }
  }

  lemma SquareNonNegative(x: real)
    ensures x * x >= 0.0
  {
  }

  lemma SquareGrows(a: real, b: real)
    requires 0.0 <= a < b
    ensures a * a < b * b
  {
    var d := b - a;
    assert b * b == a * a + a * d + d * b;
    assert d * b > 0.0 && a * d >= 0.0;
  }

  lemma SquareRootUnique(a: real, b: real)
    requires a >= 0.0 && b >= 0.0 && a * a == b * b
    ensures a == b
  {
    if a < b { SquareGrows(a, b); } else if b < a { SquareGrows(b, a); }
  }

  lemma JitterUnique(s: seq<real>, j: real, k: real)
    requires IsJitter(s, j) && IsJitter(s, k)
    ensures j == k
  {
    if |s| >= 2 { SquareRootUnique(j, k); }
  }

  // ---- Properties

  lemma PartsInRange(median: real, dropPct: real, jitter: real)
    requires dropPct >= 0.0
    ensures 0.0 <= LatencyPart(median) <= 50.0
    ensures 0.0 <= DropPart(dropPct) <= 30.0
    ensures 0.0 <= JitterPart(jitter) <= 20.0
  {
  }

  lemma DropPctInRange(cycles: seq<bool>)
    ensures 0.0 <= DropPct(cycles) <= 100.0
  {
    DropsCounts(cycles);
    if cycles != [] {
      DivideOrdered(Drops(cycles) as real, |cycles| as real, |cycles| as real);
    }
  }

  lemma DivideOrdered(a: real, b: real, n: real)
    requires 0.0 <= a <= b && n > 0.0
    ensures 0.0 <= a / n <= b / n
  {
    assert (b / n) * n == b && (a / n) * n == a;
  }

  /** The sum before rounding is already between 0 and 100, so neither clamp ever acts. */
  lemma ClampsAreRedundant(rtts: seq<real>, cycles: seq<bool>, jitter: real)
    requires rtts != []
    ensures 0.0 <= Total(rtts, cycles, jitter) <= 100.0
    ensures Quality(rtts, cycles, jitter).score == Round(Total(rtts, cycles, jitter))
  {
    DropPctInRange(cycles);
    PartsInRange(Median(rtts), DropPct(cycles), jitter);
    RoundMonotone(0.0, Total(rtts, cycles, jitter));
    RoundMonotone(Total(rtts, cycles, jitter), 100.0);
  }

  lemma RoundMonotone(x: real, y: real)
    requires x <= y
    ensures Round(x) <= Round(y)
  {
  }

  /** The report depends on which samples there are, not on their order. */
  lemma OrderDoesNotMatter(a: seq<real>, b: seq<real>, c: seq<bool>, d: seq<bool>, j: real, k: real)
    requires multiset(a) == multiset(b) && multiset(c) == multiset(d) && IsJitter(a, j) && IsJitter(b, k)
    ensures Quality(a, c, j) == Quality(b, d, k)
  {
    SamplesDecide(a, b);
    DropsCounts(c);
    DropsCounts(d);
    assert |c| == |multiset(c)| == |multiset(d)| == |d|;
    JitterUnique(a, j, k);
    assert a == [] <==> b == [];
  }

  lemma SumsDecide(a: seq<real>, b: seq<real>, c: real)
    requires Sorted(a) == Sorted(b)
    ensures Sum(a) == Sum(b) && Spread(a, c) == Spread(b, c)
  {
    hide Sum, Spread, Sorted;
    SortedSums(a, c);
    SortedSums(b, c);
  }

  lemma SamplesDecide(a: seq<real>, b: seq<real>)
    requires multiset(a) == multiset(b)
    ensures |a| == |b| && (a != [] ==> Median(a) == Median(b))
    ensures forall k :: IsJitter(a, k) <==> IsJitter(b, k)
  {
    hide Ascending, InsertBy, Sum, Spread, Sorted;
    assert |a| == |multiset(a)| == |multiset(b)| == |b|;
    SortedSpec(b);
    SortedUnique(a, Sorted(b));
    SumsDecide(a, b, 0.0);
    if a != [] {
      SumsDecide(a, b, Mean(a));
    }
  }

  function Shift(s: seq<real>, c: real): seq<real> {
    if s == [] then [] else [s[0] + c] + Shift(s[1..], c)
  }

  lemma {:induction false} ShiftSpec(s: seq<real>, c: real, m: real)
    ensures |Shift(s, c)| == |s|
    ensures forall i :: 0 <= i < |s| ==> Shift(s, c)[i] == s[i] + c
    ensures Sum(Shift(s, c)) == Sum(s) + c * |s| as real
    ensures Spread(Shift(s, c), m + c) == Spread(s, m)
  {
    hide Square;
    if s == [] {
    } else {
      assert Square(s[0] + c - (m + c)) == Square(s[0] - m);
      ShiftSpec(s[1..], c, m);
    }
  }

  lemma {:induction false} ShiftInsert(x: real, s: seq<real>, c: real)
    ensures Shift(InsertBy(LeqReal, x, s), c) == InsertBy(LeqReal, x + c, Shift(s, c))
  {
    if s != [] && !(x <= s[0]) {
      ShiftInsert(x, s[1..], c);
    }
  }

  lemma {:induction false} ShiftSorted(s: seq<real>, c: real)
    ensures Shift(Sorted(s), c) == Sorted(Shift(s, c))
  {
    if s != [] {
      ShiftSorted(s[1..], c);
      ShiftInsert(s[0], Sorted(s[1..]), c);
    }
  }

  lemma DivideShifted(sum: real, c: real, n: real)
    requires n > 0.0
    ensures (sum + c * n) / n == sum / n + c
  {
    var q := sum / n + c;
    assert (sum / n) * n == sum;
    assert q * n == sum + c * n;
  }

  lemma ShiftMean(s: seq<real>, c: real)
    requires s != []
    ensures Shift(s, c) != [] && Mean(Shift(s, c)) == Mean(s) + c
  {
    ShiftSpec(s, c, 0.0);
    var n := |s| as real;
    DivideShifted(Sum(s), c, n);
  }

  lemma ShiftMedian(s: seq<real>, c: real)
    requires s != []
    ensures Shift(s, c) != [] && Median(Shift(s, c)) == Median(s) + c
  {
    hide Sorted, Shift, Sum, Spread, Ascending;
    ShiftSpec(s, c, 0.0);
    SortedSpec(s);
    ShiftSorted(s, c);
    ShiftSpec(Sorted(s), c, 0.0);
  }

  /** A constant delay added to every sample leaves the jitter as it is and never raises the score. */
  lemma ConstantDelay(rtts: seq<real>, cycles: seq<bool>, c: real, j: real)
    requires c >= 0.0 && rtts != [] && IsJitter(rtts, j)
    ensures IsJitter(Shift(rtts, c), j)
    ensures Quality(Shift(rtts, c), cycles, j).score <= Quality(rtts, cycles, j).score
  {
    ShiftMean(rtts, c);
    ShiftSpec(rtts, c, Mean(rtts));
    ShiftMedian(rtts, c);
    LatencyFalls(Median(rtts), Median(rtts) + c);
    RoundMonotone(Total(Shift(rtts, c), cycles, j), Total(rtts, cycles, j));
  }

  lemma LatencyFalls(a: real, b: real)
    requires a <= b
    ensures LatencyPart(b) <= LatencyPart(a)
  {
  }

  lemma {:induction false} OneMoreDrop(cycles: seq<bool>, i: nat)
    requires i < |cycles| && cycles[i]
    ensures Drops(cycles[i := false]) == Drops(cycles) + 1
  {
    if i == 0 {
      assert cycles[0 := false][1..] == cycles[1..];
    } else {
      assert cycles[i := false][1..] == cycles[1..][i - 1 := false];
      OneMoreDrop(cycles[1..], i - 1);
    }
  }

  /** With the samples fixed, a higher drop rate never raises the score. */
  lemma MoreDropsNeverHelp(rtts: seq<real>, before: seq<bool>, later: seq<bool>, j: real)
    requires DropPct(before) <= DropPct(later)
    ensures Quality(rtts, later, j).score <= Quality(rtts, before, j).score
  {
    if rtts != [] {
      hide Median, DropPct, Round;
      RoundMonotone(Total(rtts, later, j), Total(rtts, before, j));
    }
  }

  /** One more drop beside d drops among n outcomes is no lower a rate. */
  lemma RatioGrows(d: real, n: real)
    requires 0.0 <= d <= n && n > 0.0
    ensures d / n <= (d + 1.0) / (n + 1.0)
  {
    var x, y := d / n, (d + 1.0) / (n + 1.0);
    assert x * n == d && y * (n + 1.0) == d + 1.0 && x <= 1.0;
    assert x * (n + 1.0) == d + x;
    ProductOrders(x, y, n + 1.0);
  }

  lemma ProductOrders(x: real, y: real, m: real)
    requires m > 0.0 && x * m <= y * m
    ensures x <= y
  {
  }

  /** One more drop never lowers the drop rate, whether or not the oldest outcome goes. */
  lemma DropAdded(cycles: seq<bool>)
    ensures DropPct(cycles) <= DropPct(cycles + [false])
    ensures cycles != [] ==> DropPct(cycles) <= DropPct(cycles[1..] + [false])
  {
    DropsCounts(cycles);
    DropsAppend(cycles, false);
    hide DropPct;
    if cycles == [] {
      DropPctInRange(cycles + [false]);
      assert DropPct(cycles) == 0.0 by { NoCyclesNoDrops(); }
    } else {
      RateGrows(cycles);
      RateSlides(cycles);
    }
  }

  lemma NoCyclesNoDrops()
    ensures DropPct([]) == 0.0
  {
  }

  lemma RateGrows(cycles: seq<bool>)
    requires cycles != []
    ensures DropPct(cycles) <= DropPct(cycles + [false])
  {
    DropsCounts(cycles);
    DropsAppend(cycles, false);
    RatioGrows(Drops(cycles) as real, |cycles| as real);
    assert |cycles + [false]| as real == |cycles| as real + 1.0;
    assert Drops(cycles + [false]) as real == Drops(cycles) as real + 1.0;
  }

  lemma RateSlides(cycles: seq<bool>)
    requires cycles != []
    ensures DropPct(cycles) <= DropPct(cycles[1..] + [false])
  {
    DropsAppend(cycles[1..], false);
    DivideOrdered(Drops(cycles) as real, Drops(cycles[1..] + [false]) as real, |cycles| as real);
  }

  /** With the samples fixed, turning a success into a drop never raises the score. */
  lemma DropNeverHelps(rtts: seq<real>, cycles: seq<bool>, i: nat, j: real)
    requires rtts != [] && i < |cycles| && cycles[i]
    ensures Quality(rtts, cycles[i := false], j).score <= Quality(rtts, cycles, j).score
  {
    OneMoreDrop(cycles, i);
    DivideOrdered(Drops(cycles) as real, Drops(cycles[i := false]) as real, |cycles| as real);
    MoreDropsNeverHelp(rtts, cycles, cycles[i := false], j);
  }

  // ---- What the numbers mean

  function Below(s: seq<real>, m: real): nat {
    if s == [] then 0 else (if s[0] < m then 1 else 0) + Below(s[1..], m)
  }

  function Above(s: seq<real>, m: real): nat {
    if s == [] then 0 else (if s[0] > m then 1 else 0) + Above(s[1..], m)
  }

  lemma {:induction false} InsertCounts(x: real, s: seq<real>, m: real)
    ensures Below(InsertBy(LeqReal, x, s), m) == (if x < m then 1 else 0) + Below(s, m)
    ensures Above(InsertBy(LeqReal, x, s), m) == (if x > m then 1 else 0) + Above(s, m)
  {
    if s == [] || LeqReal(x, s[0]) {
      assert ([x] + s)[1..] == s;
    } else {
      InsertCounts(x, s[1..], m);
      assert ([s[0]] + InsertBy(LeqReal, x, s[1..]))[1..] == InsertBy(LeqReal, x, s[1..]);
    }
  }

  lemma {:induction false} SortedCounts(s: seq<real>, m: real)
    ensures Below(Sorted(s), m) == Below(s, m) && Above(Sorted(s), m) == Above(s, m)
  {
    hide InsertBy;
    if s == [] {
    } else {
      SortedCounts(s[1..], m);
      InsertCounts(s[0], Sorted(s[1..]), m);
    }
  }

  /** In an ascending list at most the first k are below what stands at k or later. */
  lemma {:induction false} AscendingBelow(a: seq<real>, k: nat, m: real)
    requires Ascending(LeqReal, a) && k <= |a| && (k < |a| ==> m <= a[k])
    ensures Below(a, m) <= k
  {
    if a == [] {
    } else if k == 0 {
      if |a| > 1 { assert LeqReal(a[0], a[1]); }
      AscendingBelow(a[1..], 0, m);
    } else {
      AscendingBelow(a[1..], k - 1, m);
    }
  }

  lemma {:induction false} AscendingAbove(a: seq<real>, k: nat, m: real)
    requires Ascending(LeqReal, a) && k <= |a| && (k > 0 ==> a[k - 1] <= m)
    ensures Above(a, m) <= |a| - k
  {
    if a == [] {
    } else if k == 0 {
      AscendingAbove(a[1..], 0, m);
    } else {
      if k > 1 { assert LeqReal(a[0], a[k - 1]); }
      AscendingAbove(a[1..], k - 1, m);
    }
  }

  /** m lies in the middle of the samples. */
  ghost predicate InTheMiddle(s: seq<real>, m: real) {
    && 2 * Below(s, m) <= |s| && 2 * Above(s, m) <= |s|
    && if |s| % 2 == 1 then m in s
       else exists x, y :: HalfWay(s, x, y) && m == (x + y) / 2.0
  }

  /** Half of the samples are at most x, the other half at least y. */
  ghost predicate HalfWay(s: seq<real>, x: real, y: real) {
    x in s && y in s && x <= y && 2 * Above(s, x) <= |s| && 2 * Below(s, y) <= |s|
  }

  lemma OddMiddle(a: seq<real>)
    requires Ascending(LeqReal, a) && |a| % 2 == 1
    ensures var m := a[|a| / 2]; 2 * Below(a, m) <= |a| && 2 * Above(a, m) <= |a|
  {
    AscendingBelow(a, |a| / 2, a[|a| / 2]);
    AscendingAbove(a, |a| / 2 + 1, a[|a| / 2]);
  }

  lemma EvenMiddle(a: seq<real>, m: real)
    requires Ascending(LeqReal, a) && |a| % 2 == 0 && a != []
    requires a[|a| / 2 - 1] <= m <= a[|a| / 2]
    ensures 2 * Below(a, m) <= |a| && 2 * Above(a, m) <= |a|
  {
    AscendingBelow(a, |a| / 2, m);
    AscendingAbove(a, |a| / 2, m);
  }

  lemma SortedHolds(s: seq<real>, x: real)
    requires x in Sorted(s)
    ensures x in s
  {
    SortedSpec(s);
    assert x in multiset(Sorted(s));
  }

  /** The median is a median: no more than half of the samples lie on either side of it. */
  lemma MedianLaw(s: seq<real>)
    requires s != []
    ensures InTheMiddle(s, Median(s))
  {
    var a, n, m := Sorted(s), |s|, Median(s);
    SortedSpec(s);
    SortedCounts(s, m);
    hide Sorted, InsertBy, Below, Above;
    if n % 2 == 1 {
      OddMiddle(a);
      SortedHolds(s, m);
    } else {
      var x, y := a[n / 2 - 1], a[n / 2];
      assert LeqReal(x, y);
      hide Ascending;
      EvenMiddle(a, m);
      EvenMiddle(a, x);
      EvenMiddle(a, y);
      SortedCounts(s, x);
      SortedCounts(s, y);
      SortedHolds(s, x);
      SortedHolds(s, y);
      assert HalfWay(s, x, y);
    }
  }

  /** The deviations from the mean cancel out. */
  lemma MeanLaw(s: seq<real>)
    requires s != []
    ensures Sum(Shift(s, -Mean(s))) == 0.0
  {
    ShiftSpec(s, -Mean(s), 0.0);
    assert Mean(s) * |s| as real == Sum(s);
  }

  /** Two samples: the square of their deviation is half the square of their difference. */
  lemma JitterOfTwo(a: real, b: real, j: real)
    requires IsJitter([a, b], j)
    ensures j >= 0.0 && j * j == (a - b) * (a - b) / 2.0
  {
    var m := Mean([a, b]);
    TwoSums(a, b, m);
    hide Sum, Spread;
    assert m == (a + b) / 2.0;
    assert j * j == (a - m) * (a - m) + (b - m) * (b - m);
  }

  lemma TwoSums(a: real, b: real, m: real)
    ensures Sum([a, b]) == a + b && Spread([a, b], m) == (a - m) * (a - m) + (b - m) * (b - m)
  {
    assert [a, b] == [a] + [b] && [] + [a] == [a];
    SumsAppend([a], b, m);
    SumsAppend([], a, m);
  }

  /** The drop rate counts the failures among the outcomes, in percent. */
  lemma DropPctLaw(cycles: seq<bool>)
    ensures DropPct(cycles) * |cycles| as real == 100.0 * multiset(cycles)[false] as real
    ensures cycles == [] ==> DropPct(cycles) == 0.0
  {
    DropsCounts(cycles);
    if cycles != [] {
      var d, n := Drops(cycles) as real, |cycles| as real;
      assert d / n * n == d;
    }
  }

  /** Latency earns 50 up to 100 ms, 25 at 400 ms and nothing from 600 ms on. */
  lemma LatencyTable(m: real)
    ensures m <= 100.0 ==> LatencyPart(m) == 50.0
    ensures LatencyPart(400.0) == 25.0
    ensures m >= 600.0 ==> LatencyPart(m) == 0.0
  {
  }

  /** Drops earn 30 without any and nothing from 50 percent on. */
  lemma DropTable(d: real)
    ensures DropPart(0.0) == 30.0 && (d >= 50.0 ==> DropPart(d) == 0.0)
  {
  }

  /** Jitter earns 20 up to 20 ms, 10 at 150 ms and nothing from 250 ms on. */
  lemma JitterTable(j: real)
    ensures j <= 20.0 ==> JitterPart(j) == 20.0
    ensures JitterPart(150.0) == 10.0
    ensures j >= 250.0 ==> JitterPart(j) == 0.0
  {
  }

  /** Between the entries of these tables the parts run straight. */
  lemma PartsRunStraight(a: real, b: real)
    requires a <= b
    ensures (100.0 <= a && b <= 400.0) || (400.0 <= a && b <= 600.0) ==>
      LatencyPart((a + b) / 2.0) == (LatencyPart(a) + LatencyPart(b)) / 2.0
    ensures 0.0 <= a && b <= 50.0 ==> DropPart((a + b) / 2.0) == (DropPart(a) + DropPart(b)) / 2.0
    ensures (20.0 <= a && b <= 150.0) || (150.0 <= a && b <= 250.0) ==>
      JitterPart((a + b) / 2.0) == (JitterPart(a) + JitterPart(b)) / 2.0
  {
  }

  /** With samples fixed, more jitter never raises the score. */
  lemma MoreJitterNeverHelps(rtts: seq<real>, cycles: seq<bool>, j: real, k: real)
    requires j <= k
    ensures Quality(rtts, cycles, k).score <= Quality(rtts, cycles, j).score
  {
    if rtts != [] {
      hide Median, DropPct, Round;
      RoundMonotone(Total(rtts, cycles, k), Total(rtts, cycles, j));
    }
  }

  /** Rounding goes to the nearest whole number, halves away from zero. */
  lemma RoundLaw(x: real)
    ensures x >= 0.0 ==> x - 0.5 < Round(x) as real <= x + 0.5
    ensures Round(-x) == -Round(x)
  {
  }

  lemma Round1Law(x: real)
    ensures x - 0.05 <= Round1(x) <= x + 0.05
    ensures (Round1(x) * 10.0).Floor as real == Round1(x) * 10.0
  {
    RoundLaw(x * 10.0);
    RoundLaw(-(x * 10.0));
    hide Round;
    assert Round1(x) * 10.0 == Round(x * 10.0) as real;
  }

  /** The three parts add up to the score, and the numbers behind them are shown to one decimal. */
  lemma ReportLaw(rtts: seq<real>, cycles: seq<bool>, j: real)
    ensures rtts == [] ==> Quality(rtts, cycles, j) == Report(100, 0.0, 0.0, 0.0)
    ensures rtts != [] ==>
      var r := Quality(rtts, cycles, j);
      && r.score == Round(LatencyPart(Median(rtts)) + DropPart(DropPct(cycles)) + JitterPart(j))
      && Median(rtts) - 0.05 <= r.rtt <= Median(rtts) + 0.05
      && DropPct(cycles) - 0.05 <= r.dropPct <= DropPct(cycles) + 0.05
      && j - 0.05 <= r.jitter <= j + 0.05
  {
    if rtts != [] {
      ClampsAreRedundant(rtts, cycles, j);
      Round1Law(Median(rtts));
      Round1Law(DropPct(cycles));
      Round1Law(j);
      hide Round1, Round, Median, DropPct;
    }
  }

  // ---- The computation

  lemma {:induction false} SumsAppend(s: seq<real>, x: real, c: real)
    ensures Sum(s + [x]) == Sum(s) + x
    ensures Spread(s + [x], c) == Spread(s, c) + Square(x - c)
  {
    hide Square;
    if s == [] {
      assert s + [x] == [x];
    } else {
      assert (s + [x])[1..] == s[1..] + [x];
      SumsAppend(s[1..], x, c);
    }
  }

  lemma {:induction false} DropsAppend(cycles: seq<bool>, ok: bool)
    ensures Drops(cycles + [ok]) == Drops(cycles) + if ok then 0 else 1
  {
    if cycles == [] {
      assert cycles + [ok] == [ok];
    } else {
      assert (cycles + [ok])[1..] == cycles[1..] + [ok];
      DropsAppend(cycles[1..], ok);
    }
  }

  method SumOf(s: seq<real>) returns (sum: real)
    ensures sum == Sum(s)
  {
    sum := 0.0;
    for i := 0 to |s|
      invariant sum == Sum(s[..i])
    {
      assert s[..i + 1] == s[..i] + [s[i]];
      SumsAppend(s[..i], s[i], 0.0);
      sum := sum + s[i];
    }
    assert s[..|s|] == s;
  }

  method SpreadOf(s: seq<real>, c: real) returns (spread: real)
    ensures spread == Spread(s, c)
  {
    spread := 0.0;
    for i := 0 to |s|
      invariant spread == Spread(s[..i], c)
    {
      assert s[..i + 1] == s[..i] + [s[i]];
      SumsAppend(s[..i], s[i], c);
      spread := spread + (s[i] - c) * (s[i] - c);
    }
    assert s[..|s|] == s;
  }

  method DropsOf(cycles: seq<bool>) returns (drops: nat)
    ensures drops == Drops(cycles)
  {
    drops := 0;
    for i := 0 to |cycles|
      invariant drops == Drops(cycles[..i])
    {
      assert cycles[..i + 1] == cycles[..i] + [cycles[i]];
      DropsAppend(cycles[..i], cycles[i]);
      if !cycles[i] {
        drops := drops + 1;
      }
    }
    assert cycles[..|cycles|] == cycles;
  }

  /** `sqrt` stands for the library's square root and is known by its law only. */
  method JitterOf(s: seq<real>, mean: real, sqrt: real -> real) returns (jitter: real)
    requires forall x :: x >= 0.0 ==> sqrt(x) >= 0.0 && sqrt(x) * sqrt(x) == x
    requires s != [] && mean == Mean(s)
    ensures IsJitter(s, jitter)
  {
    jitter := 0.0;
    if |s| >= 2 {
      var spread := SpreadOf(s, mean);
      SpreadNonNegative(s, mean);
      DivideOrdered(0.0, spread, (|s| - 1) as real);
      jitter := sqrt(spread / (|s| - 1) as real);
    }
  }

  method MedianOf(rtts: seq<real>) returns (s: seq<real>, median: real)
    requires rtts != []
    ensures multiset(s) == multiset(rtts) && |s| == |rtts| && median == Median(rtts)
    ensures InTheMiddle(rtts, median)
  {
    MedianLaw(rtts);
    hide InTheMiddle;
    s := SortBy(LeqReal, rtts);
    SortedUnique(rtts, s);
    SortedSpec(rtts);
    var n := |s|;
    median := s[n / 2];
    if n % 2 == 0 {
      median := (s[n / 2 - 1] + s[n / 2]) / 2.0;
    }
  }

  method DropPctOf(cycles: seq<bool>) returns (dropPct: real)
    ensures dropPct == DropPct(cycles) && dropPct * |cycles| as real == 100.0 * multiset(cycles)[false] as real
  {
    DropPctLaw(cycles);
    var drops := DropsOf(cycles);
    dropPct := 0.0;
    if |cycles| > 0 {
      dropPct := drops as real / |cycles| as real * 100.0;
    }
  }

  method Grade(median: real, dropPct: real, jitter: real) returns (score: int)
    ensures score == Clamp(Round(LatencyPart(median) + DropPart(dropPct) + JitterPart(jitter)))
  {
    hide Round;
    var latScore := 50.0;
    if median > 100.0 && median <= 400.0 {
      latScore := 50.0 - (median - 100.0) / 300.0 * 25.0;
    } else if median > 400.0 {
      latScore := Max(0.0, 25.0 - (median - 400.0) / 200.0 * 25.0);
    }
    var dropScore := Max(0.0, 30.0 - dropPct / 50.0 * 30.0);
    var jitScore := 20.0;
    if jitter > 20.0 && jitter <= 150.0 {
      jitScore := 20.0 - (jitter - 20.0) / 130.0 * 10.0;
    } else if jitter > 150.0 {
      jitScore := Max(0.0, 10.0 - (jitter - 150.0) / 100.0 * 10.0);
    }
    score := Round(latScore + dropScore + jitScore);
    if score < 0 {
      score := 0;
    }
    if score > 100 {
      score := 100;
    }
  }

  /** The report on the stored samples; the jitter it used is returned beside it. */
  method Compute(rtts: seq<real>, cycles: seq<bool>, sqrt: real -> real) returns (report: Report, jitter: real)
    requires forall x :: x >= 0.0 ==> sqrt(x) >= 0.0 && sqrt(x) * sqrt(x) == x
    ensures rtts != [] ==> IsJitter(rtts, jitter)
    ensures report == Quality(rtts, cycles, jitter)
    ensures rtts == [] ==> report == Report(100, 0.0, 0.0, 0.0)
    ensures rtts != [] ==> exists m :: InTheMiddle(rtts, m) && m - 0.05 <= report.rtt <= m + 0.05
  {
    hide Median, Mean, Round, Round1, LatencyPart, DropPart, JitterPart, DropPct, IsJitter, InTheMiddle;
    if |rtts| == 0 {
      return Report(100, 0.0, 0.0, 0.0), 0.0;
    }
    var s, median := MedianOf(rtts);
    SamplesDecide(rtts, s);
    var mean := MeanOf(s);
    jitter := JitterOf(s, mean, sqrt);
    var dropPct := DropPctOf(cycles);
    var score := Grade(median, dropPct, jitter);
    report := Report(score, Round1(median), Round1(dropPct), Round1(jitter));
    Round1Law(median);
  }

  method MeanOf(s: seq<real>) returns (mean: real)
    requires s != []
    ensures mean == Mean(s)
  {
    var sum := SumOf(s);
    mean := sum / |s| as real;
  }
}
