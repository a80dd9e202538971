/** The premium-trends chart's data: policies grouped by the month their
    cover starts, each month's total, count and rounded average, in month
    order; and the two headline figures. A month is the number yyyy*100+MM
    that `monthOf` assigns to a start date (the `format(..., "yyyy-MM")`
    step); for four-digit years its numeric order is the text order the
    chart sorts by. */
module PremiumTrends {
  import opened Domain
  import opened Lifecycle
  import Seqs

  datatype TrendPoint = TrendPoint(date: int, totalPremium: int, averagePremium: int, policyCount: int)

  /** One `dataMap` entry: a month with its running total and count. */
  datatype MonthAcc = MonthAcc(month: int, total: int, count: int)

  function PolicyPremium(p: Policy): int { p.premiumAmount }
  function EntryMonth(e: MonthAcc): int { e.month }
  function EntryTotal(e: MonthAcc): int { e.total }
  function EntryCount(e: MonthAcc): int { e.count }
  function PointDate(pt: TrendPoint): int { pt.date }
  function PointTotal(pt: TrendPoint): int { pt.totalPremium }
  function PointCount(pt: TrendPoint): int { pt.policyCount }

  function PremiumIn(monthOf: int -> int, m: int): Policy -> int
  {
    (p: Policy) => if monthOf(p.startDate) == m then p.premiumAmount else 0
  }

  function OneIn(monthOf: int -> int, m: int): Policy -> int
  {
    (p: Policy) => if monthOf(p.startDate) == m then 1 else 0
  }

  /** The sum of the premiums of the policies starting in month m. */
  function MonthTotal(s: seq<Policy>, monthOf: int -> int, m: int): int
  {
    Seqs.SumBy(s, PremiumIn(monthOf, m))
  }

  /** The number of policies starting in month m. */
  function MonthCount(s: seq<Policy>, monthOf: int -> int, m: int): int
  {
    Seqs.SumBy(s, OneIn(monthOf, m))
  }

  lemma {:induction false} CountFacts(s: seq<Policy>, monthOf: int -> int, m: int)
    ensures 0 <= MonthCount(s, monthOf, m) <= |s|
    ensures MonthCount(s, monthOf, m) == 0 ==> MonthTotal(s, monthOf, m) == 0
    ensures MonthCount(s, monthOf, m) > 0 <==> exists p :: p in s && monthOf(p.startDate) == m
    decreases |s|
  {
    if s != [] {
      var init := s[..|s| - 1];
      CountFacts(init, monthOf, m);
      assert s == init + [s[|s| - 1]];
      assert forall p :: p in s <==> p in init || p == s[|s| - 1];
    }
  }

  /** `Math.round(total / count)`: the nearest integer, halves rounded up. */
  function RoundHalfUp(total: int, count: int): (r: int)
    requires count > 0
    ensures 2 * count * r - count <= 2 * total < 2 * count * r + count
  {
    var r := (2 * total + count) / (2 * count);
    assert 2 * count * r <= 2 * total + count < 2 * count * r + 2 * count;
    r
  }

  /** The months the entries cover. */
  ghost function Months(entries: seq<MonthAcc>): set<int>
  {
    set e | e in entries :: e.month
  }

  /** Each entry holds its month's total and count over the policies s. */
  ghost predicate Figures(entries: seq<MonthAcc>, s: seq<Policy>, monthOf: int -> int)
  {
    forall k :: 0 <= k < |entries| ==>
      entries[k].total == MonthTotal(s, monthOf, entries[k].month) &&
      entries[k].count == MonthCount(s, monthOf, entries[k].month)
  }

  /** The entries' months are exactly the months some policy of s starts in. */
  ghost predicate Covers(entries: seq<MonthAcc>, s: seq<Policy>, monthOf: int -> int)
  {
    forall m :: m in Months(entries) <==> MonthCount(s, monthOf, m) > 0
  }

  /** `dataMap` after some prefix s of the policies has been walked:
      one entry per month met so far, with that month's total and count,
      and (since each policy went into exactly one entry) the entries'
      totals add up to all premiums seen and their counts to the number of
      policies seen. */
  ghost predicate AccFor(entries: seq<MonthAcc>, s: seq<Policy>, monthOf: int -> int)
  {
    Seqs.DistinctKeys(entries, EntryMonth) &&
    Figures(entries, s, monthOf) &&
    Covers(entries, s, monthOf) &&
    Seqs.SumBy(entries, EntryTotal) == Seqs.SumBy(s, PolicyPremium) &&
    Seqs.SumBy(entries, EntryCount) == |s|
  }

  function HasMonth(m: int): MonthAcc -> bool
  {
    (e: MonthAcc) => e.month == m
  }

  lemma MonthsUpdate(entries: seq<MonthAcc>, j: int, e: MonthAcc)
    requires 0 <= j < |entries| && entries[j].month == e.month
    ensures Months(entries[j := e]) == Months(entries)
  {
    var r := entries[j := e];
    forall x | x in Months(r) ensures x in Months(entries) {
      var y :| y in r && y.month == x;
      var k :| 0 <= k < |r| && r[k] == y;
      assert entries[k].month == x;
    }
    forall x | x in Months(entries) ensures x in Months(r) {
      var y :| y in entries && y.month == x;
      var k :| 0 <= k < |entries| && entries[k] == y;
      assert r[k].month == x;
    }
  }

  /** Walking one more policy moves only its own month's total and count. */
  lemma StepSums(s: seq<Policy>, p: Policy, monthOf: int -> int)
    ensures forall x :: MonthTotal(s + [p], monthOf, x) ==
              MonthTotal(s, monthOf, x) + (if monthOf(p.startDate) == x then p.premiumAmount else 0)
    ensures forall x :: MonthCount(s + [p], monthOf, x) ==
              MonthCount(s, monthOf, x) + (if monthOf(p.startDate) == x then 1 else 0)
    ensures Seqs.SumBy(s + [p], PolicyPremium) == Seqs.SumBy(s, PolicyPremium) + p.premiumAmount
  {
    forall x
      ensures MonthTotal(s + [p], monthOf, x) ==
              MonthTotal(s, monthOf, x) + (if monthOf(p.startDate) == x then p.premiumAmount else 0)
      ensures MonthCount(s + [p], monthOf, x) ==
              MonthCount(s, monthOf, x) + (if monthOf(p.startDate) == x then 1 else 0)
    {
      Seqs.SumBySnoc(s, p, PremiumIn(monthOf, x));
      Seqs.SumBySnoc(s, p, OneIn(monthOf, x));
    }
    Seqs.SumBySnoc(s, p, PolicyPremium);
  }

  lemma FiguresNew(entries: seq<MonthAcc>, s: seq<Policy>, p: Policy, monthOf: int -> int)
    requires Figures(entries, s, monthOf)
    requires forall k :: 0 <= k < |entries| ==> entries[k].month != monthOf(p.startDate)
    requires MonthCount(s, monthOf, monthOf(p.startDate)) == 0
    requires MonthTotal(s, monthOf, monthOf(p.startDate)) == 0
    ensures Figures(entries + [MonthAcc(monthOf(p.startDate), p.premiumAmount, 1)], s + [p], monthOf)
  {
    var r := entries + [MonthAcc(monthOf(p.startDate), p.premiumAmount, 1)];
    StepSums(s, p, monthOf);
    assert forall k :: 0 <= k < |entries| ==> r[k] == entries[k];
  }

  lemma CoversNew(entries: seq<MonthAcc>, s: seq<Policy>, p: Policy, monthOf: int -> int)
    requires Covers(entries, s, monthOf)
    ensures Covers(entries + [MonthAcc(monthOf(p.startDate), p.premiumAmount, 1)], s + [p], monthOf)
  {
    var e := MonthAcc(monthOf(p.startDate), p.premiumAmount, 1);
    var r := entries + [e];
    StepSums(s, p, monthOf);
    CountFacts(s, monthOf, e.month);
    assert Months(r) == Months(entries) + {e.month} by {
      assert forall x :: x in r <==> x in entries || x == e;
    }
  }

  lemma DistinctNew(entries: seq<MonthAcc>, e: MonthAcc)
    requires Seqs.DistinctKeys(entries, EntryMonth)
    requires forall k :: 0 <= k < |entries| ==> entries[k].month != e.month
    ensures Seqs.DistinctKeys(entries + [e], EntryMonth)
  {
    var r := entries + [e];
    forall i, j | 0 <= i < j < |r| ensures r[i].month != r[j].month {
      if j < |entries| {
        assert r[i] == entries[i] && r[j] == entries[j];
      }
    }
  }

  /** The step for a month not met before: a fresh entry at the end. */
  lemma AccStepNew(entries: seq<MonthAcc>, s: seq<Policy>, p: Policy, monthOf: int -> int)
    requires AccFor(entries, s, monthOf)
    requires forall k :: 0 <= k < |entries| ==> entries[k].month != monthOf(p.startDate)
    ensures AccFor(entries + [MonthAcc(monthOf(p.startDate), p.premiumAmount, 1)], s + [p], monthOf)
  {
    var m := monthOf(p.startDate);
    var e := MonthAcc(m, p.premiumAmount, 1);
    assert forall x :: x in entries ==> x.month != m;
    assert m !in Months(entries);
    CountFacts(s, monthOf, m);
    FiguresNew(entries, s, p, monthOf);
    CoversNew(entries, s, p, monthOf);
    DistinctNew(entries, e);
    Seqs.SumBySnoc(entries, e, EntryTotal);
    Seqs.SumBySnoc(entries, e, EntryCount);
    Seqs.SumBySnoc(s, p, PolicyPremium);
  }

  lemma FiguresOld(entries: seq<MonthAcc>, s: seq<Policy>, p: Policy, monthOf: int -> int, j: int)
    requires Figures(entries, s, monthOf)
    requires 0 <= j < |entries| && entries[j].month == monthOf(p.startDate)
    requires forall k :: 0 <= k < |entries| && k != j ==> entries[k].month != monthOf(p.startDate)
    ensures Figures(entries[j := MonthAcc(entries[j].month, entries[j].total + p.premiumAmount,
                                          entries[j].count + 1)], s + [p], monthOf)
  {
    StepSums(s, p, monthOf);
  }

  lemma CoversOld(entries: seq<MonthAcc>, s: seq<Policy>, p: Policy, monthOf: int -> int, j: int)
    requires Covers(entries, s, monthOf)
    requires 0 <= j < |entries| && entries[j].month == monthOf(p.startDate)
    ensures Covers(entries[j := MonthAcc(entries[j].month, entries[j].total + p.premiumAmount,
                                         entries[j].count + 1)], s + [p], monthOf)
  {
    var m := monthOf(p.startDate);
    var r := entries[j := MonthAcc(m, entries[j].total + p.premiumAmount, entries[j].count + 1)];
    StepSums(s, p, monthOf);
    MonthsUpdate(entries, j, r[j]);
    assert entries[j] in entries;
  }

  lemma DistinctOld(entries: seq<MonthAcc>, j: int, e: MonthAcc)
    requires Seqs.DistinctKeys(entries, EntryMonth)
    requires 0 <= j < |entries| && entries[j].month == e.month
    ensures Seqs.DistinctKeys(entries[j := e], EntryMonth)
    ensures forall k :: 0 <= k < |entries| && k != j ==> entries[k].month != e.month
  {
  }

  /** The step for a month already met: its entry at j grows in place. */
  lemma AccStepOld(entries: seq<MonthAcc>, s: seq<Policy>, p: Policy, monthOf: int -> int, j: int)
    requires AccFor(entries, s, monthOf)
    requires 0 <= j < |entries| && entries[j].month == monthOf(p.startDate)
    ensures AccFor(entries[j := MonthAcc(entries[j].month, entries[j].total + p.premiumAmount,
                                         entries[j].count + 1)], s + [p], monthOf)
  {
    var e := MonthAcc(entries[j].month, entries[j].total + p.premiumAmount, entries[j].count + 1);
    DistinctOld(entries, j, e);
    FiguresOld(entries, s, p, monthOf, j);
    CoversOld(entries, s, p, monthOf, j);
    Seqs.SumByUpdate(entries, j, e, EntryTotal);
    Seqs.SumByUpdate(entries, j, e, EntryCount);
    Seqs.SumBySnoc(s, p, PolicyPremium);
  }

  /** Before the walk `dataMap` is empty, which is right for no policies. */
  lemma AccForEmpty(monthOf: int -> int)
    ensures AccFor([], [], monthOf)
  {
    assert forall m :: MonthCount([], monthOf, m) == 0;
  }

  /** The `forEach` callback: the policy's premium and one more policy go
      into the entry of its month, a fresh entry at the end when the month
      has none yet. */
  method AddPolicy(entries: seq<MonthAcc>, p: Policy, monthOf: int -> int, ghost seen: seq<Policy>)
    returns (next: seq<MonthAcc>)
    requires AccFor(entries, seen, monthOf)
    ensures AccFor(next, seen + [p], monthOf)
  {
    var m := monthOf(p.startDate);
    var j := Seqs.FindIndex(entries, HasMonth(m));
    if j == -1 {
      AccStepNew(entries, seen, p, monthOf);
      next := entries + [MonthAcc(m, p.premiumAmount, 1)];
    } else {
      AccStepOld(entries, seen, p, monthOf, j);
      next := entries[j := MonthAcc(m, entries[j].total + p.premiumAmount, entries[j].count + 1)];
    }
  }

  /** The `policies.forEach` loop filling `dataMap`; the entries come out
      in the order their months were first met, as `Object.entries` gives them. */
  method Accumulate(policies: seq<Policy>, monthOf: int -> int) returns (entries: seq<MonthAcc>)
    ensures AccFor(entries, policies, monthOf)
  {
    entries := [];
    var i := 0;
    ghost var seen: seq<Policy> := [];
    AccForEmpty(monthOf);
    while i < |policies|
      invariant 0 <= i <= |policies|
      invariant seen == policies[..i]
      invariant AccFor(entries, seen, monthOf)
    {
      entries := AddPolicy(entries, policies[i], monthOf, seen);
      seen := seen + [policies[i]];
      assert policies[..i + 1] == policies[..i] + [policies[i]];
      i := i + 1;
    }
    assert seen == policies;
  }

  /** `.map(([date, data]) => ({...}))` on one entry. */
  function ToPoint(e: MonthAcc): TrendPoint
    requires e.count > 0
  {
    TrendPoint(e.month, e.total, RoundHalfUp(e.total, e.count), e.count)
  }

  function Project(entries: seq<MonthAcc>): (r: seq<TrendPoint>)
    requires forall k :: 0 <= k < |entries| ==> entries[k].count > 0
    ensures |r| == |entries|
    ensures forall k :: 0 <= k < |entries| ==> r[k] == ToPoint(entries[k])
  {
    if entries == [] then [] else [ToPoint(entries[0])] + Project(entries[1..])
  }

  lemma {:induction false} ProjectSum(entries: seq<MonthAcc>)
    requires forall k :: 0 <= k < |entries| ==> entries[k].count > 0
    ensures Seqs.SumBy(Project(entries), PointTotal) == Seqs.SumBy(entries, EntryTotal)
    ensures Seqs.SumBy(Project(entries), PointCount) == Seqs.SumBy(entries, EntryCount)
  {
    if entries != [] {
      ProjectSum(entries[1..]);
      Seqs.SumByFirst(entries, EntryTotal);
      Seqs.SumByFirst(Project(entries), PointTotal);
      Seqs.SumByFirst(entries, EntryCount);
      Seqs.SumByFirst(Project(entries), PointCount);
      assert Project(entries)[1..] == Project(entries[1..]);
    }
  }

  ghost function Dates(points: seq<TrendPoint>): set<int>
  {
    set pt | pt in points :: pt.date
  }

  ghost predicate StrictlyByDate(points: seq<TrendPoint>)
  {
    forall i, j :: 0 <= i < j < |points| ==> points[i].date < points[j].date
  }

  /** The figures one chart point must show for its month. */
  ghost predicate PointFor(pt: TrendPoint, policies: seq<Policy>, monthOf: int -> int)
  {
    pt.totalPremium == MonthTotal(policies, monthOf, pt.date) &&
    pt.policyCount == MonthCount(policies, monthOf, pt.date) &&
    pt.policyCount > 0 &&
    pt.averagePremium == RoundHalfUp(pt.totalPremium, pt.policyCount)
  }

  /** What `processData` returns: one point per month having a policy, no
      other point, months strictly increasing, and each point's figures
      those of its month. */
  ghost predicate IsTrendSeries(points: seq<TrendPoint>, policies: seq<Policy>, monthOf: int -> int)
  {
    StrictlyByDate(points) &&
    (forall m :: m in Dates(points) <==> MonthCount(policies, monthOf, m) > 0) &&
    (forall k :: 0 <= k < |points| ==> PointFor(points[k], policies, monthOf))
  }

  /** `data.reduce((sum, item) => sum + item.totalPremium, 0)` */
  function TotalPremiums(points: seq<TrendPoint>): (r: int)
    ensures points == [] ==> r == 0
    ensures (forall k :: 0 <= k < |points| ==> points[k].totalPremium >= 0) ==>
              r >= 0 && forall k :: 0 <= k < |points| ==> points[k].totalPremium <= r
  {
    Seqs.SumByNonNegative(points, PointTotal);
    Seqs.SumBy(points, PointTotal)
  }

  lemma CountsPositive(entries: seq<MonthAcc>, policies: seq<Policy>, monthOf: int -> int)
    requires Figures(entries, policies, monthOf) && Covers(entries, policies, monthOf)
    ensures forall k :: 0 <= k < |entries| ==> entries[k].count > 0
  {
    forall k | 0 <= k < |entries| ensures entries[k].count > 0 {
      assert entries[k].month in Months(entries);
    }
  }

  lemma ProjectDistinct(entries: seq<MonthAcc>)
    requires forall k :: 0 <= k < |entries| ==> entries[k].count > 0
    requires Seqs.DistinctKeys(entries, EntryMonth)
    ensures Seqs.DistinctKeys(Project(entries), PointDate)
  {
  }

  lemma ProjectDates(entries: seq<MonthAcc>)
    requires forall k :: 0 <= k < |entries| ==> entries[k].count > 0
    ensures Dates(Project(entries)) == Months(entries)
  {
  }

  lemma ProjectPoints(entries: seq<MonthAcc>, policies: seq<Policy>, monthOf: int -> int)
    requires forall k :: 0 <= k < |entries| ==> entries[k].count > 0
    requires Figures(entries, policies, monthOf)
    ensures forall pt :: pt in Project(entries) ==> PointFor(pt, policies, monthOf)
  {
  }

  /** Two arrangements of the same points have the same points and dates. */
  lemma SameElements(a: seq<TrendPoint>, b: seq<TrendPoint>)
    requires multiset(a) == multiset(b)
    ensures forall pt :: pt in a <==> pt in b
    ensures Dates(a) == Dates(b)
  {
    forall pt ensures pt in a <==> pt in b {
      assert pt in a <==> pt in multiset(a);
      assert pt in b <==> pt in multiset(b);
    }
  }

  /** Sorting points with distinct months by month makes the months
      strictly increasing. */
  lemma SortedStrict(pts: seq<TrendPoint>)
    requires Seqs.DistinctKeys(pts, PointDate)
    ensures StrictlyByDate(Seqs.SortByKey(pts, PointDate))
  {
    var points := Seqs.SortByKey(pts, PointDate);
    Seqs.SortKeepsDistinct(pts, PointDate);
    forall i, j | 0 <= i < j < |points| ensures points[i].date < points[j].date {
      assert PointDate(points[i]) <= PointDate(points[j]);
      assert PointDate(points[i]) != PointDate(points[j]);
    }
  }

  /** Sorting by month points with distinct months that are right for
      their month gives the series. */
  lemma SortedSeries(pts: seq<TrendPoint>, policies: seq<Policy>, monthOf: int -> int)
    requires Seqs.DistinctKeys(pts, PointDate)
    requires forall m :: m in Dates(pts) <==> MonthCount(policies, monthOf, m) > 0
    requires forall pt :: pt in pts ==> PointFor(pt, policies, monthOf)
    ensures IsTrendSeries(Seqs.SortByKey(pts, PointDate), policies, monthOf)
  {
    var points := Seqs.SortByKey(pts, PointDate);
    SortedStrict(pts);
    SameElements(points, pts);
    forall k | 0 <= k < |points| ensures PointFor(points[k], policies, monthOf) {
      assert points[k] in pts;
    }
  }

  lemma SortedSum(pts: seq<TrendPoint>)
    ensures TotalPremiums(Seqs.SortByKey(pts, PointDate)) == TotalPremiums(pts)
    ensures Seqs.SumBy(Seqs.SortByKey(pts, PointDate), PointCount) == Seqs.SumBy(pts, PointCount)
  {
    Seqs.SumByPerm(Seqs.SortByKey(pts, PointDate), pts, PointTotal);
    Seqs.SumByPerm(Seqs.SortByKey(pts, PointDate), pts, PointCount);
  }

  lemma SeriesFromEntries(entries: seq<MonthAcc>, policies: seq<Policy>, monthOf: int -> int)
    requires AccFor(entries, policies, monthOf)
    ensures forall k :: 0 <= k < |entries| ==> entries[k].count > 0
    ensures IsTrendSeries(Seqs.SortByKey(Project(entries), PointDate), policies, monthOf)
    ensures TotalPremiums(Seqs.SortByKey(Project(entries), PointDate)) == Seqs.SumBy(policies, PolicyPremium)
    ensures Seqs.SumBy(Seqs.SortByKey(Project(entries), PointDate), PointCount) == |policies|
  {
    CountsPositive(entries, policies, monthOf);
    ProjectDistinct(entries);
    ProjectDates(entries);
    ProjectPoints(entries, policies, monthOf);
    SortedSeries(Project(entries), policies, monthOf);
    ProjectSum(entries);
    SortedSum(Project(entries));
  }

  /** `processData()`: the chart's points, and the "Total Premiums" figure
      they add up to, which is the sum of all the policies' premiums; their
      policy counts add up to the number of policies. */
  method ProcessData(policies: seq<Policy>, monthOf: int -> int) returns (points: seq<TrendPoint>)
    ensures IsTrendSeries(points, policies, monthOf)
    ensures TotalPremiums(points) == Seqs.SumBy(policies, PolicyPremium)
    ensures Seqs.SumBy(points, PointCount) == |policies|
  {
    var entries := Accumulate(policies, monthOf);
    SeriesFromEntries(entries, policies, monthOf);
    points := Seqs.SortByKey(Project(entries), PointDate);
  }

  lemma DropFirst(a: seq<TrendPoint>)
    requires a != [] && StrictlyByDate(a)
    ensures StrictlyByDate(a[1..])
    ensures Dates(a[1..]) == Dates(a) - {a[0].date}
    ensures forall x :: x in Dates(a) ==> a[0].date <= x
  {
    assert forall pt :: pt in a <==> pt == a[0] || pt in a[1..];
    forall x | x in Dates(a) ensures a[0].date <= x {
      var pt :| pt in a && pt.date == x;
      var k :| 0 <= k < |a| && a[k] == pt;
    }
    forall pt | pt in a[1..] ensures pt.date != a[0].date {
      var k :| 0 <= k < |a| - 1 && a[1..][k] == pt;
      assert a[k + 1] == pt;
    }
  }

  /** A point sequence is empty exactly when it has no dates. */
  lemma NoDates(a: seq<TrendPoint>)
    ensures a == [] <==> Dates(a) == {}
  {
    if a != [] {
      assert a[0] in a;
      assert a[0].date in Dates(a);
    }
  }

  /** Two strictly increasing runs of months over the same months agree
      position by position. */
  lemma {:induction false} StrictSameDates(a: seq<TrendPoint>, b: seq<TrendPoint>)
    requires StrictlyByDate(a) && StrictlyByDate(b) && Dates(a) == Dates(b)
    ensures |a| == |b|
    ensures forall k :: 0 <= k < |a| ==> a[k].date == b[k].date
    decreases |a| + |b|
  {
    NoDates(a);
    NoDates(b);
    if a != [] {
      DropFirst(a);
      DropFirst(b);
      assert a[0] in a && b[0] in b;
      assert a[0].date in Dates(a) && b[0].date in Dates(b);
      assert a[0].date == b[0].date;
      StrictSameDates(a[1..], b[1..]);
      forall k | 0 <= k < |a| ensures a[k].date == b[k].date {
        if k > 0 {
          assert a[k] == a[1..][k - 1] && b[k] == b[1..][k - 1];
        }
      }
    }
  }

  /** `processData` is fully specified: at most one sequence of points is
      a trend series for the given policies. */
  lemma TrendSeriesUnique(a: seq<TrendPoint>, b: seq<TrendPoint>, policies: seq<Policy>, monthOf: int -> int)
    requires IsTrendSeries(a, policies, monthOf) && IsTrendSeries(b, policies, monthOf)
    ensures a == b
  {
    assert Dates(a) == Dates(b);
    StrictSameDates(a, b);
    assert forall k :: 0 <= k < |a| ==> PointFor(a[k], policies, monthOf) && PointFor(b[k], policies, monthOf);
  }

  /** Each month's figures depend only on which policies there are, not on
      their order; with uniqueness, neither does the chart. */
  lemma TrendSeriesReorder(points: seq<TrendPoint>, p1: seq<Policy>, p2: seq<Policy>, monthOf: int -> int)
    requires multiset(p1) == multiset(p2)
    ensures IsTrendSeries(points, p1, monthOf) <==> IsTrendSeries(points, p2, monthOf)
  {
    forall m
      ensures MonthTotal(p1, monthOf, m) == MonthTotal(p2, monthOf, m)
      ensures MonthCount(p1, monthOf, m) == MonthCount(p2, monthOf, m)
    {
      Seqs.SumByPerm(p1, p2, PremiumIn(monthOf, m));
      Seqs.SumByPerm(p1, p2, OneIn(monthOf, m));
    }
  }

  /** The "Average Premium" figure, `Math.round(totalPremiums / policies.length)`;
      with no policies the division gives NaN, here None. */
  function HeadlineAverage(total: int, policyCount: nat): (r: Option<int>)
    ensures r.None? <==> policyCount == 0
    ensures r.Some? ==> 2 * policyCount * r.value - policyCount <= 2 * total < 2 * policyCount * r.value + policyCount
  {
    if policyCount == 0 then None else Some(RoundHalfUp(total, policyCount))
  }

  function FixturePolicy(id: int, t: PolicyType, start: int, premium: int): Policy
  {
    Policy(id, t, Active, "", start, start, "", premium, "")
  }

  lemma SumOfThree<T>(s: seq<T>, f: T -> int)
    requires |s| == 3
    ensures Seqs.SumBy(s, f) == f(s[0]) + f(s[1]) + f(s[2])
  {
    assert Seqs.SumBy(s, f) == Seqs.SumBy(s[..2], f) + f(s[2]);
    assert s[..2][..1] == s[..1];
    assert Seqs.SumBy(s[..2], f) == Seqs.SumBy(s[..1], f) + f(s[1]);
    assert s[..1][..0] == [];
    assert Seqs.SumBy(s[..1], f) == f(s[0]);
  }

  function Fixture(jan15: int, jan20: int, feb1: int): seq<Policy>
  {
    [FixturePolicy(1, Health, jan15, 1000), FixturePolicy(2, Auto, jan20, 800),
     FixturePolicy(3, Health, feb1, 1200)]
  }

  lemma FixtureSeries(monthOf: int -> int, jan15: int, jan20: int, feb1: int)
    requires monthOf(jan15) == 202401 && monthOf(jan20) == 202401 && monthOf(feb1) == 202402
    ensures IsTrendSeries([TrendPoint(202401, 1800, 900, 2), TrendPoint(202402, 1200, 1200, 1)],
                          Fixture(jan15, jan20, feb1), monthOf)
  {
    var policies := Fixture(jan15, jan20, feb1);
    var expected := [TrendPoint(202401, 1800, 900, 2), TrendPoint(202402, 1200, 1200, 1)];
    forall m
      ensures MonthTotal(policies, monthOf, m) ==
                PremiumIn(monthOf, m)(policies[0]) + PremiumIn(monthOf, m)(policies[1]) +
                PremiumIn(monthOf, m)(policies[2])
      ensures MonthCount(policies, monthOf, m) ==
                OneIn(monthOf, m)(policies[0]) + OneIn(monthOf, m)(policies[1]) +
                OneIn(monthOf, m)(policies[2])
    {
      SumOfThree(policies, PremiumIn(monthOf, m));
      SumOfThree(policies, OneIn(monthOf, m));
    }
    assert expected[0] in expected && expected[1] in expected;
    assert Dates(expected) == {202401, 202402};
  }

  /** The chart's own example: 1000 and 800 starting in January 2024 and
      1200 in February give the points (2024-01, 1800, 900, 2) and
      (2024-02, 1200, 1200, 1), a $3,000 total and a $1,000 average. */
  lemma JanuaryFebruaryExample(points: seq<TrendPoint>, monthOf: int -> int, jan15: int, jan20: int, feb1: int)
    requires monthOf(jan15) == 202401 && monthOf(jan20) == 202401 && monthOf(feb1) == 202402
    requires IsTrendSeries(points, Fixture(jan15, jan20, feb1), monthOf)
    ensures points == [TrendPoint(202401, 1800, 900, 2), TrendPoint(202402, 1200, 1200, 1)]
    ensures TotalPremiums(points) == 3000
    ensures HeadlineAverage(TotalPremiums(points), 3) == Some(1000)
  {
    var expected := [TrendPoint(202401, 1800, 900, 2), TrendPoint(202402, 1200, 1200, 1)];
    FixtureSeries(monthOf, jan15, jan20, feb1);
    TrendSeriesUnique(points, expected, Fixture(jan15, jan20, feb1), monthOf);
    assert TotalPremiums(expected) == Seqs.SumBy(expected[..1], PointTotal) + 1200;
    assert expected[..1][..0] == [];
    assert Seqs.SumBy(expected[..1], PointTotal) == 1800;
    assert RoundHalfUp(3000, 3) == 1000;
    assert HeadlineAverage(3000, 3) == Some(1000);
  }
}
