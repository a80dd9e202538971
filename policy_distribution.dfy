/** The policy-distribution chart's data: per policy type, how many
    policies and how much premium, and each type's share of all policies;
    and the label the chart prints for a share. Shares are exact reals. */
module PolicyDistribution {
  import opened Domain
  import Seqs
  import Text

  /** One `typeData` record: `{count, totalPremium}`. */
  datatype Tally = Tally(count: int, totalPremium: int)

  /** One chart entry: `{name, value, premium, percentage}`. */
  datatype Slice = Slice(name: PolicyType, value: int, premium: int, percentage: real)

  function OneOf(t: PolicyType): Policy -> int
  {
    (p: Policy) => if p.policyType == t then 1 else 0
  }

  function PremiumOf(t: PolicyType): Policy -> int
  {
    (p: Policy) => if p.policyType == t then p.premiumAmount else 0
  }

  function PolicyPremium(p: Policy): int { p.premiumAmount }

  /** How many of the policies have type t. */
  function TypeCount(s: seq<Policy>, t: PolicyType): int
  {
    Seqs.SumBy(s, OneOf(t))
  }

  /** The premiums of the policies of type t, added up. */
  function TypePremium(s: seq<Policy>, t: PolicyType): int
  {
    Seqs.SumBy(s, PremiumOf(t))
  }

  /** What `typeData` holds once the policies s have been walked. */
  function TallyFor(s: seq<Policy>): map<PolicyType, Tally>
  {
    map[Health := Tally(TypeCount(s, Health), TypePremium(s, Health)),
        Auto := Tally(TypeCount(s, Auto), TypePremium(s, Auto)),
        Home := Tally(TypeCount(s, Home), TypePremium(s, Home))]
  }

  /** Every type's count grows by one exactly when the new policy has it. */
  lemma TallyStep(s: seq<Policy>, p: Policy)
    ensures forall t :: TypeCount(s + [p], t) == TypeCount(s, t) + (if p.policyType == t then 1 else 0)
    ensures forall t :: TypePremium(s + [p], t) ==
              TypePremium(s, t) + (if p.policyType == t then p.premiumAmount else 0)
  {
    forall t
      ensures TypeCount(s + [p], t) == TypeCount(s, t) + (if p.policyType == t then 1 else 0)
      ensures TypePremium(s + [p], t) ==
              TypePremium(s, t) + (if p.policyType == t then p.premiumAmount else 0)
    {
      Seqs.SumBySnoc(s, p, OneOf(t));
      Seqs.SumBySnoc(s, p, PremiumOf(t));
    }
  }

  /** One `forEach` step on the tally map: only the policy's own type moves. */
  lemma TallyForStep(s: seq<Policy>, p: Policy)
    ensures var m := TallyFor(s);
            var t := m[p.policyType];
            TallyFor(s + [p]) == m[p.policyType := Tally(t.count + 1, t.totalPremium + p.premiumAmount)]
  {
    TallyStep(s, p);
  }

  /** `totalPolicies > 0 ? (count / totalPolicies) * 100 : 0` */
  function Percentage(count: int, totalPolicies: int): (r: real)
    ensures totalPolicies <= 0 ==> r == 0.0
    ensures totalPolicies > 0 ==> r * totalPolicies as real == 100.0 * count as real
  {
    if totalPolicies > 0 then (count as real / totalPolicies as real) * 100.0 else 0.0
  }

  function ToSlice(t: PolicyType, tally: Tally, totalPolicies: int): Slice
  {
    Slice(t, tally.count, tally.totalPremium, Percentage(tally.count, totalPolicies))
  }

  /** `processData()`: the `forEach` loop over the policies, then
      `Object.entries(typeData).map(...)`, whose order is the record's
      own order Health, Auto, Home. */
  method ProcessDistribution(policies: seq<Policy>) returns (slices: seq<Slice>)
    ensures |slices| == 3
    ensures slices[0].name == Health && slices[1].name == Auto && slices[2].name == Home
    ensures forall k :: 0 <= k < 3 ==>
              slices[k].value == TypeCount(policies, slices[k].name) &&
              slices[k].premium == TypePremium(policies, slices[k].name) &&
              slices[k].percentage == Percentage(slices[k].value, |policies|)
  {
    var typeData := map[Health := Tally(0, 0), Auto := Tally(0, 0), Home := Tally(0, 0)];
    var i := 0;
    while i < |policies|
      invariant 0 <= i <= |policies|
      invariant typeData == TallyFor(policies[..i])
    {
      var p := policies[i];
      TallyForStep(policies[..i], p);
      assert policies[..i + 1] == policies[..i] + [p];
      var t := typeData[p.policyType];
      typeData := typeData[p.policyType := Tally(t.count + 1, t.totalPremium + p.premiumAmount)];
      i := i + 1;
    }
    assert policies[..i] == policies;
    var total := |policies|;
    slices := [ToSlice(Health, typeData[Health], total), ToSlice(Auto, typeData[Auto], total),
               ToSlice(Home, typeData[Home], total)];
  }

  /** The three values add up to `policies.length`, and the three premiums
      to all premiums: each policy is counted under exactly one type. */
  lemma {:induction false} TypesPartition(s: seq<Policy>)
    ensures TypeCount(s, Health) + TypeCount(s, Auto) + TypeCount(s, Home) == |s|
    ensures TypePremium(s, Health) + TypePremium(s, Auto) + TypePremium(s, Home) ==
            Seqs.SumBy(s, PolicyPremium)
    ensures TypeCount(s, Health) >= 0 && TypeCount(s, Auto) >= 0 && TypeCount(s, Home) >= 0
  {
    if s != [] {
      var init := s[..|s| - 1];
      TypesPartition(init);
      assert s == init + [s[|s| - 1]];
      TallyStep(init, s[|s| - 1]);
      Seqs.SumBySnoc(init, s[|s| - 1], PolicyPremium);
    }
  }

  lemma ShareSum(h: real, a: real, o: real, n: real)
    requires n > 0.0 && h + a + o == n
    ensures (h / n) * 100.0 + (a / n) * 100.0 + (o / n) * 100.0 == 100.0
  {
    assert h / n + a / n + o / n == (h + a + o) / n;
  }

  /** With at least one policy, the three shares make 100 percent. */
  lemma PercentagesSum(s: seq<Policy>)
    requires |s| > 0
    ensures Percentage(TypeCount(s, Health), |s|) + Percentage(TypeCount(s, Auto), |s|) +
            Percentage(TypeCount(s, Home), |s|) == 100.0
  {
    TypesPartition(s);
    ShareSum(TypeCount(s, Health) as real, TypeCount(s, Auto) as real, TypeCount(s, Home) as real,
             |s| as real);
  }

  /** A share lies between 0 and 100. */
  lemma PercentageBounds(count: int, totalPolicies: int)
    requires 0 <= count <= totalPolicies
    ensures 0.0 <= Percentage(count, totalPolicies) <= 100.0
  {
    if totalPolicies > 0 {
      var r := Percentage(count, totalPolicies);
      assert r * totalPolicies as real <= 100.0 * totalPolicies as real;
    }
  }

  /** `Number.prototype.toFixed(1)` on a non-negative number: the nearest
      tenth, ties going up, as a whole part, a point and one digit. */
  function Tenths(x: real): (n: int)
    requires x >= 0.0
    ensures n >= 0
    ensures n as real - 0.5 <= 10.0 * x < n as real + 0.5
  {
    (10.0 * x + 0.5).Floor
  }

  /** t spells the tenths count n with one decimal: the whole part n / 10
      written without leading zeros, a point, and the digit n % 10. */
  predicate ShowsTenths(t: string, n: int)
  {
    |t| >= 3 && t[|t| - 2] == '.' && Text.IsCanonicalDigits(t[..|t| - 2]) &&
    Text.DigitsValue(t[..|t| - 2]) == n / 10 &&
    '0' <= t[|t| - 1] <= '9' && t[|t| - 1] as int - '0' as int == n % 10
  }

  /** At most one string spells a given tenths count. */
  lemma ShowsTenthsUnique(a: string, b: string, n: int)
    requires ShowsTenths(a, n) && ShowsTenths(b, n)
    ensures a == b
  {
    var wa, wb := a[..|a| - 2], b[..|b| - 2];
    Text.CanonicalDigitsRoundTrip(wa);
    Text.CanonicalDigitsRoundTrip(wb);
    assert |a| == |b|;
    forall i | 0 <= i < |a| ensures a[i] == b[i] {
      if i < |a| - 2 {
        assert a[i] == wa[i] && b[i] == wb[i];
      }
    }
  }

  /** `toFixed(1)` on a non-negative number: its tenths count, spelled out. */
  function FixedOne(x: real): (r: string)
    requires x >= 0.0
    ensures ShowsTenths(r, Tenths(x))
  {
    var n := Tenths(x);
    var whole := Text.IntToString(n / 10);
    var r := whole + "." + [Text.DigitChar(n % 10)];
    assert r[..|r| - 2] == whole;
    Text.IntToStringRoundTrip(n / 10);
    r
  }

  /** `value.toFixed(1)`; a negative number gets a minus sign in front of
      the spelling of its magnitude. */
  function ToFixed1(x: real): (r: string)
    ensures |r| >= 3
    ensures x >= 0.0 ==> ShowsTenths(r, Tenths(x))
    ensures x < 0.0 ==> r[0] == '-' && ShowsTenths(r[1..], Tenths(-x))
  {
    if x < 0.0 then
      var m := FixedOne(-x);
      assert ("-" + m)[1..] == m;
      "-" + m
    else FixedOne(x)
  }

  /** `formatPercentage(value)` for a chart over `policyCount` policies. */
  function FormatPercentage(value: real, policyCount: int): (r: string)
    ensures policyCount == 0 ==> r == "No policies"
    ensures policyCount != 0 && value == 0.0 ==> r == "0%"
    ensures policyCount != 0 && value != 0.0 ==> r == ToFixed1(value) + "%"
  {
    if policyCount == 0 then "No policies"
    else if value == 0.0 then "0%"
    else ToFixed1(value) + "%"
  }

  /** An empty policy list: three zero entries, every label "No policies". */
  lemma EmptyDistribution(t: PolicyType)
    ensures TypeCount([], t) == 0 && TypePremium([], t) == 0
    ensures Percentage(TypeCount([], t), 0) == 0.0
    ensures FormatPercentage(Percentage(TypeCount([], t), 0), 0) == "No policies"
  {
  }

  function FixturePolicy(id: int, t: PolicyType, premium: int): Policy
  {
    Policy(id, t, Active, "", 0, 0, "", premium, "")
  }

  lemma SumOfFour<T>(s: seq<T>, f: T -> int)
    requires |s| == 4
    ensures Seqs.SumBy(s, f) == f(s[0]) + f(s[1]) + f(s[2]) + f(s[3])
  {
    assert Seqs.SumBy(s, f) == Seqs.SumBy(s[..3], f) + f(s[3]);
    assert s[..3][..2] == s[..2];
    assert Seqs.SumBy(s[..3], f) == Seqs.SumBy(s[..2], f) + f(s[2]);
    assert s[..2][..1] == s[..1];
    assert Seqs.SumBy(s[..2], f) == Seqs.SumBy(s[..1], f) + f(s[1]);
    assert s[..1][..0] == [];
    assert Seqs.SumBy(s[..1], f) == f(s[0]);
  }

  function Fixture(): seq<Policy>
  {
    [FixturePolicy(1, Health, 1000), FixturePolicy(2, Health, 1200),
     FixturePolicy(3, Auto, 800), FixturePolicy(4, Home, 1500)]
  }

  /** The chart's own example: two Health policies, one Auto, one Home
      give 2, 1 and 1 policies, labelled "50.0%", "25.0%" and "25.0%". */
  lemma TwoHealthOneAutoOneHome()
    ensures TypeCount(Fixture(), Health) == 2 && TypeCount(Fixture(), Auto) == 1
    ensures TypeCount(Fixture(), Home) == 1 && TypePremium(Fixture(), Health) == 2200
    ensures FormatPercentage(Percentage(TypeCount(Fixture(), Health), 4), 4) == "50.0%"
    ensures FormatPercentage(Percentage(TypeCount(Fixture(), Auto), 4), 4) == "25.0%"
    ensures FormatPercentage(Percentage(TypeCount(Fixture(), Home), 4), 4) == "25.0%"
  {
    var s := Fixture();
    SumOfFour(s, OneOf(Health));
    SumOfFour(s, OneOf(Auto));
    SumOfFour(s, OneOf(Home));
    SumOfFour(s, PremiumOf(Health));
    LabelFifty();
    LabelTwentyFive();
  }

  lemma LabelFifty()
    ensures FormatPercentage(Percentage(2, 4), 4) == "50.0%"
  {
    assert Percentage(2, 4) == 50.0;
    assert Tenths(50.0) == 500;
    assert Text.Digits(5) == "5";
    assert Text.IntToString(50) == "50";
  }

  lemma LabelTwentyFive()
    ensures FormatPercentage(Percentage(1, 4), 4) == "25.0%"
  {
    assert Percentage(1, 4) == 25.0;
    assert Tenths(25.0) == 250;
    assert Text.Digits(2) == "2";
    assert Text.IntToString(25) == "25";
  }
}
