/** The claim-history page's derived data: the claims the search box and
    the type selector let through, the selector's options, and the colour
    classes of a status badge. */
module ClaimHistoryView {
  import opened Domain
  import Seqs
  import Text

  /** `matchesSearch`: the term (lower-cased) occurs in the lower-cased
      claim type or description, or the term as typed occurs in the id's
      decimal digits. */
  predicate MatchesSearch(c: Claim, searchTerm: string)
    ensures searchTerm == "" ==> MatchesSearch(c, searchTerm)
  {
    var term := Text.ToLower(searchTerm);
    Text.Contains(Text.ToLower(c.claimType), term) ||
    Text.Contains(Text.IntToString(c.id), searchTerm) ||
    Text.Contains(Text.ToLower(c.description), term)
  }

  /** `matchesType`: "all", or exactly the lower-cased claim type; so a
      selection holding a capital letter lets no claim through. */
  predicate MatchesType(c: Claim, selectedType: string)
    ensures selectedType == "all" ==> MatchesType(c, selectedType)
    ensures (exists i :: 0 <= i < |selectedType| && 'A' <= selectedType[i] <= 'Z') ==>
              !MatchesType(c, selectedType)
  {
    selectedType == "all" || Text.ToLower(c.claimType) == selectedType
  }

  /** The search ignores case: the id's digits hold no letter, and the type
      and description are compared lower-cased on both sides. */
  lemma SearchIgnoresCase(c: Claim, searchTerm: string)
    ensures MatchesSearch(c, searchTerm) <==> MatchesSearch(c, Text.ToLower(searchTerm))
  {
    Text.ToLowerIdempotent(searchTerm);
    Text.ContainsLowerInLetterFree(Text.IntToString(c.id), searchTerm);
  }

  function Keeps(searchTerm: string, selectedType: string): Claim -> bool
  {
    (c: Claim) => MatchesSearch(c, searchTerm) && MatchesType(c, selectedType)
  }

  /** `filteredClaims` */
  function FilterClaims(claims: seq<Claim>, searchTerm: string, selectedType: string): (r: seq<Claim>)
    ensures forall c :: c in r ==> c in claims && MatchesSearch(c, searchTerm) && MatchesType(c, selectedType)
    ensures forall c :: c in claims && MatchesSearch(c, searchTerm) && MatchesType(c, selectedType) ==> c in r
    ensures Seqs.IsSubsequence(r, claims)
    ensures forall i :: 0 <= i < |claims| ==>
              multiset(r)[claims[i]] ==
                if MatchesSearch(claims[i], searchTerm) && MatchesType(claims[i], selectedType)
                then multiset(claims)[claims[i]] else 0
  {
    Seqs.FilterCount(claims, Keeps(searchTerm, selectedType));
    Seqs.Filter(claims, Keeps(searchTerm, selectedType))
  }

  /** An empty search with "all" selected shows every claim. */
  lemma ShowAllInitially(claims: seq<Claim>)
    ensures FilterClaims(claims, "", "all") == claims
  {
    assert forall c :: c in claims ==> Text.Contains(Text.ToLower(c.claimType), "");
    Seqs.FilterAll(claims, Keeps("", "all"));
  }

  /** Narrowing the type keeps a subsequence of what "all" shows. */
  lemma SelectingNarrows(claims: seq<Claim>, searchTerm: string, selectedType: string)
    ensures Seqs.IsSubsequence(FilterClaims(claims, searchTerm, selectedType),
                               FilterClaims(claims, searchTerm, "all"))
  {
    Seqs.FilterWeaker(claims, Keeps(searchTerm, selectedType), Keeps(searchTerm, "all"));
  }

  function WaterDamage(): Claim
  {
    Claim(1, 1, 1, "Home", "Water damage", ["test.pdf"], Approved, "2024-01-01T10:00:00Z",
          [HistoryEntry("Submitted", "2024-01-01T10:00:00Z", "Initial submission")])
  }

  function CarAccident(): Claim
  {
    Claim(2, 1, 2, "Auto", "Car accident", ["accident.jpg"], UnderReview, "2024-01-02T10:00:00Z",
          [HistoryEntry("Submitted", "2024-01-02T10:00:00Z", "Initial submission")])
  }

  lemma NotContainedLonger(s: string, t: string)
    requires |s| < |t|
    ensures !Text.Contains(s, t)
  {
  }

  lemma WaterDamageMisses()
    ensures !MatchesSearch(WaterDamage(), "car accident")
  {
    var term := "car accident";
    Text.ToLowerOfLower(term);
    var water := "water damage";
    Text.ToLowerChars("Water damage", water);
    assert !(term <= water) by {
      assert water[0] != term[0];
    }
    NotContainedLonger(water[1..], term);
    NotContainedLonger(Text.ToLower("Home"), term);
    NotContainedLonger(Text.IntToString(1), term);
  }

  lemma CarAccidentHits()
    ensures MatchesSearch(CarAccident(), "car accident")
  {
    var term := "car accident";
    Text.ToLowerOfLower(term);
    Text.ToLowerChars("Car accident", term);
    assert term <= Text.ToLower("Car accident");
  }

  /** The page's own example: searching "car accident" over a Home claim
      ("Water damage") and an Auto claim ("Car accident") leaves the latter. */
  lemma SearchCarAccident()
    ensures FilterClaims([WaterDamage(), CarAccident()], "car accident", "all") == [CarAccident()]
  {
    WaterDamageMisses();
    CarAccidentHits();
    var s := [WaterDamage(), CarAccident()];
    assert s[1..] == [CarAccident()] && s[1..][1..] == [];
  }

  /** `claim.claimType.toLowerCase()` */
  function LowerType(c: Claim): string
  {
    Text.ToLower(c.claimType)
  }

  /** The lower-cased claim types, claim by claim. */
  function LowerTypes(claims: seq<Claim>): (r: seq<string>)
    ensures |r| == |claims|
    ensures forall i :: 0 <= i < |claims| ==> r[i] == LowerType(claims[i])
  {
    seq(|claims|, i requires 0 <= i < |claims| => LowerType(claims[i]))
  }

  lemma LowerTypesMembers(claims: seq<Claim>)
    ensures forall t :: t in LowerTypes(claims) <==> exists c :: c in claims && LowerType(c) == t
  {
    var types := LowerTypes(claims);
    forall t ensures t in types <==> exists c :: c in claims && LowerType(c) == t {
      if t in types {
        var k :| 0 <= k < |types| && types[k] == t;
        assert claims[k] in claims;
      }
      if exists c :: c in claims && LowerType(c) == t {
        var c :| c in claims && LowerType(c) == t;
        var k :| 0 <= k < |claims| && claims[k] == c;
        assert types[k] == t;
      }
    }
  }

  lemma FirstSeenBefore(types: seq<string>, d: seq<string>, i: int, j: int, b: int)
    requires forall i, j, b :: 0 <= i < j < |d| && 0 <= b < |types| && types[b] == d[j] ==> d[i] in types[..b]
    requires 0 <= i < j < |d| && 0 <= b < |types| && types[b] == d[j]
    ensures exists a :: 0 <= a < b && types[a] == d[i]
  {
    assert d[i] in types[..b];
    var a :| 0 <= a < b && types[..b][a] == d[i];
    assert types[a] == d[i];
  }

  /** The strings of `d` come in the order in which
      they first appear among the claims' lower-cased types: whatever claim
      carries a later one, an earlier claim carries each one before it. */
  predicate InFirstSeenOrder(d: seq<string>, claims: seq<Claim>)
  {
    forall i, j, b :: 0 <= i < j < |d| && 0 <= b < |claims| && LowerType(claims[b]) == d[j] ==>
      exists a :: 0 <= a < b && LowerType(claims[a]) == d[i]
  }

  /** The distinct lower-cased types keep the order in which they first appear. */
  lemma DistinctTypesOrder(claims: seq<Claim>)
    ensures InFirstSeenOrder(Seqs.Distinct(LowerTypes(claims)), claims)
  {
    var types := LowerTypes(claims);
    var d := Seqs.Distinct(types);
    forall i, j, b | 0 <= i < j < |d| && 0 <= b < |claims| && LowerType(claims[b]) == d[j]
      ensures exists a :: 0 <= a < b && LowerType(claims[a]) == d[i]
    {
      FirstSeenBefore(types, d, i, j, b);
      var a :| 0 <= a < b && types[a] == d[i];
      assert LowerType(claims[a]) == d[i];
    }
  }

  /** `claimTypes`: "all" followed by each lower-cased claim type once,
      in the order the types first appear. A claim type that lower-cases
      to "all" appears a second time. */
  function ClaimTypes(claims: seq<Claim>): (r: seq<string>)
    ensures |r| >= 1 && r[0] == "all"
    ensures forall t :: t in r[1..] <==> exists c :: c in claims && LowerType(c) == t
    ensures forall i, j :: 1 <= i < j < |r| ==> r[i] != r[j]
    ensures InFirstSeenOrder(r[1..], claims)
  {
    var d := Seqs.Distinct(LowerTypes(claims));
    LowerTypesMembers(claims);
    DistinctTypesOrder(claims);
    var r := ["all"] + d;
    assert r[1..] == d;
    r
  }

  const Amber: string := "bg-amber-50 text-amber-700 border-amber-200"
  const Blue: string := "bg-blue-50 text-blue-700 border-blue-200"
  const Emerald: string := "bg-emerald-50 text-emerald-700 border-emerald-200"
  const Red: string := "bg-red-50 text-red-700 border-red-200"
  const Gray: string := "bg-gray-50 text-gray-700 border-gray-200"

  /** `statusColors`, keyed by the status values. */
  const StatusColors: map<string, string> :=
    map["submitted" := Amber, "under_review" := Blue, "approved" := Emerald, "rejected" := Red]

  /** The badge class a claim status is meant to get. */
  function StatusClass(s: ClaimStatus): string
  {
    match s
    case Submitted => Amber
    case UnderReview => Blue
    case Approved => Emerald
    case Rejected => Red
  }

  lemma StatusKeys()
    ensures StatusColors.Keys == set s: ClaimStatus :: ClaimStatusKey(s)
    ensures forall s :: StatusColors[ClaimStatusKey(s)] == StatusClass(s)
  {
    assert ClaimStatusKey(Submitted) in StatusColors && ClaimStatusKey(UnderReview) in StatusColors;
    assert ClaimStatusKey(Approved) in StatusColors && ClaimStatusKey(Rejected) in StatusColors;
  }

  /** `getStatusColor(status)`: look the lower-cased status up, gray if absent. */
  function StatusColor(status: string): (r: string)
    ensures forall s :: Text.ToLower(status) == ClaimStatusKey(s) ==> r == StatusClass(s)
    ensures (forall s :: Text.ToLower(status) != ClaimStatusKey(s)) ==>
              r == "bg-gray-50 text-gray-700 border-gray-200"
  {
    StatusKeys();
    var key := Text.ToLower(status);
    if key in StatusColors then StatusColors[key] else Gray
  }

  /** The lookup ignores case. */
  lemma StatusColorIgnoresCase(status: string)
    ensures StatusColor(status) == StatusColor(Text.ToLower(status))
  {
    Text.ToLowerIdempotent(status);
  }

  /** Every claim status gets its own colour and none gets the gray default. */
  lemma StatusColorsOfStatuses(s: ClaimStatus)
    ensures StatusColor(ClaimStatusKey(s)) == StatusClass(s)
    ensures StatusColor(ClaimStatusKey(s)) != "bg-gray-50 text-gray-700 border-gray-200"
  {
    match s
    case Submitted => Text.ToLowerOfLower("submitted");
    case UnderReview => Text.ToLowerOfLower("under_review");
    case Approved => Text.ToLowerOfLower("approved");
    case Rejected => Text.ToLowerOfLower("rejected");
  }
}
