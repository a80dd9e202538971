/** The dashboard's policy table: the policies the search box and the two
    selectors let through, ordered by start date. */
module DashboardView {
  import opened Domain
  import Seqs
  import Text

  /** The sort selector: `"asc" | "desc"`. */
  datatype SortOrder = Asc | Desc

  /** `matchesSearch`: the lower-cased term occurs in the lower-cased type,
      status or details. */
  predicate MatchesSearch(p: Policy, searchTerm: string)
    ensures searchTerm == "" ==> MatchesSearch(p, searchTerm)
  {
    var term := Text.ToLower(searchTerm);
    Text.Contains(Text.ToLower(TypeName(p.policyType)), term) ||
    Text.Contains(Text.ToLower(PolicyStatusName(p.status)), term) ||
    Text.Contains(Text.ToLower(p.details), term)
  }

  /** `matchesType`: the selector holds "All" or exactly the type's name. */
  predicate MatchesType(p: Policy, filterType: string)
    ensures filterType == "All" ==> MatchesType(p, filterType)
    ensures filterType != "All" && MatchesType(p, filterType) ==>
              forall t :: t != p.policyType ==> TypeName(t) != filterType
  {
    filterType == "All" || TypeName(p.policyType) == filterType
  }

  /** `matchesStatus`: the selector holds "All" or exactly the status's name. */
  predicate MatchesStatus(p: Policy, filterStatus: string)
    ensures filterStatus == "All" ==> MatchesStatus(p, filterStatus)
    ensures filterStatus != "All" && MatchesStatus(p, filterStatus) ==>
              forall s :: s != p.status ==> PolicyStatusName(s) != filterStatus
  {
    filterStatus == "All" || PolicyStatusName(p.status) == filterStatus
  }

  /** The search ignores case: both sides are lower-cased before `includes`. */
  lemma SearchIgnoresCase(p: Policy, searchTerm: string)
    ensures MatchesSearch(p, searchTerm) <==> MatchesSearch(p, Text.ToLower(searchTerm))
  {
    Text.ToLowerIdempotent(searchTerm);
  }

  predicate Shown(p: Policy, searchTerm: string, filterType: string, filterStatus: string)
  {
    MatchesSearch(p, searchTerm) && MatchesType(p, filterType) && MatchesStatus(p, filterStatus)
  }

  function Keeps(searchTerm: string, filterType: string, filterStatus: string): Policy -> bool
  {
    (p: Policy) => Shown(p, searchTerm, filterType, filterStatus)
  }

  function StartKey(p: Policy): int { p.startDate }

  /** `dateB - dateA` as a key: ascending in it is descending in the date. */
  function NegStartKey(p: Policy): int { -p.startDate }

  /** `filteredPolicies`: the filter, then the start-date sort of the result.
      Ties keep their filtered order in either direction, the comparator
      returning 0 for them and the sort being stable. */
  function FilteredPolicies(policies: seq<Policy>, searchTerm: string, filterType: string,
                            filterStatus: string, order: SortOrder): (r: seq<Policy>)
    ensures forall p :: p in r <==> p in policies && Shown(p, searchTerm, filterType, filterStatus)
    ensures multiset(r) == multiset(Seqs.Filter(policies, Keeps(searchTerm, filterType, filterStatus)))
    ensures order == Asc ==> forall i, j :: 0 <= i < j < |r| ==> r[i].startDate <= r[j].startDate
    ensures order == Desc ==> forall i, j :: 0 <= i < j < |r| ==> r[i].startDate >= r[j].startDate
  {
    var kept := Seqs.Filter(policies, Keeps(searchTerm, filterType, filterStatus));
    Seqs.SortByKeyMembers(kept, StartKey);
    Seqs.SortByKeyMembers(kept, NegStartKey);
    if order == Asc then Seqs.SortByKey(kept, StartKey) else Seqs.SortByKey(kept, NegStartKey)
  }

  /** The table's first view: no search and both selectors on "All" shows
      every policy, each as often as it is in the store. */
  lemma ShowsEverythingInitially(policies: seq<Policy>, order: SortOrder)
    ensures multiset(FilteredPolicies(policies, "", "All", "All", order)) == multiset(policies)
  {
    assert forall p :: p in policies ==> Text.Contains(Text.ToLower(TypeName(p.policyType)), "");
    Seqs.FilterAll(policies, Keeps("", "All", "All"));
  }

  /** The sort order changes the order only, never which policies are shown. */
  lemma OrderKeepsSelection(policies: seq<Policy>, searchTerm: string, filterType: string,
                            filterStatus: string)
    ensures multiset(FilteredPolicies(policies, searchTerm, filterType, filterStatus, Asc)) ==
            multiset(FilteredPolicies(policies, searchTerm, filterType, filterStatus, Desc))
  {
  }

  lemma HealthChars()
    ensures Text.ToLower("Health") == "health"
  {
    Text.ToLowerChars("Health", "health");
  }

  /** The selectors compare exactly while the search ignores case: the type
      selector set to "health" shows nothing, the search "health" shows every
      Health policy. */
  lemma SelectorsAreCaseSensitive(p: Policy)
    ensures !MatchesType(p, "health")
    ensures p.policyType == Health ==> MatchesSearch(p, "health")
  {
    HealthChars();
    Text.ToLowerOfLower("health");
    assert "health" <= "health";
  }
}
