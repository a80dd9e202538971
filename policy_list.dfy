/** The policy list's grouping: one list per policy type, filled by walking
    the policies once and pushing each onto the list of its type. */
module PolicyList {
  import opened Domain
  import Seqs

  function IsType(t: PolicyType): Policy -> bool
  {
    (p: Policy) => p.policyType == t
  }

  /** The policies of type t, in the order they come. */
  function OfType(s: seq<Policy>, t: PolicyType): seq<Policy>
  {
    Seqs.Filter(s, IsType(t))
  }

  /** One more policy lands at the end of its own type's group only. */
  lemma OfTypeSnoc(s: seq<Policy>, p: Policy, t: PolicyType)
    ensures OfType(s + [p], t) == OfType(s, t) + (if p.policyType == t then [p] else [])
  {
    Seqs.FilterAppend(s, [p], IsType(t));
    assert [p][1..] == [];
  }

  lemma OfTypePrefix(s: seq<Policy>, i: int, t: PolicyType)
    requires 0 <= i < |s|
    ensures OfType(s[..i + 1], t) == OfType(s[..i], t) + (if s[i].policyType == t then [s[i]] else [])
  {
    assert s[..i + 1] == s[..i] + [s[i]];
    OfTypeSnoc(s[..i], s[i], t);
  }

  /** `groupedByType`: starts with an empty list under each of Health, Auto
      and Home, in that order, then `forEach` pushes each policy onto its own
      type's list. */
  method GroupByType(policies: seq<Policy>) returns (groups: seq<(PolicyType, seq<Policy>)>)
    ensures |groups| == 3
    ensures groups[0].0 == Health && groups[1].0 == Auto && groups[2].0 == Home
    ensures forall k :: 0 <= k < 3 ==> groups[k].1 == OfType(policies, groups[k].0)
  {
    var health: seq<Policy> := [];
    var auto: seq<Policy> := [];
    var home: seq<Policy> := [];
    var i := 0;
    while i < |policies|
      invariant 0 <= i <= |policies|
      invariant health == OfType(policies[..i], Health)
      invariant auto == OfType(policies[..i], Auto)
      invariant home == OfType(policies[..i], Home)
    {
      var p := policies[i];
      OfTypePrefix(policies, i, Health);
      OfTypePrefix(policies, i, Auto);
      OfTypePrefix(policies, i, Home);
      match p.policyType {
        case Health => health := health + [p];
        case Auto => auto := auto + [p];
        case Home => home := home + [p];
      }
      i := i + 1;
    }
    assert policies[..i] == policies;
    groups := [(Health, health), (Auto, auto), (Home, home)];
  }

  /** Each policy sits in the group of its own type and in no other; each
      group keeps the input's order. */
  lemma GroupMembership(policies: seq<Policy>, p: Policy, t: PolicyType)
    ensures p in OfType(policies, t) <==> p in policies && p.policyType == t
    ensures Seqs.IsSubsequence(OfType(policies, t), policies)
  {
  }

  /** The three group sizes add up to the number of policies. */
  lemma {:induction false} GroupSizes(s: seq<Policy>)
    ensures |OfType(s, Health)| + |OfType(s, Auto)| + |OfType(s, Home)| == |s|
  {
    if s != [] {
      GroupSizes(s[1..]);
    }
  }

  /** Together the three groups hold exactly the input, each policy as often
      as it occurs there. */
  lemma {:induction false} GroupsPartition(s: seq<Policy>)
    ensures multiset(OfType(s, Health)) + multiset(OfType(s, Auto)) + multiset(OfType(s, Home)) ==
            multiset(s)
  {
    if s != [] {
      var p := s[0];
      var tail := s[1..];
      GroupsPartition(tail);
      assert s == [p] + tail;
      assert multiset(s) == multiset{p} + multiset(tail);
      match p.policyType {
        case Health => assert multiset(OfType(s, Health)) == multiset{p} + multiset(OfType(tail, Health));
        case Auto => assert multiset(OfType(s, Auto)) == multiset{p} + multiset(OfType(tail, Auto));
        case Home => assert multiset(OfType(s, Home)) == multiset{p} + multiset(OfType(tail, Home));
      }
    }
  }
}
