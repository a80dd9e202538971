/** The policies slice: the near-expiry selector, the two policy thunks'
    decisions, and the reducer as an object whose fields the cases assign. */
module PoliciesSlice {
  import opened Lifecycle
  import opened Domain
  import Seqs

  const MsPerDay: int := 1000 * 60 * 60 * 24
  /** The selector's default look-ahead window, in days. */
  const DefaultWindow: int := 30

  const FetchFailed: string := "Failed to fetch policies"
  const DetailsFailed: string := "Failed to fetch policy details"
  const PolicyNotFound: string := "Policy not found"

  /** `Math.ceil(a / b)` for a positive divisor. */
  function CeilDiv(a: int, b: int): (q: int)
    requires b > 0
    ensures b * (q - 1) < a <= b * q
  {
    -((-a) / b)
  }

  /** `daysLeft`: whole days, rounded up, from now to the policy's end. */
  function DaysLeft(endDate: int, now: int): (d: int)
    ensures MsPerDay * (d - 1) < endDate - now <= MsPerDay * d
  {
    CeilDiv(endDate - now, MsPerDay)
  }

  predicate InWindow(p: Policy, now: int, days: int)
  {
    var d := DaysLeft(p.endDate, now);
    d > 0 && d <= days
  }

  lemma MulMonotone(a: int, b: int)
    ensures a <= b <==> MsPerDay * a <= MsPerDay * b
  {
    if a <= b {
      assert MsPerDay * b - MsPerDay * a == MsPerDay * (b - a);
    } else {
      assert MsPerDay * a - MsPerDay * b == MsPerDay * (a - b);
    }
  }

  /** The window read in milliseconds: the policy ends after now and no
      later than `days` whole days from now. */
  lemma InWindowIff(p: Policy, now: int, days: int)
    ensures InWindow(p, now, days) <==> now < p.endDate <= now + days * MsPerDay
  {
    var x, d := p.endDate - now, DaysLeft(p.endDate, now);
    assert MsPerDay * (d - 1) < x <= MsPerDay * d;
    if d > 0 && d <= days {
      assert MsPerDay * d <= MsPerDay * days;
    }
    if 0 < x && x <= days * MsPerDay {
      MulMonotone(d, 0);
      MulMonotone(days, d - 1);
    }
  }

  function WindowTest(now: int, days: int): Policy -> bool
  {
    p => InWindow(p, now, days)
  }

  /** `selectPoliciesNearExpiry(state, days)` with the clock reading `now`. */
  function NearExpiry(policies: seq<Policy>, now: int, days: int): (r: seq<Policy>)
    ensures forall p :: p in r ==> p in policies && InWindow(p, now, days)
    ensures forall p :: p in policies && InWindow(p, now, days) ==> p in r
    ensures Seqs.IsSubsequence(r, policies)
    ensures forall p :: p in r ==> p.endDate > now
    ensures forall i :: 0 <= i < |policies| ==>
              multiset(r)[policies[i]] ==
                if InWindow(policies[i], now, days) then multiset(policies)[policies[i]] else 0
  {
    var r := Seqs.Filter(policies, WindowTest(now, days));
    Seqs.FilterCount(policies, WindowTest(now, days));
    assert forall p :: p in r ==> InWindow(p, now, days) && p.endDate > now by {
      forall p | p in r ensures InWindow(p, now, days) && p.endDate > now {
        InWindowIff(p, now, days);
      }
    }
    r
  }

  /** The selector called without a window. */
  function NearExpiryDefault(policies: seq<Policy>, now: int): (r: seq<Policy>)
    ensures r == NearExpiry(policies, now, DefaultWindow)
    ensures forall p :: p in r <==> p in policies && now < p.endDate <= now + 30 * 86400000
  {
    var r := NearExpiry(policies, now, DefaultWindow);
    assert forall p :: p in policies ==>
      (InWindow(p, now, DefaultWindow) <==> now < p.endDate <= now + 30 * 86400000) by {
      forall p | p in policies
        ensures InWindow(p, now, DefaultWindow) <==> now < p.endDate <= now + 30 * 86400000
      {
        InWindowIff(p, now, DefaultWindow);
      }
    }
    r
  }

  /** Widening the window never drops a policy, nor reorders the ones kept. */
  lemma NearExpiryMonotone(policies: seq<Policy>, now: int, d1: int, d2: int)
    requires d1 <= d2
    ensures Seqs.IsSubsequence(NearExpiry(policies, now, d1), NearExpiry(policies, now, d2))
  {
    Seqs.FilterWeaker(policies, WindowTest(now, d1), WindowTest(now, d2));
  }

  function FetchPolicies(session: Option<User>, reply: Reply<seq<Policy>>): (r: Outcome<seq<Policy>>)
    ensures session.None? ==> r == RejectedWith("User not authenticated")
    ensures r.Fulfilled? <==> session.Some? && reply.Delivered?
    ensures r.Fulfilled? ==> r.payload == reply.data
    ensures session.Some? && reply.Errored? ==> r == RejectedWith("Failed to fetch policies")
  {
    if session.None? then RejectedWith(NotAuthenticated)
    else
      match reply
      case Delivered(ps) => Fulfilled(ps)
      case Errored(_) => RejectedWith(FetchFailed)
  }

  /** `fetchPolicyById`: the query answers a list (or nothing); its first
      element is the policy. No owner check is made on the answer. */
  function FetchPolicyById(session: Option<User>, reply: Reply<Option<seq<Policy>>>): (r: Outcome<Policy>)
    ensures session.None? ==> r == RejectedWith("User not authenticated")
    ensures r.Fulfilled? <==>
              session.Some? && reply.Delivered? && reply.data.Some? && |reply.data.value| > 0
    ensures r.Fulfilled? ==> r.payload == reply.data.value[0]
    ensures session.Some? && reply.Delivered? && (reply.data.None? || reply.data.value == []) ==>
              r == RejectedWith("Policy not found")
    ensures session.Some? && reply.Errored? ==> r == RejectedWith("Failed to fetch policy details")
  {
    if session.None? then RejectedWith(NotAuthenticated)
    else
      match reply
      case Delivered(data) =>
        if data.None? || |data.value| == 0 then RejectedWith(PolicyNotFound)
        else Fulfilled(data.value[0])
      case Errored(_) => RejectedWith(DetailsFailed)
  }

  /** The policies slice: `{policies, currentPolicy, status, error}`. */
  class PoliciesStore {
    var policies: seq<Policy>
    var currentPolicy: Option<Policy>
    var status: FetchStatus
    var error: Option<string>

    /** `initialState` */
    constructor ()
      ensures policies == [] && currentPolicy == None && status == Idle && error == None
    {
      policies := [];
      currentPolicy := None;
      status := Idle;
      error := None;
    }

    /** `clearCurrentPolicy`; applying it again changes nothing, since the
        new state depends only on `policies`, which it keeps. */
    method ClearCurrentPolicy()
      modifies this
      ensures currentPolicy == None && error == None && status == Idle
      ensures policies == old(policies)
    {
      currentPolicy := None;
      error := None;
      status := Idle;
    }

    /** `fetchPolicies.pending`: the list and the detail policy stay. */
    method FetchPoliciesPending()
      modifies this
      ensures status == Loading && error == None
      ensures policies == old(policies) && currentPolicy == old(currentPolicy)
    {
      status := Loading;
      error := None;
    }

    /** `fetchPolicies.fulfilled`: the list is replaced wholesale. */
    method FetchPoliciesFulfilled(payload: seq<Policy>)
      modifies this
      ensures status == Succeeded && policies == payload
      ensures currentPolicy == old(currentPolicy) && error == old(error)
    {
      status := Succeeded;
      policies := payload;
    }

    /** `fetchPolicies.rejected` */
    method FetchPoliciesRejected(payload: Option<string>)
      modifies this
      ensures status == Failed && error == Some(OrFallback(payload, "Failed to fetch policies"))
      ensures policies == old(policies) && currentPolicy == old(currentPolicy)
    {
      status := Failed;
      error := Some(OrFallback(payload, FetchFailed));
    }

    /** `fetchPolicyById.pending`: the previous detail policy is dropped. */
    method FetchPolicyByIdPending()
      modifies this
      ensures status == Loading && error == None && currentPolicy == None
      ensures policies == old(policies)
    {
      status := Loading;
      error := None;
      currentPolicy := None;
    }

    /** `fetchPolicyById.fulfilled` */
    method FetchPolicyByIdFulfilled(payload: Policy)
      modifies this
      ensures status == Succeeded && currentPolicy == Some(payload)
      ensures policies == old(policies) && error == old(error)
    {
      status := Succeeded;
      currentPolicy := Some(payload);
    }

    /** `fetchPolicyById.rejected` */
    method FetchPolicyByIdRejected(payload: Option<string>)
      modifies this
      ensures status == Failed && error == Some(OrFallback(payload, "Failed to fetch policy details"))
      ensures policies == old(policies) && currentPolicy == old(currentPolicy)
    {
      status := Failed;
      error := Some(OrFallback(payload, DetailsFailed));
    }

    /** Dispatching `fetchPolicyById`: pending, then the settled case. */
    method RunFetchPolicyById(session: Option<User>, reply: Reply<Option<seq<Policy>>>)
      modifies this
      ensures var o := FetchPolicyById(session, reply);
              if o.Fulfilled? then
                status == Succeeded && currentPolicy == Some(o.payload) && error == None
              else
                status == Failed && currentPolicy == None && error == Some(o.message)
      ensures policies == old(policies)
    {
      FetchPolicyByIdPending();
      var o := FetchPolicyById(session, reply);
      match o
      case Fulfilled(p) => FetchPolicyByIdFulfilled(p);
      case RejectedWith(m) => FetchPolicyByIdRejected(Some(m));
    }
  }
}
