/** The claims slice: the three claim thunks' decisions, the claim-status
    transition, and the reducer as an object whose fields the cases assign. */
module ClaimsSlice {
  import opened Lifecycle
  import opened Domain
  import Text
  import Seqs

  const SubmittedStage: string := "Submitted"
  const SubmittedRemarks: string := "Claim submitted by user."
  const SubmitFailed: string := "Failed to submit claim"
  const FetchFailed: string := "Failed to fetch claims"
  const DetailsFailed: string := "Failed to fetch claim details"
  const AccessDenied: string := "Access denied"

  /** What the claim form hands to `submitClaim`: a claim without id, status,
      submission time or history. */
  datatype ClaimInput = ClaimInput(
    userId: int,
    policyId: int,
    claimType: string,
    description: string,
    files: seq<string>)

  /** The body `submitClaim` posts: a claim still without its id. */
  datatype ClaimDraft = ClaimDraft(
    userId: int,
    policyId: int,
    claimType: string,
    description: string,
    files: seq<string>,
    status: ClaimStatus,
    submittedAt: string,
    history: seq<HistoryEntry>)

  /** The new claim `submitClaim` builds. The source reads the clock twice:
      `submittedAt` is the first reading and the first history entry's date
      the second, and the two can differ. */
  function NewClaim(input: ClaimInput, submittedAt: string, historyDate: string): (d: ClaimDraft)
    ensures d.userId == input.userId && d.policyId == input.policyId
    ensures d.claimType == input.claimType && d.description == input.description
    ensures d.files == input.files
    ensures d.status == Submitted && d.submittedAt == submittedAt
    ensures |d.history| == 1
    ensures d.history[0].stage == "Submitted"
    ensures d.history[0].remarks == "Claim submitted by user."
    ensures d.history[0].date == historyDate
  {
    ClaimDraft(input.userId, input.policyId, input.claimType, input.description,
               input.files, Submitted, submittedAt,
               [HistoryEntry(SubmittedStage, historyDate, SubmittedRemarks)])
  }

  /** What `submitClaim` sends (nothing, without a session user) and how it settles. */
  datatype Submission = Submission(request: Option<ClaimDraft>, outcome: Outcome<Claim>)

  function SubmitClaim(session: Option<User>, input: ClaimInput,
                       submittedAt: string, historyDate: string,
                       reply: Reply<Claim>): (r: Submission)
    ensures r.request.None? <==> session.None?
    ensures session.None? ==> r.outcome == RejectedWith("User not authenticated")
    ensures session.Some? ==> r.request == Some(NewClaim(input, submittedAt, historyDate))
    ensures r.outcome.Fulfilled? <==> session.Some? && reply.Delivered?
    ensures r.outcome.Fulfilled? ==> r.outcome.payload == reply.data
    ensures session.Some? && reply.Errored? ==>
              r.outcome == RejectedWith("Failed to submit claim")
  {
    if session.None? then Submission(None, RejectedWith(NotAuthenticated))
    else
      var request := NewClaim(input, submittedAt, historyDate);
      match reply
      case Delivered(c) => Submission(Some(request), Fulfilled(c))
      case Errored(_) => Submission(Some(request), RejectedWith(SubmitFailed))
  }

  function FetchClaims(session: Option<User>, reply: Reply<seq<Claim>>): (r: Outcome<seq<Claim>>)
    ensures session.None? ==> r == RejectedWith("User not authenticated")
    ensures r.Fulfilled? <==> session.Some? && reply.Delivered?
    ensures r.Fulfilled? ==> r.payload == reply.data
    ensures session.Some? && reply.Errored? ==> r == RejectedWith("Failed to fetch claims")
  {
    if session.None? then RejectedWith(NotAuthenticated)
    else
      match reply
      case Delivered(cs) => Fulfilled(cs)
      case Errored(_) => RejectedWith(FetchFailed)
  }

  /** `fetchClaimById`: the claim is handed over only to the user who owns it. */
  function FetchClaimById(session: Option<User>, reply: Reply<Claim>): (r: Outcome<Claim>)
    ensures session.None? ==> r == RejectedWith("User not authenticated")
    ensures r.Fulfilled? <==>
              session.Some? && reply.Delivered? && reply.data.userId == session.value.id
    ensures r.Fulfilled? ==> r.payload == reply.data
    ensures session.Some? && reply.Delivered? && reply.data.userId != session.value.id ==>
              r == RejectedWith("Access denied")
    ensures session.Some? && reply.Errored? ==> r == RejectedWith("Failed to fetch claim details")
  {
    if session.None? then RejectedWith(NotAuthenticated)
    else
      match reply
      case Delivered(c) =>
        if c.userId != session.value.id then RejectedWith(AccessDenied) else Fulfilled(c)
      case Errored(_) => RejectedWith(DetailsFailed)
  }

  /** The history stage written for a new status:
      `newStatus.replace("_", " ").toUpperCase()`. */
  function StageLabel(s: ClaimStatus): (r: string)
    ensures |r| == |ClaimStatusKey(s)|
    ensures forall i :: 0 <= i < |r| ==> !('a' <= r[i] <= 'z')
    ensures forall i :: 0 <= i < |r| ==>
              r[i] == Text.UpperChar(ClaimStatusKey(s)[i]) || (ClaimStatusKey(s)[i] == '_' && r[i] == ' ')
    ensures forall i :: 0 <= i < |r| ==>
              r[i] == if ClaimStatusKey(s)[i] == '_' && '_' !in ClaimStatusKey(s)[..i]
                      then ' ' else Text.UpperChar(ClaimStatusKey(s)[i])
  {
    Text.ToUpper(Text.ReplaceFirst(ClaimStatusKey(s), '_', ' '))
  }

  /** Only the underscore of "under_review" is replaced before upper-casing. */
  lemma StageLabelUnderReview()
    ensures StageLabel(UnderReview) == "UNDER REVIEW"
  {
    var k := "under_review";
    assert ClaimStatusKey(UnderReview) == k;
    assert k[5] == '_' && '_' !in k[..5];
    Text.ToUpperChars(k[5 := ' '], "UNDER REVIEW");
  }

  lemma StageLabelSubmitted()
    ensures StageLabel(Submitted) == "SUBMITTED"
  {
    assert ClaimStatusKey(Submitted) == "submitted" && '_' !in "submitted";
    Text.ToUpperChars("submitted", "SUBMITTED");
  }

  lemma StageLabelApproved()
    ensures StageLabel(Approved) == "APPROVED"
  {
    assert ClaimStatusKey(Approved) == "approved" && '_' !in "approved";
    Text.ToUpperChars("approved", "APPROVED");
  }

  lemma StageLabelRejected()
    ensures StageLabel(Rejected) == "REJECTED"
  {
    assert ClaimStatusKey(Rejected) == "rejected" && '_' !in "rejected";
    Text.ToUpperChars("rejected", "REJECTED");
  }

  /** One claim after `updateClaimStatus` has touched it: the new status,
      one history entry appended, every other field as it was. */
  function Transition(c: Claim, newStatus: ClaimStatus, remarks: string, now: string): (r: Claim)
    ensures r.status == newStatus
    ensures |r.history| == |c.history| + 1
    ensures r.history[..|c.history|] == c.history
    ensures r.history[|c.history|] == HistoryEntry(StageLabel(newStatus), now, remarks)
    ensures r.id == c.id && r.userId == c.userId && r.policyId == c.policyId
    ensures r.claimType == c.claimType && r.description == c.description
    ensures r.files == c.files && r.submittedAt == c.submittedAt
  {
    var h := c.history + [HistoryEntry(StageLabel(newStatus), now, remarks)];
    assert h[..|c.history|] == c.history;
    c.(status := newStatus, history := h)
  }

  /** i is the position `claims.find(c => c.id === claimId)` lands on. */
  ghost predicate IsFirstWithId(claims: seq<Claim>, id: int, i: int)
  {
    0 <= i < |claims| && claims[i].id == id &&
    forall k :: 0 <= k < i ==> claims[k].id != id
  }

  /** `claims.find(c => c.id === claimId)` as a position, -1 when no claim matches. */
  function ClaimIndex(claims: seq<Claim>, id: int): (i: int)
    ensures -1 <= i < |claims|
    ensures i >= 0 ==> IsFirstWithId(claims, id, i)
    ensures i == -1 <==> forall k :: 0 <= k < |claims| ==> claims[k].id != id
  {
    Seqs.FindIndex(claims, (c: Claim) => c.id == id)
  }

  /** The claim list after `updateClaimStatus`: the first claim with the id
      transitions, every other claim stays as it was. */
  function UpdatedClaims(claims: seq<Claim>, id: int, newStatus: ClaimStatus,
                         remarks: string, now: string): (r: seq<Claim>)
    ensures |r| == |claims|
    ensures forall k :: 0 <= k < |claims| && !IsFirstWithId(claims, id, k) ==> r[k] == claims[k]
    ensures forall k :: IsFirstWithId(claims, id, k) ==>
              r[k] == Transition(claims[k], newStatus, remarks, now)
  {
    var i := ClaimIndex(claims, id);
    if i < 0 then claims else claims[i := Transition(claims[i], newStatus, remarks, now)]
  }

  /** With no claim carrying the id, nothing changes. */
  lemma UpdateAbsentId(claims: seq<Claim>, id: int, newStatus: ClaimStatus, remarks: string, now: string)
    requires forall k :: 0 <= k < |claims| ==> claims[k].id != id
    ensures UpdatedClaims(claims, id, newStatus, remarks, now) == claims
  {
    var r := UpdatedClaims(claims, id, newStatus, remarks, now);
    assert forall k :: 0 <= k < |claims| ==> r[k] == claims[k];
  }

  /** Running `find` as a scan: the index it stops at. */
  method FindClaim(claims: seq<Claim>, id: int) returns (index: int)
    ensures index == ClaimIndex(claims, id)
  {
    index := 0;
    while index < |claims|
      invariant 0 <= index <= |claims|
      invariant forall k :: 0 <= k < index ==> claims[k].id != id
    {
      if claims[index].id == id {
        return;
      }
      index := index + 1;
    }
    index := -1;
  }

  /** The claims slice: `{claims, currentClaim, status, error}`. */
  class ClaimsStore {
    var claims: seq<Claim>
    var currentClaim: Option<Claim>
    var status: FetchStatus
    var error: Option<string>

    /** `initialState` */
    constructor ()
      ensures claims == [] && currentClaim == None && status == Idle && error == None
    {
      claims := [];
      currentClaim := None;
      status := Idle;
      error := None;
    }

    /** `clearCurrentClaim`; applying it again changes nothing, since the
        new state depends only on `claims`, which it keeps. */
    method ClearCurrentClaim()
      modifies this
      ensures currentClaim == None && error == None && status == Idle
      ensures claims == old(claims)
    {
      currentClaim := None;
      error := None;
      status := Idle;
    }

    /** `updateClaimStatus` */
    method UpdateClaimStatus(claimId: int, newStatus: ClaimStatus, remarks: string, now: string)
      modifies this
      ensures claims == UpdatedClaims(old(claims), claimId, newStatus, remarks, now)
      ensures currentClaim == old(currentClaim) && status == old(status) && error == old(error)
    {
      var i := FindClaim(claims, claimId);
      if i != -1 {
        claims := claims[i := Transition(claims[i], newStatus, remarks, now)];
      }
    }

    /** `submitClaim.pending` */
    method SubmitClaimPending()
      modifies this
      ensures status == Loading && error == None
      ensures claims == old(claims) && currentClaim == old(currentClaim)
    {
      status := Loading;
      error := None;
    }

    /** `submitClaim.fulfilled`: the stored claim goes at the end. */
    method SubmitClaimFulfilled(payload: Claim)
      modifies this
      ensures status == Succeeded
      ensures claims == old(claims) + [payload]
      ensures currentClaim == old(currentClaim) && error == old(error)
    {
      status := Succeeded;
      claims := claims + [payload];
    }

    /** `submitClaim.rejected` */
    method SubmitClaimRejected(payload: Option<string>)
      modifies this
      ensures status == Failed && error == Some(OrFallback(payload, "Failed to submit claim"))
      ensures claims == old(claims) && currentClaim == old(currentClaim)
    {
      status := Failed;
      error := Some(OrFallback(payload, SubmitFailed));
    }

    /** `fetchClaims.pending` */
    method FetchClaimsPending()
      modifies this
      ensures status == Loading && error == None
      ensures claims == old(claims) && currentClaim == old(currentClaim)
    {
      status := Loading;
      error := None;
    }

    /** `fetchClaims.fulfilled`: the list is replaced wholesale. */
    method FetchClaimsFulfilled(payload: seq<Claim>)
      modifies this
      ensures status == Succeeded && claims == payload
      ensures currentClaim == old(currentClaim) && error == old(error)
    {
      status := Succeeded;
      claims := payload;
    }

    /** `fetchClaims.rejected` */
    method FetchClaimsRejected(payload: Option<string>)
      modifies this
      ensures status == Failed && error == Some(OrFallback(payload, "Failed to fetch claims"))
      ensures claims == old(claims) && currentClaim == old(currentClaim)
    {
      status := Failed;
      error := Some(OrFallback(payload, FetchFailed));
    }

    /** `fetchClaimById.pending`: the previous detail claim is dropped. */
    method FetchClaimByIdPending()
      modifies this
      ensures status == Loading && error == None && currentClaim == None
      ensures claims == old(claims)
    {
      status := Loading;
      error := None;
      currentClaim := None;
    }

    /** `fetchClaimById.fulfilled` */
    method FetchClaimByIdFulfilled(payload: Claim)
      modifies this
      ensures status == Succeeded && currentClaim == Some(payload)
      ensures claims == old(claims) && error == old(error)
    {
      status := Succeeded;
      currentClaim := Some(payload);
    }

    /** `fetchClaimById.rejected` */
    method FetchClaimByIdRejected(payload: Option<string>)
      modifies this
      ensures status == Failed && error == Some(OrFallback(payload, "Failed to fetch claim details"))
      ensures claims == old(claims) && currentClaim == old(currentClaim)
    {
      status := Failed;
      error := Some(OrFallback(payload, DetailsFailed));
    }

    /** Dispatching `submitClaim`: pending, then the settled case. A claim
        the server stores and returns ends the list, status "submitted",
        with its single "Submitted" history entry. */
    method RunSubmitClaim(session: Option<User>, input: ClaimInput,
                          submittedAt: string, historyDate: string, reply: Reply<Claim>)
      modifies this
      ensures var o := SubmitClaim(session, input, submittedAt, historyDate, reply).outcome;
              if o.Fulfilled? then
                status == Succeeded && claims == old(claims) + [o.payload] && error == None
              else
                status == Failed && claims == old(claims) && error == Some(o.message)
      ensures currentClaim == old(currentClaim)
    {
      SubmitClaimPending();
      var o := SubmitClaim(session, input, submittedAt, historyDate, reply).outcome;
      match o
      case Fulfilled(c) => SubmitClaimFulfilled(c);
      case RejectedWith(m) => SubmitClaimRejected(Some(m));
    }

    /** Dispatching `fetchClaimById`: another user's claim leaves the slice
        failed with "Access denied" and no detail claim. */
    method RunFetchClaimById(session: Option<User>, reply: Reply<Claim>)
      modifies this
      ensures var o := FetchClaimById(session, reply);
              if o.Fulfilled? then
                status == Succeeded && currentClaim == Some(o.payload) && error == None
              else
                status == Failed && currentClaim == None && error == Some(o.message)
      ensures claims == old(claims)
    {
      FetchClaimByIdPending();
      var o := FetchClaimById(session, reply);
      match o
      case Fulfilled(c) => FetchClaimByIdFulfilled(c);
      case RejectedWith(m) => FetchClaimByIdRejected(Some(m));
    }
  }

  /** A submitted claim that the server echoes back with an id arrives in
      the list with status "submitted", exactly one "Submitted" entry, and
      each of the two time stamps where it was put. */
  lemma SubmitRoundTrip(user: User, input: ClaimInput, submittedAt: string, historyDate: string, id: int)
    ensures var d := NewClaim(input, submittedAt, historyDate);
            var stored := Claim(id, d.userId, d.policyId, d.claimType, d.description,
                                d.files, d.status, d.submittedAt, d.history);
            var o := SubmitClaim(Some(user), input, submittedAt, historyDate, Delivered(stored)).outcome;
            o.Fulfilled? && o.payload.status == Submitted &&
            |o.payload.history| == 1 && o.payload.history[0].stage == "Submitted" &&
            o.payload.submittedAt == submittedAt && o.payload.history[0].date == historyDate
  {
  }
}
