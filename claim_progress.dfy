/** The claim progress bar: four fixed stages, the stage the claim's status
    names, how far the bar is filled and which stage markers are checked. */
module ClaimProgress {
  import opened Domain
  import Seqs

  /** `{ label, key }`; the label is the text under the marker. */
  datatype Stage = Stage(caption: string, key: string)

  /** `stages` */
  const Stages: seq<Stage> := [
    Stage("Submitted", "submitted"),
    Stage("Under Review", "under_review"),
    Stage("Approved", "approved"),
    Stage("Rejected", "rejected")
  ]

  function HasKey(status: string): Stage -> bool
  {
    (st: Stage) => st.key == status
  }

  /** `currentStageIndex`: the first stage whose key is the status, -1 if none. */
  function CurrentStageIndex(status: string): (r: int)
    ensures -1 <= r < |Stages|
    ensures r >= 0 ==> Stages[r].key == status
    ensures r == -1 <==> forall k :: 0 <= k < |Stages| ==> Stages[k].key != status
  {
    Seqs.FindIndex(Stages, HasKey(status))
  }

  /** Where each claim status sits in the stage order. */
  function StageNumber(s: ClaimStatus): int
  {
    match s
    case Submitted => 0
    case UnderReview => 1
    case Approved => 2
    case Rejected => 3
  }

  /** Every status names exactly one stage, in the order submitted,
      under_review, approved, rejected, so the index is never -1. */
  lemma StageOfStatus(s: ClaimStatus)
    ensures CurrentStageIndex(ClaimStatusKey(s)) == StageNumber(s)
    ensures 0 <= CurrentStageIndex(ClaimStatusKey(s)) <= 3
  {
    var i := CurrentStageIndex(ClaimStatusKey(s));
    assert Stages[StageNumber(s)].key == ClaimStatusKey(s);
    assert forall k :: 0 <= k < |Stages| && k != StageNumber(s) ==> Stages[k].key != ClaimStatusKey(s);
  }

  lemma QuarterShare(n: int)
    ensures (n as real / 4.0) * 100.0 == 25.0 * n as real
  {
  }

  /** `percentage`: `((currentStageIndex + 1) / stages.length) * 100`. */
  function Percentage(status: string): (r: real)
    ensures r * 4.0 == (CurrentStageIndex(status) + 1) as real * 100.0
    ensures 0.0 <= r <= 100.0
  {
    var n := CurrentStageIndex(status) + 1;
    assert |Stages| == 4;
    QuarterShare(n);
    (n as real / |Stages| as real) * 100.0
  }

  /** The bar stands at 25, 50, 75 or 100 percent. */
  lemma PercentageOfStatus(s: ClaimStatus)
    ensures Percentage(ClaimStatusKey(s)) == 25.0 * (StageNumber(s) + 1) as real
  {
    StageOfStatus(s);
  }

  /** `index <= currentStageIndex`: the marker of stage `index` is green and
      carries a check. */
  predicate IsChecked(index: int, status: string)
  {
    index <= CurrentStageIndex(status)
  }

  /** The stage markers, true where a check is drawn. */
  function Checks(status: string): (r: seq<bool>)
    ensures |r| == |Stages|
    ensures forall i :: 0 <= i < |r| ==> (r[i] <==> IsChecked(i, status))
  {
    seq(|Stages|, i requires 0 <= i < |Stages| => IsChecked(i, status))
  }

  function CountTrue(s: seq<bool>): (n: nat)
    ensures n <= |s|
  {
    if s == [] then 0 else (if s[|s| - 1] then 1 else 0) + CountTrue(s[..|s| - 1])
  }

  /** Checked markers form a prefix: the first m of them, and no other. */
  lemma {:induction false} CountPrefix(s: seq<bool>, m: int)
    requires 0 <= m <= |s|
    requires forall i :: 0 <= i < |s| ==> (s[i] <==> i < m)
    ensures CountTrue(s) == m
  {
    if |s| > 0 {
      var init := s[..|s| - 1];
      if m == |s| {
        CountPrefix(init, m - 1);
      } else {
        CountPrefix(init, m);
      }
    }
  }

  /** The number of checks is `currentStageIndex + 1`: none for an unknown
      status, one to four for the four statuses. */
  lemma CheckCount(status: string)
    ensures CountTrue(Checks(status)) == CurrentStageIndex(status) + 1
  {
    CountPrefix(Checks(status), CurrentStageIndex(status) + 1);
  }

  /** The progress bar's own examples: a claim under review shows two checks,
      an approved one three and a rejected one four. */
  lemma ChecksOfStatuses()
    ensures CountTrue(Checks("under_review")) == 2
    ensures CountTrue(Checks("approved")) == 3
    ensures CountTrue(Checks("rejected")) == 4
  {
    StageOfStatus(UnderReview);
    StageOfStatus(Approved);
    StageOfStatus(Rejected);
    CheckCount("under_review");
    CheckCount("approved");
    CheckCount("rejected");
  }
}
