/** The entities the store holds: users, policies, claims and their history. */
module Domain {

  datatype User = User(id: int, username: string, name: string)

  /** `"Health" | "Auto" | "Home"` */
  datatype PolicyType = Health | Auto | Home

  /** `"active" | "expired"`, plus the `"pending"` value the pages also handle. */
  datatype PolicyStatus = Active | Pending | Expired

  function TypeName(t: PolicyType): string
  {
    match t
    case Health => "Health"
    case Auto => "Auto"
    case Home => "Home"
  }

  function PolicyStatusName(s: PolicyStatus): string
  {
    match s
    case Active => "active"
    case Pending => "pending"
    case Expired => "expired"
  }

  /** Dates are the milliseconds `new Date(...).getTime()` gives for them. */
  datatype Policy = Policy(
    id: int,
    policyType: PolicyType,
    status: PolicyStatus,
    details: string,
    startDate: int,
    endDate: int,
    coverageDetails: string,
    premiumAmount: int,
    documentUrl: string)

  /** `"submitted" | "under_review" | "approved" | "rejected"` */
  datatype ClaimStatus = Submitted | UnderReview | Approved | Rejected

  function ClaimStatusKey(s: ClaimStatus): string
  {
    match s
    case Submitted => "submitted"
    case UnderReview => "under_review"
    case Approved => "approved"
    case Rejected => "rejected"
  }

  datatype HistoryEntry = HistoryEntry(stage: string, date: string, remarks: string)

  datatype Claim = Claim(
    id: int,
    userId: int,
    policyId: int,
    claimType: string,
    description: string,
    files: seq<string>,
    status: ClaimStatus,
    submittedAt: string,
    history: seq<HistoryEntry>)
}
