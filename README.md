# Insurance dashboard — a Dafny model of its state and view logic

This project models the logic of a small insurance dashboard, a React and
Redux application in which a user logs in, looks at their policies and
submits and tracks claims. It models two groups of code.

**The four Redux slices.** Each slice's state is a class. Its fields are
the slice's fields, and each reducer case is a method that assigns them.
Each asynchronous thunk's decision is a pure function of:
- the session user;
- the server's reply, which is an input;
- for claim submission, the two clock readings (submission time and first history date), also inputs.

**The views' derived data:**
- the premium-trends chart's monthly series, with its totals;
- the policy-distribution chart's per-type tallies, shares and percentage labels;
- the claim-history page's search and type filter, its type options and its status colours;
- the dashboard's policy search, filters and start-date sort;
- the policy list's grouping by type;
- the claim progress bar's stage index, fill percentage and checked markers;
- the empty-state panel's heading and message.

The modules:
- `Text`: JavaScript string behaviour on ASCII text: `toLowerCase`, `toUpperCase`, `includes`, `replace`, `toString`.
- `Seqs`: `filter`, sums, `findIndex`, a stable sort by a numeric key, and `Array.from(new Set(...))`.
- `Lifecycle`: request status, server replies, thunk outcomes, and the `value || fallback` rule.
- `Domain`: users, policies and claims.
- One module per core file, named in the table below.

## Model

| member | source | states |
|---|---|---|
| Lifecycle.OrFallback | src/app/slices/claimsSlice.ts:124 | `value \|\| fallback`: a present, non-empty value is kept; a missing or empty one gives the fallback |
| AuthSlice.Login | src/app/slices/authSlice.ts:20-39 | Succeeds exactly when the reply lists at least one user. The session is then the first user with token "temp". An empty list gives "Invalid username or password"; a failed request gives "An error occurred during login" |
| AuthSlice.Signup | src/app/slices/authSlice.ts:41-55 | Succeeds exactly when the server answers, with the echoed user; a failure gives "An error occurred during signup" |
| AuthSlice.ThunkMessagesNonEmpty | src/app/slices/authSlice.ts:77-100 | Every rejection the two thunks produce carries a non-empty message, so the reducer's "Failed to login" fallback is never reached through them |
| AuthSlice.AuthStore.constructor | src/app/slices/authSlice.ts:12-18 | The initial state: not authenticated, no user, no token, idle, no error |
| AuthSlice.AuthStore.RequestPending | src/app/slices/authSlice.ts:68-71 | Pending case: loading, error cleared, the session fields untouched; keeps the invariant that only a known user is authenticated and a failure leaves a message |
| AuthSlice.AuthStore.SignupFulfilled | src/app/slices/authSlice.ts:72-76 | The new user becomes the authenticated user; the token and error are left as they were |
| AuthSlice.AuthStore.SignupRejected | src/app/slices/authSlice.ts:77-81 | Failed, error = payload or "Failed to signup", not authenticated; user and token kept |
| AuthSlice.AuthStore.LoginFulfilled | src/app/slices/authSlice.ts:87-95 | User and token come from the payload; authenticated; error kept |
| AuthSlice.AuthStore.LoginRejected | src/app/slices/authSlice.ts:96-100 | Failed, error = payload or "Failed to login", not authenticated; user and token kept |
| AuthSlice.AuthStore.LogoutFulfilled | src/app/slices/authSlice.ts:102-108 | Every field is back to its initial value |
| AuthSlice.AuthStore.RunLogin | src/app/slices/authSlice.ts:20-39 | A dispatched login ends authenticated with the first user and token "temp", or failed with the thunk's exact message and the old user and token kept |
| AuthSlice.AuthStore.RunSignup | src/app/slices/authSlice.ts:41-55 | A dispatched signup ends authenticated with the echoed user, or failed with "An error occurred during signup" |
| ExampleSlice.ExampleStore.constructor | src/app/slices/exampleSlice.ts:16-20 | The initial state: no data, idle, no error |
| ExampleSlice.ExampleStore.FetchPending | src/app/slices/exampleSlice.ts:39-41 | Only the status moves to loading; an earlier error stays |
| ExampleSlice.ExampleStore.FetchFulfilled | src/app/slices/exampleSlice.ts:42-45 | Succeeded with the payload as data; the error is not cleared |
| ExampleSlice.ExampleStore.FetchRejected | src/app/slices/exampleSlice.ts:46-49 | Failed with the error message, or "Something went wrong"; data kept |
| ExampleSlice.ExampleStore.RunFetch | src/app/slices/exampleSlice.ts:23-49 | A fetch ends with the reply's data, or failed with its message. An error once set is never cleared |
| ClaimsSlice.NewClaim | src/app/slices/claimsSlice.ts:25-36 | The posted claim copies the form's fields. It has status "submitted", the first clock reading as submission time, and one history entry "Submitted" / "Claim submitted by user." dated by the second reading |
| ClaimsSlice.SubmitClaim | src/app/slices/claimsSlice.ts:14-42 | Without a session user nothing is posted and the outcome is "User not authenticated". Otherwise the new claim is posted; the outcome is the server's claim, or "Failed to submit claim" |
| ClaimsSlice.FetchClaims | src/app/slices/claimsSlice.ts:44-60 | "User not authenticated" without a user; otherwise the reply's list or "Failed to fetch claims" |
| ClaimsSlice.FetchClaimById | src/app/slices/claimsSlice.ts:62-81 | Succeeds exactly when there is a user and the claim arrives and belongs to that user. Another user's claim gives "Access denied"; a failure gives "Failed to fetch claim details" |
| ClaimsSlice.StageLabel | src/app/slices/claimsSlice.ts:105 | The status key upper-cased with its first underscore turned into a space: same length, no small letter left; the position of the first underscore holds a space and every other position its character's capital |
| ClaimsSlice.StageLabelUnderReview | src/app/slices/claimsSlice.ts:105 | The history stage for under_review is "UNDER REVIEW" |
| ClaimsSlice.StageLabelSubmitted | src/app/slices/claimsSlice.ts:105 | The history stage for submitted is "SUBMITTED" |
| ClaimsSlice.StageLabelApproved | src/app/slices/claimsSlice.ts:105 | The history stage for approved is "APPROVED" |
| ClaimsSlice.StageLabelRejected | src/app/slices/claimsSlice.ts:105 | The history stage for rejected is "REJECTED" |
| ClaimsSlice.Transition | src/app/slices/claimsSlice.ts:103-108 | The claim gets the new status and exactly one history entry (stage, now, remarks) appended after the old history; every other field is kept |
| ClaimsSlice.ClaimIndex | src/app/slices/claimsSlice.ts:101 | `find` by id: the first claim with the id, or -1 exactly when none has it |
| ClaimsSlice.UpdatedClaims | src/app/slices/claimsSlice.ts:92-110 | Same length; the first claim with the id transitions; every other claim is unchanged |
| ClaimsSlice.UpdateAbsentId | src/app/slices/claimsSlice.ts:102 | An unknown id leaves the list as it was |
| ClaimsSlice.FindClaim | src/app/slices/claimsSlice.ts:101 | The scan stops at the position `ClaimIndex` defines |
| ClaimsSlice.ClaimsStore.constructor | src/app/slices/claimsSlice.ts:7-12 | The initial state: no claims, no current claim, idle, no error |
| ClaimsSlice.ClaimsStore.ClearCurrentClaim | src/app/slices/claimsSlice.ts:87-91 | Current claim and error cleared, idle; claims kept |
| ClaimsSlice.ClaimsStore.UpdateClaimStatus | src/app/slices/claimsSlice.ts:92-110 | The list becomes `UpdatedClaims` of the old list; nothing else changes |
| ClaimsSlice.ClaimsStore.SubmitClaimPending | src/app/slices/claimsSlice.ts:114-117 | Loading, error cleared; claims and current claim kept |
| ClaimsSlice.ClaimsStore.SubmitClaimFulfilled | src/app/slices/claimsSlice.ts:118-121 | Succeeded; the stored claim is appended at the end |
| ClaimsSlice.ClaimsStore.SubmitClaimRejected | src/app/slices/claimsSlice.ts:122-125 | Failed; error = payload or "Failed to submit claim" |
| ClaimsSlice.ClaimsStore.FetchClaimsPending | src/app/slices/claimsSlice.ts:126-129 | Loading, error cleared |
| ClaimsSlice.ClaimsStore.FetchClaimsFulfilled | src/app/slices/claimsSlice.ts:130-136 | Succeeded; the list is replaced by the payload |
| ClaimsSlice.ClaimsStore.FetchClaimsRejected | src/app/slices/claimsSlice.ts:137-140 | Failed; error = payload or "Failed to fetch claims" |
| ClaimsSlice.ClaimsStore.FetchClaimByIdPending | src/app/slices/claimsSlice.ts:141-145 | Loading, error cleared, current claim dropped |
| ClaimsSlice.ClaimsStore.FetchClaimByIdFulfilled | src/app/slices/claimsSlice.ts:146-152 | Succeeded with the payload as current claim |
| ClaimsSlice.ClaimsStore.FetchClaimByIdRejected | src/app/slices/claimsSlice.ts:153-156 | Failed; error = payload or "Failed to fetch claim details" |
| ClaimsSlice.ClaimsStore.RunSubmitClaim | src/app/slices/claimsSlice.ts:14-42 | A dispatched submission either appends the server's claim and succeeds, or fails with the thunk's message and leaves the list as it was |
| ClaimsSlice.ClaimsStore.RunFetchClaimById | src/app/slices/claimsSlice.ts:62-81 | A dispatched fetch ends with the claim as current claim, or failed with no current claim and the thunk's message |
| ClaimsSlice.SubmitRoundTrip | src/app/slices/claimsSlice.ts:25-38 | A submitted claim echoed back by the server arrives with status "submitted", a single "Submitted" history entry, and its two time stamps unchanged |
| PoliciesSlice.CeilDiv | src/app/slices/policiesSlice.ts:28-30 | `Math.ceil(a / b)`: the least q with a <= b·q |
| PoliciesSlice.InWindowIff | src/app/slices/policiesSlice.ts:27-31 | 0 < daysLeft <= days holds exactly when now < endDate <= now + days whole days |
| PoliciesSlice.DaysLeft | src/app/slices/policiesSlice.ts:28-30 | `Math.ceil` of the time left in days: the least whole number of days covering the time to the end date |
| PoliciesSlice.NearExpiry | src/app/slices/policiesSlice.ts:21-33 | Keeps exactly the policies in the window, in their order, each as often as it is stored; every kept policy ends after now |
| PoliciesSlice.NearExpiryDefault | src/app/slices/policiesSlice.ts:23 | With the default of 30 days: the window selector itself, so exactly the policies ending within the next 30·86 400 000 ms, in order and as often as stored |
| PoliciesSlice.NearExpiryMonotone | src/app/slices/policiesSlice.ts:31 | A wider window keeps a superset, in the same order |
| PoliciesSlice.FetchPolicies | src/app/slices/policiesSlice.ts:35-53 | "User not authenticated" without a user; otherwise the reply's list or "Failed to fetch policies" |
| PoliciesSlice.FetchPolicyById | src/app/slices/policiesSlice.ts:54-79 | Succeeds exactly when there is a user and the answer is a non-empty list, giving its first policy. A missing or empty answer gives "Policy not found"; a failure gives "Failed to fetch policy details" |
| PoliciesSlice.PoliciesStore.constructor | src/app/slices/policiesSlice.ts:14-19 | The initial state: no policies, no current policy, idle, no error |
| PoliciesSlice.PoliciesStore.ClearCurrentPolicy | src/app/slices/policiesSlice.ts:85-89 | Current policy and error cleared, idle; policies kept |
| PoliciesSlice.PoliciesStore.FetchPoliciesPending | src/app/slices/policiesSlice.ts:93-96 | Loading, error cleared |
| PoliciesSlice.PoliciesStore.FetchPoliciesFulfilled | src/app/slices/policiesSlice.ts:97-103 | Succeeded; the list is replaced by the payload |
| PoliciesSlice.PoliciesStore.FetchPoliciesRejected | src/app/slices/policiesSlice.ts:104-107 | Failed; error = payload or "Failed to fetch policies" |
| PoliciesSlice.PoliciesStore.FetchPolicyByIdPending | src/app/slices/policiesSlice.ts:108-112 | Loading, error cleared, current policy dropped |
| PoliciesSlice.PoliciesStore.FetchPolicyByIdFulfilled | src/app/slices/policiesSlice.ts:113-119 | Succeeded with the payload as current policy |
| PoliciesSlice.PoliciesStore.FetchPolicyByIdRejected | src/app/slices/policiesSlice.ts:120-123 | Failed; error = payload or "Failed to fetch policy details" |
| PoliciesSlice.PoliciesStore.RunFetchPolicyById | src/app/slices/policiesSlice.ts:54-79 | A dispatched fetch ends with the first listed policy as current policy, or failed with the thunk's message |
| PremiumTrends.RoundHalfUp | src/components/visualization/PremiumTrendsChart.tsx:38 | `Math.round(total / count)`: the nearest integer, halves rounded up |
| PremiumTrends.CountFacts | src/components/visualization/PremiumTrendsChart.tsx:25-32 | A month's count is positive exactly when some policy starts in it, and its total is 0 when the count is 0 |
| PremiumTrends.AddPolicy | src/components/visualization/PremiumTrendsChart.tsx:25-32 | One `forEach` step keeps `dataMap` exact: with the policy added to the walked prefix, every month's entry still holds that month's total and count, months stay unique, and a month gets an entry exactly when some walked policy starts in it |
| PremiumTrends.Accumulate | src/components/visualization/PremiumTrendsChart.tsx:23-32 | After the loop, `dataMap` holds one entry per month that has policies, with that month's premium total and policy count, and months not repeated |
| PremiumTrends.ProjectSum | src/components/visualization/PremiumTrendsChart.tsx:34-40 | Mapping the entries to chart points keeps the sum of totals and the sum of policy counts |
| PremiumTrends.SeriesFromEntries | src/components/visualization/PremiumTrendsChart.tsx:34-41 | Projecting and sorting by date a correct `dataMap` gives a trend series whose totals sum to all premiums and whose counts sum to the number of policies |
| PremiumTrends.ProcessData | src/components/visualization/PremiumTrendsChart.tsx:22-42 | The result is a trend series: strictly increasing dates, exactly the months that have policies, and per month its total, rounded average and count. Its totals sum to all premiums and its counts to the number of policies |
| PremiumTrends.TotalPremiums | src/components/visualization/PremiumTrendsChart.tsx:50 | The `reduce` over the points: 0 for no points; with non-negative totals it is non-negative and at least every single point's total |
| PremiumTrends.TrendSeriesUnique | src/components/visualization/PremiumTrendsChart.tsx:34-41 | Only one sequence is a trend series of given policies, so the output is determined whatever the key order of `dataMap` |
| PremiumTrends.TrendSeriesReorder | src/components/visualization/PremiumTrendsChart.tsx:25-32 | Reordering the input policies does not change which series is their trend series |
| PremiumTrends.HeadlineAverage | src/components/visualization/PremiumTrendsChart.tsx:50-51 | The headline average is the total divided by the number of policies, rounded half up, and absent for no policies |
| PremiumTrends.FixtureSeries | src/components/visualization/PremiumTrendsChart.test.tsx:25-61 | The test's three policies (two in January 2024, one in February) have the series Jan: 1800 / 900 / 2, Feb: 1200 / 1200 / 1 |
| PremiumTrends.JanuaryFebruaryExample | src/components/visualization/PremiumTrendsChart.test.tsx:67-117 | For those policies the chart data is exactly that series; the total is 3000 and the headline average is 1000 |
| PolicyDistribution.TallyStep | src/components/visualization/PolicyDistributionChart.tsx:37-40 | One more policy adds one to its own type's count and its premium to its own type's total, and nothing to the others |
| PolicyDistribution.TallyForStep | src/components/visualization/PolicyDistributionChart.tsx:37-40 | One `forEach` step on the tally map changes only the entry of the policy's type, by one and its premium |
| PolicyDistribution.Percentage | src/components/visualization/PolicyDistributionChart.tsx:48 | 0 when there are no policies; otherwise the share r with r·total = 100·count |
| PolicyDistribution.ProcessDistribution | src/components/visualization/PolicyDistributionChart.tsx:27-50 | Three entries, Health, Auto, Home, in that order. Each holds its type's policy count, premium total and percentage |
| PolicyDistribution.TypesPartition | src/components/visualization/PolicyDistributionChart.tsx:37-42 | The three counts add up to the number of policies and the three premium totals to all premiums |
| PolicyDistribution.PercentagesSum | src/components/visualization/PolicyDistributionChart.tsx:42-48 | With at least one policy the three percentages add up to exactly 100 |
| PolicyDistribution.PercentageBounds | src/components/visualization/PolicyDistributionChart.tsx:48 | A share lies between 0 and 100 |
| PolicyDistribution.Tenths | src/components/visualization/PolicyDistributionChart.tsx:76 | `toFixed(1)`'s rounding: the number of tenths nearest to x, ties up |
| PolicyDistribution.FixedOne | src/components/visualization/PolicyDistributionChart.tsx:76 | `toFixed(1)` of a non-negative number: the shortest decimal digits of the whole tenths, a point, then the tenths digit, so the text spells the rounded value |
| PolicyDistribution.ToFixed1 | src/components/visualization/PolicyDistributionChart.tsx:76 | A non-negative number is spelled as its rounded tenths; a negative one gets a minus sign before the spelling of its magnitude |
| PolicyDistribution.ShowsTenthsUnique | src/components/visualization/PolicyDistributionChart.tsx:76 | Only one text spells a given count of tenths, so the label of a percentage is fixed by its value |
| PolicyDistribution.FormatPercentage | src/components/visualization/PolicyDistributionChart.tsx:73-77 | "No policies" when there are none, "0%" for a zero share, otherwise one decimal and "%" |
| PolicyDistribution.EmptyDistribution | src/components/visualization/PolicyDistributionChart.test.tsx:133-147 | No policies: every count and premium is 0 and every label is "No policies" |
| PolicyDistribution.TwoHealthOneAutoOneHome | src/components/visualization/PolicyDistributionChart.test.tsx:86-116 | The test's four policies give counts 2, 1, 1, Health premium 2200, and labels "50.0%", "25.0%", "25.0%" |
| ClaimHistoryView.MatchesSearch | src/pages/ClaimHistory.tsx:32-35 | The empty search matches every claim |
| ClaimHistoryView.SearchIgnoresCase | src/pages/ClaimHistory.tsx:32-35 | A search and its lower-case form match the same claims, the id test included, since digits have no case |
| ClaimHistoryView.MatchesType | src/pages/ClaimHistory.tsx:36-37 | "all" matches every claim; a selection holding a capital letter matches none, as the claim type is lower-cased before the comparison |
| ClaimHistoryView.FilterClaims | src/pages/ClaimHistory.tsx:31-39 | Keeps exactly the claims that match both the search and the type, in their order, each matching claim as often as it is stored |
| ClaimHistoryView.ShowAllInitially | src/pages/ClaimHistory.tsx:21-22 | The initial empty search with "all" selected shows every claim |
| ClaimHistoryView.SelectingNarrows | src/pages/ClaimHistory.tsx:36-37 | Choosing a type shows a subsequence of what "all" shows |
| ClaimHistoryView.SearchCarAccident | src/pages/ClaimHistory.test.tsx:85-103 | Over the test's two claims, searching "car accident" leaves only the Auto claim |
| ClaimHistoryView.LowerTypesMembers | src/pages/ClaimHistory.tsx:44 | The mapped list holds exactly the lower-cased claim types |
| ClaimHistoryView.ClaimTypes | src/pages/ClaimHistory.tsx:41-46 | "all" first. After it, each lower-cased claim type once and nothing else, in first-appearance order |
| ClaimHistoryView.StatusKeys | src/pages/ClaimHistory.tsx:11-16 | The colour table's keys are exactly the four claim statuses, each with its own colour |
| ClaimHistoryView.StatusColor | src/pages/ClaimHistory.tsx:48-53 | A status that lower-cases to a claim status gets that status's colour; any other gets gray |
| ClaimHistoryView.StatusColorIgnoresCase | src/pages/ClaimHistory.tsx:50 | Looking up a status and its lower-case form gives the same colour |
| ClaimHistoryView.StatusColorsOfStatuses | src/pages/ClaimHistory.tsx:11-16 | Every claim status gets its own colour, never the gray default |
| DashboardView.MatchesSearch | src/pages/Dashboard.tsx:28-31 | The empty search matches every policy |
| DashboardView.SearchIgnoresCase | src/pages/Dashboard.tsx:28-31 | A search and its lower-case form match the same policies |
| DashboardView.MatchesType | src/pages/Dashboard.tsx:33 | "All" matches every policy; any other selection matches only policies of the one type with that exact name |
| DashboardView.MatchesStatus | src/pages/Dashboard.tsx:34-35 | "All" matches every policy; any other selection matches only policies of the one status with that exact name |
| DashboardView.FilteredPolicies | src/pages/Dashboard.tsx:26-43 | Holds exactly the policies passing the search, type and status tests, as a permutation of the filtered list. Start dates are non-decreasing for "asc" and non-increasing for "desc" |
| DashboardView.ShowsEverythingInitially | src/pages/Dashboard.tsx:14-16 | The initial search "" with "All"/"All" shows every policy, each as often as stored |
| DashboardView.OrderKeepsSelection | src/pages/Dashboard.tsx:39-43 | Switching between "asc" and "desc" changes the order only, never which policies are shown |
| DashboardView.SelectorsAreCaseSensitive | src/pages/Dashboard.tsx:28-35 | The type selector compares exactly, so "health" matches nothing; the search ignores case, so "health" finds every Health policy |
| PolicyList.OfTypeSnoc | src/components/policies/PolicyList.tsx:22-24 | A pushed policy lands at the end of its own type's group and of no other |
| PolicyList.GroupByType | src/components/policies/PolicyList.tsx:16-24 | Three groups, Health, Auto and Home, in that order and present even when empty. Each is exactly the policies of its type, in input order |
| PolicyList.GroupMembership | src/components/policies/PolicyList.tsx:22-24 | A policy is in a group exactly when it is in the input with that type; each group is a subsequence of the input |
| PolicyList.GroupSizes | src/components/policies/PolicyList.tsx:16-24 | The group sizes add up to the number of policies |
| PolicyList.GroupsPartition | src/components/policies/PolicyList.tsx:16-24 | Together the groups hold exactly the input, each policy as often as it occurs |
| ClaimProgress.CurrentStageIndex | src/components/claims/ClaimProgressBar.tsx:17 | The first stage whose key is the status, or -1 exactly when no key matches |
| ClaimProgress.StageOfStatus | src/components/claims/ClaimProgressBar.tsx:10-17 | The stages run submitted, under_review, approved, rejected. Every claim status has its index there, 0 to 3, never -1 |
| ClaimProgress.Percentage | src/components/claims/ClaimProgressBar.tsx:18 | (index + 1) / 4 · 100, between 0 and 100 |
| ClaimProgress.PercentageOfStatus | src/components/claims/ClaimProgressBar.tsx:18 | The four statuses fill 25, 50, 75 and 100 percent |
| ClaimProgress.Checks | src/components/claims/ClaimProgressBar.tsx:30-41 | Stage i's marker is checked exactly when i <= the current index |
| ClaimProgress.CheckCount | src/components/claims/ClaimProgressBar.tsx:34-39 | The number of checks is the current index + 1 |
| ClaimProgress.ChecksOfStatuses | src/components/claims/claimProgressBar.test.tsx:22-45 | under_review shows 2 checks, approved 3, rejected 4 |
| EmptyState.Capitalize | src/components/common/EmptyState.tsx:14 | Same length; only the first character is upper-cased, the rest kept verbatim |
| EmptyState.CapitalizeIdempotent | src/components/common/EmptyState.tsx:14 | Capitalising twice is capitalising once; a type starting with no lower-case letter is kept |
| EmptyState.Heading | src/components/common/EmptyState.tsx:14 | "No ", the type with its first letter capitalised, then " Found" |
| EmptyState.HeadingDeterminesType | src/components/common/EmptyState.tsx:14 | Two types with the same heading agree except possibly in the case of their first letter |
| EmptyState.ExampleHeadings | src/components/common/EmptyState.test.tsx:5-26 | "documents", "claims" and "policies" give "No Documents Found", "No Claims Found" and "No Policies Found" |
| EmptyState.DefaultMessage | src/components/common/EmptyState.tsx:17 | "No ", the type as given, then " have been submitted yet." |
| EmptyState.DefaultMessageDeterminesType | src/components/common/EmptyState.tsx:17 | Two types with the same default message are the same type |
| EmptyState.Body | src/components/common/EmptyState.tsx:17 | A non-empty message is shown as is. A missing or empty message gives "No {type} have been submitted yet." |
| EmptyState.ExampleBodies | src/components/common/EmptyState.test.tsx:5-21 | No message, or an empty one, gives "No claims have been submitted yet."; a custom message is shown |
| Text.ToLower | src/pages/ClaimHistory.tsx:33 | `toLowerCase`: same length, each ASCII capital mapped to its small letter, no capital left |
| Text.ToUpper | src/app/slices/claimsSlice.ts:105 | `toUpperCase`: same length, each ASCII small letter mapped to its capital, no small letter left |
| Text.ToLowerIdempotent | src/pages/ClaimHistory.tsx:50 | Lower-casing twice is lower-casing once |
| Text.ContainsIff | src/pages/ClaimHistory.tsx:33-35 | `includes` holds exactly when the term occurs at some position |
| Text.ContainsLowerInLetterFree | src/pages/ClaimHistory.tsx:34 | In a text without letters, such as an id's digits, a term and its lower-case form occur alike |
| Text.Contains | src/pages/Dashboard.tsx:29 | `includes`: every string includes the empty string, and none includes a longer one |
| Text.ReplaceFirst | src/app/slices/claimsSlice.ts:105 | `replace` of a single character: the first occurrence becomes the replacement and every other position keeps its character |
| Text.IntToString | src/pages/ClaimHistory.tsx:34 | `toString` of an integer: decimal digits with no leading zero, with a minus sign for a negative number |
| Text.IntToStringRoundTrip | src/pages/ClaimHistory.tsx:34 | The text `toString` gives reads back as the number: digits alone for n >= 0, a minus sign then the digits of -n otherwise |
| Text.CanonicalDigitsRoundTrip | src/pages/ClaimHistory.tsx:34 | Digits with no leading zero are exactly what `toString` gives for their value, so the printed form is unique |
| Seqs.Filter | src/pages/ClaimHistory.tsx:31 | `filter`: exactly the kept elements, in their order |
| Seqs.FilterCountOf | src/pages/ClaimHistory.tsx:31 | `filter` and one value: it occurs in the result as often as in the input when it passes the test, and never otherwise |
| Seqs.FilterCount | src/pages/ClaimHistory.tsx:31 | `filter` keeps each kept value as often as it occurs and drops every other value entirely |
| Seqs.FindIndex | src/components/claims/ClaimProgressBar.tsx:17 | `findIndex`: the first match, or -1 exactly when nothing matches |
| Seqs.SortByKey | src/pages/Dashboard.tsx:39-43 | Sorting by a numeric key gives ordered keys and a permutation of the input |
| Seqs.SortKeepsDistinct | src/components/visualization/PremiumTrendsChart.tsx:41 | Sorting input with distinct keys gives strictly increasing keys |
| Seqs.Distinct | src/pages/ClaimHistory.tsx:43-45 | `Array.from(new Set(s))`: the same values, each once, in first-appearance order |
| Seqs.SumBy | src/components/visualization/PremiumTrendsChart.tsx:50 | A `reduce` sum from 0: 0 for no terms, the term itself for a single term; its other properties are the lemmas below |
| Seqs.SumByNonNegative | src/components/visualization/PremiumTrendsChart.tsx:50 | A `reduce` sum of non-negative terms is non-negative and at least each term |
| Seqs.SumByAppend | src/components/visualization/PremiumTrendsChart.tsx:50 | The sum over a concatenation is the sum of the two sums |
| Seqs.SumByPerm | src/components/visualization/PremiumTrendsChart.tsx:50 | A sum does not depend on the order of its terms |

## Left out

- The HTTP layer: URLs, query strings, credentials and ids that only shape a URL are not modelled. Each thunk receives the server's answer, or a failure, as an input.
- Time: the clock is a parameter (`now`). Time stamps are opaque strings, or integer milliseconds where the code does arithmetic on them.
- Date parsing and formatting are not modelled. The premium chart's month comes from a parameter `monthOf` that maps a start time to a `yyyy·100 + MM` number. That number orders like the "yyyy-MM" text the chart sorts with `localeCompare`.
- Dates that fail to parse (`NaN` times) are not modelled. This covers the dashboard's sort comparator and the near-expiry selector.
- Numbers are exact: premiums are integers and shares are reals. The model therefore says nothing about floating-point rounding or `toLocaleString`.
- PremiumTrends.HeadlineAverage: for no policies the page divides by zero and rounds `NaN`; the model returns no value instead.
- PoliciesSlice.CeilDiv: models `Math.ceil` of the exact quotient, not of a rounded floating-point one.
- PolicyDistribution.ToFixed1: rounds the exact real half up. JavaScript rounds the nearest double, which can differ on ties.
- Case mapping covers ASCII letters only. Other characters are left unchanged.
- ClaimHistoryView.StatusColor: a status that lower-cases to an inherited object key, such as "constructor", makes the page return a non-string. The model treats it as unknown and gives gray.
- Seqs.SortByKey: the sort is an insertion sort that keeps equal keys in input order, as the engines' sort does. No lemma states that stability.
- Asynchronous ordering is not modelled: the dispatch methods run pending and then the settled case, with no other action between them.
- Rendering (JSX, class names other than the status colours, icons, layout) and the React hooks that dispatch the fetches are not modelled.
- The `Policy` type declares two statuses, but the pages also handle "pending". The model uses the three statuses the code handles.
