# Claim store and dual-approval workflow (Dafny model)

This project models the core of a lecturer claim-management web application
(CMCS): the in-memory claim store `FakeDb`, its coordinator/academic-manager
approval workflow (`SetStatus`), and the derived amounts of a claim
(`Claim.TotalAmount`) and of a claim line (`ClaimItem.Total`).

Modules, following the source files:

- `Wrappers` (`wrappers.dfy`): `Option`, standing for C# references that may be null.
- `DotNetStrings` (`dotnet_strings.dfy`): `string.IsNullOrWhiteSpace` and
  `StartsWith(…, StringComparison.OrdinalIgnoreCase)`.
- `Linq` (`linq.dfy`): the LINQ operators the store uses. `Where` is a filter that
  keeps order. `FirstIndex` finds the position of the first match, as `FirstOrDefault`
  does. `SortBy` is an insertion sort that models `OrderBy`. `OrderByDescending` is
  `SortBy` on the negated key.
- `ClaimItems` (`claim_item.dfy`): the `ClaimItem` record and `Total`.
- `Claims` (`claim.dfy`): the `Document` and `Claim` records, `new Claim()` and `TotalAmount`.
- `Approval` (`approval.dfy`): one `SetStatus` review action as a pure function
  `ApplyStatus` on a claim, and lemmas about single reviews and about sequences of them.
- `Data` (`fake_db.dfy`): the store as the class `FakeDb`. It holds the claim list, the
  document list and the two id counters, which start at 3 and 1. Its invariant `Valid()`
  says four things: stored ids increase along each list, they stay below the next id
  to hand out, no stored claim has a null item or document list, and no stored claim
  keeps the default month. `AddClaim`,
  `AddDocument` and `SetStatus` are methods that state the entire new state. The
  queries are functions of the state. `DualApprovalWalkthrough` follows one claim
  through the store's contracts: it is added pending coordinator review, one
  coordinator approval leaves it pending academic-manager review, and one manager
  approval approves it.

Representation choices:

- A C# `decimal` is a Dafny `real`, which is exact.
- A `DateTime` month is an `int`, and 0 stands for `default(DateTime)`.
- The clock read `DateTime.Now` in `AddClaim` becomes the parameter `now`.
- Claims and documents are values. The store replaces a stored claim when it changes.

Facts about the source that the model keeps:

- `AddClaim` keeps any supplied non-blank status (CMCS.PROG6212/Data/FakeDb.cs:35-36), so a
  stored claim need not start as "Pending Coordinator Review".
- Nothing in `ClaimItem` or the store checks that hours or rates are positive.

## Model

| member | source | states |
|---|---|---|
| `ClaimItems.TotalExample` | CMCS.UnitTests/ClaimItemTests.cs:15-25 | 5 hours at rate 100 total 500 |
| `ClaimItems.TotalZero` | CMCS.PROG6212/Models/ClaimItem.cs:12 | zero hours or a zero rate total 0 |
| `ClaimItems.TotalNonNegative` | CMCS.PROG6212/Models/ClaimItem.cs:12 | non-negative hours at a non-negative rate give a non-negative total |
| `Claims.NewClaim` | CMCS.PROG6212/Models/Claim.cs:30-39 | a fresh claim has empty item and document lists, both approval flags false, a null status and the default month |
| `Claims.TotalAmountWithoutItems` | CMCS.PROG6212/Models/Claim.cs:41 | a claim whose item list is null or empty totals 0 |
| `Claims.NewClaimTotal` | CMCS.PROG6212/Models/Claim.cs:36-41 | a fresh claim totals 0 |
| `Claims.SumTotalsAppend` | CMCS.PROG6212/Models/Claim.cs:41 | the sum over a list with one more item is the old sum plus that item's total |
| `Claims.TotalAmountAppend` | CMCS.PROG6212/Models/Claim.cs:41 | appending an item raises the claim total by exactly that item's total |
| `Claims.SumTotalsRemove` | CMCS.PROG6212/Models/Claim.cs:41 | removing the item at any position lowers the sum by exactly its total |
| `Claims.SumTotalsPermutation` | CMCS.PROG6212/Models/Claim.cs:41 | two item lists with the same elements have the same sum |
| `Claims.TotalAmountPermutation` | CMCS.PROG6212/Models/Claim.cs:41 | reordering a claim's items leaves its total unchanged |
| `Claims.TotalAmountExample` | CMCS.PROG6212/Models/Claim.cs:41 | items of 5 h at 100 and 2 h at 50 total 600 |
| `Linq.Where` | CMCS.PROG6212/Data/FakeDb.cs:54-55 | the filter returns no more elements than it gets, and every element it returns satisfies the predicate |
| `Linq.WhereCount` | CMCS.PROG6212/Data/FakeDb.cs:54-55 | the filter keeps every occurrence of a matching value and drops all others |
| `Linq.WhereAppend` | CMCS.PROG6212/Data/FakeDb.cs:112-114 | filtering a list with one element appended gives the old result, plus that element when it matches (order is kept) |
| `Linq.FirstIndex` | CMCS.PROG6212/Data/FakeDb.cs:83 | the result is the position of the first match, or none exactly when no element matches |
| `Linq.InsertBy` | CMCS.PROG6212/Data/FakeDb.cs:74 | inserting into a sorted list keeps it sorted and adds exactly the one element |
| `Linq.SortBy` | CMCS.PROG6212/Data/FakeDb.cs:74 | the result is sorted by the key and is a permutation of the input |
| `Approval.ApplyStatus` | CMCS.PROG6212/Data/FakeDb.cs:140-185 | an approval sets only the acting role's flag and no flag is ever cleared; the status becomes "Approved" exactly when approval was requested and both flags are now set; otherwise an approval leaves the claim pending the other role; any other requested status is stored verbatim; only the acting role's comment changes, and only to a non-blank supplied comment; the other fields and the total are unchanged |
| `Approval.PendingStatusesArePending` | CMCS.PROG6212/Data/FakeDb.cs:152-167 | both statuses a single approval can leave are pending states |
| `Approval.OneApprovalIsPending` | CMCS.PROG6212/Data/FakeDb.cs:150-167 | from no approvals, one approval by either role leaves the claim pending and not approved |
| `Approval.BothApprovalsInEitherOrder` | CMCS.PROG6212/Data/FakeDb.cs:128-167 | from any state, in particular from no approvals, one coordinator approval and one manager approval, in either order, give status "Approved" with both flags set |
| `Approval.RejectionOverrides` | CMCS.PROG6212/Data/FakeDb.cs:170-173 | a rejection by either role sets the status to "Rejected", which is not pending, and keeps both flags |
| `Approval.RejectionKeepsEarlierApproval` | CMCS.PROG6212/Data/FakeDb.cs:170-185 | a rejection does not withdraw an earlier approval: coordinator approval, then coordinator rejection, then manager approval ends "Approved" |
| `Approval.ApplyAllKeepsApprovedOnlyWithBoth` | CMCS.PROG6212/Data/FakeDb.cs:128-132 | no sequence of reviews makes a claim "Approved" unless both flags are set |
| `Approval.ApprovedNeedsApprovalByEachRole` | CMCS.PROG6212/Data/FakeDb.cs:128-168 | from no approvals and a status other than "Approved", a sequence of reviews that ends "Approved" holds an approval by the coordinator and one by the academic manager |
| `Approval.ApplyAllFlags` | CMCS.PROG6212/Data/FakeDb.cs:141-168 | after a sequence of reviews, a role's flag is set exactly when it was set before or that role approved at some point |
| `Data.DocumentsForClaimAppend` | CMCS.PROG6212/Data/FakeDb.cs:95 | adding a document extends the document list of its own claim by it and leaves every other claim's list unchanged |
| `Data.FakeDb.constructor` | CMCS.PROG6212/Data/FakeDb.cs:15-26 | the store starts empty with claim ids from 3 and document ids from 1, and satisfies its invariant |
| `Data.FakeDb.Find` | CMCS.PROG6212/Data/FakeDb.cs:79-85 | a claim is found exactly when a stored claim has the id; under the invariant it is the only such claim |
| `Data.FakeDb.ByLecturer` | CMCS.PROG6212/Data/FakeDb.cs:50-59 | returns exactly the stored claims of the lecturer, with their multiplicities, latest month first |
| `Data.FakeDb.Pending` | CMCS.PROG6212/Data/FakeDb.cs:61-77 | returns exactly the stored claims whose status is non-null and starts with "Pending" ignoring case, earliest month first |
| `Data.FakeDb.GetDocumentsForClaim` | CMCS.PROG6212/Data/FakeDb.cs:108-116 | returns exactly the stored documents of the claim |
| `Data.FakeDb.FindDocument` | CMCS.PROG6212/Data/FakeDb.cs:118-124 | a document is found exactly when a stored document has the id; under the invariant it is the only such document |
| `Data.FakeDb.AddClaim` | CMCS.PROG6212/Data/FakeDb.cs:28-48 | appends exactly one claim and changes no stored claim; its id is the counter, which rises by one; a null or blank status becomes "Pending Coordinator Review" and any other is kept; the default month becomes `now`, the clock, which is never the default month, so no stored claim keeps the default month (part of `Valid()`); null lists become empty; the invariant (increasing, distinct ids) is kept and the new claim can be found by its id |
| `Data.FakeDb.AddDocument` | CMCS.PROG6212/Data/FakeDb.cs:89-106 | the document gets the next document id and is appended to the document list; it is appended to the first claim with its claim id when there is one, and no claim changes otherwise; it extends that claim's document query and no other; the invariant is kept |
| `Data.FakeDb.SetStatus` | CMCS.PROG6212/Data/FakeDb.cs:133-189 | returns true exactly when a stored claim has the id; then that claim becomes `ApplyStatus` of itself and nothing else changes; for a missing id nothing changes |

## Left out

- The `lock` blocks only serialise calls. Every operation is one atomic sequential step.
- `DateTime.Now`: the clock is the `now` parameter of `Data.FakeDb.AddClaim`.
- Aliasing: C# `AddClaim` and `AddDocument` store and return the caller's own object. Later changes through a caller's reference reach the stored record there; values in the model do not share them.
- `Data.FakeDb.Find`, `Data.FakeDb.FindDocument`, `Data.FakeDb.ByLecturer`, `Data.FakeDb.Pending` and `Data.FakeDb.GetDocumentsForClaim` return copies in the model. The C# methods return the stored objects themselves (CMCS.PROG6212/Data/FakeDb.cs:54-57, 83, 112-114, 122), so in C# a caller's edit to a returned claim or document changes the store.
- `Data.FakeDb.AddClaim` on a claim object that is already stored: C# overwrites that object's `ClaimId` in place and adds the same object to the list a second time (CMCS.PROG6212/Data/FakeDb.cs:32, 45). After `AddClaim(c); AddClaim(c)` both entries carry id 4 and `Find(3)` returns null. The model stores two separate claims with ids 3 and 4, so the distinct-ids part of `Valid()` holds in the model but not in C# for this use.
- `Data.FakeDb.AddDocument` on a document object that is already stored: C# overwrites that object's `DocumentId` in place and adds the same object to `Documents` a second time, and to the owning claim's `Documents` a second time (CMCS.PROG6212/Data/FakeDb.cs:93, 95, 101). After `AddDocument(d); AddDocument(d)` both entries carry id 2 and `FindDocument(1)` returns null. The model stores two separate documents with ids 1 and 2 and keeps the first entry unchanged, so the document-id part of `Valid()` holds in the model but not in C# for this use.
- Null arguments and null elements: `AddClaim(null)` and `AddDocument(null)` throw a NullReferenceException (CMCS.PROG6212/Data/FakeDb.cs:32, 93), and so does a null element of `ClaimItems` when `TotalAmount` reads its `Total` (CMCS.PROG6212/Models/Claim.cs:41). Claims, documents and items are values in the model and cannot be null, so these error paths do not exist in it.
- `Data.FakeDb.SetStatus`: the C# parameters `comment` and `coordinator` are optional, defaulting to null and true (CMCS.PROG6212/Data/FakeDb.cs:133). The model takes both as required parameters; a call without them is `SetStatus(id, status, None, true)`.
- The public `Claims` and `Documents` lists can be changed by any caller. Only changes made through the store's operations are modelled.
- `Data.FakeDb.Pending`: states the elements and the month order, but not that LINQ's sort is stable among claims of the same month.
- `Data.FakeDb.ByLecturer`: states the elements and the month order, but not the stability of the sort.
- `Data.FakeDb.GetDocumentsForClaim`: states the elements. Their insertion order is stated by `Data.FakeDb.AddDocument` and `Linq.WhereAppend`.
- `DotNetStrings.StartsWithIgnoreCase` folds case for ASCII letters only. .NET's ordinal ignore-case comparison also folds non-ASCII letters.
- A null requested status in `SetStatus` is not modelled. The parameter is a non-null string.
- 32-bit `int` ids and counters are unbounded integers, so counter wrap-around is not modelled.
- `decimal` precision and overflow in `Total` and `TotalAmount` are not modelled; amounts are exact reals.
- `Document.cs` is not part of this model. `Document` carries a document id, a claim id and three optional file fields that the store never reads.
- The controllers, `Program.cs`, `ErrorViewModel.cs` and `AuditLog.cs` are web-framework plumbing, and the validation attributes on `Claim` are enforced by the framework's model binder; none of them is modelled.
- The `Description_IsRequired` test only checks for a .NET null-reference exception. That behaviour is not modelled.
