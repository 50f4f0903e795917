/**
 * The dual-approval workflow behind `FakeDb.SetStatus`: how one review action
 * (a requested status, an optional comment, the acting role) changes a claim.
 */
module Approval {
  import opened Wrappers
  import opened DotNetStrings
  import opened Claims

  const Approved: string := "Approved"
  const Rejected: string := "Rejected"
  const PendingPrefix: string := "Pending"
  const PendingCoordinatorReview: string := "Pending Coordinator Review"
  const PendingAcademicManagerReview: string := "Pending Academic Manager Review"

  /** A claim in any "Pending" state: a non-null status that starts with "Pending", ignoring case. */
  predicate IsPending(c: Claim)
  {
    c.status.Some? && StartsWithIgnoreCase(c.status.value, PendingPrefix)
  }

  /** The fields a review never touches are the same in `c` and `d`. */
  predicate SameSubmission(c: Claim, d: Claim)
  {
    && c.claimId == d.claimId && c.lecturerId == d.lecturerId && c.lecturerName == d.lecturerName
    && c.month == d.month && c.claimItems == d.claimItems && c.documents == d.documents
  }

  /** A reviewer's comment replaces the stored one only when it is not null or blank. */
  function MergeComment(existing: Option<string>, comment: Option<string>): Option<string>
  {
    if IsNullOrWhiteSpace(comment) then existing else comment
  }

  /**
   * One review action on claim `c`: `status` is the requested status, `comment`
   * the reviewer's optional remark, `coordinator` whether the coordinator (rather
   * than the academic manager) acts.
   */
  function ApplyStatus(c: Claim, status: string, comment: Option<string>, coordinator: bool): (r: Claim)
    // nothing outside the review fields changes, so neither does the claim's amount
    ensures SameSubmission(c, r) && TotalAmount(r) == TotalAmount(c)
    // only an approval raises a flag, and only the acting role's; no flag is ever cleared
    ensures r.coordinatorApproved == (c.coordinatorApproved || (status == Approved && coordinator))
    ensures r.academicManagerApproved == (c.academicManagerApproved || (status == Approved && !coordinator))
    // only the acting role's comment can change, and only to a supplied non-blank comment
    ensures r.coordinatorComments
         == if coordinator && !IsNullOrWhiteSpace(comment) then comment else c.coordinatorComments
    ensures r.academicManagerComments
         == if !coordinator && !IsNullOrWhiteSpace(comment) then comment else c.academicManagerComments
    // the claim is approved exactly when approval was requested and both roles have now approved
    ensures r.status == Some(Approved)
        <==> status == Approved && r.coordinatorApproved && r.academicManagerApproved
    // an approval still missing the other role leaves the claim pending that role
    ensures status == Approved && !r.academicManagerApproved ==> r.status == Some(PendingAcademicManagerReview)
    ensures status == Approved && !r.coordinatorApproved ==> r.status == Some(PendingCoordinatorReview)
    // any other requested status is stored as given
    ensures status != Approved ==> r.status == Some(status)
  {
    if status == Approved then
      if coordinator then
        c.(coordinatorApproved := true,
           coordinatorComments := MergeComment(c.coordinatorComments, comment),
           status := Some(if c.academicManagerApproved then Approved else PendingAcademicManagerReview))
      else
        c.(academicManagerApproved := true,
           academicManagerComments := MergeComment(c.academicManagerComments, comment),
           status := Some(if c.coordinatorApproved then Approved else PendingCoordinatorReview))
    else if coordinator then
      c.(status := Some(status), coordinatorComments := MergeComment(c.coordinatorComments, comment))
    else
      c.(status := Some(status), academicManagerComments := MergeComment(c.academicManagerComments, comment))
  }

  /** Both review states a single approval can leave behind are pending states. */
  lemma PendingStatusesArePending(c: Claim)
    requires c.status == Some(PendingCoordinatorReview) || c.status == Some(PendingAcademicManagerReview)
    ensures IsPending(c)
  {
    PrefixStartsWith(c.status.value, PendingPrefix);
  }

  /** From no approvals, one approval by either role leaves the claim pending, not approved. */
  lemma OneApprovalIsPending(c: Claim, comment: Option<string>, coordinator: bool)
    requires !c.coordinatorApproved && !c.academicManagerApproved
    ensures var r := ApplyStatus(c, Approved, comment, coordinator);
      IsPending(r) && r.status != Some(Approved)
  {
    PendingStatusesArePending(ApplyStatus(c, Approved, comment, coordinator));
  }

  /**
   * A coordinator and a manager approval, in either order, approve the claim, whatever
   * state it started in (in particular from no approvals).
   */
  lemma BothApprovalsInEitherOrder(c: Claim, k1: Option<string>, k2: Option<string>)
    ensures var r := ApplyStatus(ApplyStatus(c, Approved, k1, true), Approved, k2, false);
      r.status == Some(Approved) && r.coordinatorApproved && r.academicManagerApproved
    ensures var r := ApplyStatus(ApplyStatus(c, Approved, k1, false), Approved, k2, true);
      r.status == Some(Approved) && r.coordinatorApproved && r.academicManagerApproved
  {
  }

  /** A rejection by either role overrides the status whatever the flags, and keeps the flags. */
  lemma RejectionOverrides(c: Claim, comment: Option<string>, coordinator: bool)
    ensures var r := ApplyStatus(c, Rejected, comment, coordinator);
      r.status == Some(Rejected) && !IsPending(r)
      && r.coordinatorApproved == c.coordinatorApproved
      && r.academicManagerApproved == c.academicManagerApproved
  {
    assert Rejected[0] == 'R';
  }

  /**
   * Rejecting does not withdraw an earlier approval: after a coordinator approval
   * and a coordinator rejection, one academic-manager approval still approves the claim.
   */
  lemma RejectionKeepsEarlierApproval(c: Claim, k1: Option<string>, k2: Option<string>, k3: Option<string>)
    requires !c.coordinatorApproved && !c.academicManagerApproved
    ensures var r := ApplyStatus(ApplyStatus(ApplyStatus(c, Approved, k1, true), Rejected, k2, true), Approved, k3, false);
      r.status == Some(Approved)
  {
  }

  /** One call of `SetStatus` on the same claim. */
  datatype Review = Review(status: string, comment: Option<string>, coordinator: bool)

  /** A claim after a sequence of reviews, applied in order. */
  function ApplyAll(c: Claim, reviews: seq<Review>): Claim
    decreases |reviews|
  {
    if reviews == [] then c
    else ApplyAll(ApplyStatus(c, reviews[0].status, reviews[0].comment, reviews[0].coordinator), reviews[1..])
  }

  /** The review is an approval by the given role. */
  predicate IsApprovalBy(v: Review, coordinator: bool)
  {
    v.status == Approved && v.coordinator == coordinator
  }

  /** The status says "Approved" only when both roles have approved. */
  predicate ApprovedOnlyWithBoth(c: Claim)
  {
    c.status == Some(Approved) ==> c.coordinatorApproved && c.academicManagerApproved
  }

  /** No sequence of reviews approves a claim without both roles' approvals. */
  lemma {:induction false} ApplyAllKeepsApprovedOnlyWithBoth(c: Claim, reviews: seq<Review>)
    requires ApprovedOnlyWithBoth(c)
    ensures ApprovedOnlyWithBoth(ApplyAll(c, reviews))
    decreases |reviews|
  {
    if reviews != [] {
      var v := reviews[0];
      ApplyAllKeepsApprovedOnlyWithBoth(ApplyStatus(c, v.status, v.comment, v.coordinator), reviews[1..]);
    }
  }

  /** After a sequence of reviews a role's flag is set exactly when it was set before or that role approved. */
  lemma {:induction false} ApplyAllFlags(c: Claim, reviews: seq<Review>)
    ensures ApplyAll(c, reviews).coordinatorApproved
        <==> c.coordinatorApproved || exists i :: 0 <= i < |reviews| && IsApprovalBy(reviews[i], true)
    ensures ApplyAll(c, reviews).academicManagerApproved
        <==> c.academicManagerApproved || exists i :: 0 <= i < |reviews| && IsApprovalBy(reviews[i], false)
    decreases |reviews|
  {
    if reviews != [] {
      var v := reviews[0];
      ApplyAllFlags(ApplyStatus(c, v.status, v.comment, v.coordinator), reviews[1..]);
      assert forall i :: 1 <= i < |reviews| ==> reviews[i] == reviews[1..][i - 1];
    }
  }

  /**
   * A claim with no approvals that is not already marked approved ends "Approved"
   * after a sequence of reviews only if the sequence holds an approval by each role.
   */
  lemma ApprovedNeedsApprovalByEachRole(c: Claim, reviews: seq<Review>)
    requires !c.coordinatorApproved && !c.academicManagerApproved && c.status != Some(Approved)
    requires ApplyAll(c, reviews).status == Some(Approved)
    ensures exists i :: 0 <= i < |reviews| && IsApprovalBy(reviews[i], true)
    ensures exists i :: 0 <= i < |reviews| && IsApprovalBy(reviews[i], false)
  {
    ApplyAllKeepsApprovedOnlyWithBoth(c, reviews);
    ApplyAllFlags(c, reviews);
  }
}
