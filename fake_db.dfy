/**
 * The in-memory claim store: the claims and uploaded documents, with one
 * auto-increment id counter for each. Every call runs as one atomic step.
 */
module Data {
  import opened Wrappers
  import opened DotNetStrings
  import opened Linq
  import opened Claims
  import opened Approval

  /** The first id handed out, so that ids 1 and 2 stay free for sample data. */
  const FirstClaimId: int := 3
  const FirstDocumentId: int := 1

  function HasClaimId(id: int): Claim -> bool
  {
    (c: Claim) => c.claimId == id
  }

  function OfLecturer(lecturerId: int): Claim -> bool
  {
    (c: Claim) => c.lecturerId == lecturerId
  }

  function HasDocumentId(id: int): Document -> bool
  {
    (d: Document) => d.documentId == id
  }

  function ForClaim(claimId: int): Document -> bool
  {
    (d: Document) => d.claimId == claimId
  }

  /** Adding a document extends the documents of its own claim by it and no other claim's. */
  lemma DocumentsForClaimAppend(documents: seq<Document>, d: Document)
    ensures forall id :: Where(documents + [d], ForClaim(id))
                      == Where(documents, ForClaim(id)) + (if id == d.claimId then [d] else [])
  {
    forall id
      ensures Where(documents + [d], ForClaim(id)) == Where(documents, ForClaim(id)) + (if id == d.claimId then [d] else [])
    {
      WhereAppend(documents, d, ForClaim(id));
    }
  }

  /** The position of the first stored claim with the given id. */
  function ClaimIndex(claims: seq<Claim>, id: int): Option<nat>
  {
    FirstIndex(claims, HasClaimId(id))
  }

  class FakeDb {
    var claims: seq<Claim>
    var documents: seq<Document>
    var nextClaimId: int
    var nextDocumentId: int

    /**
     * The store's invariant: ids are handed out in increasing order, so the stored
     * ids increase along each list and stay below the next id to hand out; no
     * stored claim has a null item or document list; and no stored claim keeps
     * the default month.
     */
    ghost predicate Valid()
      reads this
    {
      && (forall i, j :: 0 <= i < j < |claims| ==> claims[i].claimId < claims[j].claimId)
      && (forall i :: 0 <= i < |claims| ==> claims[i].claimId < nextClaimId)
      && (forall i :: 0 <= i < |claims| ==> claims[i].claimItems.Some? && claims[i].documents.Some?)
      && (forall i :: 0 <= i < |claims| ==> claims[i].month != DefaultMonth)
      && (forall i, j :: 0 <= i < j < |documents| ==> documents[i].documentId < documents[j].documentId)
      && (forall i :: 0 <= i < |documents| ==> documents[i].documentId < nextDocumentId)
    }

    constructor ()
      ensures Valid()
      ensures claims == [] && documents == []
      ensures nextClaimId == FirstClaimId && nextDocumentId == FirstDocumentId
    {
      claims, documents := [], [];
      nextClaimId, nextDocumentId := FirstClaimId, FirstDocumentId;
    }

    /** The first stored claim with id `id`, if any. */
    function Find(id: int): (r: Option<Claim>)
      reads this
      ensures r.Some? <==> exists i :: 0 <= i < |claims| && claims[i].claimId == id
      ensures r.Some? ==> r.value in claims && r.value.claimId == id
      ensures Valid() && r.Some? ==> forall i :: 0 <= i < |claims| && claims[i].claimId == id ==> claims[i] == r.value
    {
      match ClaimIndex(claims, id)
      case None => None
      case Some(i) => Some(claims[i])
    }

    /** The claims of one lecturer, latest month first. */
    function ByLecturer(lecturerId: int): (r: seq<Claim>)
      reads this
      ensures forall x :: multiset(r)[x] == if x.lecturerId == lecturerId then multiset(claims)[x] else 0
      ensures forall i, j :: 0 <= i < j < |r| ==> r[i].month >= r[j].month
    {
      var matching := Where(claims, OfLecturer(lecturerId));
      assert forall x :: multiset(matching)[x] == if x.lecturerId == lecturerId then multiset(claims)[x] else 0 by {
        forall x { WhereCount(claims, OfLecturer(lecturerId), x); }
      }
      SortBy(matching, (c: Claim) => -c.month)
    }

    /** The claims in any "Pending" state, earliest month first. */
    function Pending(): (r: seq<Claim>)
      reads this
      ensures forall x :: multiset(r)[x] == if IsPending(x) then multiset(claims)[x] else 0
      ensures forall i :: 0 <= i < |r| ==> IsPending(r[i])
      ensures forall i, j :: 0 <= i < j < |r| ==> r[i].month <= r[j].month
    {
      var matching := Where(claims, IsPending);
      assert forall x :: multiset(matching)[x] == if IsPending(x) then multiset(claims)[x] else 0 by {
        forall x { WhereCount(claims, IsPending, x); }
      }
      var r := SortBy(matching, (c: Claim) => c.month);
      assert forall i :: 0 <= i < |r| ==> IsPending(r[i]) by {
        forall i | 0 <= i < |r| ensures IsPending(r[i]) {
          assert r[i] in multiset(r);
        }
      }
      r
    }

    /** The documents attached to claim `claimId`, in the order they were added. */
    function GetDocumentsForClaim(claimId: int): (r: seq<Document>)
      reads this
      ensures forall x :: multiset(r)[x] == if x.claimId == claimId then multiset(documents)[x] else 0
      ensures forall i :: 0 <= i < |r| ==> r[i].claimId == claimId
    {
      var r := Where(documents, ForClaim(claimId));
      assert forall x :: multiset(r)[x] == if x.claimId == claimId then multiset(documents)[x] else 0 by {
        forall x { WhereCount(documents, ForClaim(claimId), x); }
      }
      r
    }

    /** The first stored document with id `documentId`, if any. */
    function FindDocument(documentId: int): (r: Option<Document>)
      reads this
      ensures r.Some? <==> exists i :: 0 <= i < |documents| && documents[i].documentId == documentId
      ensures r.Some? ==> r.value in documents && r.value.documentId == documentId
      ensures Valid() && r.Some? ==> forall i :: 0 <= i < |documents| && documents[i].documentId == documentId ==> documents[i] == r.value
    {
      match FirstIndex(documents, HasDocumentId(documentId))
      case None => None
      case Some(i) => Some(documents[i])
    }

    /**
     * Stores claim `c` under the next claim id, filling in the defaults: a
     * pending-coordinator status for a null or blank one, the month `now` (the clock,
     * never the default month) for the default month, and empty lists for null ones.
     */
    method AddClaim(c: Claim, now: int) returns (added: Claim)
      requires Valid()
      requires now != DefaultMonth
      modifies this
      ensures Valid()
      ensures claims == old(claims) + [added]
      ensures added.claimId == old(nextClaimId) && nextClaimId == old(nextClaimId) + 1
      ensures documents == old(documents) && nextDocumentId == old(nextDocumentId)
      ensures added.status == if IsNullOrWhiteSpace(c.status) then Some(PendingCoordinatorReview) else c.status
      ensures added.month == if c.month == DefaultMonth then now else c.month
      ensures added.month != DefaultMonth
      ensures added.claimItems == Some(c.claimItems.GetOr([]))
      ensures added.documents == Some(c.documents.GetOr([]))
      ensures added.lecturerId == c.lecturerId && added.lecturerName == c.lecturerName
      ensures added.coordinatorApproved == c.coordinatorApproved
      ensures added.academicManagerApproved == c.academicManagerApproved
      ensures added.coordinatorComments == c.coordinatorComments
      ensures added.academicManagerComments == c.academicManagerComments
      ensures Find(added.claimId) == Some(added) && TotalAmount(added) == TotalAmount(c)
    {
      added := c.(claimId := nextClaimId);
      nextClaimId := nextClaimId + 1;
      if IsNullOrWhiteSpace(added.status) {
        added := added.(status := Some(PendingCoordinatorReview));
      }
      if added.month == DefaultMonth {
        added := added.(month := now);
      }
      added := added.(claimItems := Some(added.claimItems.GetOr([])),
                      documents := Some(added.documents.GetOr([])));
      claims := claims + [added];
      assert claims[|claims| - 1] == added;
    }

    /**
     * Stores `doc` under the next document id and also attaches it to the
     * first claim with its claim id, if there is one.
     */
    method AddDocument(doc: Document) returns (added: Document)
      requires Valid()
      modifies this
      ensures Valid()
      ensures added == doc.(documentId := old(nextDocumentId))
      ensures documents == old(documents) + [added]
      ensures nextDocumentId == old(nextDocumentId) + 1 && nextClaimId == old(nextClaimId)
      ensures match ClaimIndex(old(claims), doc.claimId)
        case None => claims == old(claims)
        case Some(i) =>
          claims == old(claims)[i := old(claims)[i].(documents := Some(old(claims)[i].documents.GetOr([]) + [added]))]
      ensures FindDocument(added.documentId) == Some(added)
      ensures forall id :: GetDocumentsForClaim(id) == old(GetDocumentsForClaim(id)) + (if id == doc.claimId then [added] else [])
    {
      added := doc.(documentId := nextDocumentId);
      nextDocumentId := nextDocumentId + 1;
      DocumentsForClaimAppend(documents, added);
      documents := documents + [added];
      assert documents[|documents| - 1] == added;
      var k := ClaimIndex(claims, added.claimId);
      if k.Some? {
        var owner := claims[k.value];
        claims := claims[k.value := owner.(documents := Some(owner.documents.GetOr([]) + [added]))];
      }
    }

    /**
     * Applies one review action to the first claim with id `id`; `false`, with
     * nothing changed, when there is no such claim.
     */
    method SetStatus(id: int, status: string, comment: Option<string>, coordinator: bool) returns (ok: bool)
      requires Valid()
      modifies this
      ensures Valid()
      ensures ok <==> exists i :: 0 <= i < |old(claims)| && old(claims)[i].claimId == id
      ensures documents == old(documents)
      ensures nextClaimId == old(nextClaimId) && nextDocumentId == old(nextDocumentId)
      ensures match ClaimIndex(old(claims), id)
        case None => claims == old(claims)
        case Some(i) => claims == old(claims)[i := ApplyStatus(old(claims)[i], status, comment, coordinator)]
      ensures ok ==> old(Find(id)).Some? && Find(id) == Some(ApplyStatus(old(Find(id)).value, status, comment, coordinator))
    {
      var k := ClaimIndex(claims, id);
      if k.None? {
        return false;
      }
      assert Find(id) == Some(claims[k.value]);
      claims := claims[k.value := ApplyStatus(claims[k.value], status, comment, coordinator)];
      assert Find(id) == Some(claims[k.value]);
      return true;
    }
  }

  /** A claim walked through the workflow with the store's own operations. */
  method DualApprovalWalkthrough()
  {
    var db := new FakeDb();
    var c := db.AddClaim(NewClaim().(lecturerId := 7), 202401);
    assert c.claimId == 3 && c.status == Some(PendingCoordinatorReview);
    assert !c.coordinatorApproved && !c.academicManagerApproved;
    var ok := db.SetStatus(3, Approved, None, true);
    assert ok && db.Find(3) == Some(ApplyStatus(c, Approved, None, true));
    assert db.Find(3).value.status == Some(PendingAcademicManagerReview);
    ok := db.SetStatus(3, Approved, Some("ok"), false);
    assert ok && db.Find(3).value.status == Some(Approved);
    ok := db.SetStatus(4, Rejected, None, true);
    assert !ok;
  }
}
