/** A lecturer's monthly claim, its attached documents and its derived total. */
module Claims {
  import opened Wrappers
  import opened ClaimItems

  /** An uploaded document linked to a claim; only the two ids matter to the store. */
  datatype Document = Document(
    documentId: int,
    claimId: int,
    originalFileName: Option<string>,
    storedFileName: Option<string>,
    contentType: Option<string>)

  /**
   * A claim record. Strings and lists that C# allows to be null are options;
   * `month` stands for the `DateTime` field, ordered as an integer, with
   * `DefaultMonth` playing the part of `default(DateTime)`.
   */
  datatype Claim = Claim(
    claimId: int,
    lecturerId: int,
    lecturerName: Option<string>,
    month: int,
    status: Option<string>,
    coordinatorComments: Option<string>,
    academicManagerComments: Option<string>,
    coordinatorApproved: bool,
    academicManagerApproved: bool,
    claimItems: Option<seq<ClaimItem>>,
    documents: Option<seq<Document>>)

  const DefaultMonth: int := 0

  /** A claim as `new Claim()` leaves it: every field at its default, both lists empty. */
  function NewClaim(): (c: Claim)
    ensures c.claimItems == Some([]) && c.documents == Some([])
    ensures !c.coordinatorApproved && !c.academicManagerApproved
    ensures c.status.None? && c.month == DefaultMonth
  {
    Claim(0, 0, None, DefaultMonth, None, None, None, false, false, Some([]), Some([]))
  }

  /** The sum of the line totals, taken from the first item to the last. */
  function SumTotals(items: seq<ClaimItem>): real
  {
    if items == [] then 0.0 else Total(items[0]) + SumTotals(items[1..])
  }

  /** The derived claim amount: the sum of its item totals, 0 when the list is null. */
  function TotalAmount(c: Claim): real
  {
    match c.claimItems
    case None => 0.0
    case Some(items) => SumTotals(items)
  }

  /** A claim without items, whether the list is null or empty, amounts to 0. */
  lemma TotalAmountWithoutItems(c: Claim)
    requires c.claimItems.None? || c.claimItems == Some([])
    ensures TotalAmount(c) == 0.0
  {
  }

  /** A fresh claim amounts to 0. */
  lemma NewClaimTotal()
    ensures TotalAmount(NewClaim()) == 0.0
  {
  }

  /** Appending an item to a list adds exactly that item's total. */
  lemma {:induction false} SumTotalsAppend(items: seq<ClaimItem>, item: ClaimItem)
    ensures SumTotals(items + [item]) == SumTotals(items) + Total(item)
  {
    if items != [] {
      assert (items + [item])[1..] == items[1..] + [item];
      SumTotalsAppend(items[1..], item);
    }
  }

  /** Appending an item to a claim raises its total by exactly that item's total. */
  lemma TotalAmountAppend(c: Claim, item: ClaimItem)
    requires c.claimItems.Some?
    ensures TotalAmount(c.(claimItems := Some(c.claimItems.value + [item])))
         == TotalAmount(c) + Total(item)
  {
    SumTotalsAppend(c.claimItems.value, item);
  }

  /** Removing the item at position `i` removes exactly its total. */
  lemma {:induction false} SumTotalsRemove(items: seq<ClaimItem>, i: nat)
    requires i < |items|
    ensures SumTotals(items) == Total(items[i]) + SumTotals(items[..i] + items[i + 1..])
  {
    if i > 0 {
      SumTotalsRemove(items[1..], i - 1);
      assert items[1..][..i - 1] + items[1..][i..] == (items[..i] + items[i + 1..])[1..];
    } else {
      assert items[..0] + items[1..] == items[1..];
    }
  }

  /** Cutting out position `i` removes one occurrence of that element. */
  lemma MultisetRemove(items: seq<ClaimItem>, i: nat)
    requires i < |items|
    ensures multiset(items[..i] + items[i + 1..]) == multiset(items) - multiset{items[i]}
  {
    assert items == items[..i] + [items[i]] + items[i + 1..];
  }

  /** The sum does not depend on the order of the items. */
  lemma {:induction false} SumTotalsPermutation(items: seq<ClaimItem>, others: seq<ClaimItem>)
    requires multiset(items) == multiset(others)
    ensures SumTotals(items) == SumTotals(others)
  {
    if items == [] {
      assert |others| == |multiset(others)| == 0;
    } else {
      assert items[0] in multiset(others);
      var i :| 0 <= i < |others| && others[i] == items[0];
      var rest := others[..i] + others[i + 1..];
      MultisetRemove(others, i);
      assert items == [items[0]] + items[1..];
      assert multiset(items[1..]) == multiset(items) - multiset{items[0]};
      SumTotalsPermutation(items[1..], rest);
      SumTotalsRemove(others, i);
    }
  }

  /** Reordering the items of a claim leaves its total unchanged. */
  lemma TotalAmountPermutation(c: Claim, items: seq<ClaimItem>)
    requires c.claimItems.Some? && multiset(items) == multiset(c.claimItems.value)
    ensures TotalAmount(c.(claimItems := Some(items))) == TotalAmount(c)
  {
    SumTotalsPermutation(items, c.claimItems.value);
  }

  /** Items of 5 hours at 100 and 2 hours at 50 amount to 600. */
  lemma TotalAmountExample(c: Claim, a: ClaimItem, b: ClaimItem)
    requires a.hoursWorked == 5 && a.rate == 100.0 && b.hoursWorked == 2 && b.rate == 50.0
    requires c.claimItems == Some([a, b])
    ensures TotalAmount(c) == 600.0
  {
    assert [a, b][1..] == [b] && [b][1..] == [];
    assert SumTotals([a, b]) == Total(a) + (Total(b) + SumTotals([]));
  }
}
