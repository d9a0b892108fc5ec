/**
 * The inventory aggregator of app.py (`update_product_data` and the session
 * list it updates): an insertion-ordered list of product records, each with
 * a count. A new record that matches an existing one (brand name compared
 * case-insensitively, quantity and MRP exactly) bumps the first match's count;
 * otherwise it is appended with count 1.
 */
module Aggregator {
  import opened Wrappers
  import opened Text
  import opened Extractor

  /** An inventory entry: the parsed dictionary plus its `Count` key. */
  datatype Product = Product(details: Details, count: int)

  /** The matching test of the scan: the same product in the source's sense. */
  predicate SameProduct(a: Details, b: Details) {
    Lower(a.brandName) == Lower(b.brandName) && a.quantity == b.quantity && a.mrp == b.mrp
  }

  /** Position of the first entry that matches `d`, scanning from the front. */
  function FirstMatch(inventory: seq<Product>, d: Details): (r: Option<nat>)
    ensures r.Some? ==> r.value < |inventory| && SameProduct(inventory[r.value].details, d)
    ensures forall j :: 0 <= j < |inventory| && (r.None? || j < r.value) ==> !SameProduct(inventory[j].details, d)
  {
    if inventory == [] then None
    else if SameProduct(inventory[0].details, d) then Some(0)
    else match FirstMatch(inventory[1..], d)
      case None => None
      case Some(k) => Some(k + 1)
  }

  /** The inventory after `update_product_data(d)`. */
  function Merge(inventory: seq<Product>, d: Details): seq<Product>
  {
    match FirstMatch(inventory, d)
    case Some(i) => inventory[i := inventory[i].(count := inventory[i].count + 1)]
    case None => inventory + [Product(d, 1)]
  }

  /** A record that matches entry i and no earlier entry bumps entry i's count
      by one; the length, entry i's other fields and every other entry stay. */
  lemma MergeHit(inventory: seq<Product>, d: Details, i: nat)
    requires i < |inventory| && SameProduct(inventory[i].details, d)
    requires forall j :: 0 <= j < i ==> !SameProduct(inventory[j].details, d)
    ensures |Merge(inventory, d)| == |inventory|
    ensures Merge(inventory, d)[i] == inventory[i].(count := inventory[i].count + 1)
    ensures forall j :: 0 <= j < |inventory| && j != i ==> Merge(inventory, d)[j] == inventory[j]
  {
    var k := FirstMatch(inventory, d);
    assert k == Some(i);
  }

  /** A record that matches no entry is appended with count 1 after all the
      others, which keep their contents and order. */
  lemma MergeMiss(inventory: seq<Product>, d: Details)
    requires forall j :: 0 <= j < |inventory| ==> !SameProduct(inventory[j].details, d)
    ensures Merge(inventory, d) == inventory + [Product(d, 1)]
  {
  }

  /** The sum of all `Count` fields. */
  function TotalCount(inventory: seq<Product>): int
  {
    if inventory == [] then 0
    else TotalCount(inventory[..|inventory| - 1]) + inventory[|inventory| - 1].count
  }

  /** What the session list keeps from its empty start: every count is at
      least one and no two entries are the same product. */
  ghost predicate WellFormed(inventory: seq<Product>) {
    && (forall i :: 0 <= i < |inventory| ==> inventory[i].count >= 1)
    && (forall i, j :: 0 <= i < j < |inventory| ==> !SameProduct(inventory[i].details, inventory[j].details))
  }

  lemma {:induction false} TotalCountUpdate(inventory: seq<Product>, i: nat, p: Product)
    requires i < |inventory|
    ensures TotalCount(inventory[i := p]) == TotalCount(inventory) - inventory[i].count + p.count
  {
    var n := |inventory| - 1;
    var updated := inventory[i := p];
    assert updated[..n] == if i < n then inventory[..n][i := p] else inventory[..n];
    if i < n {
      TotalCountUpdate(inventory[..n], i, p);
    }
  }

  lemma TotalCountAppend(inventory: seq<Product>, p: Product)
    ensures TotalCount(inventory + [p]) == TotalCount(inventory) + p.count
  {
    assert (inventory + [p])[..|inventory|] == inventory;
  }

  /** Every call raises the sum of the counts by exactly one. */
  lemma MergeTotal(inventory: seq<Product>, d: Details)
    ensures TotalCount(Merge(inventory, d)) == TotalCount(inventory) + 1
  {
    match FirstMatch(inventory, d)
    case Some(i) =>
      var p := inventory[i].(count := inventory[i].count + 1);
      assert Merge(inventory, d) == inventory[i := p];
      TotalCountUpdate(inventory, i, p);
    case None =>
      assert Merge(inventory, d) == inventory + [Product(d, 1)];
      TotalCountAppend(inventory, Product(d, 1));
  }

  /** Merging keeps counts positive and products distinct. */
  lemma MergeWellFormed(inventory: seq<Product>, d: Details)
    requires WellFormed(inventory)
    ensures WellFormed(Merge(inventory, d))
  {
    var r := Merge(inventory, d);
    match FirstMatch(inventory, d)
    case Some(i) =>
      MergeHit(inventory, d, i);
      assert forall j :: 0 <= j < |r| ==> r[j].details == inventory[j].details;
    case None =>
      MergeMiss(inventory, d);
      assert forall j :: 0 <= j < |inventory| ==> r[j] == inventory[j];
  }

  /** The session list after a sequence of calls from its empty start. */
  function History(calls: seq<Details>): seq<Product>
  {
    if calls == [] then []
    else Merge(History(calls[..|calls| - 1]), calls[|calls| - 1])
  }

  /** From the empty start, the list stays well formed, the counts add up to
      the number of calls, and there are never more entries than calls. */
  lemma {:induction false} HistoryInvariant(calls: seq<Details>)
    ensures WellFormed(History(calls))
    ensures TotalCount(History(calls)) == |calls|
    ensures |History(calls)| <= |calls|
  {
    if calls != [] {
      var before := calls[..|calls| - 1];
      HistoryInvariant(before);
      MergeWellFormed(History(before), calls[|calls| - 1]);
      MergeTotal(History(before), calls[|calls| - 1]);
    }
  }

  /** New, new, then a repeat of the first: two entries in insertion order,
      counted twice and once. */
  lemma NewNewRepeat(a: Details, b: Details, c: Details)
    requires !SameProduct(a, b) && SameProduct(a, c)
    ensures History([a, b, c]) == [Product(a, 2), Product(b, 1)]
  {
    assert [a, b, c][..2] == [a, b];
    assert [a, b][..1] == [a];
    assert [a][..0] == [];
    assert History([a]) == [Product(a, 1)];
    assert History([a, b]) == [Product(a, 1), Product(b, 1)];
  }

  /** The session's product list (`st.session_state.product_data`). */
  class Inventory {
    var products: seq<Product>
    /** How many times the list has been updated. */
    ghost var updates: nat

    ghost predicate Valid()
      reads this
    {
      WellFormed(products) && TotalCount(products) == updates
    }

    /** The list starts empty when the session starts. */
    constructor ()
      ensures Valid() && products == [] && updates == 0
    {
      products := [];
      updates := 0;
    }

    /** `update_product_data`: bump the first matching entry's count and
        return, or append the record with count 1 after a full scan. */
    method Update(details: Details)
      requires Valid()
      modifies this
      ensures Valid()
      ensures products == Merge(old(products), details)
      ensures updates == old(updates) + 1
    {
      MergeWellFormed(products, details);
      MergeTotal(products, details);
      var i := 0;
      while i < |products|
        invariant 0 <= i <= |products|
        invariant products == old(products)
        invariant forall j :: 0 <= j < i ==> !SameProduct(products[j].details, details)
      {
        if SameProduct(products[i].details, details) {
          MergeHit(products, details, i);
          products := products[i := products[i].(count := products[i].count + 1)];
          updates := updates + 1;
          return;
        }
        i := i + 1;
      }
      MergeMiss(products, details);
      products := products + [Product(details, 1)];
      updates := updates + 1;
    }
  }
}
