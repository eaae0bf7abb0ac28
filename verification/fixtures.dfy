/** The collector's unit-test scenarios, stated about the model. The test's
    validator returns the items unsorted and leaves every item's discounts as
    they are, so PassThrough is the identity on both counts and keeps no
    state. */
module Fixtures {
  import opened Items
  import opened Distribution
  import opened Collector
  import opened Fetch

  const PassThrough: Validator<()> :=
    Validator((store: Store, ids: seq<ItemId>, address: Address) => ids,
              (s: (), item: LineItem) => (s, item.discounts))

  /** A child item as the test builds it: only its `base_row_total` is set,
      so it names no parent. */
  function Child(baseRowTotal: real): LineItem {
    LineItem(false, None, false, false, baseRowTotal, NoDiscounts, [])
  }

  /** A child that names item 0 as its parent, as a quote's child items do. */
  function LinkedChild(baseRowTotal: real): LineItem {
    Child(baseRowTotal).(parentItem := Some(0))
  }

  /** A root item whose children have been calculated, carrying the aggregate
      discounts 20, 10, 40 and 20. */
  function Bundle(baseRowTotal: real, children: seq<ItemId>): LineItem {
    LineItem(false, None, true, true, baseRowTotal, Discounts(20.0, 10.0, 40.0, 20.0), children)
  }

  /** Three children of 100 each under a parent of 300: every field is spread
      with its own carried delta, and each column adds back up to the parent. */
  lemma ThreeEqualChildren()
    ensures var parent := Bundle(300.0, [1, 2, 3]);
      var children := DistributedChildren(parent, [Child(100.0), Child(100.0), Child(100.0)]);
      && Classify(parent).path == ProcessAndDistribute
      && |children| == 3
      && children[0].discounts == Discounts(6.67, 3.33, 13.33, 6.67)
      && children[1].discounts == Discounts(6.66, 3.34, 13.34, 6.66)
      && children[2].discounts == Discounts(6.67, 3.33, 13.33, 6.67)
  {
    var kids := [Child(100.0), Child(100.0), Child(100.0)];
    assert Weights(kids) == [100.0, 100.0, 100.0];
    Thirds(Bundle(300.0, [1, 2, 3]), kids);
  }

  /** The bundle's discounts over any three children of 100 each. */
  lemma Thirds(parent: LineItem, kids: seq<LineItem>)
    requires parent.discounts == Discounts(20.0, 10.0, 40.0, 20.0) && parent.baseRowTotal == 300.0
    requires Weights(kids) == [100.0, 100.0, 100.0]
    ensures var children := DistributedChildren(parent, kids);
      && |children| == 3
      && children[0].discounts == Discounts(6.67, 3.33, 13.33, 6.67)
      && children[1].discounts == Discounts(6.66, 3.34, 13.34, 6.66)
      && children[2].discounts == Discounts(6.67, 3.33, 13.33, 6.67)
  {
    ThirdsOfTwenty();
    ThirdsOfTen();
    ThirdsOfForty();
    var children := DistributedChildren(parent, kids);
    assert children[0].discounts == Allocated(parent, kids, 0);
    assert children[1].discounts == Allocated(parent, kids, 1);
    assert children[2].discounts == Allocated(parent, kids, 2);
  }

  lemma ThirdsOfTwenty()
    ensures Allocate(20.0, 300.0, [100.0, 100.0, 100.0]) == [6.67, 6.66, 6.67]
  {
  }

  lemma ThirdsOfTen()
    ensures Allocate(10.0, 300.0, [100.0, 100.0, 100.0]) == [3.33, 3.34, 3.33]
  {
  }

  lemma ThirdsOfForty()
    ensures Allocate(40.0, 300.0, [100.0, 100.0, 100.0]) == [13.33, 13.34, 13.33]
  {
  }

  /** A single child under a parent whose `base_row_total` is zero gets zero in
      every field, whatever the parent's discounts. */
  lemma ZeroRowTotalChild()
    ensures var children := DistributedChildren(Bundle(0.0, [1]), [Child(0.0)]);
      |children| == 1 && children[0].discounts == NoDiscounts
  {
    var parent := Bundle(0.0, [1]);
    var kids := [Child(0.0)];
    forall f: Field {
      ZeroParentBaseRowTotal(parent, kids, f);
    }
    var d := DistributedChildren(parent, kids)[0].discounts;
    assert d.Get(DiscountAmount) == 0.0 && d.Get(BaseDiscountAmount) == 0.0;
    assert d.Get(OriginalDiscountAmount) == 0.0 && d.Get(BaseOriginalDiscountAmount) == 0.0;
  }

  /** The test's quote: the bundle of ThreeEqualChildren as item 0 and its
      children, which name no parent, as items 1, 2 and 3. */
  function TestQuote(): Store {
    map[0 := Bundle(300.0, [1, 2, 3]), 1 := Child(100.0), 2 := Child(100.0), 3 := Child(100.0)]
  }

  /** The test's collection pass: the shipping assignment lists only the
      bundle, the validator sorts that list once, processes the bundle and is
      handed the (non-zero) shipping amount; the children, reached only
      through the bundle, end with their shares. */
  method CollectItemHasChildren() returns (r: CollectResult<()>)
    ensures r.calls == [SortItemsByPriority([0], Address(1.0)), Process(0), ProcessShippingAmount(Address(1.0))]
    ensures r.store.Keys == {0, 1, 2, 3}
    ensures r.store[0] == Bundle(300.0, [1, 2, 3])
    ensures r.store[1].discounts == Discounts(6.67, 3.33, 13.33, 6.67)
    ensures r.store[2].discounts == Discounts(6.66, 3.34, 13.34, 6.66)
    ensures r.store[3].discounts == Discounts(6.67, 3.33, 13.33, 6.67)
  {
    var store := TestQuote();
    var assignment := ShippingAssignment(Address(1.0), [0]);
    TestPass(assignment);
    r := Collect(assignment, store, PassThrough, ());
    assert r.store[0].discounts == ProcessedDiscounts(PassThrough, (), store, [0], 0);
    SharesOfThirds(store, r.store);
  }

  /** What the pass over the test's quote is given to work with. */
  lemma TestPass(assignment: ShippingAssignment)
    requires assignment == ShippingAssignment(Address(1.0), [0])
    ensures Sorted(TestQuote(), assignment, PassThrough) == [0]
    ensures InStore(TestQuote(), [0]) && Separated(TestQuote(), [0])
    ensures PathOf(TestQuote(), [0][0]) == ProcessAndDistribute
    ensures ProcessedDiscounts(PassThrough, (), TestQuote(), [0], 0) == TestQuote()[0].discounts
    ensures CollectCalls(TestQuote(), assignment, PassThrough)
            == [SortItemsByPriority([0], Address(1.0)), Process(0), ProcessShippingAmount(Address(1.0))]
  {
    assert [0][..0] == [];
    assert ProcessCalls(TestQuote(), [0]) == [Process(0)];
  }

  /** The bundle of ThreeEqualChildren as a well-formed quote: item 0 and its
      children 1, 2 and 3, each naming item 0 as its parent. */
  function BundleQuote(): Store {
    map[0 := Bundle(300.0, [1, 2, 3]), 1 := LinkedChild(100.0), 2 := LinkedChild(100.0), 3 := LinkedChild(100.0)]
  }

  lemma BundleQuoteWellFormed()
    ensures WellFormed(BundleQuote())
  {
  }

  /** The shipping assignment lists the children next to their parent, as a
      quote's item list does. Each child is skipped when its own turn comes,
      yet ends up with its share: the parent wrote to the same item. The
      validator is asked to sort once, processes only the parent, and is
      handed the shipping amount last. */
  method BundleListedWithChildren() returns (r: CollectResult<()>)
    ensures r.calls == [SortItemsByPriority([0, 1, 2, 3], Address(1.0)), Process(0), ProcessShippingAmount(Address(1.0))]
    ensures r.store.Keys == {0, 1, 2, 3}
    ensures r.store[0] == Bundle(300.0, [1, 2, 3])
    ensures r.store[1].discounts == Discounts(6.67, 3.33, 13.33, 6.67)
    ensures r.store[2].discounts == Discounts(6.66, 3.34, 13.34, 6.66)
    ensures r.store[3].discounts == Discounts(6.67, 3.33, 13.33, 6.67)
  {
    var store := BundleQuote();
    var assignment := ShippingAssignment(Address(1.0), [0, 1, 2, 3]);
    BundlePass(assignment);
    r := Collect(assignment, store, PassThrough, ());
    assert r.store[0].discounts == ProcessedDiscounts(PassThrough, (), store, [0, 1, 2, 3], 0);
    SharesOfThirds(store, r.store);
  }

  /** What the pass over the bundle quote is given to work with. */
  lemma BundlePass(assignment: ShippingAssignment)
    requires assignment == ShippingAssignment(Address(1.0), [0, 1, 2, 3])
    ensures Sorted(BundleQuote(), assignment, PassThrough) == [0, 1, 2, 3]
    ensures InStore(BundleQuote(), [0, 1, 2, 3]) && Separated(BundleQuote(), [0, 1, 2, 3])
    ensures PathOf(BundleQuote(), [0, 1, 2, 3][0]) == ProcessAndDistribute
    ensures ProcessedDiscounts(PassThrough, (), BundleQuote(), [0, 1, 2, 3], 0) == BundleQuote()[0].discounts
    ensures CollectCalls(BundleQuote(), assignment, PassThrough)
            == [SortItemsByPriority([0, 1, 2, 3], Address(1.0)), Process(0), ProcessShippingAmount(Address(1.0))]
  {
    BundleQuoteWellFormed();
    WellFormedSeparated(BundleQuote(), [0, 1, 2, 3]);
    BundleCalls(BundleQuote(), [0, 1, 2, 3]);
    assert [0, 1, 2, 3][..0] == [];
  }

  lemma BundleCalls(store: Store, sorted: seq<ItemId>)
    requires store == BundleQuote() && sorted == [0, 1, 2, 3]
    ensures ProcessCalls(store, sorted) == [Process(0)]
  {
    assert ProcessCalls(store, [0]) == [Process(0)] by {
      assert [0][..0] == [];
      assert PathOf(store, 0) == ProcessAndDistribute;
    }
    assert ProcessCalls(store, [0, 1]) == [Process(0)] by {
      assert [0, 1][..1] == [0];
      assert PathOf(store, 1) == SkipChildItem;
    }
    assert ProcessCalls(store, [0, 1, 2]) == [Process(0)] by {
      assert [0, 1, 2][..2] == [0, 1];
      assert PathOf(store, 2) == SkipChildItem;
    }
    assert ProcessCalls(store, sorted) == [Process(0)] by {
      assert sorted[..3] == [0, 1, 2];
      assert PathOf(store, 3) == SkipChildItem;
    }
  }

  /** What the collector's postcondition says about a quote holding the bundle
      as item 0 and three children of 100 as items 1, 2 and 3: the parent
      keeps its discounts and the children hold their thirds. */
  lemma SharesOfThirds(before: Store, after: Store)
    requires Closed(before) && {0, 1, 2, 3} <= before.Keys
    requires before[0] == Bundle(300.0, [1, 2, 3])
    requires before[1].baseRowTotal == 100.0 && before[2].baseRowTotal == 100.0 && before[3].baseRowTotal == 100.0
    requires Shaped(after, before)
    requires after[0].discounts == before[0].discounts
    requires ReceivedShares(after, before, 0)
    ensures after[0] == Bundle(300.0, [1, 2, 3])
    ensures after[1].discounts == Discounts(6.67, 3.33, 13.33, 6.67)
    ensures after[2].discounts == Discounts(6.66, 3.34, 13.34, 6.66)
    ensures after[3].discounts == Discounts(6.67, 3.33, 13.33, 6.67)
  {
    assert after[0].(discounts := before[0].discounts) == before[0];
    var kids := ChildRecords(before, [1, 2, 3]);
    assert Weights(kids) == [100.0, 100.0, 100.0];
    Thirds(after[0], kids);
    var got := ChildRecords(after, [1, 2, 3]);
    assert after[1] == got[0] && after[2] == got[1] && after[3] == got[2];
  }

  /** A validator holding one rule that may be used once: the first item it
      processes gets 5 in every field, every later one nothing. Its sort puts
      the items in reverse order. */
  const OnceOnly: Validator<bool> :=
    Validator((store: Store, ids: seq<ItemId>, address: Address) => Reverse(ids),
              (used: bool, item: LineItem) =>
                if used then (true, NoDiscounts) else (true, Discounts(5.0, 5.0, 5.0, 5.0)))

  function Reverse(ids: seq<ItemId>): (r: seq<ItemId>)
    ensures |r| == |ids|
    ensures forall k :: 0 <= k < |ids| ==> r[k] == ids[|ids| - 1 - k]
  {
    if |ids| == 0 then [] else [ids[|ids| - 1]] + Reverse(ids[..|ids| - 1])
  }

  function Leaf(): LineItem {
    LineItem(false, None, false, false, 10.0, NoDiscounts, [])
  }

  /** Two leaves, listed as 1 then 2, sorted as 2 then 1: the rule's single use
      goes to item 2, the first processed, and item 1 gets nothing. The
      validator's state carries the use from one item to the next. */
  method OrderDecidesOnceOnlyRule() returns (r: CollectResult<bool>)
    ensures r.calls == [SortItemsByPriority([1, 2], Address(0.0)), Process(2), Process(1)]
    ensures r.store.Keys == {1, 2}
    ensures r.store[2].discounts == Discounts(5.0, 5.0, 5.0, 5.0)
    ensures r.store[1].discounts == NoDiscounts
    ensures r.state
  {
    var store := TwoLeaves();
    var assignment := ShippingAssignment(Address(0.0), [1, 2]);
    var sorted := [2, 1];
    TwoLeavesFacts(assignment);
    r := Collect(assignment, store, OnceOnly, false);
    assert r.store[2].discounts == ProcessedDiscounts(OnceOnly, false, store, sorted, 0);
    assert r.store[1].discounts == ProcessedDiscounts(OnceOnly, false, store, sorted, 1);
  }

  function TwoLeaves(): Store {
    map[1 := Leaf(), 2 := Leaf()]
  }

  /** How OnceOnly treats the two leaves sorted as 2 then 1. */
  lemma TwoLeavesFacts(assignment: ShippingAssignment)
    requires assignment == ShippingAssignment(Address(0.0), [1, 2])
    ensures Sorted(TwoLeaves(), assignment, OnceOnly) == [2, 1]
    ensures CollectCalls(TwoLeaves(), assignment, OnceOnly) == [SortItemsByPriority([1, 2], Address(0.0)), Process(2), Process(1)]
    ensures InStore(TwoLeaves(), [2, 1]) && Separated(TwoLeaves(), [2, 1])
    ensures PathOf(TwoLeaves(), 2) == ProcessLeaf && PathOf(TwoLeaves(), 1) == ProcessLeaf
    ensures ProcessCalls(TwoLeaves(), [2, 1]) == [Process(2), Process(1)]
    ensures ValidatorState(OnceOnly, false, TwoLeaves(), [2, 1])
    ensures ProcessedDiscounts(OnceOnly, false, TwoLeaves(), [2, 1], 0) == Discounts(5.0, 5.0, 5.0, 5.0)
    ensures ProcessedDiscounts(OnceOnly, false, TwoLeaves(), [2, 1], 1) == NoDiscounts
  {
    var sorted := [2, 1];
    assert sorted[..0] == [] && sorted[..1] == [2] && sorted[..1][..0] == [];
    WellFormedSeparated(TwoLeaves(), sorted);
  }

  /** An amount of 100 described as "100" is shown as "Discount (100)". */
  lemma FetchHundred()
    ensures FetchRow(Total(100.0, "100")) == Some(TotalRow("discount", 100.0, "Discount (100)"))
  {
    assert Title("100") == "Discount (100)";
  }
}
