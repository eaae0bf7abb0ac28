/** The discount collector's pass over one shipping assignment.

    Items live in a store keyed by id, so a discount written to a child through
    its parent is the child's discount wherever else the child is listed. The
    rule validator is a parameter: its priority sort and its per-item discount
    computation are given as functions, the latter threading the validator's
    own state from item to item, and every call the collector makes into it is
    recorded, in order, as a ValidatorCall.
 */
module Collector {
  import opened Items
  import opened Distribution

  /** The four ways an item can be handled, decided once per item. */
  datatype Path =
    | SkipNoDiscount        // `no_discount` is set
    | SkipChildItem         // the item has a parent; its parent distributes to it
    | ProcessAndDistribute  // parent with calculated children
    | ProcessLeaf           // everything else

  /** The item flags the collector consults. */
  datatype Flag = NoDiscountFlag | ParentItemFlag | HasChildrenFlag | ChildrenCalculatedFlag

  /** The order in which the flags are consulted. */
  const FlagOrder: seq<Flag> := [NoDiscountFlag, ParentItemFlag, HasChildrenFlag, ChildrenCalculatedFlag]

  datatype Classification = Classification(path: Path, flagsRead: seq<Flag>)

  /** Decides an item's path and records which flags were consulted: the checks
      short-circuit, so each flag is read at most once and only when the earlier
      checks leave the question open. */
  function Classify(item: LineItem): (c: Classification)
    ensures c.path == SkipNoDiscount <==> item.noDiscount
    ensures c.path == SkipChildItem <==> !item.noDiscount && item.parentItem.Some?
    ensures c.path == ProcessAndDistribute <==>
              !item.noDiscount && item.parentItem.None? && item.hasChildren && item.childrenCalculated
    ensures c.path == ProcessLeaf <==>
              !item.noDiscount && item.parentItem.None? && !(item.hasChildren && item.childrenCalculated)
    ensures 1 <= |c.flagsRead| <= |FlagOrder| && c.flagsRead == FlagOrder[..|c.flagsRead|]
    ensures forall i, j :: 0 <= i < j < |c.flagsRead| ==> c.flagsRead[i] != c.flagsRead[j]
    ensures ParentItemFlag in c.flagsRead <==> !item.noDiscount
    ensures HasChildrenFlag in c.flagsRead <==> !item.noDiscount && item.parentItem.None?
    ensures ChildrenCalculatedFlag in c.flagsRead <==> !item.noDiscount && item.parentItem.None? && item.hasChildren
  {
    if item.noDiscount then Classification(SkipNoDiscount, [NoDiscountFlag])
    else if item.parentItem.Some? then Classification(SkipChildItem, [NoDiscountFlag, ParentItemFlag])
    else if !item.hasChildren then Classification(ProcessLeaf, [NoDiscountFlag, ParentItemFlag, HasChildrenFlag])
    else if item.childrenCalculated then Classification(ProcessAndDistribute, FlagOrder)
    else Classification(ProcessLeaf, FlagOrder)
  }

  predicate IsProcessed(p: Path) {
    p == ProcessAndDistribute || p == ProcessLeaf
  }

  /** An item's path, read off the store. */
  function PathOf(store: Store, id: ItemId): Path
    requires id in store
  {
    Classify(store[id]).path
  }

  /** Classification reads only flags, which a change of discounts leaves alone. */
  lemma PathOfShaped(after: Store, before: Store, id: ItemId)
    requires Shaped(after, before) && id in before
    ensures PathOf(after, id) == PathOf(before, id)
    ensures after[id].children == before[id].children
    ensures after[id].parentItem == before[id].parentItem
  {
    assert after[id].(discounts := before[id].discounts) == before[id];
  }

  datatype Address = Address(shippingAmount: real)

  datatype ShippingAssignment = ShippingAssignment(address: Address, items: seq<ItemId>)

  /** The rule validator the collector delegates to. `S` is the validator's own
      state (rules applied so far, remaining budgets and the like): `process`
      receives it with the item and hands back the next state together with
      the item's four discount fields. */
  datatype Validator<!S> = Validator(
    sortItemsByPriority: (Store, seq<ItemId>, Address) -> seq<ItemId>,
    process: (S, LineItem) -> (S, Discounts))

  datatype ValidatorCall =
    | SortItemsByPriority(items: seq<ItemId>, address: Address)
    | Process(id: ItemId)
    | ProcessShippingAmount(address: Address)

  datatype CollectResult<S> = CollectResult(store: Store, state: S, calls: seq<ValidatorCall>)

  /** The `process` calls the item loop makes, in the order of `ids`. */
  function ProcessCalls(store: Store, ids: seq<ItemId>): (calls: seq<ValidatorCall>)
    requires InStore(store, ids)
    ensures |calls| <= |ids|
  {
    if |ids| == 0 then []
    else
      var last := ids[|ids| - 1];
      ProcessCalls(store, ids[..|ids| - 1]) + (if IsProcessed(PathOf(store, last)) then [Process(last)] else [])
  }

  function ShippingCalls(address: Address): seq<ValidatorCall> {
    if address.shippingAmount != 0.0 then [ProcessShippingAmount(address)] else []
  }

  function Sorted<S>(store: Store, assignment: ShippingAssignment, validator: Validator<S>): seq<ItemId> {
    validator.sortItemsByPriority(store, assignment.items, assignment.address)
  }

  /** Every validator call of one collection pass, in order: nothing at all
      for an empty item list; otherwise the sort, then one `process` per
      unskipped sorted item, then the shipping amount when it is non-zero. */
  function CollectCalls<S>(store: Store, assignment: ShippingAssignment, validator: Validator<S>): seq<ValidatorCall>
    requires |assignment.items| > 0 ==> InStore(store, Sorted(store, assignment, validator))
  {
    if |assignment.items| == 0 then []
    else
      [SortItemsByPriority(assignment.items, assignment.address)]
      + ProcessCalls(store, Sorted(store, assignment, validator))
      + ShippingCalls(assignment.address)
  }

  function CountSorts(calls: seq<ValidatorCall>): nat {
    if |calls| == 0 then 0
    else CountSorts(calls[..|calls| - 1]) + (if calls[|calls| - 1].SortItemsByPriority? then 1 else 0)
  }

  /** The validator's state after the items `ids` have been visited in order,
      starting from `s0`: only processed items advance it. */
  function ValidatorState<S>(validator: Validator<S>, s0: S, store: Store, ids: seq<ItemId>): S
    requires InStore(store, ids)
  {
    if |ids| == 0 then s0
    else
      var n := |ids| - 1;
      var s := ValidatorState(validator, s0, store, ids[..n]);
      if IsProcessed(PathOf(store, ids[n])) then validator.process(s, store[ids[n]]).0 else s
  }

  /** The discounts `process` returns for the `j`-th item, given the state the
      earlier items left. */
  function ProcessedDiscounts<S>(validator: Validator<S>, s0: S, store: Store, ids: seq<ItemId>, j: nat): Discounts
    requires InStore(store, ids) && j < |ids|
  {
    validator.process(ValidatorState(validator, s0, store, ids[..j]), store[ids[j]]).1
  }

  /** Visiting the `j`-th of `ids` may write to `x`: `x` is that item and it is
      processed, or that item distributes and `x` is one of its children. */
  predicate TouchesAt(store: Store, ids: seq<ItemId>, j: nat, x: ItemId)
    requires InStore(store, ids) && j < |ids|
  {
    || (ids[j] == x && IsProcessed(PathOf(store, ids[j])))
    || (PathOf(store, ids[j]) == ProcessAndDistribute && x in store[ids[j]].children)
  }

  /** The items visiting `ids` in order may write to. */
  function Touched(store: Store, ids: seq<ItemId>): set<ItemId>
    requires InStore(store, ids)
  {
    if |ids| == 0 then {}
    else
      var n := |ids| - 1;
      var id := ids[n];
      Touched(store, ids[..n])
      + (if IsProcessed(PathOf(store, id)) then {id} else {})
      + (if PathOf(store, id) == ProcessAndDistribute then (set c | c in store[id].children) else {})
  }

  /** The children of `p`, as they stand in `after`, are `p`'s discounts in
      `after` distributed over them: each child is as it was in `before` but
      for its discounts, which are its allocation. */
  predicate ReceivedShares(after: Store, before: Store, p: ItemId)
    requires Closed(before) && p in before && p in after
  {
    var ch := before[p].children;
    && InStore(after, ch)
    && ChildRecords(after, ch) == DistributedChildren(after[p], ChildRecords(before, ch))
  }

  /** What a pass needs of its sorted items to say what each one ends with:
      a processed item is listed once, a distributing parent names each child
      once, no processed sorted item is the child of a distributing one, and
      two distributing parents share no child. The test's bundle, listed
      alone with children that name no parent, meets it; so does every
      well-formed item tree listed without repeats (WellFormedSeparated). */
  predicate Separated(store: Store, sorted: seq<ItemId>)
    requires InStore(store, sorted)
  {
    && (forall j, k :: 0 <= j < k < |sorted| && IsProcessed(PathOf(store, sorted[j])) ==> sorted[j] != sorted[k])
    && (forall j :: 0 <= j < |sorted| && PathOf(store, sorted[j]) == ProcessAndDistribute ==>
          Distinct(store[sorted[j]].children))
    && (forall j, k :: 0 <= j < |sorted| && 0 <= k < |sorted| && PathOf(store, sorted[j]) == ProcessAndDistribute
          && IsProcessed(PathOf(store, sorted[k]))
          ==> sorted[k] !in store[sorted[j]].children)
    && (forall j, k, c :: 0 <= j < k < |sorted| && PathOf(store, sorted[j]) == ProcessAndDistribute
          && PathOf(store, sorted[k]) == ProcessAndDistribute && c in store[sorted[j]].children
          ==> c !in store[sorted[k]].children)
  }

  /** A well-formed item tree listed without repeats is separated: a child
      names its parent, so it is skipped on its own turn and belongs to no
      other parent. */
  lemma WellFormedSeparated(store: Store, sorted: seq<ItemId>)
    requires WellFormed(store) && InStore(store, sorted) && Distinct(sorted)
    ensures Separated(store, sorted)
  {
    forall j, k | 0 <= j < |sorted| && 0 <= k < |sorted| && PathOf(store, sorted[j]) == ProcessAndDistribute
                  && IsProcessed(PathOf(store, sorted[k]))
      ensures sorted[k] !in store[sorted[j]].children
    {
      if sorted[k] in store[sorted[j]].children {
        ChildOf(store, sorted[j], sorted[k]);
      }
    }
    forall j, k, c | 0 <= j < k < |sorted| && PathOf(store, sorted[j]) == ProcessAndDistribute
                     && PathOf(store, sorted[k]) == ProcessAndDistribute && c in store[sorted[j]].children
      ensures c !in store[sorted[k]].children
    {
      ChildOf(store, sorted[j], c);
      if c in store[sorted[k]].children {
        ChildOf(store, sorted[k], c);
      }
    }
  }

  /** Visiting `id` wrote at most to `id` and, when it distributes, to its
      children; a skipped item changed nothing. */
  predicate VisitFrame(cur: Store, id: ItemId, next: Store)
    requires id in cur && next.Keys == cur.Keys
  {
    && (forall x :: x in cur && x != id && !(PathOf(cur, id) == ProcessAndDistribute && x in cur[id].children)
          ==> next[x] == cur[x])
    && (!IsProcessed(PathOf(cur, id)) ==> next == cur)
  }

  /** Visiting `id` with validator state `s` left the items `next` and the
      state `s'`: only discounts changed, within VisitFrame; a skipped item
      kept the state; a processed one moved it on as `process` says and holds
      the discounts `process` returned; a distributing parent that names each
      child once, and not itself, then handed those discounts to its
      children as they stood. */
  ghost predicate VisitOutcome<S>(validator: Validator<S>, cur: Store, s: S, id: ItemId, next: Store, s': S)
    requires Closed(cur) && id in cur
  {
    && Shaped(next, cur)
    && VisitFrame(cur, id, next)
    && (!IsProcessed(PathOf(cur, id)) ==> s' == s)
    && (IsProcessed(PathOf(cur, id)) ==> s' == validator.process(s, cur[id]).0)
    && (PathOf(cur, id) == ProcessLeaf ==> next[id].discounts == validator.process(s, cur[id]).1)
    && (PathOf(cur, id) == ProcessAndDistribute && Distinct(cur[id].children) && id !in cur[id].children ==>
          && next[id].discounts == validator.process(s, cur[id]).1
          && ChildRecords(next, cur[id].children) == DistributedChildren(next[id], ChildRecords(cur, cur[id].children)))
  }

  /** Writes `items[k]` to `ids[k]`, in order; a later write to the same id wins. */
  method WriteItems(store: Store, ids: seq<ItemId>, items: seq<LineItem>) returns (next: Store)
    requires |items| == |ids| && InStore(store, ids)
    ensures next.Keys == store.Keys
    ensures forall x :: x in store && x !in ids ==> next[x] == store[x]
    ensures Distinct(ids) ==> forall k :: 0 <= k < |ids| ==> next[ids[k]] == items[k]
    ensures (forall k :: 0 <= k < |ids| ==> SameShape(items[k], store[ids[k]])) ==> Shaped(next, store)
  {
    ghost var shapes := forall k :: 0 <= k < |ids| ==> SameShape(items[k], store[ids[k]]);
    next := store;
    var k := 0;
    while k < |ids|
      invariant 0 <= k <= |ids|
      invariant next.Keys == store.Keys
      invariant forall x :: x in store && x !in ids[..k] ==> next[x] == store[x]
      invariant Distinct(ids) ==> forall j :: 0 <= j < k ==> next[ids[j]] == items[j]
      invariant shapes ==> forall x :: x in store ==> SameShape(next[x], store[x])
    {
      assert forall x :: x in ids[..k + 1] <==> x in ids[..k] || x == ids[k] by {
        assert ids[..k + 1] == ids[..k] + [ids[k]];
      }
      next := next[ids[k] := items[k]];
      k := k + 1;
    }
    assert ids[..k] == ids;
  }

  lemma ShapedTrans(c: Store, b: Store, a: Store)
    requires Shaped(c, b) && Shaped(b, a)
    ensures Shaped(c, a)
  {
    forall x | x in a
      ensures SameShape(c[x], a[x])
    {
      assert c[x].(discounts := b[x].discounts) == b[x];
      assert b[x].(discounts := a[x].discounts) == a[x];
    }
  }

  /** The loop body for one sorted item. A skipped item changes nothing and
      calls nothing. A processed item gets the discounts `process` returns for
      it and the validator moves to its next state. A parent with calculated
      children then hands those discounts on to its children; nothing but the
      item and, for such a parent, its children changes. */
  method VisitItem<S>(validator: Validator<S>, cur: Store, s: S, id: ItemId) returns (next: Store, s': S, made: seq<ValidatorCall>)
    requires Closed(cur) && id in cur
    ensures VisitOutcome(validator, cur, s, id, next, s')
    ensures !IsProcessed(PathOf(cur, id)) ==> made == []
    ensures IsProcessed(PathOf(cur, id)) ==> made == [Process(id)]
  {
    var item := cur[id];
    next, s', made := cur, s, [];
    match Classify(item).path {
      case SkipNoDiscount =>
      case SkipChildItem =>
      case ProcessLeaf =>
        var res := validator.process(s, item);
        s', made := res.0, [Process(id)];
        next := cur[id := item.(discounts := res.1)];
      case ProcessAndDistribute =>
        var res := validator.process(s, item);
        s', made := res.0, [Process(id)];
        next := ProcessParent(cur, id, res.1);
    }
  }

  /** A processed parent: its discounts become `discounts`, which are then
      distributed over its children as they stand in the store. */
  method ProcessParent(cur: Store, id: ItemId, discounts: Discounts) returns (next: Store)
    requires Closed(cur) && id in cur
    ensures Shaped(next, cur)
    ensures forall x :: x in cur && x != id && x !in cur[id].children ==> next[x] == cur[x]
    ensures Distinct(cur[id].children) && id !in cur[id].children ==>
              && next[id] == cur[id].(discounts := discounts)
              && ChildRecords(next, cur[id].children) == DistributedChildren(next[id], ChildRecords(cur, cur[id].children))
  {
    var parent := cur[id].(discounts := discounts);
    var withParent := cur[id := parent];
    assert Shaped(withParent, cur);
    var ch := cur[id].children;
    var kids := ChildRecords(withParent, ch);
    var children := DistributeDiscount(parent, kids);
    next := WriteItems(withParent, ch, children);
    ShapedTrans(next, withParent, cur);
    if Distinct(ch) && id !in ch {
      assert kids == ChildRecords(cur, ch);
      assert ChildRecords(next, ch) == children;
    }
  }

  /** One collection pass. An empty item list does nothing and calls nothing.
      Otherwise the validator sorts the items once, each sorted item is
      visited in that order, and the shipping amount goes to the validator
      when there is one. Only items that are processed, and the children of
      processed parents with calculated children, change; and only their
      discounts. When the sorted items are Separated, every processed item
      keeps what `process` returned for it, given the state the items before
      it left, and every child of such a parent holds its allocation of the
      parent's discounts, wherever else it is listed. */
  method Collect<S>(assignment: ShippingAssignment, store: Store, validator: Validator<S>, s0: S) returns (r: CollectResult<S>)
    requires Closed(store)
    requires |assignment.items| > 0 ==> InStore(store, Sorted(store, assignment, validator))
    ensures r.calls == CollectCalls(store, assignment, validator)
    ensures |assignment.items| == 0 ==> r.store == store && r.state == s0
    ensures |assignment.items| > 0 ==>
      var sorted := Sorted(store, assignment, validator);
      && Shaped(r.store, store)
      && (forall x :: x in store && x !in Touched(store, sorted) ==> r.store[x] == store[x])
      && (Separated(store, sorted) ==>
            && r.state == ValidatorState(validator, s0, store, sorted)
            && (forall j :: 0 <= j < |sorted| && IsProcessed(PathOf(store, sorted[j])) ==>
                  r.store[sorted[j]].discounts == ProcessedDiscounts(validator, s0, store, sorted, j))
            && (forall j :: 0 <= j < |sorted| && PathOf(store, sorted[j]) == ProcessAndDistribute ==>
                  ReceivedShares(r.store, store, sorted[j])))
  {
    if |assignment.items| == 0 {
      return CollectResult(store, s0, []);
    }
    var address := assignment.address;
    var sorted := validator.sortItemsByPriority(store, assignment.items, address);
    var cur, s, made := VisitAll(validator, s0, store, sorted);
    ProgressDone(validator, s0, store, sorted, cur, s);
    r := CollectResult(cur, s, [SortItemsByPriority(assignment.items, address)] + made + ShippingCalls(address));
  }

  /** The item loop: visits the sorted items in order. */
  method VisitAll<S>(validator: Validator<S>, s0: S, store: Store, sorted: seq<ItemId>)
    returns (cur: Store, s: S, calls: seq<ValidatorCall>)
    requires Closed(store) && InStore(store, sorted)
    ensures calls == ProcessCalls(store, sorted)
    ensures Progress(validator, s0, store, sorted, |sorted|, cur, s)
  {
    cur, s, calls := store, s0, [];
    var i := 0;
    ProgressStart(validator, s0, store, sorted);
    while i < |sorted|
      invariant 0 <= i <= |sorted|
      invariant calls == ProcessCalls(store, sorted[..i])
      invariant Progress(validator, s0, store, sorted, i, cur, s)
    {
      var id := sorted[i];
      ClosedShaped(cur, store);
      PathOfShaped(cur, store, id);
      var next, s', made := VisitItem(validator, cur, s, id);
      ProcessCallsStep(store, sorted, i);
      Advance(validator, s0, store, sorted, i, cur, s, next, s');
      cur, s, calls := next, s', calls + made;
      i := i + 1;
    }
    assert sorted[..i] == sorted;
  }

  lemma ProgressStart<S>(validator: Validator<S>, s0: S, store: Store, sorted: seq<ItemId>)
    requires Closed(store) && InStore(store, sorted)
    ensures Progress(validator, s0, store, sorted, 0, store, s0)
  {
    assert sorted[..0] == [];
  }

  /** After the last item, Progress is the pass's postcondition. */
  lemma ProgressDone<S>(validator: Validator<S>, s0: S, store: Store, sorted: seq<ItemId>, cur: Store, s: S)
    requires Closed(store) && InStore(store, sorted)
    requires Progress(validator, s0, store, sorted, |sorted|, cur, s)
    ensures Shaped(cur, store)
    ensures forall x :: x in store && x !in Touched(store, sorted) ==> cur[x] == store[x]
    ensures Separated(store, sorted) ==>
              && s == ValidatorState(validator, s0, store, sorted)
              && (forall j :: 0 <= j < |sorted| && IsProcessed(PathOf(store, sorted[j])) ==>
                    cur[sorted[j]].discounts == ProcessedDiscounts(validator, s0, store, sorted, j))
              && (forall j :: 0 <= j < |sorted| && PathOf(store, sorted[j]) == ProcessAndDistribute ==>
                    ReceivedShares(cur, store, sorted[j]))
  {
    assert sorted[..|sorted|] == sorted;
  }

  /** What the item loop has established after visiting the first `i` sorted
      items, leaving the items `cur` and the validator state `s`: only the
      items those visits may write to have changed, and only in their
      discounts; on separated sorted items, TreeProgress
      as well. */
  ghost predicate Progress<S>(validator: Validator<S>, s0: S, store: Store, sorted: seq<ItemId>, i: nat, cur: Store, s: S)
    requires Closed(store) && InStore(store, sorted) && i <= |sorted|
  {
    && ShapeProgress(store, sorted, i, cur)
    && (Separated(store, sorted) ==> TreeProgress(validator, s0, store, sorted, i, cur, s))
  }

  predicate ShapeProgress(store: Store, sorted: seq<ItemId>, i: nat, cur: Store)
    requires InStore(store, sorted) && i <= |sorted|
  {
    && Shaped(cur, store)
    && (forall x :: x in store && x !in Touched(store, sorted[..i]) ==> cur[x] == store[x])
  }

  /** The validator state is the one the first `i` items lead to, each of
      those that was processed holds what `process` returned for it, and the
      children of each distributing parent among them hold their shares. */
  ghost predicate TreeProgress<S>(validator: Validator<S>, s0: S, store: Store, sorted: seq<ItemId>, i: nat, cur: Store, s: S)
    requires Closed(store) && InStore(store, sorted) && i <= |sorted| && Shaped(cur, store)
  {
    && s == ValidatorState(validator, s0, store, sorted[..i])
    && (forall j :: 0 <= j < i && IsProcessed(PathOf(store, sorted[j])) ==>
          cur[sorted[j]].discounts == ProcessedDiscounts(validator, s0, store, sorted, j))
    && (forall j :: 0 <= j < i && PathOf(store, sorted[j]) == ProcessAndDistribute ==>
          ReceivedShares(cur, store, sorted[j]))
  }

  /** One visit keeps Progress. */
  lemma Advance<S>(validator: Validator<S>, s0: S, store: Store, sorted: seq<ItemId>, i: nat,
                   cur: Store, s: S, next: Store, s': S)
    requires Closed(store) && InStore(store, sorted) && i < |sorted|
    requires Progress(validator, s0, store, sorted, i, cur, s)
    requires Closed(cur) && sorted[i] in cur
    requires VisitOutcome(validator, cur, s, sorted[i], next, s')
    ensures Progress(validator, s0, store, sorted, i + 1, next, s')
  {
    UntouchedStep(store, sorted, i, cur, next);
    ShapedTrans(next, cur, store);
    if Separated(store, sorted) {
      AdvanceTree(validator, s0, store, sorted, i, cur, s, next, s');
    }
  }

  lemma AdvanceTree<S>(validator: Validator<S>, s0: S, store: Store, sorted: seq<ItemId>, i: nat,
                       cur: Store, s: S, next: Store, s': S)
    requires Closed(store) && InStore(store, sorted) && Separated(store, sorted) && i < |sorted|
    requires ShapeProgress(store, sorted, i, cur)
    requires TreeProgress(validator, s0, store, sorted, i, cur, s)
    requires Shaped(next, store) && Closed(cur) && sorted[i] in cur
    requires VisitOutcome(validator, cur, s, sorted[i], next, s')
    ensures TreeProgress(validator, s0, store, sorted, i + 1, next, s')
  {
    var id := sorted[i];
    PathOfShaped(cur, store, id);
    VisitFresh(store, sorted, i, cur);
    KeepEarlier(store, sorted, i, cur, next);
    ShareStep(store, sorted, i, cur, next);
    StateStep(validator, s0, store, sorted, i);
  }

  lemma ClosedShaped(after: Store, before: Store)
    requires Closed(before) && Shaped(after, before)
    ensures Closed(after)
  {
    forall p | p in after
      ensures InStore(after, after[p].children)
    {
      PathOfShaped(after, before, p);
    }
  }

  lemma ProcessCallsStep(store: Store, ids: seq<ItemId>, i: nat)
    requires InStore(store, ids) && i < |ids|
    ensures ProcessCalls(store, ids[..i + 1])
            == ProcessCalls(store, ids[..i]) + (if IsProcessed(PathOf(store, ids[i])) then [Process(ids[i])] else [])
  {
    assert ids[..i + 1][..i] == ids[..i];
  }

  /** Items no visit so far may write to are still as they started, one item
      later. */
  lemma UntouchedStep(store: Store, sorted: seq<ItemId>, i: nat, cur: Store, next: Store)
    requires InStore(store, sorted) && i < |sorted|
    requires Shaped(cur, store) && next.Keys == cur.Keys
    requires forall x :: x in store && x !in Touched(store, sorted[..i]) ==> cur[x] == store[x]
    requires VisitFrame(cur, sorted[i], next)
    ensures forall x :: x in store && x !in Touched(store, sorted[..i + 1]) ==> next[x] == store[x]
  {
    PathOfShaped(cur, store, sorted[i]);
    TouchedStep(store, sorted, i);
  }

  lemma TouchedStep(store: Store, ids: seq<ItemId>, i: nat)
    requires InStore(store, ids) && i < |ids|
    ensures Touched(store, ids[..i + 1])
            == Touched(store, ids[..i])
               + (if IsProcessed(PathOf(store, ids[i])) then {ids[i]} else {})
               + (if PathOf(store, ids[i]) == ProcessAndDistribute then (set c | c in store[ids[i]].children) else {})
  {
    assert ids[..i + 1][..i] == ids[..i];
  }

  lemma StateStep<S>(validator: Validator<S>, s0: S, store: Store, ids: seq<ItemId>, i: nat)
    requires InStore(store, ids) && i < |ids|
    ensures ValidatorState(validator, s0, store, ids[..i + 1])
            == if IsProcessed(PathOf(store, ids[i]))
               then validator.process(ValidatorState(validator, s0, store, ids[..i]), store[ids[i]]).0
               else ValidatorState(validator, s0, store, ids[..i])
  {
    assert ids[..i + 1][..i] == ids[..i];
  }

  /** A child's parent link rules out every root and every other parent. */
  lemma ChildOf(store: Store, p: ItemId, c: ItemId)
    requires WellFormed(store) && p in store && c in store[p].children
    ensures c in store && store[c].parentItem == Some(p)
  {
    var k :| 0 <= k < |store[p].children| && store[p].children[k] == c;
  }

  /** On separated sorted items, a processed item is still as it started
      when its turn comes; a distributing one is not its own child and names
      each child once. */
  lemma VisitFresh(store: Store, sorted: seq<ItemId>, i: nat, cur: Store)
    requires InStore(store, sorted) && Separated(store, sorted) && i < |sorted|
    requires Shaped(cur, store)
    requires forall x :: x in store && x !in Touched(store, sorted[..i]) ==> cur[x] == store[x]
    ensures IsProcessed(PathOf(store, sorted[i])) ==> cur[sorted[i]] == store[sorted[i]]
    ensures PathOf(store, sorted[i]) == ProcessAndDistribute ==>
              sorted[i] !in store[sorted[i]].children && Distinct(store[sorted[i]].children)
  {
    var id := sorted[i];
    if IsProcessed(PathOf(store, id)) {
      var front := sorted[..i];
      TouchedIff(store, front, id);
      forall j | 0 <= j < i
        ensures !TouchesAt(store, front, j, id)
      {
        assert front[j] == sorted[j];
      }
    }
  }

  /** Visiting one of separated sorted items leaves the earlier processed
      items, and the children of the earlier distributing parents, alone. */
  lemma KeepEarlier(store: Store, sorted: seq<ItemId>, i: nat, cur: Store, next: Store)
    requires Closed(store) && InStore(store, sorted) && Separated(store, sorted) && i < |sorted|
    requires Shaped(cur, store) && Shaped(next, store)
    requires VisitFrame(cur, sorted[i], next)
    ensures forall j :: 0 <= j < i && IsProcessed(PathOf(store, sorted[j])) ==> next[sorted[j]] == cur[sorted[j]]
    ensures forall j, k :: 0 <= j < i && PathOf(store, sorted[j]) == ProcessAndDistribute
                           && 0 <= k < |store[sorted[j]].children| ==>
              next[store[sorted[j]].children[k]] == cur[store[sorted[j]].children[k]]
  {
    var id := sorted[i];
    PathOfShaped(cur, store, id);
    if IsProcessed(PathOf(store, id)) {
      forall j | 0 <= j < i && IsProcessed(PathOf(store, sorted[j]))
        ensures next[sorted[j]] == cur[sorted[j]]
      {
        assert sorted[j] != id;
      }
      forall j, k | 0 <= j < i && PathOf(store, sorted[j]) == ProcessAndDistribute
                    && 0 <= k < |store[sorted[j]].children|
        ensures next[store[sorted[j]].children[k]] == cur[store[sorted[j]].children[k]]
      {
        var c := store[sorted[j]].children[k];
        assert c in store[sorted[j]].children;
      }
    }
  }

  /** The children of every distributing parent visited so far hold their
      shares, one item later. */
  lemma ShareStep(store: Store, sorted: seq<ItemId>, i: nat, cur: Store, next: Store)
    requires Closed(store) && InStore(store, sorted) && i < |sorted|
    requires Shaped(cur, store) && Shaped(next, store)
    requires forall j :: 0 <= j < i && PathOf(store, sorted[j]) == ProcessAndDistribute ==>
               ReceivedShares(cur, store, sorted[j])
    requires forall j :: 0 <= j < i && IsProcessed(PathOf(store, sorted[j])) ==> next[sorted[j]] == cur[sorted[j]]
    requires forall j, k :: 0 <= j < i && PathOf(store, sorted[j]) == ProcessAndDistribute
                            && 0 <= k < |store[sorted[j]].children| ==>
               next[store[sorted[j]].children[k]] == cur[store[sorted[j]].children[k]]
    requires PathOf(store, sorted[i]) == ProcessAndDistribute ==>
               && InStore(next, store[sorted[i]].children)
               && ChildRecords(next, store[sorted[i]].children)
                  == DistributedChildren(next[sorted[i]], ChildRecords(cur, store[sorted[i]].children))
    ensures forall j :: 0 <= j < i + 1 && PathOf(store, sorted[j]) == ProcessAndDistribute ==>
              ReceivedShares(next, store, sorted[j])
  {
    forall j | 0 <= j < i + 1 && PathOf(store, sorted[j]) == ProcessAndDistribute
      ensures ReceivedShares(next, store, sorted[j])
    {
      var q := sorted[j];
      if j < i {
        SharesKept(store, cur, next, q);
      } else {
        SharesMade(store, cur, next, q);
      }
    }
  }

  /** Shares already handed out survive when neither the parent nor its
      children change. */
  lemma SharesKept(store: Store, cur: Store, next: Store, q: ItemId)
    requires Closed(store) && q in store && Shaped(cur, store) && Shaped(next, store)
    requires ReceivedShares(cur, store, q)
    requires next[q] == cur[q]
    requires forall k :: 0 <= k < |store[q].children| ==> next[store[q].children[k]] == cur[store[q].children[k]]
    ensures ReceivedShares(next, store, q)
  {
    assert ChildRecords(next, store[q].children) == ChildRecords(cur, store[q].children);
  }

  /** The shares just handed out by `q` are its allocation. */
  lemma SharesMade(store: Store, cur: Store, next: Store, q: ItemId)
    requires Closed(store) && q in store && Shaped(cur, store) && Shaped(next, store)
    requires InStore(next, store[q].children)
    requires ChildRecords(next, store[q].children) == DistributedChildren(next[q], ChildRecords(cur, store[q].children))
    ensures ReceivedShares(next, store, q)
  {
    var ch := store[q].children;
    ChildRecordsShaped(cur, store, ch);
    DistributedChildrenShaped(next[q], ChildRecords(cur, ch), ChildRecords(store, ch));
  }

  lemma ChildRecordsShaped(after: Store, before: Store, ids: seq<ItemId>)
    requires Shaped(after, before) && InStore(before, ids)
    ensures InStore(after, ids)
    ensures forall k :: 0 <= k < |ids| ==> SameShape(ChildRecords(after, ids)[k], ChildRecords(before, ids)[k])
  {
  }

  /** `x` may be written by the visit of `ids` if and only if visiting one of
      them may write to it. */
  lemma {:induction false} TouchedIff(store: Store, ids: seq<ItemId>, x: ItemId)
    requires InStore(store, ids)
    ensures x in Touched(store, ids) <==> exists j :: 0 <= j < |ids| && TouchesAt(store, ids, j, x)
    decreases |ids|
  {
    if |ids| > 0 {
      var n := |ids| - 1;
      var front := ids[..n];
      TouchedIff(store, front, x);
      TouchedLast(store, ids, x);
      if x in Touched(store, ids) {
        if x in Touched(store, front) {
          var j :| 0 <= j < n && TouchesAt(store, front, j, x);
          TouchesAtPrefix(store, ids, n, j, x);
          assert TouchesAt(store, ids, j, x);
        } else {
          assert TouchesAt(store, ids, n, x);
        }
      } else {
        forall j | 0 <= j < |ids|
          ensures !TouchesAt(store, ids, j, x)
        {
          if j < n {
            TouchesAtPrefix(store, ids, n, j, x);
          }
        }
      }
    }
  }

  lemma TouchedLast(store: Store, ids: seq<ItemId>, x: ItemId)
    requires InStore(store, ids) && |ids| > 0
    ensures x in Touched(store, ids) <==> x in Touched(store, ids[..|ids| - 1]) || TouchesAt(store, ids, |ids| - 1, x)
  {
    var id := ids[|ids| - 1];
    assert x in (set c | c in store[id].children) <==> x in store[id].children;
  }

  lemma TouchesAtPrefix(store: Store, ids: seq<ItemId>, n: nat, j: nat, x: ItemId)
    requires InStore(store, ids) && j < n <= |ids|
    ensures TouchesAt(store, ids[..n], j, x) == TouchesAt(store, ids, j, x)
  {
    assert ids[..n][j] == ids[j];
  }

  /** The priority sort is asked exactly once when there are items, and not
      at all when there are none. */
  lemma {:induction false} SortedOnce<S>(store: Store, assignment: ShippingAssignment, validator: Validator<S>)
    requires |assignment.items| > 0 ==> InStore(store, Sorted(store, assignment, validator))
    ensures CountSorts(CollectCalls(store, assignment, validator)) == if |assignment.items| == 0 then 0 else 1
  {
    if |assignment.items| > 0 {
      var sorted := Sorted(store, assignment, validator);
      var sort := [SortItemsByPriority(assignment.items, assignment.address)];
      NoSortsAmongProcessCalls(store, sorted);
      CountSortsAppend(sort, ProcessCalls(store, sorted));
      CountSortsAppend(sort + ProcessCalls(store, sorted), ShippingCalls(assignment.address));
      assert CountSorts(sort) == 1 by {
        assert sort[..0] == [];
      }
      if assignment.address.shippingAmount != 0.0 {
        assert ShippingCalls(assignment.address)[..0] == [];
      }
    }
  }

  lemma {:induction false} CountSortsAppend(a: seq<ValidatorCall>, b: seq<ValidatorCall>)
    ensures CountSorts(a + b) == CountSorts(a) + CountSorts(b)
    decreases |b|
  {
    if |b| == 0 {
      assert a + b == a;
    } else {
      var n := |b| - 1;
      CountSortsAppend(a, b[..n]);
      assert (a + b)[..|a + b| - 1] == a + b[..n];
    }
  }

  lemma {:induction false} NoSortsAmongProcessCalls(store: Store, ids: seq<ItemId>)
    requires InStore(store, ids)
    ensures CountSorts(ProcessCalls(store, ids)) == 0
    decreases |ids|
  {
    if |ids| > 0 {
      var n := |ids| - 1;
      var last := ids[n];
      NoSortsAmongProcessCalls(store, ids[..n]);
      var tail: seq<ValidatorCall> := if IsProcessed(PathOf(store, last)) then [Process(last)] else [];
      CountSortsAppend(ProcessCalls(store, ids[..n]), tail);
      if IsProcessed(PathOf(store, last)) {
        assert tail[..0] == [];
      }
    }
  }

  /** The validator processes exactly the items that are not skipped: an item
      reaches `process` if and only if it is among the sorted items and its path
      is ProcessLeaf or ProcessAndDistribute. */
  lemma {:induction false} ProcessedIff(store: Store, ids: seq<ItemId>, x: ItemId)
    requires InStore(store, ids)
    ensures Process(x) in ProcessCalls(store, ids) <==> x in ids && IsProcessed(PathOf(store, x))
    decreases |ids|
  {
    if |ids| > 0 {
      var n := |ids| - 1;
      ProcessedIff(store, ids[..n], x);
      assert ids == ids[..n] + [ids[n]];
    }
  }
}
