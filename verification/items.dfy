/** The quote items the discount collector walks over. */
module Items {

  datatype Option<T> = None | Some(value: T)

  type ItemId = nat

  /** The four discount amounts an item carries, each distributed on its own. */
  datatype Field = DiscountAmount | BaseDiscountAmount | OriginalDiscountAmount | BaseOriginalDiscountAmount

  /** `discount_amount`, `base_discount_amount`, `original_discount_amount` and
      `base_original_discount_amount` of one item. */
  datatype Discounts = Discounts(
    discount: real,
    baseDiscount: real,
    originalDiscount: real,
    baseOriginalDiscount: real)
  {
    function Get(f: Field): real {
      match f
      case DiscountAmount => discount
      case BaseDiscountAmount => baseDiscount
      case OriginalDiscountAmount => originalDiscount
      case BaseOriginalDiscountAmount => baseOriginalDiscount
    }
  }

  const NoDiscounts := Discounts(0.0, 0.0, 0.0, 0.0)

  /** A quote item. A root item has no parent; a child item (a component of a
      bundle or configurable product) names its parent. Children are named by
      id: the same child object is reachable from its parent and from the
      shipping assignment's item list. */
  datatype LineItem = LineItem(
    noDiscount: bool,
    parentItem: Option<ItemId>,
    hasChildren: bool,
    childrenCalculated: bool,
    baseRowTotal: real,
    discounts: Discounts,
    children: seq<ItemId>)

  /** The quote's items by id. Writing to an item through one path is seen
      through every other path to the same id. */
  type Store = map<ItemId, LineItem>

  /** Every id in `ids` names an item of the store. */
  predicate InStore(store: Store, ids: seq<ItemId>) {
    forall k :: 0 <= k < |ids| ==> ids[k] in store
  }

  /** Every child an item names is an item of the store. */
  predicate Closed(store: Store) {
    forall p :: p in store ==> InStore(store, store[p].children)
  }

  predicate Distinct(ids: seq<ItemId>) {
    forall a, b :: 0 <= a < b < |ids| ==> ids[a] != ids[b]
  }

  /** The quote's item tree: each child names the parent that lists it, and no
      parent lists a child twice. */
  predicate WellFormed(store: Store) {
    && Closed(store)
    && (forall p :: p in store ==> Distinct(store[p].children))
    && (forall p, k :: p in store && 0 <= k < |store[p].children| ==>
          store[p].children[k] in store && store[store[p].children[k]].parentItem == Some(p))
  }

  /** The items named by `ids`, in order. */
  function ChildRecords(store: Store, ids: seq<ItemId>): (kids: seq<LineItem>)
    requires InStore(store, ids)
    ensures |kids| == |ids|
    ensures forall k :: 0 <= k < |ids| ==> kids[k] == store[ids[k]]
  {
    seq(|ids|, k requires 0 <= k < |ids| => store[ids[k]])
  }

  /** `a` and `b` differ at most in their discounts. */
  predicate SameShape(a: LineItem, b: LineItem) {
    a.(discounts := b.discounts) == b
  }

  /** `after` holds the same items as `before`, each with at most its
      discounts changed. */
  predicate Shaped(after: Store, before: Store) {
    && after.Keys == before.Keys
    && forall x :: x in before ==> SameShape(after[x], before[x])
  }

  /** The `base_row_total` of each child, in stored order. */
  function Weights(children: seq<LineItem>): (w: seq<real>)
    ensures |w| == |children|
    ensures forall k :: 0 <= k < |w| ==> w[k] == children[k].baseRowTotal
  {
    seq(|children|, k requires 0 <= k < |children| => children[k].baseRowTotal)
  }

  /** One discount field read off every item, in order. */
  function Column(items: seq<LineItem>, f: Field): (c: seq<real>)
    ensures |c| == |items|
    ensures forall k :: 0 <= k < |c| ==> c[k] == items[k].discounts.Get(f)
  {
    seq(|items|, k requires 0 <= k < |items| => items[k].discounts.Get(f))
  }
}
