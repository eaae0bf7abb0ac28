/** Distribution of a parent item's discount over its children.

    For each discount field separately, the children are visited in stored
    order. A child's exact share is the parent's amount times the child's
    `base_row_total` over the parent's `base_row_total` (zero when the parent's
    `base_row_total` is zero). The share plus the rounding delta carried so far
    is rounded to the cent; what the rounding took away or added is carried on
    to the next child. The carried delta starts at zero.
 */
module Distribution {
  import opened Money
  import opened Items

  /** The child's weight relative to the parent; zero for a zero parent total. */
  function Ratio(childBaseRowTotal: real, parentBaseRowTotal: real): real {
    if parentBaseRowTotal != 0.0 then childBaseRowTotal / parentBaseRowTotal else 0.0
  }

  /** The exact, unrounded share of `amount` that goes to one child. */
  function Share(amount: real, childBaseRowTotal: real, parentBaseRowTotal: real): real {
    amount * Ratio(childBaseRowTotal, parentBaseRowTotal)
  }

  function Sum(s: seq<real>): real {
    if |s| == 0 then 0.0 else Sum(s[..|s| - 1]) + s[|s| - 1]
  }

  /** The rounding delta carried forward after visiting children with the given
      weights. It never exceeds half a cent either way. */
  function CarriedDelta(amount: real, parentBaseRowTotal: real, weights: seq<real>): (d: real)
    ensures -HalfCent <= d <= HalfCent
    decreases |weights|
  {
    if |weights| == 0 then 0.0
    else
      var n := |weights| - 1;
      var x := Share(amount, weights[n], parentBaseRowTotal) + CarriedDelta(amount, parentBaseRowTotal, weights[..n]);
      x - Round2(x)
  }

  /** The amounts assigned to children with the given weights, in order: each
      child gets its exact share plus the delta the children before it left,
      rounded to the cent. */
  function Allocate(amount: real, parentBaseRowTotal: real, weights: seq<real>): (a: seq<real>)
    ensures |a| == |weights|
    decreases |weights|
  {
    if |weights| == 0 then []
    else
      var n := |weights| - 1;
      var x := Share(amount, weights[n], parentBaseRowTotal) + CarriedDelta(amount, parentBaseRowTotal, weights[..n]);
      Allocate(amount, parentBaseRowTotal, weights[..n]) + [Round2(x)]
  }

  /** Child `k` is given its exact share plus the delta the children before it
      left, rounded to the cent; what later children weigh does not matter. */
  lemma {:induction false} AllocationOfChild(amount: real, parentBaseRowTotal: real, weights: seq<real>)
    ensures forall k :: 0 <= k < |weights| ==>
              Allocate(amount, parentBaseRowTotal, weights)[k]
              == Round2(Share(amount, weights[k], parentBaseRowTotal) + CarriedDelta(amount, parentBaseRowTotal, weights[..k]))
    decreases |weights|
  {
    if |weights| > 0 {
      var n := |weights| - 1;
      var front := weights[..n];
      var a := Allocate(amount, parentBaseRowTotal, weights);
      AllocationOfChild(amount, parentBaseRowTotal, front);
      assert a == Allocate(amount, parentBaseRowTotal, front)
                  + [Round2(Share(amount, weights[n], parentBaseRowTotal) + CarriedDelta(amount, parentBaseRowTotal, front))];
      forall k | 0 <= k < |weights|
        ensures a[k] == Round2(Share(amount, weights[k], parentBaseRowTotal) + CarriedDelta(amount, parentBaseRowTotal, weights[..k]))
      {
        if k < n {
          assert front[k] == weights[k] && front[..k] == weights[..k];
        }
      }
    }
  }

  /** Every allocation is a whole number of cents within one cent of the
      child's exact share. */
  lemma {:induction false} AllocationBounds(amount: real, parentBaseRowTotal: real, weights: seq<real>)
    ensures forall k :: 0 <= k < |weights| ==> IsCents(Allocate(amount, parentBaseRowTotal, weights)[k])
    ensures forall k :: 0 <= k < |weights| ==>
              Share(amount, weights[k], parentBaseRowTotal) - 0.01
              <= Allocate(amount, parentBaseRowTotal, weights)[k]
              <= Share(amount, weights[k], parentBaseRowTotal) + 0.01
    decreases |weights|
  {
    if |weights| > 0 {
      var n := |weights| - 1;
      AllocationBounds(amount, parentBaseRowTotal, weights[..n]);
      var a := Allocate(amount, parentBaseRowTotal, weights);
      assert forall k :: 0 <= k < n ==> a[k] == Allocate(amount, parentBaseRowTotal, weights[..n])[k] && weights[k] == weights[..n][k];
    }
  }

  lemma {:induction false} SumOfCents(s: seq<real>)
    requires forall k :: 0 <= k < |s| ==> IsCents(s[k])
    ensures IsCents(Sum(s))
    decreases |s|
  {
    if |s| == 0 {
      assert (0.0 * 100.0).Floor == 0;
    } else {
      SumOfCents(s[..|s| - 1]);
      CentsAdd(Sum(s[..|s| - 1]), s[|s| - 1]);
    }
  }

  lemma SumAppend(s: seq<real>, x: real)
    ensures Sum(s + [x]) == Sum(s) + x
  {
    assert (s + [x])[..|s|] == s;
  }

  /** The exact shares of children with the given weights, added up. */
  function SumOfShares(amount: real, parentBaseRowTotal: real, weights: seq<real>): real {
    if |weights| == 0 then 0.0
    else SumOfShares(amount, parentBaseRowTotal, weights[..|weights| - 1]) + Share(amount, weights[|weights| - 1], parentBaseRowTotal)
  }

  /** The exact shares add up to the parent's amount scaled by the children's
      part of the parent's `base_row_total`. */
  lemma {:induction false} SharesAddUp(amount: real, parentBaseRowTotal: real, weights: seq<real>)
    requires parentBaseRowTotal != 0.0
    ensures SumOfShares(amount, parentBaseRowTotal, weights) == amount * (Sum(weights) / parentBaseRowTotal)
    decreases |weights|
  {
    if |weights| > 0 {
      var n := |weights| - 1;
      SharesAddUp(amount, parentBaseRowTotal, weights[..n]);
      var s := Sum(weights[..n]);
      var w := weights[n];
      assert Sum(weights) == s + w;
      assert (s + w) / parentBaseRowTotal == s / parentBaseRowTotal + w / parentBaseRowTotal;
      assert amount * ((s + w) / parentBaseRowTotal) == amount * (s / parentBaseRowTotal) + amount * (w / parentBaseRowTotal);
    }
  }

  /** The allocations and the delta still carried add up to the exact shares. */
  lemma {:induction false} AllocationDrift(amount: real, parentBaseRowTotal: real, weights: seq<real>)
    ensures Sum(Allocate(amount, parentBaseRowTotal, weights)) + CarriedDelta(amount, parentBaseRowTotal, weights)
            == SumOfShares(amount, parentBaseRowTotal, weights)
    decreases |weights|
  {
    if |weights| > 0 {
      var n := |weights| - 1;
      var front := weights[..n];
      AllocationDrift(amount, parentBaseRowTotal, front);
      var a := Allocate(amount, parentBaseRowTotal, front);
      var r := Round2(Share(amount, weights[n], parentBaseRowTotal) + CarriedDelta(amount, parentBaseRowTotal, front));
      SumAppend(a, r);
    }
  }

  /** When the children's weights add up to the parent's `base_row_total` and
      the amount is a whole number of cents, the allocations add up to the
      amount exactly and no delta is left over. */
  lemma ExactSum(amount: real, parentBaseRowTotal: real, weights: seq<real>)
    requires IsCents(amount)
    requires parentBaseRowTotal != 0.0
    requires Sum(weights) == parentBaseRowTotal
    ensures Sum(Allocate(amount, parentBaseRowTotal, weights)) == amount
    ensures CarriedDelta(amount, parentBaseRowTotal, weights) == 0.0
  {
    var a := Allocate(amount, parentBaseRowTotal, weights);
    var d := CarriedDelta(amount, parentBaseRowTotal, weights);
    assert Sum(a) + d == amount by {
      AllocationDrift(amount, parentBaseRowTotal, weights);
      SharesAddUp(amount, parentBaseRowTotal, weights);
      assert Sum(weights) / parentBaseRowTotal == 1.0;
    }
    assert IsCents(d) by {
      AllocationBounds(amount, parentBaseRowTotal, weights);
      SumOfCents(a);
      CentsAdd(amount, Sum(a));
      assert d == amount - Sum(a);
    }
    SmallCentsIsZero(d);
  }

  /** A zero parent `base_row_total`, or a zero amount, gives every child zero
      and never carries a delta. */
  lemma {:induction false} NothingToShare(amount: real, parentBaseRowTotal: real, weights: seq<real>)
    requires amount == 0.0 || parentBaseRowTotal == 0.0
    ensures forall k :: 0 <= k < |weights| ==> Allocate(amount, parentBaseRowTotal, weights)[k] == 0.0
    ensures CarriedDelta(amount, parentBaseRowTotal, weights) == 0.0
    decreases |weights|
  {
    if |weights| > 0 {
      var n := |weights| - 1;
      NothingToShare(amount, parentBaseRowTotal, weights[..n]);
      assert Share(amount, weights[n], parentBaseRowTotal) == 0.0;
      Round2OfCents(0.0);
    }
  }

  /** Extending the children only appends allocations: earlier children keep
      what they were given. */
  lemma AllocatePrefix(amount: real, parentBaseRowTotal: real, weights: seq<real>, k: nat)
    requires k < |weights|
    ensures Allocate(amount, parentBaseRowTotal, weights[..k + 1])
            == Allocate(amount, parentBaseRowTotal, weights[..k])
               + [Round2(Share(amount, weights[k], parentBaseRowTotal) + CarriedDelta(amount, parentBaseRowTotal, weights[..k]))]
    ensures CarriedDelta(amount, parentBaseRowTotal, weights[..k + 1])
            == var x := Share(amount, weights[k], parentBaseRowTotal) + CarriedDelta(amount, parentBaseRowTotal, weights[..k]);
               x - Round2(x)
  {
    assert weights[..k + 1][..k] == weights[..k];
  }

  /** The discounts of child `k` when each of the four fields is distributed
      on its own. */
  function AllocatedAt(amounts: Discounts, parentBaseRowTotal: real, weights: seq<real>, k: nat): Discounts
    requires k < |weights|
  {
    Discounts(
      Allocate(amounts.discount, parentBaseRowTotal, weights)[k],
      Allocate(amounts.baseDiscount, parentBaseRowTotal, weights)[k],
      Allocate(amounts.originalDiscount, parentBaseRowTotal, weights)[k],
      Allocate(amounts.baseOriginalDiscount, parentBaseRowTotal, weights)[k])
  }

  /** The four deltas carried after visiting children with the given weights. */
  function CarriedDeltas(amounts: Discounts, parentBaseRowTotal: real, weights: seq<real>): Discounts {
    Discounts(
      CarriedDelta(amounts.discount, parentBaseRowTotal, weights),
      CarriedDelta(amounts.baseDiscount, parentBaseRowTotal, weights),
      CarriedDelta(amounts.originalDiscount, parentBaseRowTotal, weights),
      CarriedDelta(amounts.baseOriginalDiscount, parentBaseRowTotal, weights))
  }

  /** Visiting child `k` appends the rounded shares of NextAllocation, leaves
      earlier children as they were, and moves each field's delta on by what
      its own rounding took away. */
  lemma VisitChild(amounts: Discounts, parentBaseRowTotal: real, weights: seq<real>, k: nat, delta: Discounts, rounded: Discounts)
    requires k < |weights|
    requires delta == CarriedDeltas(amounts, parentBaseRowTotal, weights[..k])
    requires rounded == Discounts(
      Round2(Share(amounts.discount, weights[k], parentBaseRowTotal) + delta.discount),
      Round2(Share(amounts.baseDiscount, weights[k], parentBaseRowTotal) + delta.baseDiscount),
      Round2(Share(amounts.originalDiscount, weights[k], parentBaseRowTotal) + delta.originalDiscount),
      Round2(Share(amounts.baseOriginalDiscount, weights[k], parentBaseRowTotal) + delta.baseOriginalDiscount))
    ensures forall j :: 0 <= j < k ==>
              AllocatedAt(amounts, parentBaseRowTotal, weights[..k + 1], j) == AllocatedAt(amounts, parentBaseRowTotal, weights[..k], j)
    ensures AllocatedAt(amounts, parentBaseRowTotal, weights[..k + 1], k) == rounded
    ensures CarriedDeltas(amounts, parentBaseRowTotal, weights[..k + 1]) == Discounts(
      delta.discount + Share(amounts.discount, weights[k], parentBaseRowTotal) - rounded.discount,
      delta.baseDiscount + Share(amounts.baseDiscount, weights[k], parentBaseRowTotal) - rounded.baseDiscount,
      delta.originalDiscount + Share(amounts.originalDiscount, weights[k], parentBaseRowTotal) - rounded.originalDiscount,
      delta.baseOriginalDiscount + Share(amounts.baseOriginalDiscount, weights[k], parentBaseRowTotal) - rounded.baseOriginalDiscount)
  {
    AllocatePrefix(amounts.discount, parentBaseRowTotal, weights, k);
    AllocatePrefix(amounts.baseDiscount, parentBaseRowTotal, weights, k);
    AllocatePrefix(amounts.originalDiscount, parentBaseRowTotal, weights, k);
    AllocatePrefix(amounts.baseOriginalDiscount, parentBaseRowTotal, weights, k);
  }

  /** The discounts child `k` of `parent` receives; `kids` are the parent's
      children in stored order. */
  function Allocated(parent: LineItem, kids: seq<LineItem>, k: nat): Discounts
    requires k < |kids|
  {
    AllocatedAt(parent.discounts, parent.baseRowTotal, Weights(kids), k)
  }

  /** The parent's children after distribution: only their discounts change. */
  function DistributedChildren(parent: LineItem, kids: seq<LineItem>): (children: seq<LineItem>)
    ensures |children| == |kids|
    ensures forall k :: 0 <= k < |children| ==> children[k] == kids[k].(discounts := Allocated(parent, kids, k))
  {
    seq(|kids|, k requires 0 <= k < |kids| => kids[k].(discounts := Allocated(parent, kids, k)))
  }

  /** Each field's allocations depend on that field's amount alone: the four
      fields never share a rounding delta. */
  lemma FieldsIndependent(parent: LineItem, kids: seq<LineItem>, f: Field)
    ensures Column(DistributedChildren(parent, kids), f)
            == Allocate(parent.discounts.Get(f), parent.baseRowTotal, Weights(kids))
  {
    var c := Column(DistributedChildren(parent, kids), f);
    var a := Allocate(parent.discounts.Get(f), parent.baseRowTotal, Weights(kids));
    assert forall k :: 0 <= k < |c| ==> c[k] == a[k] by {
      match f
      case DiscountAmount =>
      case BaseDiscountAmount =>
      case OriginalDiscountAmount =>
      case BaseOriginalDiscountAmount =>
    }
  }

  /** Every discount field of the parent reaches the children in full. */
  lemma DistributedChildrenSum(parent: LineItem, kids: seq<LineItem>, f: Field)
    requires IsCents(parent.discounts.Get(f))
    requires parent.baseRowTotal != 0.0
    requires Sum(Weights(kids)) == parent.baseRowTotal
    ensures Sum(Column(DistributedChildren(parent, kids), f)) == parent.discounts.Get(f)
  {
    FieldsIndependent(parent, kids, f);
    ExactSum(parent.discounts.Get(f), parent.baseRowTotal, Weights(kids));
  }

  /** A parent whose `base_row_total` is zero leaves zero on every child field. */
  lemma ZeroParentBaseRowTotal(parent: LineItem, kids: seq<LineItem>, f: Field)
    requires parent.baseRowTotal == 0.0
    ensures forall k :: 0 <= k < |kids| ==> DistributedChildren(parent, kids)[k].discounts.Get(f) == 0.0
  {
    FieldsIndependent(parent, kids, f);
    NothingToShare(parent.discounts.Get(f), 0.0, Weights(kids));
    var c := Column(DistributedChildren(parent, kids), f);
    assert forall k :: 0 <= k < |kids| ==> DistributedChildren(parent, kids)[k].discounts.Get(f) == c[k];
  }

  /** Distribution reads only the children's `base_row_total`s: children that
      differ only in their discounts receive the same. */
  lemma DistributedChildrenShaped(parent: LineItem, kids: seq<LineItem>, others: seq<LineItem>)
    requires |kids| == |others|
    requires forall k :: 0 <= k < |kids| ==> SameShape(kids[k], others[k])
    ensures DistributedChildren(parent, kids) == DistributedChildren(parent, others)
  {
    assert Weights(kids) == Weights(others) by {
      forall k | 0 <= k < |kids|
        ensures kids[k].baseRowTotal == others[k].baseRowTotal
      {
        assert kids[k].(discounts := others[k].discounts) == others[k];
      }
    }
    forall k | 0 <= k < |kids|
      ensures kids[k].(discounts := Allocated(parent, kids, k)) == others[k].(discounts := Allocated(parent, others, k))
    {
      assert kids[k].(discounts := others[k].discounts) == others[k];
    }
  }

  /** The distribution as the collector performs it: one pass over the
      children, carrying one rounding delta per field. */
  method DistributeDiscount(parent: LineItem, kids: seq<LineItem>) returns (children: seq<LineItem>)
    ensures children == DistributedChildren(parent, kids)
  {
    var base := parent.baseRowTotal;
    var a := parent.discounts;
    ghost var w := Weights(kids);
    var delta := NoDiscounts;
    children := [];
    var k := 0;
    while k < |kids|
      invariant 0 <= k <= |kids|
      invariant |children| == k
      invariant delta == CarriedDeltas(a, base, w[..k])
      invariant forall j :: 0 <= j < k ==> children[j] == kids[j].(discounts := AllocatedAt(a, base, w[..k], j))
    {
      var child := kids[k];
      assert w[k] == child.baseRowTotal;
      var v0 := Share(a.discount, child.baseRowTotal, base);
      var v1 := Share(a.baseDiscount, child.baseRowTotal, base);
      var v2 := Share(a.originalDiscount, child.baseRowTotal, base);
      var v3 := Share(a.baseOriginalDiscount, child.baseRowTotal, base);
      var rounded := Discounts(
        Round2(v0 + delta.discount),
        Round2(v1 + delta.baseDiscount),
        Round2(v2 + delta.originalDiscount),
        Round2(v3 + delta.baseOriginalDiscount));
      VisitChild(a, base, w, k, delta, rounded);
      delta := Discounts(
        delta.discount + v0 - rounded.discount,
        delta.baseDiscount + v1 - rounded.baseDiscount,
        delta.originalDiscount + v2 - rounded.originalDiscount,
        delta.baseOriginalDiscount + v3 - rounded.baseOriginalDiscount);
      ghost var before := children;
      children := children + [kids[k].(discounts := rounded)];
      forall j | 0 <= j < k + 1
        ensures children[j] == kids[j].(discounts := AllocatedAt(a, base, w[..k + 1], j))
      {
        if j < k {
          assert children[j] == before[j];
        }
      }
      k := k + 1;
    }
    assert w[..k] == w;
  }
}
