# SalesRule quote discount collector

A Dafny model of the discount total collector of Magento's SalesRule module
(`Magento\SalesRule\Model\Quote\Discount`): how one collection pass walks
a shipping assignment's items, how a parent item's discount is spread over its
children, and how the discount line is shown. The fixtures and mock
expectations of the collector's unit test fix the behaviour; the class file
`Model/Quote/Discount.php` is not part of this model.

The collector does three things:

- **Classification (`collect`).** The rule validator sorts the shipping
  assignment's items by priority, once. Each sorted item is then put on one of
  four paths, checking in order: `no_discount` set (skip); has a parent item
  (skip; if its parent distributes, the child receives its share from the
  parent's visit, before or after its own turn); `has_children` and
  `children_calculated` both set (the validator processes the parent, then its
  discounts are distributed to its children); otherwise the validator
  processes the item as a leaf. After the items, the validator is handed the
  shipping amount when there is one.
- **Distribution to children.** Each of the four parent fields
  `discount_amount`, `base_discount_amount`, `original_discount_amount` and
  `base_original_discount_amount` is spread over the children in stored order.
  A child's exact share is the amount times child `base_row_total` over parent
  `base_row_total` (zero when the parent's `base_row_total` is zero). The share
  plus the rounding delta carried so far is rounded to the cent with
  round-half-away-from-zero (PHP `round($x, 2)`), and the rounding's difference
  is carried on to the next child. Every field carries its own delta.
- **`fetch`.** The accumulated total becomes the display row
  `{code: "discount", value: amount, title: "Discount (<description>)"}`.

Amounts are Dafny `real`s in currency units, so 6.67 is exact. The main results:

- the carried delta never leaves [-0.005, 0.005];
- every allocation is a whole number of cents within one cent of its exact share;
- when the children's `base_row_total`s add up to the parent's and the amount
  is a whole number of cents, the allocations add up to the amount exactly and
  the final delta is zero;
- the test's fixture (20 over three children of 100 gives 6.67, 6.66, 6.67)
  comes out of the model. A scheme in which the last child absorbs the
  remainder would give 6.67, 6.67, 6.66 instead. The model follows the fixture.

Modules: `Money` (exact cents and PHP rounding), `Items` (quote items, their
four discount fields and the item store), `Distribution` (the per-field fold,
the one-pass method with four deltas, and their properties), `Collector`
(classification, the collection pass, the validator as a parameter), `Fetch`
(the display row) and `Fixtures` (the test's scenarios).

Items are PHP objects shared between the assignment's item list and their
parent's child list. The model keeps them in a store keyed by id
(`Items.Store`); a parent names its children by id. A share written to a child
through its parent is therefore the child's discount wherever else the child
is listed. A pass changes only discounts, never an item's flags, totals or
links.

The rule validator is a parameter (`Collector.Validator<S>`). Its priority
sort and its per-item discount computation are arbitrary functions. `process`
takes and returns the validator's own state `S` (rules used so far, budgets),
so an earlier item can change what a later one gets. Every call the collector
makes into the validator is recorded in order. "Sorted once, with the
assignment's items and address" and "processed in the returned order" are
statements about that record. An empty item list makes no call at all.

## Model

| member | source | states |
|---|---|---|
| Money.RoundHalfAway | app/code/Magento/SalesRule/Test/Unit/Model/Quote/DiscountTest.php:94-103 | the result is an integer within 1/2 of the input, and a tie goes away from zero |
| Money.Round2 | app/code/Magento/SalesRule/Test/Unit/Model/Quote/DiscountTest.php:94-103 | `round($x, 2)` gives a whole number of cents within half a cent of `x`, and a tie goes away from zero |
| Money.Round2Nearest | app/code/Magento/SalesRule/Test/Unit/Model/Quote/DiscountTest.php:94-103 | no whole cent is strictly closer to `x` than `round($x, 2)` |
| Distribution.CarriedDelta | app/code/Magento/SalesRule/Test/Unit/Model/Quote/DiscountTest.php:357-375 | the rounding delta carried from child to child stays within half a cent at every step |
| Distribution.AllocationOfChild | app/code/Magento/SalesRule/Test/Unit/Model/Quote/DiscountTest.php:357-375 | child `k` gets its exact share plus the rounding delta the children before it left, rounded to the cent; later children do not affect it |
| Distribution.AllocationBounds | app/code/Magento/SalesRule/Test/Unit/Model/Quote/DiscountTest.php:357-375 | every child's allocation is whole cents, within one cent of its exact proportional share |
| Distribution.AllocationDrift | app/code/Magento/SalesRule/Test/Unit/Model/Quote/DiscountTest.php:337-376 | the allocations made so far plus the delta still carried equal the exact shares added up |
| Distribution.SharesAddUp | app/code/Magento/SalesRule/Test/Unit/Model/Quote/DiscountTest.php:337-356 | the exact shares add up to the amount times the children's part of the parent `base_row_total` |
| Distribution.ExactSum | app/code/Magento/SalesRule/Test/Unit/Model/Quote/DiscountTest.php:337-376 | when the children's `base_row_total`s add up to the parent's and the amount is whole cents, the allocations add up exactly to the amount and no delta is left |
| Distribution.NothingToShare | app/code/Magento/SalesRule/Test/Unit/Model/Quote/DiscountTest.php:315-335 | a parent `base_row_total` of zero, or an amount of zero, gives every child zero and carries no delta |
| Distribution.FieldsIndependent | app/code/Magento/SalesRule/Test/Unit/Model/Quote/DiscountTest.php:358-375 | each field of the distributed children depends only on that field of the parent: no delta is shared between fields |
| Distribution.DistributedChildrenSum | app/code/Magento/SalesRule/Test/Unit/Model/Quote/DiscountTest.php:337-376 | each of the four parent fields reaches the children in full |
| Distribution.ZeroParentBaseRowTotal | app/code/Magento/SalesRule/Test/Unit/Model/Quote/DiscountTest.php:315-335 | under a parent with zero `base_row_total`, every child field is zero whatever the parent's amounts |
| Distribution.DistributedChildrenShaped | app/code/Magento/SalesRule/Test/Unit/Model/Quote/DiscountTest.php:357-375 | the distribution reads only the children's `base_row_total`s: children differing only in their discounts receive the same shares |
| Distribution.DistributeDiscount | app/code/Magento/SalesRule/Test/Unit/Model/Quote/DiscountTest.php:300-305 | one pass over the children in stored order, carrying four deltas, gives the same children as distributing each field on its own; only the children's discounts change |
| Collector.Classify | app/code/Magento/SalesRule/Test/Unit/Model/Quote/DiscountTest.php:265-268 | the path is SkipNoDiscount iff `no_discount`; SkipChildItem iff not that and a parent exists; ProcessAndDistribute iff neither and both `has_children` and `children_calculated`; ProcessLeaf otherwise. Flags are read in order, each at most once; `children_calculated` is read only when `has_children` is |
| Collector.VisitItem | app/code/Magento/SalesRule/Test/Unit/Model/Quote/DiscountTest.php:262-269 | a skipped item changes nothing and calls nothing; a processed item gets what `process` returned for it and the validator moves to its next state; a parent with calculated children then hands those discounts to its children; nothing but the item and those children changes, and only in discounts |
| Collector.ProcessParent | app/code/Magento/SalesRule/Test/Unit/Model/Quote/DiscountTest.php:300-305 | after a parent's discounts are set, each of its children, as stored, is replaced by its share of them; no other item changes |
| Collector.Collect | app/code/Magento/SalesRule/Test/Unit/Model/Quote/DiscountTest.php:275-305 | an empty item list calls nothing and changes nothing. Otherwise: the sort is called first, with the assignment's items and address, then `process` once per unskipped sorted item in sorted order, then the shipping amount when non-zero. Only items a visit may write to change, only in discounts. When the sorted items are separated (a processed item is listed once and is no distributing parent's child, a distributing parent names each child once, two distributing parents share no child), each processed item holds what `process` returned given the state the earlier items left, each child of a calculated parent holds its share of the parent's final discounts, and the final state is the one the sorted items lead to |
| Collector.WellFormedSeparated | app/code/Magento/SalesRule/Test/Unit/Model/Quote/DiscountTest.php:265-269 | when every child names the parent that lists it, no parent lists a child twice and no item is listed twice, the sorted items are separated: a child is skipped on its own turn and belongs to one parent |
| Collector.TouchedIff | app/code/Magento/SalesRule/Test/Unit/Model/Quote/DiscountTest.php:262-305 | an item may change in a pass iff some sorted item is that item and is processed, or is a calculated parent listing it as a child |
| Collector.SortedOnce | app/code/Magento/SalesRule/Test/Unit/Model/Quote/DiscountTest.php:182-184 | the pass calls the priority sort exactly once when there are items, and not at all when there are none |
| Collector.ProcessedIff | app/code/Magento/SalesRule/Test/Unit/Model/Quote/DiscountTest.php:200-228 | an item is handed to `process` iff it is among the sorted items and is neither `no_discount` nor a child item |
| Fetch.FetchRow | app/code/Magento/SalesRule/Test/Unit/Model/Quote/DiscountTest.php:435-454 | no row iff the amount is zero; otherwise code "discount", the amount unchanged, and a title from which the description reads back |
| Fetch.TitleRoundTrip | app/code/Magento/SalesRule/Test/Unit/Model/Quote/DiscountTest.php:439-443 | the description can be read back from "Discount (<description>)" |
| Fetch.TitleFromDescription | app/code/Magento/SalesRule/Test/Unit/Model/Quote/DiscountTest.php:439-443 | a title the description reads back from is that description's title, so distinct descriptions give distinct titles |
| Fixtures.ThreeEqualChildren | app/code/Magento/SalesRule/Test/Unit/Model/Quote/DiscountTest.php:337-376 | 20/10/40/20 over three children of 100 gives 6.67/6.66/6.67, 3.33/3.34/3.33, 13.33/13.34/13.33 and 6.67/6.66/6.67 |
| Fixtures.ZeroRowTotalChild | app/code/Magento/SalesRule/Test/Unit/Model/Quote/DiscountTest.php:315-335 | one child under a parent with zero `base_row_total` gets zero in all four fields |
| Fixtures.CollectItemHasChildren | app/code/Magento/SalesRule/Test/Unit/Model/Quote/DiscountTest.php:233-305 | the test's own pass: only the bundle is listed and its three children of 100 name no parent; one sort with `[bundle]`, one `process`, the shipping call, and the children end with 6.67/3.33/13.33/6.67, 6.66/3.34/13.34/6.66 and 6.67/3.33/13.33/6.67 |
| Fixtures.BundleListedWithChildren | app/code/Magento/SalesRule/Test/Unit/Model/Quote/DiscountTest.php:233-305 | a bundle of 20/10/40/20 listed with its three children in the item list: one sort, one `process` (the parent), the shipping call; the parent keeps its discounts and the children, though skipped on their own turn, hold 6.67/3.33/13.33/6.67, 6.66/3.34/13.34/6.66 and 6.67/3.33/13.33/6.67 |
| Fixtures.FetchHundred | app/code/Magento/SalesRule/Test/Unit/Model/Quote/DiscountTest.php:435-454 | amount 100 with description "100" gives `{discount, 100, "Discount (100)"}` |

## Left out

- Validator internals (`process`, `canApplyRules`, `canApplyDiscount`, `processShippingAmount`, `init`, `reset`, `initTotals`): external collaborators. `sortItemsByPriority` and `process` are function parameters; `processShippingAmount` is only recorded as a call and does not advance the validator state. `process` returns the four discount fields; the other item fields it writes (applied rule ids, discount percent) are not modelled. The test answers yes to every applicability question, so no applicability check is modelled.
- Updates of the shared total (running discount amount, description, shipping discount): the test's total is a bare mock and asserts none of them.
- Store manager, event manager, the discount data factory and the extension-attribute discount breakdown (`getDiscounts`/`setDiscounts`): dependency plumbing whose mocks return empty lists.
- Collector.Collect: returns the updated items and the validator calls rather than the collector object. The test's check that `collect` returns the collector itself (for call chaining) has no counterpart in a value model.
- Collector.Collect: what happens to the parent's own discount fields after distribution is not fixed by the test. The model leaves them as the validator left them.
- Collector.Collect: what `process` returned, the final validator state and the children's shares are stated only when the sorted items are separated (`Collector.Separated`): a processed item is listed once and is no distributing parent's child, a distributing parent names each child once, and two distributing parents share no child. The test's input meets this, and so does every well-formed item tree listed without repeats (`Collector.WellFormedSeparated`). For other inputs the model still runs the same pass, but only the call record and which items may change are stated.
- Collector.Collect: the priority sort must return ids of the quote's items, and every child a parent lists must be an item of the quote. PHP hands over the item objects themselves, so the two always hold there.
- Fetch.FetchRow: an empty description is not treated specially; it gives the title "Discount ()".
- Fetch.FetchRow: the title is plain concatenation; the localisation done by `__()` is not modelled.
- Floating point: amounts are exact reals, so PHP float noise is absent. The carried delta starts at zero.
- A child's own `no_discount` flag is not consulted when its parent's discount is distributed. The test's children carry no such flag.
- Negative `base_row_total` values are not rejected. Nothing in the tested behaviour checks them, and the exact-sum result does not depend on their sign.
- Distribution.ExactSum: assumes the parent's amounts are whole cents, as all of the test's amounts are; for other amounts only the bound of Distribution.AllocationDrift holds.
