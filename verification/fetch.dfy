/** The collector's `fetch`: the discount line shown among the quote totals. */
module Fetch {
  import opened Items

  /** The part of the shared totals record the discount line is built from. */
  datatype Total = Total(discountAmount: real, discountDescription: string)

  /** One row of the totals display. */
  datatype TotalRow = TotalRow(code: string, value: real, title: string)

  const DiscountCode: string := "discount"
  const TitlePrefix: string := "Discount ("
  const TitleSuffix: string := ")"

  /** The row title, "Discount (<description>)". */
  function Title(description: string): string {
    TitlePrefix + description + TitleSuffix
  }

  /** Recovers the description from a row title, if it has the title's shape. */
  function DescriptionOf(title: string): Option<string> {
    if |title| >= |TitlePrefix| + |TitleSuffix|
       && title[..|TitlePrefix|] == TitlePrefix
       && title[|title| - |TitleSuffix|..] == TitleSuffix
    then Some(title[|TitlePrefix|..|title| - |TitleSuffix|])
    else None
  }

  /** The discount row: nothing when the accumulated discount is zero,
      otherwise the "discount" row carrying the amount unchanged and a title
      from which the description can be read back. */
  function FetchRow(total: Total): (r: Option<TotalRow>)
    ensures r.None? <==> total.discountAmount == 0.0
    ensures r.Some? ==> r.value.code == DiscountCode
    ensures r.Some? ==> r.value.value == total.discountAmount
    ensures r.Some? ==> DescriptionOf(r.value.title) == Some(total.discountDescription)
  {
    if total.discountAmount == 0.0 then None
    else
      TitleRoundTrip(total.discountDescription);
      Some(TotalRow(DiscountCode, total.discountAmount, Title(total.discountDescription)))
  }

  /** The description survives the trip into the title and back. */
  lemma TitleRoundTrip(description: string)
    ensures DescriptionOf(Title(description)) == Some(description)
  {
    var t := Title(description);
    assert t[..|TitlePrefix|] == TitlePrefix;
    assert t[|t| - |TitleSuffix|..] == TitleSuffix;
    assert t[|TitlePrefix|..|t| - |TitleSuffix|] == description;
  }

  /** Conversely, every title the description can be read from is the title
      of that description: different descriptions give different titles. */
  lemma TitleFromDescription(title: string, description: string)
    requires DescriptionOf(title) == Some(description)
    ensures Title(description) == title
  {
    assert title == title[..|TitlePrefix|] + title[|TitlePrefix|..|title| - |TitleSuffix|] + title[|title| - |TitleSuffix|..];
  }
}
