/**
 * Classification of a fetched cart page (`check_stock`): the page text is searched
 * for a fixed set of markers, with the out-of-stock marker taking priority. A fetch
 * that fails is the only way to an unknown status.
 */
module Classify {
  import opened Options
  import opened Text

  /** The marker whose presence means the product cannot be bought. */
  const OutOfStockMarker: string := "Out of Stock"

  /** Markers of a page that offers a billing cycle or an order summary. */
  const AnnuallyMarker: string := "Annually"
  const MonthlyMarker: string := "Monthly"
  const OrderSummaryMarker: string := "Order Summary"

  /** Some in-stock marker occurs in the page. */
  ghost predicate HasInStockMarker(page: string) {
    exists i :: OccursAt(page, AnnuallyMarker, i) || OccursAt(page, MonthlyMarker, i) || OccursAt(page, OrderSummaryMarker, i)
  }

  /**
   * The verdict on a page that was fetched: in stock exactly when the page shows no
   * out-of-stock marker and shows at least one in-stock marker.
   */
  function ClassifyPage(page: string): (inStock: bool)
    ensures inStock <==> (forall i :: !OccursAt(page, OutOfStockMarker, i)) && HasInStockMarker(page)
  {
    if Contains(page, OutOfStockMarker) then
      false
    else if Contains(page, AnnuallyMarker) || Contains(page, MonthlyMarker) || Contains(page, OrderSummaryMarker) then
      true
    else
      false
  }

  /**
   * The status `check_stock` reports for one product: `None` when the fetch failed,
   * otherwise the verdict on the fetched page.
   */
  function StockOf(fetched: Option<string>): (status: Option<bool>)
    ensures status.None? <==> fetched.None?
    ensures fetched.Some? ==> status == Some(ClassifyPage(fetched.value))
  {
    match fetched
    case None => None
    case Some(page) => Some(ClassifyPage(page))
  }

  /** The out-of-stock marker wins, even when a billing-cycle marker is also present. */
  lemma {:induction false} OutOfStockWins(before: string, after: string)
    ensures !ClassifyPage(before + OutOfStockMarker + after)
  {
    ContainsEmbedded(before, OutOfStockMarker, after);
  }

  /** "Order Summary" on a page without the out-of-stock marker means in stock. */
  lemma {:induction false} OrderSummaryMeansInStock(before: string, after: string)
    requires !Contains(before + OrderSummaryMarker + after, OutOfStockMarker)
    ensures ClassifyPage(before + OrderSummaryMarker + after)
  {
    ContainsEmbedded(before, OrderSummaryMarker, after);
  }

  /** "Monthly" on a page without the out-of-stock marker means in stock. */
  lemma {:induction false} MonthlyMeansInStock(before: string, after: string)
    requires !Contains(before + MonthlyMarker + after, OutOfStockMarker)
    ensures ClassifyPage(before + MonthlyMarker + after)
  {
    ContainsEmbedded(before, MonthlyMarker, after);
  }
}
