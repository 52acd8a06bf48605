/**
 * One run of the stock monitor (`main`): load the prior state, check every
 * configured product, build the report and the summary text, and hand back the
 * state to save. The network, the clock and the files are inputs: `pages[i]` is
 * what fetching product `i` gave (`None` for a failed fetch), `now` is the run's
 * timestamp and `file` is what reading the state file gave.
 */
module CheckStock {
  import opened Options
  import opened Text
  import opened Classify
  import opened Monitor
  import opened Summary

  /** The cart URL template used when the configuration names none. */
  const DefaultCartTemplate: string := "https://bwh81.net/cart.php?a=add&pid={pid}"

  /** The configuration: the products, in order, and the optional URL templates. */
  datatype Config = Config(products: seq<Product>, checkUrl: Option<string>, buyUrl: Option<string>)

  /** The template of the URL fetched to check a product. */
  function CheckTemplate(cfg: Config): (template: string)
    ensures cfg.checkUrl.None? ==> template == DefaultCartTemplate
    ensures cfg.checkUrl.Some? ==> template == cfg.checkUrl.value
  {
    cfg.checkUrl.GetOr(DefaultCartTemplate)
  }

  /** The template of the purchase link shown in the report. */
  function BuyTemplate(cfg: Config): (template: string)
    ensures cfg.buyUrl.None? ==> template == DefaultCartTemplate
    ensures cfg.buyUrl.Some? ==> template == cfg.buyUrl.value
  {
    cfg.buyUrl.GetOr(DefaultCartTemplate)
  }

  /** What reading the state file gave: no file, a file that does not parse, or a state. */
  datatype StoredState = Missing | Unreadable | Stored(state: State)

  /** `load_state`: a missing or unreadable file means an empty history, not an error. */
  function LoadState(file: StoredState): (state: State)
    ensures file.Stored? ==> state == file.state
    ensures !file.Stored? ==> state == map[]
  {
    match file
    case Stored(s) => s
    case _ => map[]
  }

  /** The structured output of a run. */
  datatype Report = Report(timestamp: string, products: seq<Entry>, inStockCount: nat, changed: seq<Change>, text: string)

  /**
   * `main`: the report of the run and the state to save. `requested` lists the URLs
   * fetched, in order.
   */
  method RunCheck(cfg: Config, file: StoredState, pages: seq<Option<string>>, now: string)
    returns (report: Report, saved: State, requested: seq<string>)
    requires |pages| == |cfg.products|
    ensures var pass := RunPass(cfg.products, pages, BuyTemplate(cfg), LoadState(file), now);
      && report.timestamp == now
      && report.products == pass.results
      && report.changed == pass.changed
      && report.inStockCount == |InStockIndices(pass.results)|
      && report.text == SummaryText(SummaryLines(now, pass.results, pass.changed, pass.inStockList))
      && saved == pass.state
    ensures requested == Requests(CheckTemplate(cfg), cfg.products)
  {
    var state := LoadState(file);
    var results, inStockList, changed;
    results, inStockList, changed, saved, requested :=
      CheckAll(cfg.products, pages, CheckTemplate(cfg), BuyTemplate(cfg), state, now);
    InStockListFiltersResults(cfg.products, pages, BuyTemplate(cfg), state, now);
    InStockOnlyCount(results);
    var lines := BuildLines(now, results, changed, inStockList);
    report := Report(now, results, |inStockList|, changed, SummaryText(lines));
  }

  /** With the default template, the cart URL of a product ends in its id. */
  lemma DefaultCartUrl(pid: nat)
    ensures FormatPid(DefaultCartTemplate, Key(pid)) == "https://bwh81.net/cart.php?a=add&pid=" + Decimal(pid)
  {
    var prefix := "https://bwh81.net/cart.php?a=add&pid=";
    assert DefaultCartTemplate == prefix + PidField + "";
    assert forall i :: 0 <= i < |prefix| ==> prefix[i] != '{' && prefix[i] != '}';
    FormatPidSplice(prefix, "", Key(pid));
    assert FormatPid("", Key(pid)) == "";
  }

  /**
   * When no product is listed twice, product `i` appears among the changes exactly
   * when both its stored status and its checked status are known and they differ,
   * and the change then carries the stored status.
   */
  lemma ChangeReportedIff(products: seq<Product>, pages: seq<Option<string>>, buyTemplate: string, stored: State, now: string, i: nat)
    requires |pages| == |products|
    requires forall j, k :: 0 <= j < k < |products| ==> products[j].pid != products[k].pid
    requires i < |products|
    ensures var pass := RunPass(products, pages, buyTemplate, stored, now);
      var prev := PrevStatus(stored, Key(products[i].pid));
      && |pass.results| == |products|
      && ((exists c :: c in pass.changed && c.entry == pass.results[i]) <==> StatusChanged(prev, StockOf(pages[i])))
      && (forall c :: c in pass.changed && c.entry == pass.results[i] ==> prev == Some(c.prevStock))
  {
    var pass := RunPass(products, pages, buyTemplate, stored, now);
    var prevs := Prevs(products, pages, stored);
    ResultsFollowProducts(products, pages, buyTemplate, stored, now);
    ChangedAgainstHistory(products, pages, buyTemplate, stored, now);
    DistinctPidsCompareWithStored(products, pages, stored, i);
    PrevsAt(products, pages, stored, i);
    var prev := PrevStatus(stored, Key(products[i].pid));
    assert prevs[i] == prev;
    forall c | c in pass.changed && c.entry == pass.results[i]
      ensures StatusChanged(prev, StockOf(pages[i])) && prev == Some(c.prevStock)
    {
      ChangesAgainstMembers(pass.results, prevs, c);
      var j :| 0 <= j < |pass.results| && pass.results[j] == c.entry
        && StatusChanged(prevs[j], pass.results[j].inStock) && prevs[j] == Some(c.prevStock);
      assert products[j].pid == products[i].pid;
      assert j == i;
    }
    if StatusChanged(prev, StockOf(pages[i])) {
      var c := Change(pass.results[i], prev.value);
      ChangesAgainstMembers(pass.results, prevs, c);
      assert c in pass.changed;
    }
  }

  /**
   * What a run saves for a product is what the next run compares against: the
   * status checked at its last listing, `None` when that fetch failed.
   */
  lemma StateRoundTrip(products: seq<Product>, pages: seq<Option<string>>, buyTemplate: string, stored: State, now: string, i: nat)
    requires |pages| == |products|
    requires i < |products|
    requires forall j :: i < j < |products| ==> products[j].pid != products[i].pid
    ensures var saved := RunPass(products, pages, buyTemplate, stored, now).state;
      PrevStatus(LoadState(Stored(saved)), Key(products[i].pid)) == StockOf(pages[i])
  {
    LookupAfterPass(products, pages, buyTemplate, stored, now, Key(products[i].pid));
    LastListingWins(products, pages, stored, i);
  }

  /**
   * A failed fetch is saved as no status, so the next run reports no change for
   * that product whatever it then finds.
   */
  lemma FailedCheckHidesNextChange(products: seq<Product>, pages: seq<Option<string>>, buyTemplate: string, stored: State, now: string, i: nat, next: Option<bool>)
    requires |pages| == |products|
    requires i < |products|
    requires forall j :: i < j < |products| ==> products[j].pid != products[i].pid
    requires pages[i] == None
    ensures var saved := RunPass(products, pages, buyTemplate, stored, now).state;
      !StatusChanged(PrevStatus(LoadState(Stored(saved)), Key(products[i].pid)), next)
  {
    StateRoundTrip(products, pages, buyTemplate, stored, now, i);
  }

  /**
   * The two-product scenario (say pids 101 and 202): the first product was stored
   * out of stock and is now found in stock; the second was stored in stock and is
   * now found out of stock. Both changes are reported, in order, with their
   * previous statuses, and one product is in stock.
   */
  lemma TwoProductScenario(first: Product, second: Product, pages: seq<Option<string>>, stored: State, buyTemplate: string, now: string)
    requires first.pid != second.pid
    requires |pages| == 2 && StockOf(pages[0]) == Some(true) && StockOf(pages[1]) == Some(false)
    requires PrevStatus(stored, Key(first.pid)) == Some(false) && PrevStatus(stored, Key(second.pid)) == Some(true)
    ensures var pass := RunPass([first, second], pages, buyTemplate, stored, now);
      && |pass.changed| == 2
      && pass.changed[0].entry.pid == first.pid && pass.changed[0].prevStock == false && pass.changed[0].entry.inStock == Some(true)
      && pass.changed[1].entry.pid == second.pid && pass.changed[1].prevStock == true && pass.changed[1].entry.inStock == Some(false)
      && |InStockIndices(pass.results)| == 1
  {
    var k1, k2 := Key(first.pid), Key(second.pid);
    assert k1 != k2 by {
      if k1 == k2 {
        DecimalInjective(first.pid, second.pid);
      }
    }
    var e1 := EntryFor(first, Some(true), buyTemplate);
    var e2 := EntryFor(second, Some(false), buyTemplate);
    var start := Pass([], [], [], stored);
    StepFlip(start, first, pages[0], buyTemplate, now, true, false);
    var one := Step(start, first, pages[0], buyTemplate, now);
    assert PrevStatus(one.state, k2) == Some(true);
    StepFlip(one, second, pages[1], buyTemplate, now, false, true);
    var pass := Step(one, second, pages[1], buyTemplate, now);
    RunPassOfTwo(first, second, pages, buyTemplate, stored, now);
    assert pass.results == [e1, e2] && pass.changed == [Change(e1, false), Change(e2, true)];
    assert InStockIndices(pass.results) == {0};
  }

  /** A pass over two products is two steps from the stored state. */
  lemma RunPassOfTwo(first: Product, second: Product, pages: seq<Option<string>>, buyTemplate: string, stored: State, now: string)
    requires |pages| == 2
    ensures RunPass([first, second], pages, buyTemplate, stored, now)
      == Step(Step(Pass([], [], [], stored), first, pages[0], buyTemplate, now), second, pages[1], buyTemplate, now)
  {
    assert [first, second][..1] == [first];
    assert pages[..1] == [pages[0]];
    assert RunPass([first], [pages[0]], buyTemplate, stored, now)
      == Step(RunPass([], [], buyTemplate, stored, now), first, pages[0], buyTemplate, now);
  }

  /**
   * The two-product scenario end to end: the first product's cart page offers a
   * monthly plan, the second's says out of stock.
   */
  lemma TwoProductRun(first: Product, second: Product, stored: State, buyTemplate: string, now: string)
    requires first.pid != second.pid
    requires PrevStatus(stored, Key(first.pid)) == Some(false) && PrevStatus(stored, Key(second.pid)) == Some(true)
    ensures var pass := RunPass([first, second], [Some("Monthly"), Some("Out of Stock")], buyTemplate, stored, now);
      && |pass.changed| == 2
      && pass.changed[0].entry.pid == first.pid && pass.changed[0].prevStock == false && pass.changed[0].entry.inStock == Some(true)
      && pass.changed[1].entry.pid == second.pid && pass.changed[1].prevStock == true && pass.changed[1].entry.inStock == Some(false)
      && |InStockIndices(pass.results)| == 1
  {
    var pages := [Some("Monthly"), Some("Out of Stock")];
    ScenarioPages();
    TwoProductScenario(first, second, pages, stored, buyTemplate, now);
  }

  /** The pages of the two-product scenario: one offers a monthly plan, the other says out of stock. */
  lemma ScenarioPages()
    ensures StockOf(Some("Monthly")) == Some(true)
    ensures StockOf(Some("Out of Stock")) == Some(false)
  {
    MonthlyMeansInStock("", "");
    OutOfStockWins("", "");
    assert "" + MonthlyMarker + "" == "Monthly";
    assert "" + OutOfStockMarker + "" == "Out of Stock";
  }
}
