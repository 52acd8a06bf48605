/**
 * The check-and-diff pass of `main`: for every configured product, in order, the
 * stock is checked, compared with the status last recorded for the product, and the
 * results, the in-stock subset, the detected changes and the state map are extended.
 *
 * `RunPass` specifies the pass as a fold over the products; `CheckAll` is the loop
 * that runs it, updating one map in place. The lemmas describe the outcome of the
 * fold without the fold: per-product entries, the in-stock filter, the changes
 * against the recorded history and the final state.
 */
module Monitor {
  import opened Options
  import opened Text
  import opened Classify

  /** A monitored product from the configuration; `price` is kept as its printed form. */
  datatype Product = Product(pid: nat, name: string, price: string, desc: Option<string>)

  /** What the state file records about one product. */
  datatype StateEntry = StateEntry(inStock: Option<bool>, checkedAt: string)

  /** The state file: stringified product id to its last recorded entry. */
  type State = map<string, StateEntry>

  /** One product's line in the report. */
  datatype Entry = Entry(pid: nat, name: string, price: string, desc: string, inStock: Option<bool>, url: string)

  /** A report entry whose status moved from one known value to the other. */
  datatype Change = Change(entry: Entry, prevStock: bool)

  /** What the pass has built so far. */
  datatype Pass = Pass(results: seq<Entry>, inStockList: seq<Entry>, changed: seq<Change>, state: State)

  /** The state key of a product: `str(pid)`. */
  function Key(pid: nat): string {
    Decimal(pid)
  }

  /** `state.get(key, {}).get("in_stock")`: a missing entry reads as no status. */
  function PrevStatus(state: State, key: string): (prev: Option<bool>)
    ensures key !in state ==> prev == None
    ensures key in state ==> prev == state[key].inStock
  {
    if key in state then state[key].inStock else None
  }

  /** A change is reported only between two known statuses, and only when they differ. */
  function StatusChanged(prev: Option<bool>, stock: Option<bool>): (changed: bool)
    ensures changed ==> prev.Some? && stock.Some? && prev.value == !stock.value
    ensures prev.Some? && stock.Some? && prev.value != stock.value ==> changed
  {
    prev != None && prev != stock && stock != None
  }

  /** The report entry for product `p` with status `stock`. */
  function EntryFor(p: Product, stock: Option<bool>, buyTemplate: string): Entry {
    Entry(p.pid, p.name, p.price, p.desc.GetOr(""), stock, FormatPid(buyTemplate, Key(p.pid)))
  }

  /** One iteration of the pass for product `p`, whose page fetch gave `fetched`. */
  function Step(acc: Pass, p: Product, fetched: Option<string>, buyTemplate: string, now: string): Pass {
    var stock := StockOf(fetched);
    var prev := PrevStatus(acc.state, Key(p.pid));
    var entry := EntryFor(p, stock, buyTemplate);
    Pass(
      acc.results + [entry],
      if stock == Some(true) then acc.inStockList + [entry] else acc.inStockList,
      if StatusChanged(prev, stock) then acc.changed + [Change(entry, prev.value)] else acc.changed,
      acc.state[Key(p.pid) := StateEntry(stock, now)])
  }

  /**
   * A product whose checked status is the opposite of the one last recorded for it
   * is reported as a change carrying the recorded status.
   */
  lemma StepFlip(acc: Pass, p: Product, fetched: Option<string>, buyTemplate: string, now: string, stock: bool, prev: bool)
    requires StockOf(fetched) == Some(stock)
    requires PrevStatus(acc.state, Key(p.pid)) == Some(prev) && prev != stock
    ensures var next := Step(acc, p, fetched, buyTemplate, now);
      var e := EntryFor(p, Some(stock), buyTemplate);
      && next.results == acc.results + [e]
      && next.inStockList == (if stock then acc.inStockList + [e] else acc.inStockList)
      && next.changed == acc.changed + [Change(e, prev)]
      && next.state == acc.state[Key(p.pid) := StateEntry(Some(stock), now)]
  {
  }

  /** The whole pass over `products`, `pages[i]` being what fetching product `i` gave. */
  function RunPass(products: seq<Product>, pages: seq<Option<string>>, buyTemplate: string, stored: State, now: string): Pass
    requires |pages| == |products|
    decreases |products|
  {
    if products == [] then
      Pass([], [], [], stored)
    else
      var n := |products| - 1;
      Step(RunPass(products[..n], pages[..n], buyTemplate, stored, now), products[n], pages[n], buyTemplate, now)
  }

  /** The URLs fetched for `products`, in order. */
  function Requests(checkTemplate: string, products: seq<Product>): seq<string> {
    if products == [] then [] else
      var n := |products| - 1;
      Requests(checkTemplate, products[..n]) + [FormatPid(checkTemplate, Key(products[n].pid))]
  }

  /** One URL per product, in configuration order, each the check template filled with the product's id. */
  lemma {:induction false} RequestsFollowProducts(checkTemplate: string, products: seq<Product>)
    ensures var urls := Requests(checkTemplate, products);
      && |urls| == |products|
      && forall i :: 0 <= i < |products| ==> urls[i] == FormatPid(checkTemplate, Key(products[i].pid))
  {
    if products != [] {
      var n := |products| - 1;
      RequestsFollowProducts(checkTemplate, products[..n]);
    }
  }

  /**
   * The loop of `main`. The state map starts as `stored` and is updated in place, so
   * a product listed twice sees the status its first listing just recorded.
   * `requested` lists the URLs fetched, in order; `pages[i]` is the answer to
   * `requested[i]`.
   */
  method CheckAll(products: seq<Product>, pages: seq<Option<string>>, checkTemplate: string, buyTemplate: string, stored: State, now: string)
    returns (results: seq<Entry>, inStockList: seq<Entry>, changed: seq<Change>, state: State, requested: seq<string>)
    requires |pages| == |products|
    ensures Pass(results, inStockList, changed, state) == RunPass(products, pages, buyTemplate, stored, now)
    ensures requested == Requests(checkTemplate, products)
  {
    results, inStockList, changed, state, requested := [], [], [], stored, [];
    for i := 0 to |products|
      invariant Pass(results, inStockList, changed, state) == RunPass(products[..i], pages[..i], buyTemplate, stored, now)
      invariant requested == Requests(checkTemplate, products[..i])
    {
      var p := products[i];
      requested := requested + [FormatPid(checkTemplate, Key(p.pid))];
      var stock := StockOf(pages[i]);
      var prev := PrevStatus(state, Key(p.pid));
      var statusChanged := StatusChanged(prev, stock);
      var entry := EntryFor(p, stock, buyTemplate);
      results := results + [entry];
      if stock == Some(true) {
        inStockList := inStockList + [entry];
      }
      if statusChanged {
        changed := changed + [Change(entry, prev.value)];
      }
      state := state[Key(p.pid) := StateEntry(stock, now)];
      assert products[..i + 1][..i] == products[..i];
      assert pages[..i + 1][..i] == pages[..i];
    }
    assert products[..|products|] == products;
    assert pages[..|pages|] == pages;
  }

  // ---------------------------------------------------------------------------
  // The report entries

  /** One entry per product, in configuration order, copying the product's fields. */
  lemma {:induction false} ResultsFollowProducts(products: seq<Product>, pages: seq<Option<string>>, buyTemplate: string, stored: State, now: string)
    requires |pages| == |products|
    ensures var results := RunPass(products, pages, buyTemplate, stored, now).results;
      && |results| == |products|
      && forall i :: 0 <= i < |products| ==>
        && results[i].pid == products[i].pid
        && results[i].name == products[i].name
        && results[i].price == products[i].price
        && results[i].desc == products[i].desc.GetOr("")
        && results[i].inStock == StockOf(pages[i])
        && results[i].url == FormatPid(buyTemplate, Decimal(products[i].pid))
  {
    if products != [] {
      var n := |products| - 1;
      ResultsFollowProducts(products[..n], pages[..n], buyTemplate, stored, now);
    }
  }

  // ---------------------------------------------------------------------------
  // The in-stock subset

  /** The entries whose status is `True`, in their original order. */
  function InStockOnly(entries: seq<Entry>): (r: seq<Entry>)
    ensures |r| <= |entries|
  {
    if entries == [] then
      []
    else
      var n := |entries| - 1;
      InStockOnly(entries[..n]) + (if entries[n].inStock == Some(true) then [entries[n]] else [])
  }

  /** The positions of the entries whose status is `True`. */
  ghost function InStockIndices(entries: seq<Entry>): set<int> {
    set i | 0 <= i < |entries| && entries[i].inStock == Some(true)
  }

  /** The in-stock subset has as many elements as there are in-stock positions. */
  lemma {:induction false} InStockOnlyCount(entries: seq<Entry>)
    ensures |InStockOnly(entries)| == |InStockIndices(entries)|
  {
    if entries != [] {
      var n := |entries| - 1;
      var init := entries[..n];
      InStockOnlyCount(init);
      InStockIndicesSnoc(entries);
    }
  }

  /** Dropping the last entry drops its position from the in-stock positions, if it was there. */
  lemma InStockIndicesSnoc(entries: seq<Entry>)
    requires entries != []
    ensures var n := |entries| - 1;
      InStockIndices(entries)
        == InStockIndices(entries[..n]) + (if entries[n].inStock == Some(true) then {n} else {})
  {
    var n := |entries| - 1;
    var init := entries[..n];
    forall i | 0 <= i < n
      ensures init[i] == entries[i]
    {
    }
  }

  /** The in-stock subset holds exactly the in-stock entries. */
  lemma {:induction false} InStockOnlyMembers(entries: seq<Entry>)
    ensures forall e :: e in InStockOnly(entries) <==> e in entries && e.inStock == Some(true)
  {
    if entries != [] {
      var n := |entries| - 1;
      var init := entries[..n];
      InStockOnlyMembers(init);
      assert entries == init + [entries[n]];
    }
  }

  /** The pass's in-stock list is the in-stock subset of its results. */
  lemma {:induction false} InStockListFiltersResults(products: seq<Product>, pages: seq<Option<string>>, buyTemplate: string, stored: State, now: string)
    requires |pages| == |products|
    ensures var r := RunPass(products, pages, buyTemplate, stored, now);
      r.inStockList == InStockOnly(r.results)
  {
    if products != [] {
      var n := |products| - 1;
      InStockListFiltersResults(products[..n], pages[..n], buyTemplate, stored, now);
      var r := RunPass(products[..n], pages[..n], buyTemplate, stored, now);
      assert (r.results + [EntryFor(products[n], StockOf(pages[n]), buyTemplate)])[..|r.results|] == r.results;
    }
  }

  // ---------------------------------------------------------------------------
  // The state map

  /** The keys of the configured products. */
  ghost function ConfiguredKeys(products: seq<Product>): set<string> {
    set p | p in products :: Key(p.pid)
  }

  /**
   * The status last recorded for `key` once `products` have been checked: that of
   * the last product with this key, or the stored one when no product has it.
   */
  function LastKnown(products: seq<Product>, pages: seq<Option<string>>, stored: State, key: string): Option<bool>
    requires |pages| == |products|
    decreases |products|
  {
    if products == [] then
      PrevStatus(stored, key)
    else
      var n := |products| - 1;
      if Key(products[n].pid) == key then StockOf(pages[n]) else LastKnown(products[..n], pages[..n], stored, key)
  }

  /**
   * After the pass the state has a key for every stored or configured product; a
   * configured key holds the last status checked for it and the run's timestamp;
   * every other key is left as stored.
   */
  lemma {:induction false} StateAfterPass(products: seq<Product>, pages: seq<Option<string>>, buyTemplate: string, stored: State, now: string)
    requires |pages| == |products|
    ensures var state := RunPass(products, pages, buyTemplate, stored, now).state;
      && (forall k :: k in state <==> k in stored || k in ConfiguredKeys(products))
      && (forall k :: k in stored && k !in ConfiguredKeys(products) ==> state[k] == stored[k])
      && (forall k :: k in ConfiguredKeys(products) ==> state[k] == StateEntry(LastKnown(products, pages, stored, k), now))
  {
    if products != [] {
      var n := |products| - 1;
      var init, initPages := products[..n], pages[..n];
      StateAfterPass(init, initPages, buyTemplate, stored, now);
      ConfiguredKeysSnoc(products);
      assert RunPass(products, pages, buyTemplate, stored, now).state
        == RunPass(init, initPages, buyTemplate, stored, now).state[Key(products[n].pid) := StateEntry(StockOf(pages[n]), now)];
    }
  }

  /** The configured keys of a list are those of all but its last product, plus the last product's key. */
  lemma ConfiguredKeysSnoc(products: seq<Product>)
    requires products != []
    ensures var n := |products| - 1;
      ConfiguredKeys(products) == ConfiguredKeys(products[..n]) + {Key(products[n].pid)}
  {
    var n := |products| - 1;
    assert products == products[..n] + [products[n]];
  }

  /** Every key, configured or not, reads after the pass as its last known status. */
  lemma {:induction false} LookupAfterPass(products: seq<Product>, pages: seq<Option<string>>, buyTemplate: string, stored: State, now: string, key: string)
    requires |pages| == |products|
    ensures PrevStatus(RunPass(products, pages, buyTemplate, stored, now).state, key) == LastKnown(products, pages, stored, key)
  {
    if products != [] {
      var n := |products| - 1;
      LookupAfterPass(products[..n], pages[..n], buyTemplate, stored, now, key);
    }
  }

  /** The last listing of a product decides what the state records for it. */
  lemma {:induction false} LastListingWins(products: seq<Product>, pages: seq<Option<string>>, stored: State, i: nat)
    requires |pages| == |products|
    requires i < |products|
    requires forall j :: i < j < |products| ==> products[j].pid != products[i].pid
    ensures LastKnown(products, pages, stored, Key(products[i].pid)) == StockOf(pages[i])
  {
    var n := |products| - 1;
    if i < n {
      if Key(products[n].pid) == Key(products[i].pid) {
        DecimalInjective(products[n].pid, products[i].pid);
      }
      LastListingWins(products[..n], pages[..n], stored, i);
    }
  }

  // ---------------------------------------------------------------------------
  // The changes

  /** The status product `i` is compared against: the last one known before it. */
  function PrevFor(products: seq<Product>, pages: seq<Option<string>>, stored: State, i: nat): Option<bool>
    requires |pages| == |products|
    requires i < |products|
  {
    LastKnown(products[..i], pages[..i], stored, Key(products[i].pid))
  }

  /** The previous status of every product, in configuration order. */
  function Prevs(products: seq<Product>, pages: seq<Option<string>>, stored: State): (prevs: seq<Option<bool>>)
    requires |pages| == |products|
    ensures |prevs| == |products|
    decreases |products|
  {
    if products == [] then
      []
    else
      var n := |products| - 1;
      Prevs(products[..n], pages[..n], stored) + [PrevFor(products, pages, stored, n)]
  }

  /** The previous status of product `i` in the list is the one it is compared against. */
  lemma {:induction false} PrevsAt(products: seq<Product>, pages: seq<Option<string>>, stored: State, i: nat)
    requires |pages| == |products|
    requires i < |products|
    ensures Prevs(products, pages, stored)[i] == PrevFor(products, pages, stored, i)
  {
    var n := |products| - 1;
    var init, initPages := products[..n], pages[..n];
    assert Prevs(products, pages, stored) == Prevs(init, initPages, stored) + [PrevFor(products, pages, stored, n)];
    if i < n {
      PrevsAt(init, initPages, stored, i);
      assert init[..i] == products[..i] && initPages[..i] == pages[..i];
      assert init[i] == products[i];
    }
  }

  /**
   * The entries whose status changed against `prevs[i]`, in order, each with the
   * previous status attached.
   */
  function ChangesAgainst(entries: seq<Entry>, prevs: seq<Option<bool>>): (r: seq<Change>)
    requires |prevs| == |entries|
    ensures |r| <= |entries|
  {
    if entries == [] then
      []
    else
      var n := |entries| - 1;
      ChangesAgainst(entries[..n], prevs[..n])
        + (if StatusChanged(prevs[n], entries[n].inStock) then [Change(entries[n], prevs[n].value)] else [])
  }

  /** A change is listed exactly for an entry whose known status differs from its known previous status. */
  lemma {:induction false} ChangesAgainstMembers(entries: seq<Entry>, prevs: seq<Option<bool>>, c: Change)
    requires |prevs| == |entries|
    ensures c in ChangesAgainst(entries, prevs) <==>
      exists i :: 0 <= i < |entries| && entries[i] == c.entry && StatusChanged(prevs[i], entries[i].inStock) && prevs[i] == Some(c.prevStock)
  {
    if entries != [] {
      var n := |entries| - 1;
      ChangesAgainstMembers(entries[..n], prevs[..n], c);
      if c in ChangesAgainst(entries, prevs) && c !in ChangesAgainst(entries[..n], prevs[..n]) {
        assert entries[n] == c.entry && prevs[n] == Some(c.prevStock);
      }
      if i :| 0 <= i < |entries| && entries[i] == c.entry && StatusChanged(prevs[i], entries[i].inStock) && prevs[i] == Some(c.prevStock) {
        if i < n {
          assert entries[..n][i] == c.entry && prevs[..n][i] == prevs[i];
        }
      }
    }
  }

  /**
   * The pass's changes are the results whose status changed against the status
   * last known before them: the stored one, or that of an earlier listing of the
   * same product.
   */
  lemma {:induction false} ChangedAgainstHistory(products: seq<Product>, pages: seq<Option<string>>, buyTemplate: string, stored: State, now: string)
    requires |pages| == |products|
    ensures var r := RunPass(products, pages, buyTemplate, stored, now);
      |r.results| == |products| && r.changed == ChangesAgainst(r.results, Prevs(products, pages, stored))
  {
    if products != [] {
      var n := |products| - 1;
      var init, initPages := products[..n], pages[..n];
      ChangedAgainstHistory(init, initPages, buyTemplate, stored, now);
      var key := Key(products[n].pid);
      LookupAfterPass(init, initPages, buyTemplate, stored, now, key);
      var r := RunPass(init, initPages, buyTemplate, stored, now);
      var stock := StockOf(pages[n]);
      var entry := EntryFor(products[n], stock, buyTemplate);
      var results := r.results + [entry];
      var prevs := Prevs(products, pages, stored);
      assert prevs[n] == PrevStatus(r.state, key);
      assert prevs[..n] == Prevs(init, initPages, stored);
      assert results[..n] == r.results;
      assert ChangesAgainst(results, prevs)
        == ChangesAgainst(r.results, prevs[..n])
          + (if StatusChanged(prevs[n], stock) then [Change(entry, prevs[n].value)] else []);
    }
  }

  /**
   * When no product is listed twice, each product is compared against the status
   * stored for it at the start of the run.
   */
  lemma {:induction false} DistinctPidsCompareWithStored(products: seq<Product>, pages: seq<Option<string>>, stored: State, i: nat)
    requires |pages| == |products|
    requires i < |products|
    requires forall j :: 0 <= j < i ==> products[j].pid != products[i].pid
    ensures PrevFor(products, pages, stored, i) == PrevStatus(stored, Key(products[i].pid))
  {
    forall j | 0 <= j < i ensures Key(products[..i][j].pid) != Key(products[i].pid) {
      if Key(products[j].pid) == Key(products[i].pid) {
        DecimalInjective(products[j].pid, products[i].pid);
      }
    }
    LastKnownUntouched(products[..i], pages[..i], stored, Key(products[i].pid));
  }

  /** A key that no product has keeps its stored status. */
  lemma {:induction false} LastKnownUntouched(products: seq<Product>, pages: seq<Option<string>>, stored: State, key: string)
    requires |pages| == |products|
    requires forall j :: 0 <= j < |products| ==> Key(products[j].pid) != key
    ensures LastKnown(products, pages, stored, key) == PrevStatus(stored, key)
  {
    if products != [] {
      var n := |products| - 1;
      LastKnownUntouched(products[..n], pages[..n], stored, key);
    }
  }

  /** When every fetch fails, nothing is in stock and no change is reported. */
  lemma {:induction false} AllFetchesFailed(products: seq<Product>, pages: seq<Option<string>>, buyTemplate: string, stored: State, now: string)
    requires |pages| == |products|
    requires forall i :: 0 <= i < |pages| ==> pages[i] == None
    ensures var r := RunPass(products, pages, buyTemplate, stored, now);
      r.inStockList == [] && r.changed == []
  {
    if products != [] {
      var n := |products| - 1;
      AllFetchesFailed(products[..n], pages[..n], buyTemplate, stored, now);
    }
  }
}
