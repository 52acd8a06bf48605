/**
 * The human-readable summary of a run: a header, one status line per product (and
 * a purchase link under each product in stock), a block of status changes when
 * there are any, and a closing call to buy when some product is in stock.
 *
 * A summary line is kept as a `Line` value that says what kind of line it is and
 * what it shows; `Render` gives its text and `SummaryText` joins the texts with
 * newlines. `SummaryLines` states the layout; `BuildLines` is the loop that
 * appends the lines one by one. The glyphs are fixed code points.
 */
module Summary {
  import opened Options
  import opened Text
  import opened Monitor

  /** The kinds of line the summary is made of. */
  datatype Line =
    | Header(now: string)
    | Blank
    | Status(entry: Entry)
    | Link(entry: Entry)
    | ChangesHeading
    | ChangeRow(change: Change)
    | Celebration(count: nat)

  /** The em dash used as a separator. */
  const Dash: string := "\U{2014}"

  /** Green for in stock, red for out of stock, a warning sign when unknown. */
  function Icon(stock: Option<bool>): string {
    match stock
    case Some(true) => "\U{1F7E2}"
    case Some(false) => "\U{1F534}"
    case None => "\U{26A0}\U{FE0F}"
  }

  /** The status in words. */
  function StatusLabel(stock: Option<bool>): string {
    match stock
    case Some(true) => "In Stock \U{2705}"
    case Some(false) => "Out of Stock"
    case None => "Unknown"
  }

  /** The text of one summary line. */
  function Render(line: Line): string {
    match line
    case Header(now) => "\U{1F5A5}\U{FE0F} BWG Stock Check " + Dash + " " + now
    case Blank => ""
    case Status(e) =>
      Icon(e.inStock) + " $" + e.price + "/yr " + Dash + " " + e.name + " (" + e.desc + ") " + Dash + " " + StatusLabel(e.inStock)
    case Link(e) => "   \U{1F517} " + e.url
    case ChangesHeading => "\U{1F4E2} Status changes:"
    case ChangeRow(c) =>
      "   " + c.entry.name + " $" + c.entry.price + ": "
        + (if c.prevStock then "In Stock" else "Out of Stock")
        + " \U{2192} "
        + (if c.entry.inStock == Some(true) then "In Stock \U{2705}" else "Out of Stock")
    case Celebration(count) => "\n\U{1F389} " + Decimal(count) + " plan(s) IN STOCK! Buy now before they're gone!"
  }

  /** The lines for one entry: its status line, then its link when it is in stock. */
  function EntryLines(e: Entry): seq<Line> {
    [Status(e)] + (if e.inStock == Some(true) then [Link(e)] else [])
  }

  /** The lines for all entries, in order. */
  function ProductLines(results: seq<Entry>): seq<Line> {
    if results == [] then [] else
      var n := |results| - 1;
      ProductLines(results[..n]) + EntryLines(results[n])
  }

  /** The lines for all changes, in order. */
  function ChangeRows(changed: seq<Change>): (lines: seq<Line>)
    ensures |lines| == |changed|
    ensures forall j :: 0 <= j < |changed| ==> lines[j] == ChangeRow(changed[j])
  {
    if changed == [] then [] else
      var n := |changed| - 1;
      ChangeRows(changed[..n]) + [ChangeRow(changed[n])]
  }

  /** The block of status changes: nothing when there are none. */
  function ChangeBlock(changed: seq<Change>): seq<Line> {
    if changed == [] then [] else [ChangesHeading] + ChangeRows(changed)
  }

  /** The closing block: the call to buy when some product is in stock. */
  function CelebrationBlock(inStockList: seq<Entry>): seq<Line> {
    if inStockList == [] then [] else [Celebration(|inStockList|)]
  }

  /** The part of the summary before the change block: header, blank line, product lines, blank line. */
  function TopLines(now: string, results: seq<Entry>): seq<Line> {
    [Header(now), Blank] + ProductLines(results) + [Blank]
  }

  /** The summary, line by line. */
  function SummaryLines(now: string, results: seq<Entry>, changed: seq<Change>, inStockList: seq<Entry>): seq<Line> {
    TopLines(now, results) + ChangeBlock(changed) + CelebrationBlock(inStockList)
  }

  /** The texts of the lines, in order. */
  function RenderAll(lines: seq<Line>): (texts: seq<string>)
    ensures |texts| == |lines|
    ensures forall i :: 0 <= i < |lines| ==> texts[i] == Render(lines[i])
  {
    if lines == [] then [] else
      var n := |lines| - 1;
      RenderAll(lines[..n]) + [Render(lines[n])]
  }

  /** `"\n".join(lines)`: the summary text. */
  function SummaryText(lines: seq<Line>): string {
    JoinLines(RenderAll(lines))
  }

  /** Builds the summary lines the way the run does, appending one line at a time. */
  method BuildLines(now: string, results: seq<Entry>, changed: seq<Change>, inStockList: seq<Entry>) returns (lines: seq<Line>)
    ensures lines == SummaryLines(now, results, changed, inStockList)
  {
    lines := AppendProductLines([Header(now), Blank], results);
    lines := lines + [Blank];
    ghost var top := lines;
    assert top == TopLines(now, results);
    if changed != [] {
      lines := AppendChangeRows(lines + [ChangesHeading], changed);
      ConcatAssoc(top, [ChangesHeading], ChangeRows(changed));
    }
    assert lines == top + ChangeBlock(changed);
    if inStockList != [] {
      lines := lines + [Celebration(|inStockList|)];
    }
  }

  /** Appends each entry's status line, and its link when it is in stock, in order. */
  method AppendProductLines(lines: seq<Line>, results: seq<Entry>) returns (out: seq<Line>)
    ensures out == lines + ProductLines(results)
  {
    out := lines;
    for i := 0 to |results|
      invariant out == lines + ProductLines(results[..i])
    {
      var r := results[i];
      ProductLinesSnoc(results, i);
      out := out + [Status(r)];
      if r.inStock == Some(true) {
        out := out + [Link(r)];
      }
    }
    assert results[..|results|] == results;
  }

  /** Appends one line per change, in order. */
  method AppendChangeRows(lines: seq<Line>, changed: seq<Change>) returns (out: seq<Line>)
    ensures out == lines + ChangeRows(changed)
  {
    out := lines;
    for j := 0 to |changed|
      invariant out == lines + ChangeRows(changed[..j])
    {
      ChangeRowsSnoc(changed, j);
      out := out + [ChangeRow(changed[j])];
    }
    assert changed[..|changed|] == changed;
  }

  /** The product lines of one more entry end with that entry's lines. */
  lemma ProductLinesSnoc(results: seq<Entry>, i: nat)
    requires i < |results|
    ensures ProductLines(results[..i + 1]) == ProductLines(results[..i]) + EntryLines(results[i])
  {
    assert results[..i + 1][..i] == results[..i];
  }

  /** The change rows of one more change end with that change's row. */
  lemma ChangeRowsSnoc(changed: seq<Change>, j: nat)
    requires j < |changed|
    ensures ChangeRows(changed[..j + 1]) == ChangeRows(changed[..j]) + [ChangeRow(changed[j])]
  {
    assert changed[..j + 1][..j] == changed[..j];
  }

  // ---------------------------------------------------------------------------
  // Layout

  /** One status line per entry, plus one link line per entry in stock. */
  lemma {:induction false} ProductLinesCount(results: seq<Entry>)
    ensures |ProductLines(results)| == |results| + |InStockOnly(results)|
  {
    if results != [] {
      ProductLinesCount(results[..|results| - 1]);
    }
  }

  /**
   * The status line of entry `i` comes right after the `i` earlier status lines and
   * the links of the earlier entries in stock, and is followed by the entry's link
   * when it is in stock.
   */
  lemma {:induction false} ProductLinesAt(results: seq<Entry>, i: nat)
    requires i < |results|
    ensures var at := i + |InStockOnly(results[..i])|;
      && at < |ProductLines(results)|
      && ProductLines(results)[at] == Status(results[i])
      && (results[i].inStock == Some(true) ==>
            at + 1 < |ProductLines(results)| && ProductLines(results)[at + 1] == Link(results[i]))
  {
    var n := |results| - 1;
    var init := results[..n];
    var before := ProductLines(init);
    assert ProductLines(results) == before + EntryLines(results[n]);
    ProductLinesCount(init);
    if i < n {
      assert init[..i] == results[..i];
      ProductLinesAt(init, i);
    } else {
      assert results[..i] == init;
    }
  }

  /** The product lines are status and link lines only. */
  lemma {:induction false} ProductLinesKinds(results: seq<Entry>)
    ensures forall l :: l in ProductLines(results) ==> l.Status? || l.Link?
  {
    if results != [] {
      ProductLinesKinds(results[..|results| - 1]);
    }
  }

  /**
   * The summary is a header, a blank line, one status line per entry and one link
   * line per entry in stock, a blank line, the change block (a heading and one line
   * per change, when there are changes) and the call to buy (when some product is
   * in stock).
   */
  lemma SummaryLength(now: string, results: seq<Entry>, changed: seq<Change>, inStockList: seq<Entry>)
    ensures var lines := SummaryLines(now, results, changed, inStockList);
      && |lines| == 3 + |results| + |InStockOnly(results)| + (if changed == [] then 0 else 1 + |changed|) + (if inStockList == [] then 0 else 1)
      && lines[0] == Header(now) && lines[1] == Blank
      && lines[2 + |results| + |InStockOnly(results)|] == Blank
  {
    ProductLinesCount(results);
  }

  /** The change heading appears exactly when some status changed. */
  lemma ChangesShownIff(now: string, results: seq<Entry>, changed: seq<Change>, inStockList: seq<Entry>)
    ensures ChangesHeading in SummaryLines(now, results, changed, inStockList) <==> changed != []
  {
    var lines := SummaryLines(now, results, changed, inStockList);
    var top := TopLines(now, results);
    assert lines == top + ChangeBlock(changed) + CelebrationBlock(inStockList);
    if changed != [] {
      assert lines[|top|] == ChangesHeading;
    } else {
      ProductLinesKinds(results);
      assert ChangesHeading !in top;
      assert lines == top + CelebrationBlock(inStockList);
    }
  }

  /** The part before the change block has three lines besides the product lines. */
  lemma TopLinesCount(now: string, results: seq<Entry>)
    ensures |TopLines(now, results)| == 3 + |results| + |InStockOnly(results)|
  {
    ProductLinesCount(results);
  }

  /** When some status changed, the heading is followed by one line per change, in order. */
  lemma ChangesListed(now: string, results: seq<Entry>, changed: seq<Change>, inStockList: seq<Entry>)
    requires changed != []
    ensures var lines := SummaryLines(now, results, changed, inStockList);
      var k := 3 + |results| + |InStockOnly(results)|;
      && k + |changed| < |lines|
      && lines[k] == ChangesHeading
      && forall j :: 0 <= j < |changed| ==> lines[k + 1 + j] == ChangeRow(changed[j])
  {
    TopLinesCount(now, results);
    ChangeBlockPlaced(TopLines(now, results), changed, CelebrationBlock(inStockList));
  }

  /** A non-empty change block between `top` and `tail`: its heading, then its rows. */
  lemma ChangeBlockPlaced(top: seq<Line>, changed: seq<Change>, tail: seq<Line>)
    requires changed != []
    ensures var lines := top + ChangeBlock(changed) + tail;
      && |top| + |changed| < |lines|
      && lines[|top|] == ChangesHeading
      && forall j :: 0 <= j < |changed| ==> lines[|top| + 1 + j] == ChangeRow(changed[j])
  {
    var block := ChangeBlock(changed);
    assert block == [ChangesHeading] + ChangeRows(changed);
    forall j | 0 <= j < |changed|
      ensures (top + block + tail)[|top| + 1 + j] == ChangeRow(changed[j])
    {
      IndexMiddle(top, block, tail, 1 + j);
    }
  }

  /** Concatenation is associative. */
  lemma ConcatAssoc<T>(a: seq<T>, b: seq<T>, c: seq<T>)
    ensures a + b + c == a + (b + c)
  {
  }

  /** Indexing into the middle part of a concatenation. */
  lemma IndexMiddle<T>(a: seq<T>, b: seq<T>, c: seq<T>, i: nat)
    requires i < |b|
    ensures |a| + i < |a + b + c| && (a + b + c)[|a| + i] == b[i]
  {
  }

  /** The call to buy appears exactly when some product is in stock, as the last line, with their number. */
  lemma CelebrationShownIff(now: string, results: seq<Entry>, changed: seq<Change>, inStockList: seq<Entry>)
    ensures var lines := SummaryLines(now, results, changed, inStockList);
      && ((exists l :: l in lines && l.Celebration?) <==> inStockList != [])
      && (inStockList != [] ==> lines[|lines| - 1] == Celebration(|inStockList|))
  {
    var top := TopLines(now, results);
    var block := ChangeBlock(changed);
    ProductLinesKinds(results);
    ChangeBlockKinds(changed);
    assert forall l :: l in top ==> l.Header? || l.Blank? || l.Status? || l.Link?;
    CelebrationPlaced(top + block, inStockList);
  }

  /** The change block is the heading and change rows only. */
  lemma ChangeBlockKinds(changed: seq<Change>)
    ensures forall l :: l in ChangeBlock(changed) ==> l.ChangesHeading? || l.ChangeRow?
  {
    forall l | l in ChangeBlock(changed)
      ensures l.ChangesHeading? || l.ChangeRow?
    {
      var i :| 0 <= i < |ChangeBlock(changed)| && ChangeBlock(changed)[i] == l;
      if i > 0 {
        assert l == ChangeRows(changed)[i - 1];
      }
    }
  }

  /** A closing block after lines that hold no call to buy: the call appears exactly when the list is non-empty, last. */
  lemma CelebrationPlaced(front: seq<Line>, inStockList: seq<Entry>)
    requires forall l :: l in front ==> !l.Celebration?
    ensures var lines := front + CelebrationBlock(inStockList);
      && ((exists l :: l in lines && l.Celebration?) <==> inStockList != [])
      && (inStockList != [] ==> lines[|lines| - 1] == Celebration(|inStockList|))
  {
    var lines := front + CelebrationBlock(inStockList);
    if inStockList == [] {
      assert lines == front;
    } else {
      assert lines[|lines| - 1] in lines;
    }
  }

  // ---------------------------------------------------------------------------
  // Rendering

  /** `text` is non-empty and its first character is `c`. */
  ghost predicate Opens(text: string, c: char) {
    |text| > 0 && text[0] == c
  }

  /**
   * The change heading and the call to buy open with characters that no other kind
   * of line opens with, so their texts are recognisable in the summary text.
   */
  lemma RenderOpenings(line: Line)
    ensures Opens(Render(line), '\U{1F4E2}') <==> line.ChangesHeading?
    ensures Opens(Render(line), '\n') <==> line.Celebration?
  {
    match line
    case Header(now) =>
      assert Render(line)[0] == '\U{1F5A5}';
    case Blank =>
    case Status(e) =>
      assert Render(line)[0] == Icon(e.inStock)[0];
    case Link(e) =>
      assert Render(line)[0] == ' ';
    case ChangesHeading =>
      assert Render(line)[0] == '\U{1F4E2}';
    case ChangeRow(c) =>
      assert Render(line)[0] == ' ';
    case Celebration(count) =>
      assert Render(line)[0] == '\n';
  }

  /**
   * In the rendered summary, the text of the change heading appears exactly when
   * some status changed.
   */
  lemma ChangesHeadingTextIff(now: string, results: seq<Entry>, changed: seq<Change>, inStockList: seq<Entry>)
    ensures Render(ChangesHeading) in RenderAll(SummaryLines(now, results, changed, inStockList)) <==> changed != []
  {
    var lines := SummaryLines(now, results, changed, inStockList);
    var texts := RenderAll(lines);
    ChangesShownIff(now, results, changed, inStockList);
    RenderOpenings(ChangesHeading);
    if Render(ChangesHeading) in texts {
      var i :| 0 <= i < |texts| && texts[i] == Render(ChangesHeading);
      RenderOpenings(lines[i]);
      assert lines[i] in lines;
    }
    if changed != [] {
      var i :| 0 <= i < |lines| && lines[i] == ChangesHeading;
      assert texts[i] == Render(ChangesHeading);
    }
  }
}
