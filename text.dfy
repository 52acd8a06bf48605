/**
 * The string operations the stock checker relies on: substring search (Python's
 * `pat in text`), decimal rendering of a product id (`str(pid)`), substitution of
 * the `{pid}` field of a URL template (`template.format(pid=pid)`) and joining
 * lines with a newline (`"\n".join(lines)`).
 */
module Text {

  /** `pat` occurs in `text` starting at position `i`. */
  ghost predicate OccursAt(text: string, pat: string, i: int) {
    0 <= i && i + |pat| <= |text| && text[i..i + |pat|] == pat
  }

  /** Python's `pat in text`: true exactly when `pat` occurs somewhere in `text`. */
  function Contains(text: string, pat: string): (r: bool)
    ensures r <==> exists i :: OccursAt(text, pat, i)
    decreases |text|
  {
    if |text| < |pat| then
      false
    else if text[..|pat|] == pat then
      assert OccursAt(text, pat, 0);
      true
    else
      OccursShifted(text, pat);
      Contains(text[1..], pat)
  }

  /**
   * When `pat` does not start `text`, it occurs in `text` exactly when it occurs in
   * `text` without its first character.
   */
  lemma OccursShifted(text: string, pat: string)
    requires |pat| <= |text| && text[..|pat|] != pat
    ensures (exists i :: OccursAt(text, pat, i)) <==> (exists j :: OccursAt(text[1..], pat, j))
  {
    if i :| OccursAt(text, pat, i) {
      assert i != 0;
      assert text[1..][i - 1..i - 1 + |pat|] == text[i..i + |pat|];
      assert OccursAt(text[1..], pat, i - 1);
    }
    if j :| OccursAt(text[1..], pat, j) {
      assert text[1..][j..j + |pat|] == text[j + 1..j + 1 + |pat|];
      assert OccursAt(text, pat, j + 1);
    }
  }

  /** Whatever surrounds it, a pattern is found in a text built around it. */
  lemma ContainsEmbedded(a: string, pat: string, b: string)
    ensures Contains(a + pat + b, pat)
  {
    var t := a + pat + b;
    assert t[|a|..|a| + |pat|] == pat;
    assert OccursAt(t, pat, |a|);
  }

  /** The decimal digit for `d`. */
  function Digit(d: nat): (c: char)
    requires d < 10
    ensures '0' <= c <= '9'
  {
    ('0' as int + d) as char
  }

  /** Python's `str(n)` for a non-negative integer: its decimal digits, no sign, no leading zero. */
  function Decimal(n: nat): string {
    if n < 10 then [Digit(n)] else Decimal(n / 10) + [Digit(n % 10)]
  }

  /** The rendering is a non-empty string of digits, a single one exactly below 10, ending in the last digit. */
  lemma {:induction false} DecimalDigits(n: nat)
    ensures var s := Decimal(n);
      && 1 <= |s|
      && (forall i :: 0 <= i < |s| ==> '0' <= s[i] <= '9')
      && (n < 10 <==> |s| == 1)
      && s[|s| - 1] == Digit(n % 10)
  {
    if 10 <= n {
      DecimalDigits(n / 10);
    }
  }

  /** Different ids render as different strings, so `str(pid)` keys never collide. */
  lemma {:induction false} DecimalInjective(a: nat, b: nat)
    requires Decimal(a) == Decimal(b)
    ensures a == b
  {
    DecimalDigits(a);
    DecimalDigits(b);
    if 10 <= a && 10 <= b {
      var sa, sb := Decimal(a), Decimal(b);
      assert Decimal(a / 10) == sa[..|sa| - 1];
      assert Decimal(b / 10) == sb[..|sb| - 1];
      DecimalInjective(a / 10, b / 10);
    }
  }

  /** The replacement field that a URL template uses for the product id. */
  const PidField: string := "{pid}"

  /**
   * `template.format(pid=value)`: every `{pid}` field of the template, read left to
   * right, is replaced by `value`; every other character is copied.
   */
  function FormatPid(template: string, value: string): (r: string)
    decreases |template|
  {
    if |PidField| <= |template| && template[..|PidField|] == PidField then
      value + FormatPid(template[|PidField|..], value)
    else if template == [] then
      []
    else
      [template[0]] + FormatPid(template[1..], value)
  }

  /** A template without braces (so without fields, and one `str.format` accepts) is left as it is. */
  lemma {:induction false} FormatPidNoField(template: string, value: string)
    requires '{' !in template && '}' !in template
    ensures FormatPid(template, value) == template
  {
    if template != [] {
      assert template[0] != '{';
      FormatPidNoField(template[1..], value);
    }
  }

  /**
   * A `{pid}` field preceded by text without braces is replaced by the value, and
   * the text before it is copied.
   */
  lemma {:induction false} FormatPidSplice(a: string, b: string, value: string)
    requires '{' !in a && '}' !in a
    ensures FormatPid(a + PidField + b, value) == a + value + FormatPid(b, value)
  {
    if a == [] {
      assert a + PidField + b == PidField + b;
      assert (PidField + b)[|PidField|..] == b;
    } else {
      var t := a + PidField + b;
      assert t[0] == a[0];
      assert t[..|PidField|] != PidField by {
        assert t[..|PidField|][0] == a[0] != '{';
      }
      assert t[1..] == a[1..] + PidField + b;
      FormatPidSplice(a[1..], b, value);
    }
  }

  /** Python's `"\n".join(lines)`. */
  function JoinLines(lines: seq<string>): (text: string)
  {
    if lines == [] then ""
    else if |lines| == 1 then lines[0]
    else JoinLines(lines[..|lines| - 1]) + "\n" + lines[|lines| - 1]
  }

  /** Joining two non-empty groups of lines puts one newline between their joined texts. */
  lemma {:induction false} JoinLinesAppend(a: seq<string>, b: seq<string>)
    requires a != [] && b != []
    ensures JoinLines(a + b) == JoinLines(a) + "\n" + JoinLines(b)
  {
    if |b| == 1 {
      assert (a + b)[..|a + b| - 1] == a;
    } else {
      var b' := b[..|b| - 1];
      assert (a + b)[..|a + b| - 1] == a + b';
      JoinLinesAppend(a, b');
    }
  }
}
