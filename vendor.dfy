/** The vendor-name normaliser: the base name of a vendor is cut out of a
    line such as "237772 - Agropur Industrial Div - 2 - TRA Location" by
    trying three anchored shapes in turn on the whitespace-collapsed text. */
module Vendor {
  import opened Wrappers
  import opened Text

  /** `\s*-\s*\d+` matches at position e of v. */
  predicate DashNumberAt(v: string, e: nat) {
    e <= |v| &&
    var j := SkipSpace(v, e);
    j < |v| && v[j] == '-' &&
    var k := SkipSpace(v, j + 1);
    k < |v| && IsDigit(v[k])
  }

  /** `\s*-\s*\d+\s*-` matches at position e of v. */
  predicate DashNumberDashAt(v: string, e: nat) {
    e <= |v| &&
    var j := SkipSpace(v, e);
    j < |v| && v[j] == '-' &&
    var k := SkipSpace(v, j + 1);
    var n := DigitRun(v, k);
    n > 0 &&
    var l := SkipSpace(v, k + n);
    l < |v| && v[l] == '-'
  }

  /** The two searches as predicates on a position, for the leftmost-match search. */
  function DashNumberIn(v: string): nat -> bool {
    (e: nat) => DashNumberAt(v, e)
  }

  function DashNumberDashIn(v: string): nat -> bool {
    (e: nat) => DashNumberDashAt(v, e)
  }

  /** `^\d+\s*-\s*`: where the text after the vendor number and its dash
      begins, or None when v does not open that way. */
  function NumberDash(v: string): (r: Option<nat>)
    ensures r.Some? ==> 0 < r.value <= |v| && IsDigit(v[0]) && '-' in v[..r.value]
    ensures r.Some? ==> r.value == |v| || !IsSpace(v[r.value])
  {
    var m := DigitRun(v, 0);
    if m == 0 then None
    else
      var j := SkipSpace(v, m);
      if j < |v| && v[j] == '-' then
        assert v[..SkipSpace(v, j + 1)][j] == '-';
        Some(SkipSpace(v, j + 1))
      else None
  }

  /** Case 1, `^\d+\s*-\s*(.*?)\s*-\s*\d+`: the name between a leading vendor
      number and the first dash that is followed by a number. */
  function NumberedWithStop(v: string): (r: Option<string>)
    requires IsCollapsed(v)
    ensures r.Some? ==> IsCollapsed(r.value) && |r.value| <= |v|
    ensures '-' !in v ==> r.None?
  {
    match NumberDash(v)
    case None => None
    case Some(start) =>
      match FirstFrom(DashNumberIn(v), start, |v| + 1)
      case None => None
      case Some(e) =>
        StripSliceCollapsed(v, start, e);
        Some(Strip(v[start..e]))
  }

  /** Case 2, `^(.*?)\s*-\s*\d+\s*-`: everything before the first
      "- number -" group. */
  function NameThenStop(v: string): (r: Option<string>)
    requires IsCollapsed(v)
    ensures r.Some? ==> IsCollapsed(r.value) && |r.value| <= |v|
    ensures '-' !in v ==> r.None?
  {
    match FirstFrom(DashNumberDashIn(v), 0, |v| + 1)
    case None => None
    case Some(e) =>
      StripSliceCollapsed(v, 0, e);
      Some(Strip(v[0..e]))
  }

  /** Case 3, `^\d+\s*-\s*(.+?)$`: everything after a leading vendor number
      and its dash, provided something follows. */
  function NumberedOnly(v: string): (r: Option<string>)
    requires IsCollapsed(v)
    ensures r.Some? ==> IsCollapsed(r.value) && 0 < |r.value| <= |v|
    ensures '-' !in v ==> r.None?
  {
    match NumberDash(v)
    case None => None
    case Some(start) =>
      if start < |v| then
        var rest := v[start..|v|];
        StripSliceCollapsed(v, start, |v|);
        assert !AllSpace(rest) by { assert rest[0] == v[start]; }
        Some(Strip(rest))
      else None
  }

  /** The three shapes tried in order on collapsed text; the text itself
      when none matches. */
  function CleanName(v: string): (r: string)
    requires IsCollapsed(v)
    ensures IsCollapsed(r) && |r| <= |v|
    ensures '-' !in v ==> r == v
  {
    match NumberedWithStop(v)
    case Some(name) => name
    case None =>
      match NameThenStop(v)
      case Some(name) => name
      case None =>
        match NumberedOnly(v)
        case Some(name) => name
        case None => v
  }

  /** `extract_vendor_name`: "" for blank input, otherwise the first of the
      three shapes that matches the collapsed text, otherwise that text. */
  function ExtractVendorName(s: string): (r: string)
    ensures AllSpace(s) ==> r == []
    ensures IsCollapsed(r)
    ensures |r| <= |Collapse(s)|
    ensures '-' !in Collapse(s) ==> r == Collapse(s)
  {
    if AllSpace(s) then [] else CleanName(Collapse(s))
  }

  /** Collapsing the text first changes nothing, since the normaliser
      collapses it anyway. */
  lemma VendorNameOfCollapsed(s: string)
    ensures ExtractVendorName(Collapse(s)) == ExtractVendorName(s)
  {
    var c := Collapse(s);
    CollapseCollapsed(c);
    if !AllSpace(s) {
      assert !AllSpace(c) by { assert !IsSpace(c[0]); }
    }
  }

  // ---------------------------------------------------------------------
  // The three shapes, each built from its parts, give back the name.

  /** Neither search matches at a position e in [a, b) when v[a..b] holds no
      dash and ends in a non-space: the spaces after e run out inside it. */
  lemma NoDashBetween(v: string, a: nat, b: nat, e: nat)
    requires a <= e < b <= |v| && !IsSpace(v[b - 1]) && '-' !in v[a..b]
    ensures !DashNumberAt(v, e) && !DashNumberDashAt(v, e)
  {
    var j := SkipSpace(v, e);
    assert j < b;
    assert v[a..b][j - a] == v[j];
  }

  /** `\s*-\s*\d+\s*-` needs two dashes. */
  lemma OnlyOneDash(v: string, p: nat)
    requires forall i :: 0 <= i < |v| && v[i] == '-' ==> i == p
    ensures forall e :: !DashNumberDashAt(v, e)
  {
  }

  /** A vendor number, then " - ", then a non-space: the text after the dash
      starts three characters past the number. */
  lemma NumberDashOf(v: string, d: string)
    requires |d| > 0 && AllDigits(d) && |d| + 3 < |v|
    requires v[..|d|] == d && v[|d|] == ' ' && v[|d| + 1] == '-' && v[|d| + 2] == ' '
    requires !IsSpace(v[|d| + 3])
    ensures NumberDash(v) == Some(|d| + 3)
  {
    assert forall i :: 0 <= i < |d| ==> v[i] == d[i];
    DigitRunIs(v, 0, |d|);
    SkipSpaceIs(v, |d|, |d| + 1);
    SkipSpaceIs(v, |d| + 2, |d| + 3);
  }

  /** Where the parts of `d + " - " + n + " - " + k + rest` sit. */
  lemma Layout1(v: string, d: string, n: string, k: string, rest: string)
    requires |k| > 0 && |n| > 0 && v == d + " - " + n + " - " + k + rest
    ensures var b := |d| + 3 + |n|;
      && b + 3 < |v| && v[..|d|] == d && v[|d| + 3..b] == n
      && v[|d|] == ' ' && v[|d| + 1] == '-' && v[|d| + 2] == ' '
      && v[b] == ' ' && v[b + 1] == '-' && v[b + 2] == ' ' && v[b + 3] == k[0]
      && v[|d| + 3] == n[0] && v[b - 1] == n[|n| - 1]
  {
    assert v == d + (" - " + (n + (" - " + (k + rest))));
  }

  /** " - 2" at b: the stop-number group of case 1 starts there. */
  lemma DashNumberAtGap(v: string, b: nat)
    requires b + 3 < |v|
    requires v[b] == ' ' && v[b + 1] == '-' && v[b + 2] == ' ' && IsDigit(v[b + 3])
    ensures DashNumberIn(v)(b)
  {
    SkipSpaceIs(v, b, b + 1);
    SkipSpaceIs(v, b + 2, b + 3);
  }

  /** No match of either search inside a dash-free stretch ending in a non-space. */
  lemma NoMatchBefore(v: string, a: nat, b: nat)
    requires a < b <= |v| && '-' !in v[a..b] && !IsSpace(v[b - 1])
    ensures forall e :: a <= e < b ==> !DashNumberIn(v)(e) && !DashNumberDashIn(v)(e)
  {
    forall e | a <= e < b ensures !DashNumberIn(v)(e) && !DashNumberDashIn(v)(e) {
      NoDashBetween(v, a, b, e);
    }
  }

  /** Case 1 yields the stripped text between where its two searches stop.
      A step for NumberedWithStopShape: it unfolds NumberedWithStop at the
      two search results, so that the shape proof sees no search code. */
  lemma NumberedWithStopFrom(v: string, a: nat, b: nat)
    requires IsCollapsed(v) && a <= b <= |v|
    requires NumberDash(v) == Some(a) && FirstFrom(DashNumberIn(v), a, |v| + 1) == Some(b)
    ensures NumberedWithStop(v) == Some(Strip(v[a..b]))
  {
  }

  /** On "number - name - number...", case 1's searches stop around the name. */
  lemma NumberedWithStopSearch(v: string, d: string, b: nat)
    requires |d| > 0 && AllDigits(d) && |d| + 3 < b && b + 3 < |v|
    requires v[..|d|] == d && v[|d|] == ' ' && v[|d| + 1] == '-' && v[|d| + 2] == ' '
    requires '-' !in v[|d| + 3..b] && !IsSpace(v[|d| + 3]) && !IsSpace(v[b - 1])
    requires v[b] == ' ' && v[b + 1] == '-' && v[b + 2] == ' ' && IsDigit(v[b + 3])
    ensures NumberDash(v) == Some(|d| + 3)
    ensures FirstFrom(DashNumberIn(v), |d| + 3, |v| + 1) == Some(b)
  {
    NumberDashOf(v, d);
    DashNumberAtGap(v, b);
    NoMatchBefore(v, |d| + 3, b);
    FirstFromIs(DashNumberIn(v), |d| + 3, |v| + 1, b);
  }

  /** On collapsed, non-empty text the cases are tried on the text as it is. */
  lemma ExtractCollapsed(v: string)
    requires IsCollapsed(v) && v != []
    ensures ExtractVendorName(v) == CleanName(v)
  {
    assert !AllSpace(v) by { assert !IsSpace(v[0]); }
    CollapseCollapsed(v);
  }

  /** Case 1: "237772 - Agropur Industrial Div - 2 - TRA Location" gives
      "Agropur Industrial Div". */
  lemma NumberedWithStopShape(v: string, d: string, n: string, k: string, rest: string)
    requires |d| > 0 && AllDigits(d) && |k| > 0 && AllDigits(k)
    requires n != [] && IsCollapsed(n) && '-' !in n
    requires v == d + " - " + n + " - " + k + rest && IsCollapsed(v)
    ensures ExtractVendorName(v) == n
  {
    var b := |d| + 3 + |n|;
    Layout1(v, d, n, k, rest);
    NumberedWithStopSearch(v, d, b);
    NumberedWithStopFrom(v, |d| + 3, b);
    ExtractCollapsed(v);
  }

  /** Where the parts of `n + " - " + k + " -" + rest` sit. */
  lemma Layout2(v: string, n: string, k: string, rest: string)
    requires |n| > 0 && v == n + " - " + k + " -" + rest
    ensures var b := |n|;
      var c := b + 3 + |k|;
      && c + 1 < |v| && v[0..b] == n && v[b + 3..c] == k
      && v[b] == ' ' && v[b + 1] == '-' && v[b + 2] == ' '
      && v[c] == ' ' && v[c + 1] == '-'
      && v[0] == n[0] && v[b - 1] == n[|n| - 1]
  {
    assert v == n + (" - " + (k + (" -" + rest)));
  }

  /** " - 24 -" at b: the group that ends case 2's name starts there. */
  lemma DashNumberDashAtGap(v: string, b: nat, c: nat)
    requires b + 3 < c && c + 1 < |v| && AllDigits(v[b + 3..c])
    requires v[b] == ' ' && v[b + 1] == '-' && v[b + 2] == ' '
    requires v[c] == ' ' && v[c + 1] == '-'
    ensures DashNumberDashIn(v)(b)
  {
    SkipSpaceIs(v, b, b + 1);
    SkipSpaceIs(v, b + 2, b + 3);
    DigitsOfSlice(v, b + 3, c);
    DigitRunIs(v, b + 3, c - b - 3);
    SkipSpaceIs(v, c, c + 1);
  }

  /** Case 2 yields the stripped text before where its search stops.
      A step for NameThenStopShape: it unfolds NameThenStop at the search
      result, so that the shape proof sees no search code. */
  lemma NameThenStopFrom(v: string, b: nat)
    requires IsCollapsed(v) && b <= |v|
    requires FirstFrom(DashNumberDashIn(v), 0, |v| + 1) == Some(b)
    ensures NameThenStop(v) == Some(Strip(v[0..b]))
  {
  }

  /** On "name - number - ...", case 1 does not apply when the name does not
      start with a digit, and case 2's search stops right after the name. */
  lemma NameThenStopSearch(v: string, b: nat, c: nat)
    requires 0 < b && b + 3 < c && c + 1 < |v| && AllDigits(v[b + 3..c])
    requires !IsDigit(v[0]) && '-' !in v[0..b] && !IsSpace(v[b - 1])
    requires v[b] == ' ' && v[b + 1] == '-' && v[b + 2] == ' '
    requires v[c] == ' ' && v[c + 1] == '-'
    ensures NumberDash(v) == None
    ensures FirstFrom(DashNumberDashIn(v), 0, |v| + 1) == Some(b)
  {
    DashNumberDashAtGap(v, b, c);
    NoMatchBefore(v, 0, b);
    FirstFromIs(DashNumberDashIn(v), 0, |v| + 1, b);
  }

  /** Case 2: "Smucker Foods of Canada - 24 - TRA St. Johns" gives
      "Smucker Foods of Canada". */
  lemma NameThenStopShape(v: string, n: string, k: string, rest: string)
    requires n != [] && IsCollapsed(n) && '-' !in n && !IsDigit(n[0])
    requires |k| > 0 && AllDigits(k)
    requires v == n + " - " + k + " -" + rest && IsCollapsed(v)
    ensures ExtractVendorName(v) == n
  {
    Layout2(v, n, k, rest);
    NameThenStopSearch(v, |n|, |n| + 3 + |k|);
    NameThenStopFrom(v, |n|);
    ExtractCollapsed(v);
  }

  /** Where the parts of `d + " - " + n` sit. */
  lemma Layout3(d: string, n: string)
    ensures var v := d + " - " + n;
      && |v| == |d| + 3 + |n| && v[..|d|] == d && v[|d| + 3..] == n
      && v[|d|] == ' ' && v[|d| + 1] == '-' && v[|d| + 2] == ' '
  {
    var v := d + " - " + n;
    assert v == d + (" - " + n);
  }

  /** The text after a numbered prefix holds no further dash, so the
      prefix's dash is the only one. */
  lemma SingleDashAfterNumber(v: string, d: string, n: string)
    requires v == d + " - " + n && AllDigits(d) && '-' !in n
    ensures forall i :: 0 <= i < |v| && v[i] == '-' ==> i == |d| + 1
  {
    Layout3(d, n);
  }

  /** Case 3 on a numbered vendor with no further dash: cases 1 and 2 find
      nothing and case 3 yields the name. */
  lemma NumberedOnlyCases(v: string, d: string, n: string)
    requires |d| > 0 && AllDigits(d)
    requires n != [] && IsCollapsed(n) && '-' !in n
    requires v == d + " - " + n && IsCollapsed(v)
    ensures NumberedWithStop(v) == None
    ensures NameThenStop(v) == None
    ensures NumberedOnly(v) == Some(n)
  {
    var a := |d| + 3;
    Layout3(d, n);
    NumberDashOf(v, d);
    forall e | a <= e < |v| + 1 ensures !DashNumberIn(v)(e) {
      if e < |v| {
        NoDashBetween(v, a, |v|, e);
      }
    }
    SingleDashAfterNumber(v, d, n);
    OnlyOneDash(v, |d| + 1);
    assert v[a..|v|] == n;
  }

  /** Case 3: "237772 - Agropur Industrial Div" gives "Agropur Industrial Div". */
  lemma NumberedOnlyShape(v: string, d: string, n: string)
    requires |d| > 0 && AllDigits(d)
    requires n != [] && IsCollapsed(n) && '-' !in n
    requires v == d + " - " + n && IsCollapsed(v)
    ensures ExtractVendorName(v) == n
  {
    NumberedOnlyCases(v, d, n);
    ExtractCollapsed(v);
  }
}
