/** Template detection: a document is laid out as Template 2 exactly when a
    pickup date-time marker such as "Pickup : Oct 20, 2025 11:59:00"
    appears anywhere in its text. */
module Detection {
  import opened Wrappers
  import opened Text

  datatype Template = Template1 | Template2
  {
    /** The name the parser reports for the template. */
    function Label(): (r: string)
      ensures r == "Template-1" || r == "Template-2"
    {
      match this
      case Template1 => "Template-1"
      case Template2 => "Template-2"
    }
  }

  /** `\w` over ASCII: letters, digits and the underscore. */
  predicate IsWordChar(c: char) {
    ('a' <= c <= 'z') || ('A' <= c <= 'Z') || IsDigit(c) || c == '_'
  }

  /** `\d{1,2}` followed by the character c, at position l. */
  predicate ShortNumberThen(t: string, l: nat, c: char)
    requires l <= |t|
  {
    var n := DigitRun(t, l);
    1 <= n <= 2 && l + n < |t| && t[l + n] == c
  }

  /** `\d{2}` at position p. */
  predicate TwoDigitsAt(t: string, p: nat) {
    p + 2 <= |t| && IsDigit(t[p]) && IsDigit(t[p + 1])
  }

  /** `h:mm:ss` after the hour's first digit at h: `\d{1,2}:\d{2}:\d{2}`. */
  predicate ClockAt(t: string, h: nat)
    requires h <= |t|
  {
    ShortNumberThen(t, h, ':') &&
    var m := h + DigitRun(t, h) + 1;
    TwoDigitsAt(t, m) && m + 2 < |t| && t[m + 2] == ':' && TwoDigitsAt(t, m + 3)
  }

  /** `\d{4}\s+\d{1,2}:\d{2}:\d{2}` at position y. */
  predicate YearClockAt(t: string, y: nat)
    requires y <= |t|
  {
    DigitRun(t, y) == 4 &&
    var h := SkipSpace(t, y + 4);
    y + 4 < h && ClockAt(t, h)
  }

  /** `\w{3}\s+\d{1,2},` at position k. */
  predicate MonthDayAt(t: string, k: nat) {
    k + 3 <= |t| && IsWordChar(t[k]) && IsWordChar(t[k + 1]) && IsWordChar(t[k + 2]) &&
    var l := SkipSpace(t, k + 3);
    k + 3 < l && ShortNumberThen(t, l, ',')
  }

  /** Where the text after `\w{3}\s+\d{1,2},` begins. */
  function MonthDayEnd(t: string, k: nat): (c: nat)
    requires MonthDayAt(t, k)
    ensures k < c <= |t| && t[c - 1] == ','
  {
    var l := SkipSpace(t, k + 3);
    l + DigitRun(t, l) + 1
  }

  /** `\w{3}\s+\d{1,2},\s+\d{4}\s+\d{1,2}:\d{2}:\d{2}` at position k. */
  predicate DateTimeAt(t: string, k: nat) {
    MonthDayAt(t, k) &&
    var c := MonthDayEnd(t, k);
    var y := SkipSpace(t, c);
    c < y && YearClockAt(t, y)
  }

  /** The word w stands at position i of t. */
  predicate WordAt(t: string, i: nat, w: string) {
    i + |w| <= |t| && t[i..i + |w|] == w
  }

  /** `Pickup\s*:\s*\w{3}\s+\d{1,2},\s+\d{4}\s+\d{1,2}:\d{2}:\d{2}` at position i. */
  predicate PickupMarkerAt(t: string, i: nat) {
    WordAt(t, i, "Pickup") &&
    var j := SkipSpace(t, i + 6);
    j < |t| && t[j] == ':' &&
    DateTimeAt(t, SkipSpace(t, j + 1))
  }

  function PickupMarkerIn(t: string): nat -> bool {
    (i: nat) => PickupMarkerAt(t, i)
  }

  /** Some position of the text starts a pickup marker. */
  predicate HasPickupMarker(text: string) {
    exists i :: 0 <= i <= |text| && PickupMarkerAt(text, i)
  }

  lemma MarkerSearch(text: string)
    ensures FirstFrom(PickupMarkerIn(text), 0, |text| + 1).Some? <==> HasPickupMarker(text)
  {
    match FirstFrom(PickupMarkerIn(text), 0, |text| + 1)
    case Some(i) =>
      assert PickupMarkerIn(text)(i);
    case None =>
      forall i | 0 <= i <= |text| ensures !PickupMarkerAt(text, i) {
        assert !PickupMarkerIn(text)(i);
      }
  }

  /** `detect_template`: Template 2 exactly when a pickup marker occurs. */
  function DetectTemplate(text: string): (r: Template)
    ensures r == Template2 <==> HasPickupMarker(text)
  {
    MarkerSearch(text);
    if FirstFrom(PickupMarkerIn(text), 0, |text| + 1).Some? then Template2 else Template1
  }

  /** Text without the word "Pickup" is always Template 1. */
  lemma WithoutPickupTemplate1(text: string)
    requires forall i :: 0 <= i <= |text| ==> !WordAt(text, i, "Pickup")
    ensures DetectTemplate(text) == Template1
  {
  }

  /** A document whose text holds the marker is detected as Template 2. */
  lemma MarkerDetected(text: string, i: nat)
    requires PickupMarkerAt(text, i)
    ensures DetectTemplate(text) == Template2
  {
  }
}
