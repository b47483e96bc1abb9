/** The flat shipment record both templates produce, and the shipment-type
    lookup: the bracketed word after a purchase-order code such as
    "AMS-PO-10-2025-4610227518 (GROC)". */
module Records {
  import opened Wrappers
  import opened Text

  /** One output row; every field is text, as in the parser's dictionaries. */
  datatype ShipmentRecord = ShipmentRecord(
    template: string,
    pickupDate: string,
    delDate: string,
    shipFrom: string,
    shipTo: string,
    vendorNo: string,
    vendorName: string,
    cubes: string,
    weight: string,
    pieces: string,
    po: string,
    shipmentType: string,
    pallets: string,
    description: string)

  /** Both builders tag every record with this name. */
  const RecordTemplate: string := "Template-1"

  /** `[A-Z]` under IGNORECASE, over ASCII. */
  predicate IsLetter(c: char) {
    ('a' <= c <= 'z') || ('A' <= c <= 'Z')
  }

  /** Length of the run of characters other than ')' starting at i (`[^)]*`). */
  function OpenRun(t: string, i: nat): (n: nat)
    requires i <= |t|
    decreases |t| - i
    ensures i + n <= |t|
    ensures forall j :: i <= j < i + n ==> t[j] != ')'
    ensures i + n == |t| || t[i + n] == ')'
  {
    if i == |t| || t[i] == ')' then 0 else 1 + OpenRun(t, i + 1)
  }

  /** `[A-Z]{3}-PO-\d{2}-\d{4}-` under IGNORECASE at position i. */
  predicate PoCodeAt(t: string, i: nat) {
    i + 15 <= |t|
    && IsLetter(t[i]) && IsLetter(t[i + 1]) && IsLetter(t[i + 2]) && t[i + 3] == '-'
    && (t[i + 4] == 'P' || t[i + 4] == 'p') && (t[i + 5] == 'O' || t[i + 5] == 'o')
    && t[i + 6] == '-' && IsDigit(t[i + 7]) && IsDigit(t[i + 8]) && t[i + 9] == '-'
    && IsDigit(t[i + 10]) && IsDigit(t[i + 11]) && IsDigit(t[i + 12]) && IsDigit(t[i + 13])
    && t[i + 14] == '-'
  }

  /** Where the opening bracket after the code and the PO number stands. */
  function BracketPos(t: string, po: string, i: nat): (p: nat)
    requires i + 15 + |po| <= |t|
    ensures i + 15 + |po| <= p <= |t|
  {
    SkipSpace(t, i + 15 + |po|)
  }

  /** `[A-Z]{3}-PO-\d{2}-\d{4}-<po>\s*\(([^)]+)\)` under IGNORECASE at position i. */
  predicate ShipmentTypeAt(t: string, po: string, i: nat) {
    PoCodeAt(t, i) && i + 15 + |po| <= |t| && t[i + 15..i + 15 + |po|] == po &&
    var p := BracketPos(t, po, i);
    p < |t| && t[p] == '(' &&
    var n := OpenRun(t, p + 1);
    0 < n && p + 1 + n < |t|
  }

  /** The bracketed capture of a match at position i. */
  function TypeCapture(t: string, po: string, i: nat): (r: string)
    requires ShipmentTypeAt(t, po, i)
    ensures 0 < |r| && ')' !in r
  {
    var p := BracketPos(t, po, i);
    t[p + 1..p + 1 + OpenRun(t, p + 1)]
  }

  function ShipmentTypeIn(t: string, po: string): nat -> bool {
    (i: nat) => ShipmentTypeAt(t, po, i)
  }

  /** Some position of the text starts a shipment-type match for po. */
  predicate HasShipmentType(t: string, po: string) {
    exists i :: 0 <= i <= |t| && ShipmentTypeAt(t, po, i)
  }

  /** `extract_shipment_type`: the stripped capture of the leftmost match, or
      "" when the PO number never appears with a bracketed type. The PO
      number is spliced into the pattern unescaped; the scanner reads it
      literally, which agrees for the digit strings the callers pass. */
  function ExtractShipmentType(text: string, po: string): (r: string)
    requires AllDigits(po)
    ensures !HasShipmentType(text, po) ==> r == []
    ensures ')' !in r
    ensures r == [] || (!IsSpace(r[0]) && !IsSpace(r[|r| - 1]))
  {
    match FirstFrom(ShipmentTypeIn(text, po), 0, |text| + 1)
    case None =>
      []
    case Some(i) =>
      var c := TypeCapture(text, po, i);
      StripKeepsOut(c, ')');
      Strip(c)
  }

  /** The leftmost match decides, and later matches are ignored. */
  lemma ShipmentTypeLeftmost(text: string, po: string, i: nat)
    requires AllDigits(po) && i <= |text| && ShipmentTypeAt(text, po, i)
    requires forall j :: 0 <= j < i ==> !ShipmentTypeAt(text, po, j)
    ensures ExtractShipmentType(text, po) == Strip(TypeCapture(text, po, i))
  {
    FirstFromIs(ShipmentTypeIn(text, po), 0, |text| + 1, i);
  }

  /** Where the parts of `code + po + " (" + kind + ")" + rest` sit. */
  lemma TypeLayout(v: string, code: string, po: string, kind: string, rest: string)
    requires v == code + po + " (" + kind + ")" + rest && |code| == 15
    ensures var p := 16 + |po|;
      && p + 2 + |kind| <= |v| && v[..15] == code && v[15..15 + |po|] == po
      && v[p - 1] == ' ' && v[p] == '(' && v[p + 1..p + 1 + |kind|] == kind
      && v[p + 1 + |kind|] == ')'
  {
    assert v == code + (po + (" (" + (kind + (")" + rest))));
  }

  lemma OpenRunIs(t: string, i: nat, n: nat)
    requires i + n < |t| && t[i + n] == ')'
    requires forall j :: i <= j < i + n ==> t[j] != ')'
    ensures OpenRun(t, i) == n
    decreases n
  {
    if n > 0 {
      OpenRunIs(t, i + 1, n - 1);
    }
  }

  lemma PoCodePrefix(v: string, code: string)
    requires |code| == 15 && PoCodeAt(code, 0) && |v| >= 15 && v[..15] == code
    ensures PoCodeAt(v, 0)
  {
    assert forall k :: 0 <= k < 15 ==> v[k] == code[k];
  }

  /** A match at 0 whose bracket stands at p and whose capture is n long. */
  lemma ShipmentTypeAtStart(v: string, po: string, p: nat, n: nat)
    requires PoCodeAt(v, 0) && p == 16 + |po| && p + 1 + n < |v| && 0 < n
    requires v[15..15 + |po|] == po && v[p - 1] == ' ' && v[p] == '('
    requires ')' !in v[p + 1..p + 1 + n] && v[p + 1 + n] == ')'
    ensures ShipmentTypeAt(v, po, 0) && TypeCapture(v, po, 0) == v[p + 1..p + 1 + n]
  {
    SkipSpaceIs(v, 15 + |po|, p);
    assert forall j :: p + 1 <= j < p + 1 + n ==> v[j] == v[p + 1..p + 1 + n][j - p - 1];
    OpenRunIs(v, p + 1, n);
  }

  /** A text opening with a code, the PO number and a bracketed type
      matches at its start, capturing the type. */
  lemma ShipmentTypeAtFront(v: string, code: string, po: string, kind: string, rest: string)
    requires |code| == 15 && PoCodeAt(code, 0)
    requires 0 < |kind| && ')' !in kind
    requires v == code + po + " (" + kind + ")" + rest
    ensures ShipmentTypeAt(v, po, 0) && TypeCapture(v, po, 0) == kind
  {
    TypeLayout(v, code, po, kind, rest);
    PoCodePrefix(v, code);
    ShipmentTypeAtStart(v, po, 16 + |po|, |kind|);
  }

  /** "AMS-PO-10-2025-4610227518 (GROC)" gives "GROC": a text opening with a
      code, the PO number and a bracketed type yields that type, stripped. */
  lemma ShipmentTypeShape(v: string, code: string, po: string, kind: string, rest: string)
    requires AllDigits(po) && |code| == 15 && PoCodeAt(code, 0)
    requires 0 < |kind| && ')' !in kind
    requires v == code + po + " (" + kind + ")" + rest
    ensures ExtractShipmentType(v, po) == Strip(kind)
  {
    ShipmentTypeAtFront(v, code, po, kind, rest);
    ShipmentTypeLeftmost(v, po, 0);
  }
}
