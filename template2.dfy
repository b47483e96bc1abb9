/** The Template-2 record builder. Line items, pallet descriptions, pickup
    dates and delivery dates are scanned independently and paired by
    position; the ship-to of a line item is the first stop whose leading
    number equals the stop number in the item's vendor name. */
module Template2 {
  import opened Wrappers
  import opened Text
  import opened Dates
  import opened Vendor
  import opened Records

  /** One line-item match: the six-digit vendor number, the raw vendor text
      (which may span lines), the cube, weight and piece counts, the PO
      number and where the match ends. */
  datatype T2Match = T2Match(
    vendorNo: string,
    vendorRaw: string,
    cubes: string,
    weight: string,
    pieces: string,
    po: string,
    end: nat)

  /** What the four independent scans of a Template-2 text report, in text
      order: the line items, the "Pallet Count:" captures, the "Pickup :"
      date captures and the "Deliver :"/"Delivery :" date captures. */
  datatype Template2Scan = Template2Scan(
    items: seq<T2Match>,
    palletCaptures: seq<string>,
    pickupCaptures: seq<string>,
    deliveryCaptures: seq<string>)

  /** Every PO number the line-item pattern captures is a run of digits. */
  predicate WellFormed(scan: Template2Scan) {
    forall i :: 0 <= i < |scan.items| ==> AllDigits(scan.items[i].po)
  }

  /** The fields of a line item, as a value. */
  datatype LineItem = LineItem(
    vendorNo: string,
    vendorName: string,
    cubes: string,
    weight: string,
    pieces: string,
    po: string,
    matchEnd: nat)

  /** The line item a match yields: its fields as captured, except that the
      vendor text has its whitespace collapsed. */
  function LineItemOf(m: T2Match): LineItem {
    LineItem(m.vendorNo, Collapse(m.vendorRaw), m.cubes, m.weight, m.pieces, m.po, m.end)
  }

  /** `LineItemData`: a holder whose fields start empty and are filled in
      one by one from a match. */
  class LineItemData {
    var vendorNo: string
    var vendorName: string
    var cubes: string
    var weight: string
    var pieces: string
    var po: string
    var matchEnd: nat

    constructor ()
      ensures Value() == LineItem("", "", "", "", "", "", 0)
    {
      vendorNo := "";
      vendorName := "";
      cubes := "";
      weight := "";
      pieces := "";
      po := "";
      matchEnd := 0;
    }

    function Value(): LineItem
      reads this
    {
      LineItem(vendorNo, vendorName, cubes, weight, pieces, po, matchEnd)
    }

    /** The field assignments of the line-item loop for one match. */
    method Fill(m: T2Match)
      modifies this
      ensures Value() == LineItemOf(m)
    {
      vendorNo := m.vendorNo;
      vendorName := Collapse(m.vendorRaw);
      cubes := m.cubes;
      weight := m.weight;
      pieces := m.pieces;
      po := m.po;
      matchEnd := m.end;
    }
  }

  /** The line-item loop: one fresh holder per match, in match order. */
  method CollectLineItems(ms: seq<T2Match>) returns (items: seq<LineItemData>)
    ensures |items| == |ms|
    ensures forall j :: 0 <= j < |items| ==> items[j].Value() == LineItemOf(ms[j])
  {
    items := [];
    var i := 0;
    while i < |ms|
      invariant 0 <= i <= |ms| && |items| == i
      invariant forall j :: 0 <= j < i ==> items[j].Value() == LineItemOf(ms[j])
    {
      var item := new LineItemData();
      item.Fill(ms[i]);
      items := items + [item];
      i := i + 1;
    }
  }

  /** The stripped pallet captures that are not empty, in order. */
  function PalletData(captures: seq<string>): (r: seq<string>)
    ensures |r| <= |captures|
    ensures forall j :: 0 <= j < |r| ==> r[j] != [] && !IsSpace(r[j][0]) && !IsSpace(r[j][|r[j]| - 1])
  {
    if captures == [] then []
    else
      var front := PalletData(captures[..|captures| - 1]);
      var p := Strip(captures[|captures| - 1]);
      if p != [] then front + [p] else front
  }

  /** There is one description per capture that is not all whitespace. */
  lemma {:induction false} PalletDataCount(captures: seq<string>)
    ensures |PalletData(captures)| == |captures| - CountBlank(captures)
    decreases |captures|
  {
    if captures != [] {
      PalletDataCount(captures[..|captures| - 1]);
    }
  }

  /** One capture contributes its stripped text, or nothing when it is all
      whitespace. */
  lemma PalletDataOne(c: string)
    ensures PalletData([c]) == if AllSpace(c) then [] else [Strip(c)]
  {
    assert [c][..0] == [];
  }

  /** The descriptions of two runs of captures are those of each run, in
      order; with PalletDataOne this fixes every entry of the list. */
  lemma {:induction false} PalletDataAppend(a: seq<string>, b: seq<string>)
    ensures PalletData(a + b) == PalletData(a) + PalletData(b)
    decreases |b|
  {
    if b == [] {
      assert a + b == a;
    } else {
      var b' := b[..|b| - 1];
      assert (a + b)[..|a + b| - 1] == a + b';
      assert (a + b)[|a + b| - 1] == b[|b| - 1];
      PalletDataAppend(a, b');
    }
  }

  /** When no capture is all whitespace, description j is capture j
      stripped. */
  lemma {:induction false} PalletDataAllKept(captures: seq<string>)
    requires forall j :: 0 <= j < |captures| ==> !AllSpace(captures[j])
    ensures PalletData(captures) == seq(|captures|, j requires 0 <= j < |captures| => Strip(captures[j]))
    decreases |captures|
  {
    if captures != [] {
      var front := captures[..|captures| - 1];
      PalletDataAllKept(front);
    }
  }

  /** How many captures are all whitespace. */
  function CountBlank(captures: seq<string>): nat {
    if captures == [] then 0
    else CountBlank(captures[..|captures| - 1]) + (if AllSpace(captures[|captures| - 1]) then 1 else 0)
  }

  /** The pallet loop: keep each stripped capture that is not empty. */
  method CollectPallets(captures: seq<string>) returns (pallets: seq<string>)
    ensures pallets == PalletData(captures)
  {
    pallets := [];
    var i := 0;
    while i < |captures|
      invariant 0 <= i <= |captures|
      invariant pallets == PalletData(captures[..i])
    {
      var pallet := Strip(captures[i]);
      assert captures[..i + 1][..i] == captures[..i];
      if pallet != [] {
        pallets := pallets + [pallet];
      }
      i := i + 1;
    }
    assert captures[..i] == captures;
  }

  /** The delivery captures with their whitespace collapsed. */
  function DeliveryDates(captures: seq<string>): (r: seq<string>)
    ensures |r| == |captures|
    ensures forall j :: 0 <= j < |r| ==> IsCollapsed(r[j])
  {
    seq(|captures|, j requires 0 <= j < |captures| => Collapse(captures[j]))
  }

  /** The date written as dd/mm/yyyy when there is one, "" when there is
      none. */
  function FormatDate(s: string): (r: string)
    ensures s == [] ==> r == []
  {
    if s != [] then ConvertDateFormat(s) else []
  }

  /** The entry at i, or "" past the end. */
  function EntryOr(xs: seq<string>, i: nat): string {
    if i < |xs| then xs[i] else ""
  }

  // ---------------------------------------------------------------------
  // The ship-to lookup.

  /** `-\s*(\d+)\s*-\s*(.+)$` at position e of a collapsed vendor name: a
      dash, a number, a dash, and at least one character after it. */
  predicate StopSuffixAt(v: string, e: nat) {
    e < |v| && v[e] == '-' &&
    var k := SkipSpace(v, e + 1);
    var n := DigitRun(v, k);
    n > 0 &&
    var l := SkipSpace(v, k + n);
    l + 1 < |v| && v[l] == '-'
  }

  function StopSuffixIn(v: string): nat -> bool {
    (e: nat) => StopSuffixAt(v, e)
  }

  /** The number a suffix match at e captures. */
  function StopDigits(v: string, e: nat): (r: string)
    requires StopSuffixAt(v, e)
    ensures r != [] && AllDigits(r)
  {
    var k := SkipSpace(v, e + 1);
    v[k..k + DigitRun(v, k)]
  }

  /** The stop number of the leftmost suffix match, if any. */
  function VendorStop(v: string): (r: Option<string>)
    ensures r.Some? ==> r.value != [] && AllDigits(r.value)
    ensures '-' !in v ==> r.None?
  {
    match FirstFrom(StopSuffixIn(v), 0, |v|)
    case None => None
    case Some(e) => Some(StopDigits(v, e))
  }

  /** `^(\d+),`: the digits that open a stop entry and are followed by a
      comma. */
  function LeadingNumber(dest: string): (r: Option<string>)
    ensures r.Some? ==> var n := |r.value|;
      && 0 < n < |dest| && r.value == dest[..n] && AllDigits(r.value) && dest[n] == ','
    ensures dest == [] || !IsDigit(dest[0]) ==> r.None?
  {
    var n := DigitRun(dest, 0);
    if 0 < n < |dest| && dest[n] == ',' then Some(dest[..n]) else None
  }

  /** Entry j of the table opens with the stop number. */
  function StopEntryFor(table: seq<string>, number: string): nat -> bool {
    (j: nat) => j < |table| && LeadingNumber(table[j]) == Some(number)
  }

  /** `ship_to` for a collapsed vendor name: the first entry whose leading
      number equals, as text, the stop number in the name; "" when the name
      has no stop suffix or no entry opens with its number. */
  function ShipTo(table: seq<string>, v: string): (r: string)
    ensures VendorStop(v).None? ==> r == []
    ensures r == [] || r in table
  {
    match VendorStop(v)
    case None => []
    case Some(number) =>
      match FirstFrom(StopEntryFor(table, number), 0, |table|)
      case None => []
      case Some(j) => table[j]
  }

  /** The entry chosen is the first, by index, whose leading number is the
      stop number. */
  lemma ShipToFirst(table: seq<string>, v: string, number: string, j: nat)
    requires VendorStop(v) == Some(number)
    requires j < |table| && LeadingNumber(table[j]) == Some(number)
    requires forall i :: 0 <= i < j ==> LeadingNumber(table[i]) != Some(number)
    ensures ShipTo(table, v) == table[j]
  {
    FirstFromIs(StopEntryFor(table, number), 0, |table|, j);
  }

  /** When no entry opens with the stop number, ship-to is "". */
  lemma ShipToMissing(table: seq<string>, v: string, number: string)
    requires VendorStop(v) == Some(number)
    requires forall i :: 0 <= i < |table| ==> LeadingNumber(table[i]) != Some(number)
    ensures ShipTo(table, v) == []
  {
    match FirstFrom(StopEntryFor(table, number), 0, |table|)
    case None =>
    case Some(j) =>
      assert StopEntryFor(table, number)(j);
  }

  /** " - 24 -" with the first dash at b + 1: a suffix match starts at that
      dash and captures the digits. */
  lemma StopSuffixAtGap(v: string, b: nat, c: nat)
    requires b + 3 < c && c + 2 < |v| && AllDigits(v[b + 3..c])
    requires v[b + 1] == '-' && v[b + 2] == ' ' && v[c] == ' ' && v[c + 1] == '-'
    ensures StopSuffixAt(v, b + 1) && StopDigits(v, b + 1) == v[b + 3..c]
  {
    SkipSpaceIs(v, b + 2, b + 3);
    DigitsOfSlice(v, b + 3, c);
    DigitRunIs(v, b + 3, c - b - 3);
    SkipSpaceIs(v, c, c + 1);
  }

  /** Where the parts of `n + " - " + k + " - " + rest` sit. */
  lemma SuffixLayout(v: string, n: string, k: string, rest: string)
    requires v == n + " - " + k + " - " + rest
    ensures var c := |n| + 3 + |k|;
      && c + 2 < |v| && v[..|n|] == n && v[|n| + 3..c] == k
      && v[|n|] == ' ' && v[|n| + 1] == '-' && v[|n| + 2] == ' '
      && v[c] == ' ' && v[c + 1] == '-'
  {
    assert v == n + (" - " + (k + (" - " + rest)));
  }

  /** No suffix match starts before the first dash. */
  lemma NoSuffixBefore(v: string, b: nat)
    requires b < |v| && '-' !in v[..b] && v[b] != '-'
    ensures forall e :: 0 <= e <= b ==> !StopSuffixIn(v)(e)
  {
    forall e | 0 <= e <= b ensures !StopSuffixIn(v)(e) {
      if e < b {
        assert v[e] == v[..b][e];
      }
    }
  }

  /** The leftmost suffix match is the one at the first dash. */
  lemma VendorStopAt(v: string, b: nat, c: nat)
    requires b + 3 < c && c + 2 < |v| && AllDigits(v[b + 3..c]) && '-' !in v[..b]
    requires v[b] == ' ' && v[b + 1] == '-' && v[b + 2] == ' ' && v[c] == ' ' && v[c + 1] == '-'
    ensures VendorStop(v) == Some(v[b + 3..c])
  {
    StopSuffixAtGap(v, b, c);
    NoSuffixBefore(v, b);
    FirstFromIs(StopSuffixIn(v), 0, |v|, b + 1);
  }

  /** "Smucker Foods of Canada - 24 - TRA St. Johns" names stop "24": the
      number between the first two dashes, when the name before them has no
      dash. */
  lemma VendorStopShape(v: string, n: string, k: string, rest: string)
    requires '-' !in n && |k| > 0 && AllDigits(k)
    requires v == n + " - " + k + " - " + rest
    ensures VendorStop(v) == Some(k)
  {
    SuffixLayout(v, n, k, rest);
    VendorStopAt(v, |n|, |n| + 3 + |k|);
  }

  /** A stop entry "24, Some Place" opens with the number "24". */
  lemma LeadingNumberOf(dest: string, k: string, rest: string)
    requires |k| > 0 && AllDigits(k) && dest == k + "," + rest
    ensures LeadingNumber(dest) == Some(k)
  {
    assert dest[..|k|] == k && dest[|k|] == ',';
    DigitsOfSlice(dest, 0, |k|);
    DigitRunIs(dest, 0, |k|);
  }

  /** The stop-table search: the first entry whose leading number matches,
      leaving the loop at the first hit. */
  method FindShipTo(table: seq<string>, vendorName: string) returns (shipTo: string)
    ensures shipTo == ShipTo(table, vendorName)
  {
    shipTo := "";
    var stop := VendorStop(vendorName);
    if stop.Some? {
      var number := stop.value;
      var idx := 0;
      while idx < |table|
        invariant 0 <= idx <= |table|
        invariant forall i :: 0 <= i < idx ==> LeadingNumber(table[i]) != Some(number)
      {
        var leading := LeadingNumber(table[idx]);
        if leading.Some? && leading.value == number {
          ShipToFirst(table, vendorName, number, idx);
          shipTo := table[idx];
          return;
        }
        idx := idx + 1;
      }
      ShipToMissing(table, vendorName, number);
    }
  }

  // ---------------------------------------------------------------------
  // The records.

  /** The dictionary built for one line item from its pickup and delivery
      captures (or ""), its description and the stop table. */
  function RecordFor(text: string, table: seq<string>, item: LineItem,
                     pickupDate: string, deliveryDate: string, description: string): ShipmentRecord
    requires AllDigits(item.po)
  {
    ShipmentRecord(
      template := RecordTemplate,
      pickupDate := FormatDate(pickupDate),
      delDate := FormatDate(deliveryDate),
      shipFrom := EntryOr(table, 0),
      shipTo := ShipTo(table, item.vendorName),
      vendorNo := item.vendorNo,
      vendorName := ExtractVendorName(item.vendorName),
      cubes := item.cubes,
      weight := item.weight,
      pieces := item.pieces,
      po := item.po,
      shipmentType := ExtractShipmentType(text, item.po),
      pallets := "",
      description := description)
  }

  /** The record for line item i: paired with the i-th pickup date,
      delivery date and pallet description, each "" past its end. */
  function Template2Record(text: string, table: seq<string>, scan: Template2Scan, i: nat): ShipmentRecord
    requires WellFormed(scan) && i < |scan.items|
  {
    RecordFor(text, table, LineItemOf(scan.items[i]), EntryOr(scan.pickupCaptures, i),
      EntryOr(DeliveryDates(scan.deliveryCaptures), i), EntryOr(PalletData(scan.palletCaptures), i))
  }

  /** The records of a Template-2 document: one per line item, in scan
      order. */
  function Template2Records(text: string, table: seq<string>, scan: Template2Scan): (r: seq<ShipmentRecord>)
    requires WellFormed(scan)
    ensures |r| == |scan.items|
  {
    seq(|scan.items|, i requires 0 <= i < |scan.items| => Template2Record(text, table, scan, i))
  }

  /** Record i pairs line item i with the i-th pickup date, delivery date
      and pallet description, each "" when that index does not exist; dates
      are converted only when present; the record is tagged "Template-1",
      has stop 1 as ship-from and no pallet figure, and carries the vendor
      number, cube, weight, piece and PO figures of its line item as
      captured. */
  lemma Template2Fields(text: string, table: seq<string>, scan: Template2Scan, i: nat)
    requires WellFormed(scan) && i < |scan.items|
    ensures |Template2Records(text, table, scan)| == |scan.items|
    ensures var r := Template2Records(text, table, scan)[i];
      var pallets := PalletData(scan.palletCaptures);
      && r.template == "Template-1"
      && r.pickupDate == (if i < |scan.pickupCaptures| && scan.pickupCaptures[i] != []
                          then ConvertDateFormat(scan.pickupCaptures[i]) else "")
      && r.delDate == (if i < |scan.deliveryCaptures| && !AllSpace(scan.deliveryCaptures[i])
                       then ConvertDateFormat(Collapse(scan.deliveryCaptures[i])) else "")
      && r.shipFrom == (if |table| > 0 then table[0] else "")
      && r.shipTo == ShipTo(table, Collapse(scan.items[i].vendorRaw))
      && r.pallets == ""
      && r.description == (if i < |pallets| then pallets[i] else "")
      && r.vendorNo == scan.items[i].vendorNo
      && r.cubes == scan.items[i].cubes
      && r.weight == scan.items[i].weight
      && r.pieces == scan.items[i].pieces
      && r.po == scan.items[i].po
      && r.vendorName == ExtractVendorName(scan.items[i].vendorRaw)
      && r.shipmentType == ExtractShipmentType(text, scan.items[i].po)
  {
    VendorNameOfCollapsed(scan.items[i].vendorRaw);
  }

  /** The record the loop body assembles extends the records of the items
      before it. */
  lemma NextRecord(text: string, table: seq<string>, scan: Template2Scan, i: nat,
                   records: seq<ShipmentRecord>, record: ShipmentRecord)
    requires WellFormed(scan) && i < |scan.items|
    requires records == Template2Records(text, table, scan)[..i]
    requires record == Template2Record(text, table, scan, i)
    ensures records + [record] == Template2Records(text, table, scan)[..i + 1]
  {
    var all := Template2Records(text, table, scan);
    assert record == all[i];
    TakeOneMore(all, i);
  }

  /** The loop body for line item idx: look up its dates, ship-to,
      description, clean vendor name and shipment type, and assemble its
      record. */
  method BuildRecord(text: string, table: seq<string>, scan: Template2Scan, idx: nat,
                     item: LineItemData, pickupDates: seq<string>, deliveryDates: seq<string>,
                     palletData: seq<string>, shipFrom: string)
    returns (record: ShipmentRecord)
    requires WellFormed(scan) && idx < |scan.items|
    requires item.Value() == LineItemOf(scan.items[idx])
    requires pickupDates == scan.pickupCaptures
    requires deliveryDates == DeliveryDates(scan.deliveryCaptures)
    requires palletData == PalletData(scan.palletCaptures)
    requires shipFrom == EntryOr(table, 0)
    ensures record == Template2Record(text, table, scan, idx)
  {
    var pickupDate := if idx < |pickupDates| then pickupDates[idx] else "";
    var deliveryDate := if idx < |deliveryDates| then deliveryDates[idx] else "";
    var formattedDeliveryDate := FormatDate(deliveryDate);
    var formattedPickupDate := FormatDate(pickupDate);
    var shipTo := FindShipTo(table, item.vendorName);
    var description := if idx < |palletData| then palletData[idx] else "";
    var cleanVendorName := ExtractVendorName(item.vendorName);
    var shipmentType := ExtractShipmentType(text, item.po);
    record := ShipmentRecord(
      template := RecordTemplate,
      pickupDate := formattedPickupDate,
      delDate := formattedDeliveryDate,
      shipFrom := shipFrom,
      shipTo := shipTo,
      vendorNo := item.vendorNo,
      vendorName := cleanVendorName,
      cubes := item.cubes,
      weight := item.weight,
      pieces := item.pieces,
      po := item.po,
      shipmentType := shipmentType,
      pallets := "",
      description := description);
    assert record == RecordFor(text, table, item.Value(), pickupDate, deliveryDate, description);
  }

  /** `process_template2`: collect the four scans, then build one record per
      line item. */
  method ProcessTemplate2(text: string, table: seq<string>, scan: Template2Scan)
    returns (records: seq<ShipmentRecord>)
    requires WellFormed(scan)
    ensures records == Template2Records(text, table, scan)
  {
    var lineItems := CollectLineItems(scan.items);
    var palletData := CollectPallets(scan.palletCaptures);
    var pickupDates := scan.pickupCaptures;
    var deliveryDates := DeliveryDates(scan.deliveryCaptures);
    var shipFrom := "";
    if |table| > 0 {
      shipFrom := table[0];
    }
    records := [];
    var idx := 0;
    while idx < |lineItems|
      invariant 0 <= idx <= |lineItems| == |scan.items|
      invariant forall j :: 0 <= j < |lineItems| ==> lineItems[j].Value() == LineItemOf(scan.items[j])
      invariant records == Template2Records(text, table, scan)[..idx]
    {
      var record := BuildRecord(text, table, scan, idx, lineItems[idx], pickupDates, deliveryDates,
                                palletData, shipFrom);
      NextRecord(text, table, scan, idx, records, record);
      records := records + [record];
      idx := idx + 1;
    }
  }
}
