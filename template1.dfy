/** The Template-1 record builder: one record per line item, all sharing the
    document's "Pickup On" and "Deliver On" dates and stops 1 and 2 as
    ship-from and ship-to. */
module Template1 {
  import opened Wrappers
  import opened Text
  import opened Vendor
  import opened Records

  /** One line-item match: vendor number, raw vendor text, cube, weight and
      piece counts, PO number, the text after "Pallet Count:", and what the
      fallback search near the PO number captures, if it matches. */
  datatype T1Match = T1Match(
    vendorNo: string,
    vendorRaw: string,
    cubes: string,
    weight: string,
    pieces: string,
    po: string,
    palletCount: string,
    context: Option<string>)

  /** What the scans of a Template-1 text report: the "Pickup On" and
      "Deliver On" captures, when present, and the line items in order. */
  datatype Template1Scan = Template1Scan(
    pickupOn: Option<string>,
    deliverOn: Option<string>,
    items: seq<T1Match>)

  /** Every PO number the line-item pattern captures is a run of digits. */
  predicate WellFormed(scan: Template1Scan) {
    forall i :: 0 <= i < |scan.items| ==> AllDigits(scan.items[i].po)
  }

  predicate AllPipes(s: string) {
    forall i :: 0 <= i < |s| ==> s[i] == '|'
  }

  /** `rstrip('|')`: drop every trailing '|'. */
  function TrimPipes(s: string): (r: string)
    ensures |r| <= |s| && r == s[..|r|] && AllPipes(s[|r|..])
    ensures r == [] || r[|r| - 1] != '|'
  {
    if s != [] && s[|s| - 1] == '|' then TrimPipes(s[..|s| - 1]) else s
  }

  /** The Pallet Count capture stripped, cleared of trailing pipes and
      stripped again; empty exactly when the capture holds nothing but
      whitespace and pipes. */
  function CleanedCapture(capture: string): (r: string)
    ensures r == [] <==> AllPipes(Strip(capture))
  {
    PipesOnlyEmpty(Strip(capture));
    Strip(TrimPipes(Strip(capture)))
  }

  /** The description: the cleaned capture, or, when nothing is left of it,
      the stripped capture of the fallback search if that matched. */
  function PalletDescription(capture: string, context: Option<string>): (r: string)
    ensures AllPipes(Strip(capture)) ==>
      r == match context case Some(c) => Strip(c) case None => []
    ensures !AllPipes(Strip(capture)) ==> r == CleanedCapture(capture) && r != []
  {
    var d := CleanedCapture(capture);
    if d != [] then d
    else match context case Some(c) => Strip(c) case None => []
  }

  /** Once stripped, text loses everything to the pipe trimming exactly when
      it is nothing but pipes. */
  lemma PipesOnlyEmpty(d: string)
    requires d == [] || !IsSpace(d[0])
    ensures Strip(TrimPipes(d)) == [] <==> AllPipes(d)
  {
    var r := TrimPipes(d);
    if r != [] {
      assert r[0] == d[0];
      assert !AllSpace(r);
      assert d[0] != '|' || r[|r| - 1] != '|';
    } else {
      assert d[|r|..] == d;
    }
  }

  /** The dictionary built for one line item, given the shared fields and
      its description. */
  function RecordOf(text: string, pickupDate: string, delDate: string, shipFrom: string,
                    shipTo: string, m: T1Match, description: string): ShipmentRecord
    requires AllDigits(m.po)
  {
    ShipmentRecord(
      template := RecordTemplate,
      pickupDate := pickupDate,
      delDate := delDate,
      shipFrom := shipFrom,
      shipTo := shipTo,
      vendorNo := m.vendorNo,
      vendorName := ExtractVendorName(m.vendorRaw),
      cubes := m.cubes,
      weight := m.weight,
      pieces := m.pieces,
      po := m.po,
      shipmentType := ExtractShipmentType(text, m.po),
      pallets := "",
      description := description)
  }

  /** The record for one line item. */
  function Template1Record(text: string, table: seq<string>, scan: Template1Scan, m: T1Match): ShipmentRecord
    requires AllDigits(m.po)
  {
    RecordOf(text, scan.pickupOn.GetOr(""), scan.deliverOn.GetOr(""),
      if |table| > 0 then table[0] else "", if |table| > 1 then table[1] else "",
      m, PalletDescription(m.palletCount, m.context))
  }

  /** The records of a Template-1 document: one per line item, in scan
      order. */
  function Template1Records(text: string, table: seq<string>, scan: Template1Scan): (r: seq<ShipmentRecord>)
    requires WellFormed(scan)
    ensures |r| == |scan.items|
  {
    seq(|scan.items|, i requires 0 <= i < |scan.items| => Template1Record(text, table, scan, scan.items[i]))
  }

  /** Every record of a Template-1 document is tagged "Template-1", carries
      the "Pickup On" and "Deliver On" captures (or ""), stop 1 as ship-from
      and stop 2 as ship-to (or ""), no pallet figure, and the vendor number,
      cube, weight, piece and PO figures of its own line item as captured,
      with its cleaned vendor name, shipment type and description; there is
      one record per line item. */
  lemma Template1Fields(text: string, table: seq<string>, scan: Template1Scan, i: nat)
    requires WellFormed(scan) && i < |scan.items|
    ensures |Template1Records(text, table, scan)| == |scan.items|
    ensures var r := Template1Records(text, table, scan)[i];
      && r.template == "Template-1"
      && r.pickupDate == scan.pickupOn.GetOr("")
      && r.delDate == scan.deliverOn.GetOr("")
      && r.shipFrom == (if |table| > 0 then table[0] else "")
      && r.shipTo == (if |table| > 1 then table[1] else "")
      && r.pallets == ""
      && r.vendorNo == scan.items[i].vendorNo
      && r.cubes == scan.items[i].cubes
      && r.weight == scan.items[i].weight
      && r.pieces == scan.items[i].pieces
      && r.po == scan.items[i].po
      && r.vendorName == ExtractVendorName(scan.items[i].vendorRaw)
      && r.shipmentType == ExtractShipmentType(text, scan.items[i].po)
      && r.description == PalletDescription(scan.items[i].palletCount, scan.items[i].context)
  {
  }

  /** The record the loop body assembles from the shared fields computed
      before the loop extends the records of the items before it. */
  lemma NextRecord(text: string, table: seq<string>, scan: Template1Scan, i: nat,
                   records: seq<ShipmentRecord>, pickupDate: string, delDate: string,
                   shipFrom: string, shipTo: string, description: string)
    requires WellFormed(scan) && i < |scan.items|
    requires records == Template1Records(text, table, scan)[..i]
    requires pickupDate == scan.pickupOn.GetOr("") && delDate == scan.deliverOn.GetOr("")
    requires shipFrom == (if |table| > 0 then table[0] else "")
    requires shipTo == (if |table| > 1 then table[1] else "")
    requires description == PalletDescription(scan.items[i].palletCount, scan.items[i].context)
    ensures records + [RecordOf(text, pickupDate, delDate, shipFrom, shipTo, scan.items[i], description)]
         == Template1Records(text, table, scan)[..i + 1]
  {
    var all := Template1Records(text, table, scan);
    assert RecordOf(text, pickupDate, delDate, shipFrom, shipTo, scan.items[i], description) == all[i];
    TakeOneMore(all, i);
  }

  /** The description steps of the loop body, reassigning one variable. */
  method Describe(m: T1Match) returns (description: string)
    ensures description == PalletDescription(m.palletCount, m.context)
  {
    description := if m.palletCount != [] then Strip(m.palletCount) else [];
    if description != [] {
      description := Strip(TrimPipes(description));
    }
    if description == [] && m.context.Some? {
      description := Strip(m.context.value);
    }
    assert Strip([]) == [] && TrimPipes([]) == [];
  }

  /** `process_template1`: the loop over the line items. */
  method ProcessTemplate1(text: string, table: seq<string>, scan: Template1Scan)
    returns (records: seq<ShipmentRecord>)
    requires WellFormed(scan)
    ensures records == Template1Records(text, table, scan)
  {
    var pickupDate := if scan.pickupOn.Some? then scan.pickupOn.value else "";
    var delDate := if scan.deliverOn.Some? then scan.deliverOn.value else "";
    var shipFrom := "";
    if |table| > 0 {
      shipFrom := table[0];
    }
    var shipTo := "";
    if |table| > 1 {
      shipTo := table[1];
    }
    records := [];
    var i := 0;
    while i < |scan.items|
      invariant 0 <= i <= |scan.items|
      invariant records == Template1Records(text, table, scan)[..i]
      invariant pickupDate == scan.pickupOn.GetOr("") && delDate == scan.deliverOn.GetOr("")
      invariant shipFrom == (if |table| > 0 then table[0] else "")
      invariant shipTo == (if |table| > 1 then table[1] else "")
    {
      var m := scan.items[i];
      var description := Describe(m);
      NextRecord(text, table, scan, i, records, pickupDate, delDate, shipFrom, shipTo, description);
      var record := RecordOf(text, pickupDate, delDate, shipFrom, shipTo, m, description);
      records := records + [record];
      i := i + 1;
    }
  }
}
