/** The parse of one document: detect the template, build the stop table,
    run the matching record builder and report the records with their
    count; and the parse of a directory of documents, one entry per file. */
module Parser {
  import opened Wrappers
  import opened Text
  import opened Detection
  import opened Records
  import opened Stops
  import Template1
  import Template2

  /** A document as the parser sees it: its path, its extracted text and
      what the scans of that text report. */
  datatype Document = Document(
    path: string,
    text: string,
    stopMatches: seq<StopMatch>,
    scan1: Template1.Template1Scan,
    scan2: Template2.Template2Scan)

  /** Every PO number either line-item pattern captures is a run of digits. */
  predicate WellFormed(doc: Document) {
    Template1.WellFormed(doc.scan1) && Template2.WellFormed(doc.scan2)
  }

  /** The message of the index error a stop numbered 0 raises on an empty
      table; the parser reports it as the error of the whole parse. */
  const IndexErrorMessage: string := "list assignment index out of range"

  /** `Path(path).name`: the last component of the path, the text after
      its last '/'. */
  function BaseName(path: string): (r: string)
    ensures '/' !in r
    ensures |r| <= |path| && r == path[|path| - |r|..]
    ensures |r| < |path| ==> path[|path| - |r| - 1] == '/'
  {
    if path == [] || path[|path| - 1] == '/' then []
    else
      var r := BaseName(path[..|path| - 1]);
      assert path[..|path| - 1][|path| - 1 - |r|..] + [path[|path| - 1]] == path[|path| - |r| - 1..];
      r + [path[|path| - 1]]
  }

  /** A file found in a directory is reported under its own name. */
  lemma BaseNameInDirectory(dir: string, name: string)
    requires '/' !in name
    ensures BaseName(dir + "/" + name) == name
  {
    var path := dir + "/" + name;
    var r := BaseName(path);
    assert path[|dir|] == '/';
    assert path[|path| - |name|..] == name;
  }

  /** The result fields of a successful parse. */
  datatype ParseResult =
    ParseResult(templateType: string, recordsCount: nat, records: seq<ShipmentRecord>, fileName: string)

  /** The parser's answer: the result, or the error. */
  datatype ParseOutcome =
    | Parsed(result: ParseResult)
    | Failed(error: string)

  /** The records the detected template's builder produces. */
  function RecordsFor(doc: Document, template: Template, table: seq<string>): (r: seq<ShipmentRecord>)
    requires WellFormed(doc)
    ensures template == Template1 ==> |r| == |doc.scan1.items|
    ensures template == Template2 ==> |r| == |doc.scan2.items|
  {
    match template
    case Template1 => Template1.Template1Records(doc.text, table, doc.scan1)
    case Template2 => Template2.Template2Records(doc.text, table, doc.scan2)
  }

  /** What parsing a document yields. */
  function ParseSpec(doc: Document): ParseOutcome
    requires WellFormed(doc)
  {
    var template := DetectTemplate(doc.text);
    match StopTable(doc.stopMatches)
    case None => Failed(IndexErrorMessage)
    case Some(table) =>
      var records := RecordsFor(doc, template, table);
      Parsed(ParseResult(template.Label(), |records|, records, BaseName(doc.path)))
  }

  /** `parse_pdf`: detect, build the stop table, dispatch to one builder and
      count the records. */
  method ParsePdf(doc: Document) returns (outcome: ParseOutcome)
    requires WellFormed(doc)
    ensures outcome == ParseSpec(doc)
  {
    var template := DetectTemplate(doc.text);
    var stops := ExtractStopDestinations(doc.stopMatches);
    if stops.None? {
      return Failed(IndexErrorMessage);
    }
    var table := stops.value;
    var records: seq<ShipmentRecord>;
    if template == Template1 {
      records := Template1.ProcessTemplate1(doc.text, table, doc.scan1);
    } else {
      records := Template2.ProcessTemplate2(doc.text, table, doc.scan2);
    }
    outcome := Parsed(ParseResult(template.Label(), |records|, records, BaseName(doc.path)));
  }

  /** A parse fails exactly when the stop table hits an index error;
      otherwise it reports "Template-2" exactly when the pickup marker
      occurs, a count equal to the number of records, one record per line
      item of the detected template, and the last component of the
      document's path as its file name. */
  lemma ParseOutcomeFacts(doc: Document)
    requires WellFormed(doc)
    ensures ParseSpec(doc).Failed? <==> StopTable(doc.stopMatches).None?
    ensures ParseSpec(doc).Failed? ==> ParseSpec(doc).error == IndexErrorMessage
    ensures ParseSpec(doc).Parsed? ==>
      var p := ParseSpec(doc).result;
      && p.recordsCount == |p.records|
      && (p.templateType == "Template-2" <==> HasPickupMarker(doc.text))
      && (p.templateType == "Template-1" <==> !HasPickupMarker(doc.text))
      && |p.records| == (if HasPickupMarker(doc.text) then |doc.scan2.items| else |doc.scan1.items|)
      && p.fileName == BaseName(doc.path)
  {
  }

  /** Every record a parse reports is tagged "Template-1", whichever
      template was detected, and carries no pallet figure. */
  lemma ParsedRecordsTagged(doc: Document, i: nat)
    requires WellFormed(doc) && ParseSpec(doc).Parsed? && i < |ParseSpec(doc).result.records|
    ensures ParseSpec(doc).result.records[i].template == "Template-1"
    ensures ParseSpec(doc).result.records[i].pallets == ""
  {
    var table := StopTable(doc.stopMatches).value;
    if DetectTemplate(doc.text) == Template1 {
      Template1.Template1Fields(doc.text, table, doc.scan1, i);
    } else {
      Template2.Template2Fields(doc.text, table, doc.scan2, i);
    }
  }

  // ---------------------------------------------------------------------
  // A directory of documents.

  /** One entry of a directory parse: the result of a file that parsed, or
      the file's path with the error. */
  datatype DirectoryEntry =
    | Succeeded(result: ParseResult)
    | FileFailed(file: string, error: string)

  /** The entry for one document. */
  function EntryFor(doc: Document): (r: DirectoryEntry)
    requires WellFormed(doc)
    ensures ParseSpec(doc).Parsed? ==> r == Succeeded(ParseSpec(doc).result)
    ensures ParseSpec(doc).Failed? ==> r == FileFailed(doc.path, ParseSpec(doc).error)
  {
    match ParseSpec(doc)
    case Parsed(result) => Succeeded(result)
    case Failed(error) => FileFailed(doc.path, error)
  }

  /** The directory answer: the number of files and one entry per file, or
      the error for a directory holding no PDF file. */
  datatype DirectoryOutcome =
    | Listed(totalFiles: nat, results: seq<DirectoryEntry>)
    | NoPdfFiles

  /** One entry per document, in order. */
  function Entries(docs: seq<Document>): (r: seq<DirectoryEntry>)
    requires forall i :: 0 <= i < |docs| ==> WellFormed(docs[i])
    ensures |r| == |docs|
  {
    seq(|docs|, i requires 0 <= i < |docs| => EntryFor(docs[i]))
  }

  /** What parsing the documents of a directory yields: an error for a
      directory without PDF files, otherwise as many entries as files, entry
      i being file i's result when it parsed and its path with the error
      when it did not. */
  function DirectorySpec(docs: seq<Document>): (r: DirectoryOutcome)
    requires forall i :: 0 <= i < |docs| ==> WellFormed(docs[i])
    ensures r.NoPdfFiles? <==> docs == []
    ensures r.Listed? ==> r.totalFiles == |docs| == |r.results|
    ensures r.Listed? ==> forall i :: 0 <= i < |docs| ==>
      (ParseSpec(docs[i]).Parsed? ==> r.results[i] == Succeeded(ParseSpec(docs[i]).result))
    ensures r.Listed? ==> forall i :: 0 <= i < |docs| ==>
      (ParseSpec(docs[i]).Failed? ==> r.results[i] == FileFailed(docs[i].path, ParseSpec(docs[i]).error))
  {
    if docs == [] then NoPdfFiles else Listed(|docs|, Entries(docs))
  }

  /** `parse_directory` over the documents found: parse each in turn and
      collect one entry per file. */
  method ParseDirectory(docs: seq<Document>) returns (r: DirectoryOutcome)
    requires forall i :: 0 <= i < |docs| ==> WellFormed(docs[i])
    ensures r == DirectorySpec(docs)
  {
    if docs == [] {
      return NoPdfFiles;
    }
    var results: seq<DirectoryEntry> := [];
    var i := 0;
    while i < |docs|
      invariant 0 <= i <= |docs|
      invariant results == Entries(docs)[..i]
    {
      var outcome := ParsePdf(docs[i]);
      var entry := if outcome.Parsed? then Succeeded(outcome.result) else FileFailed(docs[i].path, outcome.error);
      TakeOneMore(Entries(docs), i);
      results := results + [entry];
      i := i + 1;
    }
    assert Entries(docs)[..i] == Entries(docs);
    r := Listed(|docs|, results);
  }
}
