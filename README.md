# Sobeys load-sheet PDF parser: field extraction, in Dafny

This project models the core of `SobeyTemplate1PdfParser` (`main.py`), a
parser that turns the text of a Sobeys shipment PDF into flat shipment
records. The model takes the text the PDF library extracted as given. It
covers these parts:

- **Template detection.** A document is "Template-2" exactly when a pickup
  date-time marker (`Pickup : Oct 20, 2025 11:59:00`) occurs in it, and
  "Template-1" otherwise (`detection.dfy`).
- **The stop table.** `Stop: n Destination: ... Stop Location Memo:` blocks
  fill a list indexed by stop number, padded with `""`. A stop numbered 0
  writes to index -1: it overwrites the last entry, or raises an index
  error on an empty list (`stops.dfy`, an imperative loop).
- **Field normalisers** (pure functions):
  - the date rewrite from "Oct 20, 2025 11:59:00 PM" to "20/10/2025"
    (`dates.dfy`);
  - the vendor-name cleaner with its three anchored shapes (`vendor.dfy`);
  - the shipment-type lookup after a PO code (`records.dfy`).
- **The Template-1 record builder** (`template1.dfy`). Every line item
  shares one pickup date, one delivery date, stop 1 as ship-from and stop 2
  as ship-to. It also has the pallet-description clean-up and its fallback.
- **The Template-2 record builder** (`template2.dfy`):
  - the `LineItemData` holder class;
  - the line-item, pallet and date scans, paired by position;
  - the ship-to search, which looks for the stop number of the vendor name
    in the stop table.
- **`parse_pdf` dispatch and count, and `parse_directory`** over parsed
  documents (`parser.dfy`).

Regular expressions are modelled in two ways:

- The `finditer` scans over the whole document (line items, pallet counts,
  pickup and delivery captures, stop blocks, the Template-1 date captures)
  are inputs: sequences of match records in text order.
- The short anchored patterns are explicit scanners over strings, with a
  leftmost-position search standing in for `re.search`. These are the three
  vendor shapes, the vendor stop suffix `-\s*(\d+)\s*-\s*(.+)$`, the stop
  entry's `^(\d+),`, the shipment-type pattern, the pickup marker and the
  `strptime` format.

`\s` is Python's whitespace set (`str.isspace`), `\d` and `\w` are ASCII,
and `IGNORECASE` folds ASCII letters.

Two behaviours of the code are worth stating plainly:

- `convert_date_format` returns the whitespace-collapsed string when the
  date does not parse. The comment at main.py:82 says "original", but
  `date_str` was already reassigned to its collapsed form at main.py:73.
- `process_template2` looks for the stop suffix in `item.vendor_name`
  (main.py:327), which main.py:276 has already collapsed.

The Template-2 builder tags its records "Template-1", as the code does.

## Model

| member | source | states |
|---|---|---|
| Text.Strip | main.py:163 | `str.strip()`: no whitespace at either end, never longer than the input, empty exactly when the input is all whitespace |
| Text.StripIsSlice | main.py:163 | the stripped text is the contiguous slice of the input that starts past its leading whitespace |
| Text.StripCutsSpace | main.py:163 | everything stripping removes, before and after that slice, is whitespace |
| Text.StripUnique | main.py:163 | whitespace, then text starting and ending with a non-whitespace character, then whitespace strips to exactly that text |
| Text.StripKeepsOut | main.py:141 | stripping introduces no character, so a capture free of ')' stays free of it |
| Text.Collapse | main.py:73 | `re.sub(r'\s+', ' ', s).strip()` yields single spaces only, none at either end, and is empty exactly when s is all whitespace |
| Text.CollapseCollapsed | main.py:96 | collapsing is idempotent: already collapsed text is its own image |
| Text.AllSpaceSqueeze | main.py:96 | replacing whitespace runs by one space gives all-whitespace text exactly when the input was all whitespace |
| Text.SqueezeSingleSpaced | main.py:96 | text with single spaces only is unchanged by the whitespace-run replacement |
| Text.SqueezeAppend | main.py:73 | the whitespace-run replacement works piecewise: on two pieces that do not meet in one whitespace run it is the replacement of each |
| Text.CollapseJoin | main.py:72-73 | collapsing keeps the text: two pieces joined by any whitespace run (newlines included) collapse to the collapsed pieces joined by one space |
| Text.WordJoin | main.py:72-73 | a word without whitespace, any whitespace run, then more text collapse to the word, one space and the collapsed rest |
| Text.FirstFrom | main.py:101 | the leftmost-match search: the position found matches and none before it does; no result means no position in range matches |
| Text.FirstFromIs | main.py:139 | the leftmost match is pinned down by the first position at which the pattern holds |
| Dates.ParseDate | main.py:76 | a date-time that `strptime` accepts is a real calendar day with a 12-hour clock and minutes and seconds below 60 |
| Dates.MonthNumberOfName | main.py:76 | each month abbreviation reads back as its own month number |
| Dates.FormatFields | main.py:79 | `strftime("%d/%m/%Y")` gives DD/MM/YYYY whose three fields read back as the day, month and year |
| Dates.ConvertDateFormatResult | main.py:67-82 | the input is collapsed first; if it parses, the result is DD/MM/YYYY holding its day, month and year; otherwise the collapsed input comes back and nothing is raised |
| Dates.ParseRendered | main.py:76 | reading back a printed date-time recovers it when it is a real date-time and fails otherwise |
| Dates.ConvertRendered | main.py:67-82 | a printed date-time converts to its DD/MM/YYYY form when it is real and is echoed unchanged when it is not |
| Dates.ConvertValid | main.py:76-79 | a printed real date-time becomes its DD/MM/YYYY form |
| Dates.ConvertInvalid | main.py:80-82 | a printed date-time that is not a real one is echoed back |
| Dates.CollapseWidened | main.py:72-73 | a printed date-time whose four separating spaces are widened to arbitrary whitespace runs (line breaks, doubled spaces) collapses back to the printed form |
| Dates.ConvertWidened | main.py:67-82 | such a widened date-time converts to its DD/MM/YYYY form when it is real, and otherwise comes back as the collapsed printed text |
| Dates.ConvertEchoes | main.py:80-82 | collapsed text that does not parse is returned as it is |
| Dates.ConvertExample | main.py:69 | "Oct 20, 2025 11:59:00 PM" gives "20/10/2025" |
| Dates.ConvertNoSuchDay | main.py:80-82 | "Feb 29, 2025 10:00:00 AM" (2025 is not a leap year) is echoed back instead of failing |
| Dates.ConvertGarbage | main.py:80-82 | "garbage" is echoed back |
| Vendor.NumberDash | main.py:100 | `^\d+\s*-\s*` ends past a leading digit and a dash, at the end or at a non-space |
| Vendor.NumberedWithStop | main.py:100-106 | case 1 yields collapsed text no longer than the input, and nothing when the input has no dash |
| Vendor.NameThenStop | main.py:110-116 | case 2 yields collapsed text no longer than the input, and nothing when the input has no dash |
| Vendor.NumberedOnly | main.py:120-126 | case 3 yields non-empty collapsed text, and nothing when the input has no dash |
| Vendor.CleanName | main.py:98-130 | the first matching case wins; the result is collapsed and no longer than the input; input without a dash comes back unchanged |
| Vendor.ExtractVendorName | main.py:84-130 | "" for empty or whitespace-only input; otherwise collapsed text no longer than the collapsed input, equal to it when it has no dash |
| Vendor.ExtractCollapsed | main.py:92-96 | on collapsed non-empty text the cases are tried on the text as it stands |
| Vendor.VendorNameOfCollapsed | main.py:96 | collapsing the vendor text beforehand changes nothing |
| Vendor.NumberedWithStopShape | main.py:98-106 | collapsed text of the form `number - name - stop...`, with a dash-free name, yields the name ("237772 - Agropur Industrial Div - 2 - TRA Location" gives "Agropur Industrial Div") |
| Vendor.NameThenStopShape | main.py:108-116 | collapsed text of the form `name - stop -...`, with a dash-free name not opening with a digit, yields the name ("Smucker Foods of Canada - 24 - TRA St. Johns" gives "Smucker Foods of Canada") |
| Vendor.NumberedOnlyCases | main.py:98-126 | on "number - name" with no further dash, cases 1 and 2 find nothing and case 3 yields the name |
| Vendor.NumberedOnlyShape | main.py:118-126 | collapsed text of the form `number - name`, with a dash-free name, yields the name ("237772 - Agropur Industrial Div" gives "Agropur Industrial Div") |
| Records.ExtractShipmentType | main.py:132-142 | "" when the PO number never appears after a PO code with a bracketed type; otherwise the stripped capture, which holds no ')' and no whitespace at either end |
| Records.ShipmentTypeLeftmost | main.py:139-141 | the leftmost match decides and later ones are ignored |
| Records.ShipmentTypeShape | main.py:135-141 | text opening with a 15-character PO code, the PO number and a bracketed type free of ')' yields that type, stripped ("AMS-PO-10-2025-4610227518 (GROC)" gives "GROC") |
| Detection.Template.Label | main.py:151-154 | the reported name is "Template-1" or "Template-2" |
| Detection.DetectTemplate | main.py:144-154 | Template 2 exactly when a `Pickup : Mon D, YYYY h:mm:ss` marker occurs somewhere in the text |
| Detection.MarkerSearch | main.py:147-149 | the search finds a marker exactly when some position starts one |
| Detection.WithoutPickupTemplate1 | main.py:152-154 | text without the word "Pickup" is Template 1 |
| Detection.MarkerDetected | main.py:149-151 | a marker at any position makes the document Template 2 |
| Stops.Padded | main.py:166-167 | the table grown with "" to at least n entries keeps its prefix |
| Stops.Placed | main.py:162-168 | one block fails exactly when it is stop 0 on an empty table |
| Stops.Pad | main.py:166-167 | the padding loop computes the padded table |
| Stops.Place | main.py:162-168 | the loop body for one block computes its effect on the table |
| Stops.ExtractStopDestinations | main.py:156-170 | the loop computes the table the blocks define, or the index error |
| Stops.StopTableStep | main.py:161-168 | one more block updates the table by its effect |
| Stops.FailurePersists | main.py:161-168 | after an index error no later block brings the table back |
| Stops.StopTableContents | main.py:156-170 | with stops numbered from 1 the scan never fails, the table is as long as the largest stop number, and entry n - 1 is the stripped destination of the last block for stop n, or "" |
| Stops.UnnamedStopEmpty | main.py:166-167 | stops up to the largest that no block names are "" |
| Stops.LeadingZeroFails | main.py:168 | stop 0 as the first block is an index error |
| Stops.ZeroOverwritesLast | main.py:168 | stop 0 after a non-empty table overwrites its last entry |
| Template1.TrimPipes | main.py:220 | `rstrip('\|')` drops every trailing pipe and keeps a prefix |
| Template1.CleanedCapture | main.py:216-220 | the cleaned Pallet Count capture is empty exactly when the stripped capture is all pipes |
| Template1.PipesOnlyEmpty | main.py:219-220 | trimmed text loses everything to the pipe trimming exactly when it is all pipes |
| Template1.PalletDescription | main.py:216-233 | the cleaned capture when non-empty; otherwise the stripped fallback capture when the fallback search matched, else "" |
| Template1.Describe | main.py:216-233 | the description steps of the loop body compute the pallet description |
| Template1.Template1Records | main.py:214-254 | one record per line-item match |
| Template1.Template1Fields | main.py:191-252 | every record is tagged "Template-1" and carries the pickup and delivery captures (or ""), stop 1 as ship-from and stop 2 as ship-to (or ""), no pallet figure, its line item's vendor number, cubes, weight, pieces and PO number as captured, its cleaned vendor name, shipment type and pallet description |
| Template1.NextRecord | main.py:235-252 | the record assembled in the loop body extends the records before it |
| Template1.ProcessTemplate1 | main.py:185-254 | the loop builds exactly the records of the document, in match order |
| Template2.LineItemData.constructor | main.py:42-50 | every field starts empty and the match end at 0 |
| Template2.LineItemData.Fill | main.py:272-281 | the holder receives the match's fields, with the vendor text collapsed |
| Template2.CollectLineItems | main.py:271-284 | one holder per match, in match order, each holding that match's line item |
| Template2.PalletData | main.py:289-295 | every pallet description kept is non-empty and stripped, and there are no more than captures |
| Template2.PalletDataCount | main.py:291-295 | the descriptions number the captures minus those that are all whitespace |
| Template2.PalletDataOne | main.py:292-295 | one capture gives its stripped text, or nothing when it is all whitespace |
| Template2.PalletDataAppend | main.py:291-295 | the descriptions of two runs of captures are those of the first run followed by those of the second, so entry j is the stripped j-th capture that is not all whitespace |
| Template2.PalletDataAllKept | main.py:291-295 | when no capture is all whitespace, description j is capture j stripped |
| Template2.CollectPallets | main.py:289-295 | the pallet loop computes PalletData, whose content PalletDataOne and PalletDataAppend fix: the stripped captures that are not empty, in order |
| Template2.DeliveryDates | main.py:304 | one collapsed delivery date per capture |
| Template2.FormatDate | main.py:321-322 | a missing date stays "" |
| Template2.StopDigits | main.py:330 | the captured stop number is a non-empty run of digits |
| Template2.VendorStop | main.py:326-330 | the stop number of the leftmost suffix match is a non-empty run of digits; a name without a dash has none |
| Template2.StopSuffixAtGap | main.py:326 | a dash, a space, a digit run, a space and a dash followed by more text match the suffix pattern at the first dash and capture the digits |
| Template2.NoSuffixBefore | main.py:327 | no suffix match starts before the first dash |
| Template2.VendorStopAt | main.py:326-330 | when the first dash of the name opens ` - digits - `, the leftmost suffix match is there and captures those digits |
| Template2.VendorStopShape | main.py:326-330 | a name of the form `name - stop - rest`, with a dash-free name, names that stop ("Smucker Foods of Canada - 24 - TRA St. Johns" names stop "24") |
| Template2.LeadingNumber | main.py:336-339 | `^(\d+),` captures a non-empty digit prefix followed by a comma; text not opening with a digit has none |
| Template2.LeadingNumberOf | main.py:336-339 | an entry of the form `digits,rest` opens with that number |
| Template2.ShipTo | main.py:325-348 | "" when the vendor name has no stop suffix; otherwise "" or an entry of the stop table |
| Template2.ShipToFirst | main.py:334-343 | the entry chosen is the lowest-index one whose leading number equals the stop number as text |
| Template2.ShipToMissing | main.py:334-348 | when no entry opens with the stop number, ship-to is "" |
| Template2.FindShipTo | main.py:325-348 | the search loop, left at the first hit, computes the ship-to |
| Template2.Template2Records | main.py:315-377 | one record per line item |
| Template2.Template2Fields | main.py:309-377 | record i pairs line item i with the i-th pickup date, delivery date and pallet description, each "" when that index does not exist; dates are converted only when present; tag "Template-1", stop 1 as ship-from, no pallet figure, the item's vendor number, cubes, weight, pieces and PO number as captured, cleaned vendor name, ship-to from its collapsed vendor text, and shipment type |
| Template2.NextRecord | main.py:360-377 | the record assembled in the loop body extends the records before it |
| Template2.BuildRecord | main.py:316-375 | the loop body for line item i builds record i |
| Template2.ProcessTemplate2 | main.py:256-379 | the builder produces exactly the records of the document, in line-item order |
| Parser.RecordsFor | main.py:401-405 | the dispatched builder yields one record per line item of the detected template |
| Parser.BaseName | main.py:412 | `Path(path).name`: a suffix of the path holding no '/', and either the whole path or preceded by a '/' |
| Parser.BaseNameInDirectory | main.py:435-444 | a file `name` found in directory `dir` (the path `dir/name`) is reported under `name` |
| Parser.ParsePdf | main.py:393-416 | detect, build the stop table, dispatch and count give the parse outcome |
| Parser.ParseOutcomeFacts | main.py:381-423 | a parse fails exactly on a stop-table index error; otherwise the count equals the number of records, "Template-2" is reported exactly when the pickup marker occurs, there is one record per line item of that template, and the file name is the last component of the document's path |
| Parser.ParsedRecordsTagged | main.py:403-405 | every record of a parse is tagged "Template-1" and has no pallet figure, whichever template was detected |
| Parser.EntryFor | main.py:444-448 | a file that parsed contributes its result (with its base name as `file_name`); a file that failed contributes its full path and the error |
| Parser.Entries | main.py:443-448 | one entry per document |
| Parser.DirectorySpec | main.py:436-457 | no documents give the "no PDF files" error; otherwise the total is the number of files, and entry i is file i's result when it parsed, or file i's full path with its error when it did not |
| Parser.ParseDirectory | main.py:425-464 | the directory loop computes one entry per file, in order |

## Left out

- PDF text extraction (`extract_text_from_pdf`): it calls a foreign library and reads a file. The text is an input.
- `save_result_to_downloads`, `get_downloads_folder` and `main`: they are filesystem writes and console I/O.
- The file-existence checks of `parse_pdf` and `parse_directory` and the directory globbing: they are filesystem queries. A directory is a sequence of documents, each with its path.
- Parser.BaseName takes the text after the last '/'. The path normalisation of `pathlib` (trailing separators, "." components) is not modelled; paths found by globbing a directory need none.
- The `processed_at` timestamps: they read the clock.
- Logging: it has no effect on results.
- The whole-document `finditer` scans are inputs (sequences of matches), not a regex engine. This covers the line-item patterns of both templates, the pallet, pickup and delivery date patterns, the stop blocks, the "Pickup On"/"Deliver On" searches and the Template-1 fallback description search.
- Parser.WellFormed, Template1.WellFormed, Template2.WellFormed: PO captures are `(\d+)` groups, so they are assumed to be digit strings. For a PO number containing regex metacharacters, `extract_shipment_type` would splice it into its pattern as regex syntax. The scanner reads it literally.
- Unicode digits and word characters for `\d` and `\w`, and Unicode case folding under `IGNORECASE`: the model uses ASCII only.
- Template2.StopSuffixAt reads `(.+)$` as "at least one character after the dash". This is exact for collapsed names, which contain no newline, and the source only ever passes collapsed names.
- `strptime` locale: the month abbreviations are the fixed English ones.
- `strftime("%Y")` for years below 1000: the model pads to four digits.
- `parse_pdf`'s general exception-to-error wrapping (main.py:418-423) is reduced to the stop-0 index error, with the message "list assignment index out of range". Within the model's inputs this is the only exception that depends on the document's content; the two below are limits of the interpreter, not of the code.
- Stops.ExtractStopDestinations: the stop number arrives as an unbounded `nat`. `int(match.group(1))` at main.py:162 raises ValueError for a digit string longer than the interpreter's integer-conversion limit (4300 digits by default since CPython 3.11), and a huge stop number makes the padding loop at main.py:166-167 exhaust memory. `parse_pdf` turns either into an error result, where the model returns a stop table.
- The "appending text keeps a document Template 2" property of detection is not stated.
- Dates.ConvertDateFormat: its contract is stated by the lemma Dates.ConvertDateFormatResult rather than on the function itself.
