/**
 * The export dialog (src/components/ExportModal.tsx): its options, the three
 * serialisations of the snapshots handed to it (a JSON record, CSV text, and
 * a plain-text listing that stands in for the ZIP archive), the file name
 * and MIME type chosen per format, and the progress and busy state around an
 * export. The current time is a parameter (its ISO-8601 text); the download
 * itself is outside the model and whether it throws is a parameter.
 */
module ExportModal {
  import opened Maybe
  import opened Text
  import opened Snapshots

  datatype Format = Zip | Json | Csv

  datatype ExportOptions = ExportOptions(
    format: Format,
    includeMetadata: bool,
    includeContent: bool,
    includeImages: bool)

  /** The dialog opens with ZIP, metadata and content on, images off. */
  const DefaultOptions := ExportOptions(Zip, true, true, false)

  // ---- JSON: the record handed to JSON.stringify ----

  datatype EntryMetadata = EntryMetadata(exportedAt: string, exportOptions: ExportOptions)

  /** One exported snapshot; an absent `title` or `size` is a key JSON.stringify leaves out. */
  datatype JsonEntry = JsonEntry(
    timestamp: string,
    url: string,
    title: Option<string>,
    status: string,
    size: Option<string>,
    metadata: Option<EntryMetadata>)

  datatype JsonExport = JsonExport(snapshots: seq<JsonEntry>, totalCount: nat, exportedAt: string)

  /** One entry: the snapshot's five fields, plus the export time and options when metadata is on. */
  function JsonEntryOf(s: Snapshot, options: ExportOptions, now: string): (e: JsonEntry)
    ensures e.timestamp == s.timestamp && e.url == s.url && e.title == s.title
    ensures e.status == s.status && e.size == s.size
    ensures e.metadata.Some? <==> options.includeMetadata
    ensures options.includeMetadata ==> e.metadata == Some(EntryMetadata(now, options))
  {
    JsonEntry(s.timestamp, s.url, s.title, s.status, s.size,
              if options.includeMetadata then Some(EntryMetadata(now, options)) else None)
  }

  function JsonRecord(list: seq<Snapshot>, options: ExportOptions, now: string): (r: JsonExport)
    ensures |r.snapshots| == |list| && r.totalCount == |list| && r.exportedAt == now
    ensures forall i :: 0 <= i < |list| ==>
              r.snapshots[i].timestamp == list[i].timestamp && r.snapshots[i].url == list[i].url &&
              r.snapshots[i].title == list[i].title && r.snapshots[i].status == list[i].status &&
              r.snapshots[i].size == list[i].size
    ensures forall i :: 0 <= i < |list| ==>
              (r.snapshots[i].metadata.Some? <==> options.includeMetadata)
    ensures options.includeMetadata ==>
              forall i :: 0 <= i < |list| ==> r.snapshots[i].metadata == Some(EntryMetadata(now, options))
  {
    JsonExport(seq(|list|, i requires 0 <= i < |list| => JsonEntryOf(list[i], options, now)), |list|, now)
  }

  function WithoutMetadata(e: JsonEntry): JsonEntry { e.(metadata := None) }

  /** Metadata only adds keys: dropping them gives the record exported with metadata off. */
  lemma MetadataOnlyAddsKeys(list: seq<Snapshot>, options: ExportOptions, now: string)
    ensures var on := JsonRecord(list, options, now);
            var off := JsonRecord(list, options.(includeMetadata := false), now);
            on.totalCount == off.totalCount &&
            seq(|on.snapshots|, i requires 0 <= i < |on.snapshots| => WithoutMetadata(on.snapshots[i])) == off.snapshots
  {
  }

  // ---- CSV ----

  const CsvHeader := "Timestamp,URL,Title,Status,Size"

  /** A field wrapped in double quotes; quotes inside it are not doubled. */
  function Quote(field: string): (r: string)
    ensures multiset(r)['"'] == multiset(field)['"'] + 2
    ensures Unquote(r) == field
  {
    var r := "\"" + field + "\"";
    assert r[1..|r| - 1] == field;
    r
  }

  /** Strips one pair of surrounding double quotes, if there is one. */
  function Unquote(f: string): string {
    if |f| >= 2 && f[0] == '"' && f[|f| - 1] == '"' then f[1..|f| - 1] else f
  }

  /** The five CSV fields: timestamp, url, title or empty, status, size or empty. */
  function CsvFields(s: Snapshot): (r: seq<string>)
    ensures |r| == 5
  {
    [s.timestamp, s.url, OrElse(s.title, ""), s.status, OrElse(s.size, "")]
  }

  function QuoteAll(fields: seq<string>): (r: seq<string>)
    ensures |r| == |fields|
    ensures forall i :: 0 <= i < |fields| ==> r[i] == Quote(fields[i])
  {
    seq(|fields|, i requires 0 <= i < |fields| => Quote(fields[i]))
  }

  function UnquoteAll(fields: seq<string>): (r: seq<string>)
    ensures |r| == |fields|
    ensures forall i :: 0 <= i < |fields| ==> r[i] == Unquote(fields[i])
  {
    seq(|fields|, i requires 0 <= i < |fields| => Unquote(fields[i]))
  }

  function CsvRow(s: Snapshot): string {
    Join(QuoteAll(CsvFields(s)), ",")
  }

  function CsvRows(list: seq<Snapshot>): (r: seq<string>)
    ensures |r| == |list|
    ensures forall i :: 0 <= i < |list| ==> r[i] == CsvRow(list[i])
  {
    seq(|list|, i requires 0 <= i < |list| => CsvRow(list[i]))
  }

  /** The CSV file: the header line, then one row per snapshot in input order, joined by newlines. */
  function CsvText(list: seq<Snapshot>): string {
    Join([CsvHeader] + CsvRows(list), "\n")
  }

  /** Reading a row back: split at commas, strip the quotes. */
  function ParseCsvRow(row: string): seq<string> {
    UnquoteAll(Split(row, ','))
  }

  predicate FieldsAvoid(s: Snapshot, c: char) {
    forall i :: 0 <= i < 5 ==> c !in CsvFields(s)[i]
  }

  lemma QuotedFieldsAvoid(s: Snapshot, c: char)
    requires FieldsAvoid(s, c) && c != '"'
    ensures forall i :: 0 <= i < 5 ==> c !in QuoteAll(CsvFields(s))[i]
  {
    forall i | 0 <= i < 5
      ensures c !in QuoteAll(CsvFields(s))[i]
    {
      assert QuoteAll(CsvFields(s))[i] == "\"" + CsvFields(s)[i] + "\"";
    }
  }

  /** A row whose fields hold no comma reads back as its five fields. */
  lemma CsvRowRoundTrip(s: Snapshot)
    requires FieldsAvoid(s, ',')
    ensures ParseCsvRow(CsvRow(s)) == CsvFields(s)
  {
    QuotedFieldsAvoid(s, ',');
    SplitJoin(QuoteAll(CsvFields(s)), ',');
  }

  /** With no newline in any field, the CSV text splits into the header and one line per snapshot. */
  lemma CsvLines(list: seq<Snapshot>)
    requires forall s :: s in list ==> FieldsAvoid(s, '\n')
    ensures Split(CsvText(list), '\n') == [CsvHeader] + CsvRows(list)
    ensures multiset(CsvText(list))['\n'] == |list|
  {
    var lines := [CsvHeader] + CsvRows(list);
    forall i | 0 <= i < |lines|
      ensures '\n' !in lines[i]
    {
      if i > 0 {
        var s := list[i - 1];
        QuotedFieldsAvoid(s, '\n');
        JoinAvoids(QuoteAll(CsvFields(s)), ",", '\n');
      }
    }
    SplitJoin(lines, '\n');
    JoinSeparatorCount(lines, '\n');
  }

  /** An embedded quote is kept as it is, so the quoted field is not RFC 4180 quoting. */
  lemma EmbeddedQuoteNotDoubled()
    ensures Quote("say \"hi\"") == "\"say \"hi\"\""
  {
  }

  // ---- the plain-text listing that stands in for the ZIP archive ----

  function TextHeader(n: nat): string {
    "Archive Export - " + NatToString(n) + " snapshots"
  }

  function TextLine(s: Snapshot): string {
    s.timestamp + ": " + OrElse(s.title, s.url) + " (" + s.status + ")"
  }

  function TextLines(list: seq<Snapshot>): (r: seq<string>)
    ensures |r| == |list|
    ensures forall i :: 0 <= i < |list| ==> r[i] == TextLine(list[i])
  {
    seq(|list|, i requires 0 <= i < |list| => TextLine(list[i]))
  }

  /** The count line, a blank line, then one line per snapshot. */
  function TextListing(list: seq<Snapshot>): string {
    TextHeader(|list|) + "\n\n" + Join(TextLines(list), "\n")
  }

  predicate LineAvoidsNewline(s: Snapshot) {
    '\n' !in s.timestamp && '\n' !in s.url && '\n' !in s.status &&
    (s.title.Some? ==> '\n' !in s.title.value)
  }

  lemma TextLineAvoidsNewline(s: Snapshot)
    requires LineAvoidsNewline(s)
    ensures '\n' !in TextLine(s)
  {
    assert '\n' !in OrElse(s.title, s.url);
  }

  lemma TextHeaderAvoidsNewline(n: nat)
    ensures '\n' !in TextHeader(n)
  {
    assert '\n' !in NatToString(n);
  }

  lemma TextListingShape(list: seq<Snapshot>)
    ensures TextListing(list) == TextHeader(|list|) + ['\n'] + ("" + ['\n'] + Join(TextLines(list), "\n"))
  {
  }

  lemma TextLinesAvoidNewline(list: seq<Snapshot>)
    requires forall s :: s in list ==> LineAvoidsNewline(s)
    ensures forall i :: 0 <= i < |TextLines(list)| ==> '\n' !in TextLines(list)[i]
  {
    forall i | 0 <= i < |list|
      ensures '\n' !in TextLines(list)[i]
    {
      assert list[i] in list;
      TextLineAvoidsNewline(list[i]);
    }
  }

  /** The listing splits into the count line, a blank line, and one line per snapshot. */
  lemma TextListingLines(list: seq<Snapshot>)
    requires forall s :: s in list ==> LineAvoidsNewline(s)
    ensures Split(TextListing(list), '\n') ==
            [TextHeader(|list|), ""] + (if list == [] then [""] else TextLines(list))
  {
    var header := TextHeader(|list|);
    var lines := TextLines(list);
    var body := Join(lines, "\n");
    TextHeaderAvoidsNewline(|list|);
    TextListingShape(list);
    SplitAfter(header, '\n', "" + ['\n'] + body);
    SplitAfter("", '\n', body);
    assert Split(TextListing(list), '\n') == [header, ""] + Split(body, '\n');
    if list != [] {
      TextLinesAvoidNewline(list);
      SplitJoin(lines, '\n');
    } else {
      assert lines == [];
      assert body == "";
      assert Split(body, '\n') == [""];
    }
  }

  /** The count line names the number of snapshots, readable back from its digits. */
  lemma TextHeaderCount(n: nat)
    ensures var h := TextHeader(n);
            |h| > |"Archive Export - "| + |" snapshots"| &&
            DigitsValue(h[|"Archive Export - "|..|h| - |" snapshots"|]) == n
  {
    var h := TextHeader(n);
    assert h[|"Archive Export - "|..|h| - |" snapshots"|] == NatToString(n);
    NatToStringRoundTrip(n);
  }

  // ---- the file handed to the download ----

  function Extension(format: Format): string {
    match format
    case Json => ".json"
    case Csv => ".csv"
    case Zip => ".txt"
  }

  function MimeType(format: Format): string {
    match format
    case Json => "application/json"
    case Csv => "text/csv"
    case Zip => "text/plain"
  }

  /** `snapshots-<date>.<ext>`, the date being the part of the ISO time before its `T`. */
  function FileName(format: Format, now: string): string {
    "snapshots-" + BeforeFirst(now, 'T') + Extension(format)
  }

  /** For an ISO time `<date>T<rest>` the file name carries the date and the format's extension. */
  lemma FileNameOfIsoTime(format: Format, date: string, rest: string)
    requires 'T' !in date
    ensures FileName(format, date + "T" + rest) == "snapshots-" + date + Extension(format)
  {
    BeforeFirstOf(date, 'T', rest);
  }

  datatype Content = JsonContent(record: JsonExport) | TextContent(text: string)

  datatype ExportFile = ExportFile(name: string, mimeType: string, content: Content)

  /** The file an export produces: JSON, CSV, or (for ZIP) the text listing. */
  function ExportFileFor(options: ExportOptions, list: seq<Snapshot>, now: string): (f: ExportFile)
    ensures f.name == FileName(options.format, now) && f.mimeType == MimeType(options.format)
    ensures options.format == Json <==> f.content.JsonContent?
    ensures options.format == Json ==> f.content == JsonContent(JsonRecord(list, options, now))
    ensures options.format == Csv ==> f.content == TextContent(CsvText(list))
    ensures options.format == Zip ==> f.content == TextContent(TextListing(list))
  {
    var content := match options.format
      case Json => JsonContent(JsonRecord(list, options, now))
      case Csv => TextContent(CsvText(list))
      case Zip => TextContent(TextListing(list));
    ExportFile(FileName(options.format, now), MimeType(options.format), content)
  }

  /** The extension and the MIME type always agree. */
  lemma FileKindsAgree(options: ExportOptions, list: seq<Snapshot>, now: string)
    ensures var f := ExportFileFor(options, list, now);
            (f.mimeType == "application/json" <==> options.format == Json) &&
            (f.mimeType == "text/csv" <==> options.format == Csv) &&
            (f.mimeType == "text/plain" <==> options.format == Zip)
  {
  }

  const ExportFailedNotice := Notice("Export Failed", "Failed to export snapshots", true)

  function ExportCompleteNotice(n: nat): Notice {
    Notice("Export Complete", "Successfully exported " + NatToString(n) + " snapshots", false)
  }

  /** The values the progress bar is set to by the loop: 0, 10, ..., 100. */
  function ProgressSteps(): (r: seq<int>)
    ensures |r| == 11
    ensures forall k :: 0 <= k < 11 ==> r[k] == 10 * k
  {
    seq(11, k requires 0 <= k < 11 => 10 * k)
  }

  /** The loop's progress values start at 0, end at 100 and strictly increase. */
  lemma ProgressIncreases()
    ensures ProgressSteps()[0] == 0 && ProgressSteps()[10] == 100
    ensures forall j, k :: 0 <= j < k < 11 ==> ProgressSteps()[j] < ProgressSteps()[k]
    ensures forall k :: 0 <= k < 11 ==> 0 <= ProgressSteps()[k] <= 100
  {
  }

  /** The dialog's two display flags, as seen after one state update. */
  datatype DialogState = DialogState(exporting: bool, progress: int)

  /** Progress updates made while the busy flag is up. */
  function Busy(steps: seq<int>): (r: seq<DialogState>)
    ensures |r| == |steps|
    ensures forall k :: 0 <= k < |r| ==> r[k] == DialogState(true, steps[k])
  {
    seq(|steps|, k requires 0 <= k < |steps| => DialogState(true, steps[k]))
  }

  /**
   * The states one export passes through, one per `setIsExporting` or
   * `setProgress` call, starting from progress `p0`: raise the flag, reset
   * the progress, the eleven loop steps, drop the flag, reset the progress.
   */
  function ExportTrace(p0: int): seq<DialogState> {
    [DialogState(true, p0), DialogState(true, 0)] + Busy(ProgressSteps()) +
    [DialogState(false, 100), DialogState(false, 0)]
  }

  /**
   * During an export the busy flag stays up through every progress step and
   * drops only at the end; from the reset on, the progress stays within
   * 0..100, climbs strictly through the loop and ends back at 0.
   */
  lemma ExportTraceShape(p0: int)
    ensures |ExportTrace(p0)| == 15
    ensures forall k :: 0 <= k < 13 ==> ExportTrace(p0)[k].exporting
    ensures !ExportTrace(p0)[13].exporting && ExportTrace(p0)[14] == DialogState(false, 0)
    ensures forall k :: 1 <= k < 15 ==> 0 <= ExportTrace(p0)[k].progress <= 100
    ensures forall j, k :: 2 <= j < k < 13 ==> ExportTrace(p0)[j].progress < ExportTrace(p0)[k].progress
  {
    var t := ExportTrace(p0);
    var b := Busy(ProgressSteps());
    assert forall k :: 2 <= k < 13 ==> t[k] == b[k - 2];
  }

  class ExportDialog {
    var options: ExportOptions
    var isExporting: bool
    var progress: int
    /** The `(isExporting, progress)` pair after every update of either, in order. */
    ghost var stateLog: seq<DialogState>

    constructor ()
      ensures options == DefaultOptions && !isExporting && progress == 0 && stateLog == []
    {
      options := DefaultOptions;
      isExporting := false;
      progress := 0;
      stateLog := [];
    }

    method ChooseFormat(format: Format)
      modifies this
      ensures options == old(options).(format := format)
      ensures isExporting == old(isExporting) && progress == old(progress) && stateLog == old(stateLog)
    {
      options := options.(format := format);
    }

    method SetIncludeMetadata(checked: bool)
      modifies this
      ensures options == old(options).(includeMetadata := checked)
      ensures isExporting == old(isExporting) && progress == old(progress) && stateLog == old(stateLog)
    {
      options := options.(includeMetadata := checked);
    }

    method SetIncludeContent(checked: bool)
      modifies this
      ensures options == old(options).(includeContent := checked)
      ensures isExporting == old(isExporting) && progress == old(progress) && stateLog == old(stateLog)
    {
      options := options.(includeContent := checked);
    }

    method SetIncludeImages(checked: bool)
      modifies this
      ensures options == old(options).(includeImages := checked)
      ensures isExporting == old(isExporting) && progress == old(progress) && stateLog == old(stateLog)
    {
      options := options.(includeImages := checked);
    }

    /**
     * `handleExport`: raise the busy flag, step the progress from 0 to 100 by
     * tens, build the file for the chosen format and hand it to the download.
     * A download that succeeds reports completion and asks the dialog to
     * close; one that throws reports the failure and leaves it open. Either
     * way the busy flag drops and the progress returns to 0.
     */
    method HandleExport(list: seq<Snapshot>, now: string, downloadThrows: bool)
      returns (download: Option<ExportFile>, notice: Notice, closeRequested: bool)
      modifies this
      ensures stateLog == old(stateLog) + ExportTrace(old(progress))
      ensures !isExporting && progress == 0 && options == old(options)
      ensures downloadThrows ==> download.None? && notice == ExportFailedNotice && !closeRequested
      ensures !downloadThrows ==>
                download == Some(ExportFileFor(old(options), list, now)) &&
                notice == ExportCompleteNotice(|list|) && closeRequested
    {
      isExporting := true;
      stateLog := stateLog + [DialogState(isExporting, progress)];
      progress := 0;
      stateLog := stateLog + [DialogState(isExporting, progress)];

      var i := 0;
      while i <= 100
        invariant 0 <= i <= 110 && i % 10 == 0
        invariant isExporting && options == old(options)
        invariant stateLog == old(stateLog) + [DialogState(true, old(progress)), DialogState(true, 0)] +
                              Busy(ProgressSteps()[..i / 10])
        invariant i > 0 ==> progress == i - 10
      {
        assert ProgressSteps()[..(i + 10) / 10] == ProgressSteps()[..i / 10] + [i];
        assert Busy(ProgressSteps()[..(i + 10) / 10]) == Busy(ProgressSteps()[..i / 10]) + [DialogState(true, i)];
        progress := i;
        stateLog := stateLog + [DialogState(isExporting, progress)];
        i := i + 10;
      }
      assert ProgressSteps()[..i / 10] == ProgressSteps();

      var file := ExportFileFor(options, list, now);
      if downloadThrows {
        download, notice, closeRequested := None, ExportFailedNotice, false;
      } else {
        download, notice, closeRequested := Some(file), ExportCompleteNotice(|list|), true;
      }

      isExporting := false;
      stateLog := stateLog + [DialogState(isExporting, progress)];
      progress := 0;
      stateLog := stateLog + [DialogState(isExporting, progress)];
    }
  }
}
