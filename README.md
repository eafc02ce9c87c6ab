# Web archive browser — a Dafny model of the front-end core

The repository is a browser front-end for looking at archived snapshots of web
sites; its backend is a set of stubs and library calls. This project models the
in-memory logic of the front-end and proves properties of it:

- the archive page for one domain (`frontend/src/pages/Archive.tsx`): loading,
  the four filter passes (status, size bucket, inclusive date range,
  case-insensitive title/URL search), row selection, view gating and the subset
  handed to the export dialog — a class `ArchivePage.Archive`;
- the bulk operations bar (`frontend/src/components/BulkOperations.tsx`):
  select-all, which compares lengths only, and the export/delete handlers with
  their busy flag — a class `BulkOperations.BulkBar`;
- the calendar view (`frontend/src/components/CalendarView.tsx`): the fold that
  groups snapshots by day (a method with a loop), the group shown for a picked
  day and the number of days with snapshots;
- the export dialog (`src/components/ExportModal.tsx`): the CSV text, the
  placeholder text listing, the JSON record shape, the file name and MIME type,
  and the progress loop with its flags — a class `ExportModal.ExportDialog`;
- the filter panel (`src/components/SnapshotFilters.tsx`): the options record
  whose keys may be missing, present-but-undefined or set, its merge, clear and
  "active" test, and the date pickers — a class `SnapshotFilters.FilterPanel`;
- the domain search on the landing page (`frontend/src/pages/Index.tsx`): the
  emptiness test, the cleaning chain and the target path, with
  `encodeURIComponent` and its inverse modelled exactly;
- the older archive page (`src/pages/Archive.tsx`): load state, count label,
  empty state, with view gating shared through `Snapshots.ViewSnapshot` — a
  class `LegacyArchivePage.LegacyArchive`.

Inputs the browser or the backend provides are parameters: the backend response
(`None` when the request fails), whether a download or a callback throws, the
current time as an ISO string, a snapshot's parsed time (`Snapshot.time`) and the
calendar day key of a timestamp (a function `DayKey`).

JavaScript semantics are written out where they matter:
- truthiness: `""` and a missing value are falsy;
- object spread over optional keys, where a key can be present with value `undefined`;
- `parseFloat` as an exact leading-decimal parse into `real`;
- `String.prototype.trim` with the ECMAScript white space and line terminators;
- the pattern `\/.*$`, whose `.` does not match a line terminator;
- `encodeURIComponent` as UTF-8 percent-encoding;
- `split('T')[0]` on the ISO time.

The modules are:
- `Maybe`, `Seqs` and `Text`: helpers, namely option, filter and subsequence, and string functions;
- `Snapshots`: the record, status colours and view gating shared by the pages;
- `SizeParse`;
- `SnapshotFilters`;
- `FilterEngine`;
- `Selection`;
- `BulkOperations`;
- `CalendarView`;
- `ExportModal`;
- `ArchivePage`;
- `LegacyArchivePage`;
- `DomainSearch`.

Pressing select-all from a partial selection selects every row, and a second
press clears the selection; it does not restore the earlier one
(`BulkOperations.ToggleSelectAllTwice`).

## Model

| member | source | states |
|---|---|---|
| Snapshots.StatusColor | src/pages/Archive.tsx:54-65 | `completed` gets the green badge, `processing` yellow, `failed` red, and exactly every other status gray (each as an if-and-only-if; the copies in frontend/src/pages/Archive.tsx:114-125 and frontend/src/components/CalendarView.tsx:54-65 are identical) |
| Snapshots.ViewSnapshot | frontend/src/pages/Archive.tsx:94-104 | navigation happens exactly for a `completed` snapshot, to `/snapshot/<domain>/<timestamp>`; otherwise the destructive notice "Snapshot unavailable" / "This snapshot is ⟨status⟩" (the legacy page, src/pages/Archive.tsx:38-48, does the same) |
| Snapshots.ViewProcessingReports | src/pages/Archive.tsx:38-48 | a `processing` snapshot yields the destructive notice "This snapshot is processing" and no navigation |
| Snapshots.OrElse | frontend/src/pages/Archive.tsx:234 | `a \|\| b` on an optional string: the value when it is truthy, the fallback otherwise |
| Snapshots.DisplayTitle | src/pages/Archive.tsx:125 | the row heading is the title when it is a non-empty string, otherwise the domain |
| Snapshots.CountNoun | src/pages/Archive.tsx:89 | "snapshot" exactly when the count is 1, "snapshots" exactly otherwise |
| LegacyArchivePage.FoundLabel | src/pages/Archive.tsx:89 | the label reads "<n> snapshot found" exactly when n is 1 and "<n> snapshots found" exactly otherwise |
| LegacyArchivePage.LegacyArchive.constructor | src/pages/Archive.tsx:14-16 | starts with no snapshots, loading, no error |
| LegacyArchivePage.LegacyArchive.FetchSnapshots | src/pages/Archive.tsx:18-36 | no domain: nothing changes; a response replaces the snapshots and clears the error; a failure keeps the snapshots and records the backend-unreachable message; loading ends either way |
| LegacyArchivePage.FirstLoad | src/pages/Archive.tsx:102 | after the first load the error is shown exactly when the request failed, and the empty panel exactly when it returned no snapshots |
| SizeParse.SkipWhitespace | frontend/src/pages/Archive.tsx:62 | `parseFloat` first drops leading white space: the result is a suffix starting with a non-space |
| SizeParse.LeadingDigits | frontend/src/pages/Archive.tsx:62 | the longest prefix made of digits |
| SizeParse.ParseStartingWithNumber | frontend/src/pages/Archive.tsx:62 | text that starts with a digit or `.` parses as its unsigned number |
| SizeParse.LeadingDigitsAppend | frontend/src/pages/Archive.tsx:62 | digits followed by other text: the digit run is exactly those digits plus the rest's run |
| SizeParse.ParseUnsignedWithPoint | frontend/src/pages/Archive.tsx:62 | digits, a point and digits give whole + fraction / 10^length |
| SizeParse.ParseUnsignedWithoutPoint | frontend/src/pages/Archive.tsx:62 | digits with no point give their integer value |
| SizeParse.UnsignedDecimalWithUnit | frontend/src/pages/Archive.tsx:62 | an unsigned decimal followed by a non-digit unit parses to the decimal's value |
| SizeParse.DecimalWithUnit | frontend/src/pages/Archive.tsx:62 | `<whole>.<fraction><unit>` parses to whole + fraction / 10^length whatever the unit |
| SizeParse.WholeWithUnit | frontend/src/pages/Archive.tsx:62 | `<whole><unit>` parses to the integer when the unit starts with neither a digit nor a point |
| SizeParse.UnitIgnored | frontend/src/pages/Archive.tsx:62 | two size strings that differ only in the unit suffix parse to the same number |
| SizeParse.ExampleSize | frontend/src/pages/Archive.tsx:62 | "2.4MB" parses to exactly 2.4 |
| SnapshotFilters.KeyCount | src/components/SnapshotFilters.tsx:40 | at most four keys, and no key exactly for the empty record `{}` |
| SnapshotFilters.UndefinedKeyIsActive | src/components/SnapshotFilters.tsx:40 | a key present with value `undefined` makes the filters active |
| SnapshotFilters.Override | src/components/SnapshotFilters.tsx:32 | one key of a spread: the update's key wins when present, otherwise the current one stays |
| SnapshotFilters.UpdateFilters | src/components/SnapshotFilters.tsx:31-33 | every key present in the update takes its value, every other key keeps the current value |
| SnapshotFilters.UpdateKeepsKeys | src/components/SnapshotFilters.tsx:31-33 | a merge never loses a key of either side, so an active update leaves the filters active |
| SnapshotFilters.UpdateIdempotent | src/components/SnapshotFilters.tsx:31-33 | merging the same update twice equals merging it once; merging `{}` changes nothing |
| SnapshotFilters.OrUndefined | src/components/SnapshotFilters.tsx:75 | an empty choice is stored as `undefined`, any other as itself (also lines 94 and 160) |
| SnapshotFilters.FilterPanel.constructor | src/components/SnapshotFilters.tsx:26-29 | closed, showing the given filters, with the date range taken from them or `{from: null, to: null}` |
| SnapshotFilters.FilterPanel.ToggleOpen | src/components/SnapshotFilters.tsx:60 | flips the open flag and nothing else |
| SnapshotFilters.FilterPanel.ClearFilters | src/components/SnapshotFilters.tsx:35-38 | resets the date range to empty and emits `{}`, which is not active |
| SnapshotFilters.FilterPanel.ChooseStatus | src/components/SnapshotFilters.tsx:75 | merges `{status: value \|\| undefined}` into the filters |
| SnapshotFilters.FilterPanel.ChooseSize | src/components/SnapshotFilters.tsx:94 | merges `{size: value \|\| undefined}` into the filters |
| SnapshotFilters.FilterPanel.EditSearch | src/components/SnapshotFilters.tsx:160 | merges `{searchContent: value \|\| undefined}` into the filters |
| SnapshotFilters.FilterPanel.PickFrom | src/components/SnapshotFilters.tsx:123-127 | the new From (`null` when deselected) keeps the current To, and the whole range is merged into the filters |
| SnapshotFilters.FilterPanel.PickTo | src/components/SnapshotFilters.tsx:143-147 | the new To (`null` when deselected) keeps the current From, and the whole range is merged into the filters |
| FilterEngine.TruthyText | frontend/src/pages/Archive.tsx:54 | a criterion applies exactly when its key holds a non-empty string, and then it is that string |
| FilterEngine.DateCriterion | frontend/src/pages/Archive.tsx:73 | the date pass runs exactly when a range is set with at least one bound |
| FilterEngine.PassStep | frontend/src/pages/Archive.tsx:51-91 | running one more pass on the survivors of the first k passes gives the survivors of the first k+1 |
| FilterEngine.StatusStep | frontend/src/pages/Archive.tsx:54-56 | the status pass turns "no pass yet" into "survives pass 1" |
| FilterEngine.SizeStep | frontend/src/pages/Archive.tsx:59-70 | the size pass turns "survives pass 1" into "survives pass 2" |
| FilterEngine.DateStep | frontend/src/pages/Archive.tsx:73-80 | the date pass turns "survives pass 2" into "survives pass 3" |
| FilterEngine.SearchStep | frontend/src/pages/Archive.tsx:83-89 | the search pass turns "survives pass 3" into "survives every pass" |
| FilterEngine.RunFilterPasses | frontend/src/pages/Archive.tsx:50-92 | the pass-by-pass reassignment of `filtered` yields the loaded list filtered by the conjunction of all active criteria |
| FilterEngine.ApplyIsSubsequence | frontend/src/pages/Archive.tsx:50-92 | the filtered list is an order-preserving subsequence of the loaded list |
| FilterEngine.ApplyWithoutCriteria | frontend/src/pages/Archive.tsx:50-92 | when no criterion applies, the filtered list is the loaded list |
| FilterEngine.ApplyNoFilters | frontend/src/pages/Archive.tsx:50-92 | with `{}` the filtered list is the loaded list |
| FilterEngine.ActiveYetFiltersNothing | frontend/src/pages/Archive.tsx:54 | `{status: undefined}` counts as active in the panel yet filters nothing |
| FilterEngine.ApplyStatusOnly | frontend/src/pages/Archive.tsx:54-56 | with only a status set, exactly the loaded snapshots of that status are kept, in order |
| FilterEngine.ApplyIdempotent | frontend/src/pages/Archive.tsx:50-92 | filtering the filtered list again changes nothing |
| FilterEngine.SizeRequiresValue | frontend/src/pages/Archive.tsx:61 | a snapshot without a (non-empty) size is in no bucket |
| FilterEngine.SizeBucketsPartition | frontend/src/pages/Archive.tsx:63-66 | for a parsed size v: small iff v < 1, medium iff 1 ≤ v ≤ 5, large iff v > 5, and exactly one of them holds |
| FilterEngine.SizeWithoutNumber | frontend/src/pages/Archive.tsx:62-66 | a size with no leading number (NaN) is in none of the three buckets |
| FilterEngine.SizeUnknownBucket | frontend/src/pages/Archive.tsx:67 | an unknown bucket keeps exactly the snapshots that have a size |
| FilterEngine.ExampleSizeIsMedium | frontend/src/pages/Archive.tsx:59-69 | "2.4MB" is medium and neither small nor large |
| FilterEngine.DateBoundsInclusive | frontend/src/pages/Archive.tsx:76-78 | kept iff not before a set From and not after a set To; a missing bound imposes nothing |
| FilterEngine.ExampleDateRange | frontend/src/pages/Archive.tsx:73-80 | with the range [10, 20], times 5, 15 and 21 leave only the snapshot at 15 |
| FilterEngine.SearchIgnoresTermCase | frontend/src/pages/Archive.tsx:84 | the search term's case does not matter |
| FilterEngine.SearchUrlOnly | frontend/src/pages/Archive.tsx:86-87 | without a title, a snapshot is kept iff the lowercased URL contains the lowercased term |
| FilterEngine.ExampleSearch | frontend/src/pages/Archive.tsx:83-89 | the term "HOME" finds the title "home page" |
| Selection.RemoveId | frontend/src/pages/Archive.tsx:226 | `filter(t => t !== ts)`: no occurrence of the id is left, every other id keeps its multiplicity |
| Selection.RemoveIdIsSubsequence | frontend/src/pages/Archive.tsx:226 | removal keeps the order of the remaining ids |
| Selection.RemoveAbsentId | frontend/src/pages/Archive.tsx:226 | removing an absent id leaves the selection as it is |
| Selection.CheckboxChange | frontend/src/pages/Archive.tsx:223-228 | checking appends the id at the end; unchecking removes every occurrence; other ids keep their multiplicity |
| Selection.ToggleId | frontend/src/components/CalendarView.tsx:46-52 | afterwards the id is selected exactly when it was not; an absent id is appended; other ids keep their multiplicity |
| Selection.ToggleTwiceAbsent | frontend/src/components/CalendarView.tsx:46-52 | toggling an absent id twice restores the list exactly |
| Selection.ToggleTwiceSameIds | frontend/src/components/CalendarView.tsx:46-52 | toggling any id twice restores the set of selected ids |
| Selection.ToggleTwiceReorders | frontend/src/components/CalendarView.tsx:46-52 | but not always the order: `["a","b"]` toggled twice on "a" becomes `["b","a"]` |
| Selection.SelectedOf | frontend/src/components/BulkOperations.tsx:39-41 | a snapshot is in the result exactly when it is listed and its timestamp is selected |
| Selection.SelectedKeepsListOrder | frontend/src/components/BulkOperations.tsx:39-41 | the result keeps list order |
| Selection.SelectedIgnoresForeignIds | frontend/src/components/BulkOperations.tsx:39-41 | selected ids that name no listed snapshot change nothing |
| Selection.SelectedNone | frontend/src/components/BulkOperations.tsx:39-41 | when no listed timestamp is selected, nothing is resolved |
| Selection.SelectedDependsOnIdsOnly | frontend/src/components/BulkOperations.tsx:39-41 | only the set of selected ids matters, not their order or repetition |
| BulkOperations.Timestamps | frontend/src/components/BulkOperations.tsx:35 | the list's timestamps, one per snapshot, in list order |
| BulkOperations.ToggleSelectAll | frontend/src/components/BulkOperations.tsx:31-37 | `[]` when all are selected, otherwise the list's timestamps in list order |
| BulkOperations.SelectAllSelectsEverything | frontend/src/components/BulkOperations.tsx:35-41 | after selecting all, every listed snapshot resolves as selected |
| BulkOperations.ToggleSelectAllTwice | frontend/src/components/BulkOperations.tsx:28-37 | on a non-empty list a select-all makes "all selected" hold, so a second press yields `[]` |
| BulkOperations.AllSelectedComparesLengthsOnly | frontend/src/components/BulkOperations.tsx:28 | one listed snapshot and one foreign selected id count as "all selected" although nothing listed is selected |
| BulkOperations.ExportStartedNotice | frontend/src/components/BulkOperations.tsx:50-53 | the success notice reads "Exporting ⟨n⟩ snapshots...", not destructive |
| BulkOperations.ExportStartedNamesCount | frontend/src/components/BulkOperations.tsx:52 | equal export notices imply equal counts, so the notice names the count |
| BulkOperations.DeletedNotice | frontend/src/components/BulkOperations.tsx:73-76 | the success notice reads "Deleted ⟨n⟩ snapshots", not destructive |
| BulkOperations.DeletedNamesCount | frontend/src/components/BulkOperations.tsx:75 | equal delete notices imply equal counts, so the notice names the count |
| BulkOperations.BulkBar.constructor | frontend/src/components/BulkOperations.tsx:26 | starts not busy with the given selection and an empty event trace |
| BulkOperations.BulkBar.HandleBulkExport | frontend/src/components/BulkOperations.tsx:43-63 | nothing selected: no-op; otherwise the trace gains busy-on, the callback with the resolved snapshots, busy-off, in that order, and the success or failure notice is shown; the selection is unchanged |
| BulkOperations.BulkBar.HandleBulkDelete | frontend/src/components/BulkOperations.tsx:65-86 | nothing selected or no handler: no-op; otherwise the trace gains busy-on, the callback, busy-off; success clears the selection and shows the count, failure keeps it |
| BulkOperations.BulkBar.PressSelectAll | frontend/src/components/BulkOperations.tsx:31-37 | the selection becomes the select-all toggle of the old one |
| CalendarView.GroupByDay | frontend/src/components/CalendarView.tsx:27-32 | the reduce loop builds the grouping function and the key order; groups and keys name the same days; each group is the input filtered to its day |
| CalendarView.GroupsKeys | frontend/src/components/CalendarView.tsx:27-32 | a group exists exactly for the days some snapshot was taken on |
| CalendarView.GroupIsDayFilter | frontend/src/components/CalendarView.tsx:29-30 | each group holds exactly its day's snapshots in input order; a day without group has none |
| CalendarView.DayKeysDistinct | frontend/src/components/CalendarView.tsx:40 | each day key is listed once |
| CalendarView.SnapshotInItsGroup | frontend/src/components/CalendarView.tsx:27-32 | every snapshot is in the group of its own day |
| CalendarView.SizeOfGroupsUpdate | frontend/src/components/CalendarView.tsx:29-30 | replacing one group changes the total size by the change of that group |
| CalendarView.GroupSizesSum | frontend/src/components/CalendarView.tsx:27-32 | the group sizes add up to the number of snapshots |
| CalendarView.SelectedDateSnapshots | frontend/src/components/CalendarView.tsx:35-37 | empty without a picked day or a group for it, otherwise that day's group |
| CalendarView.ShownForDay | frontend/src/components/CalendarView.tsx:35-37 | the snapshots shown for a day are exactly that day's snapshots, in input order |
| CalendarView.DaysCountDistinctDays | frontend/src/components/CalendarView.tsx:40 | the "days with snapshots" figure (line 100) is the number of distinct days |
| ExportModal.JsonEntryOf | src/components/ExportModal.tsx:54-63 | the five fields are copied from the snapshot; the metadata part is present exactly when metadata is included, and then records the export time and the options |
| ExportModal.JsonRecord | src/components/ExportModal.tsx:53-67 | one entry per snapshot in input order with its five fields, `totalCount` the count, the export time recorded; with metadata on, every entry carries the export time and the options |
| ExportModal.MetadataOnlyAddsKeys | src/components/ExportModal.tsx:60-63 | switching metadata on only adds the metadata part to each entry |
| ExportModal.Quote | src/components/ExportModal.tsx:82 | wrapping adds exactly two quote characters and unwrapping gives the field back |
| ExportModal.CsvFields | src/components/ExportModal.tsx:76-82 | five fields: timestamp, url, title or empty, status, size or empty |
| ExportModal.QuoteAll | src/components/ExportModal.tsx:82 | every field wrapped, position by position |
| ExportModal.UnquoteAll | src/components/ExportModal.tsx:82 | every field unwrapped, position by position |
| ExportModal.CsvRows | src/components/ExportModal.tsx:76 | one row per snapshot, in input order |
| ExportModal.QuotedFieldsAvoid | src/components/ExportModal.tsx:82 | a character absent from the fields, other than the quote, is absent from the wrapped fields |
| ExportModal.CsvRowRoundTrip | src/components/ExportModal.tsx:76-82 | splitting a row at commas and unwrapping gives the five fields back when no field holds a comma |
| ExportModal.CsvLines | src/components/ExportModal.tsx:73-83 | with no newline in any field, the text splits into the header then one row per snapshot, and holds exactly n newlines (n+1 lines) |
| ExportModal.EmbeddedQuoteNotDoubled | src/components/ExportModal.tsx:82 | an embedded quote is not doubled, unlike section 2 of RFC 4180 |
| ExportModal.TextLines | src/components/ExportModal.tsx:92-94 | one line per snapshot, in input order |
| ExportModal.TextLineAvoidsNewline | src/components/ExportModal.tsx:93 | a line has no newline when its fields have none |
| ExportModal.TextHeaderAvoidsNewline | src/components/ExportModal.tsx:91 | the header has no newline |
| ExportModal.TextListingShape | src/components/ExportModal.tsx:91-94 | header, newline, blank line, then the lines joined with newlines |
| ExportModal.TextLinesAvoidNewline | src/components/ExportModal.tsx:92-94 | no line has a newline when no snapshot's fields have one |
| ExportModal.TextListingLines | src/components/ExportModal.tsx:91-94 | split at newlines the listing is the header, a blank line, then one line per snapshot |
| ExportModal.TextHeaderCount | src/components/ExportModal.tsx:91 | the number in the header reads back as the snapshot count |
| ExportModal.FileNameOfIsoTime | src/components/ExportModal.tsx:68 | the file name is `snapshots-<date>` plus the format's extension, the date being the ISO time before its `T` |
| ExportModal.ExportFileFor | src/components/ExportModal.tsx:51-97 | name and MIME type by format; for JSON exactly the JSON record of the list, options and time; CSV text for CSV; the text listing otherwise |
| ExportModal.FileKindsAgree | src/components/ExportModal.tsx:68-96 | `.json` goes with `application/json`, `.csv` with `text/csv`, `.txt` with `text/plain` |
| ExportModal.ProgressSteps | src/components/ExportModal.tsx:41 | eleven steps, step k being 10k |
| ExportModal.ProgressIncreases | src/components/ExportModal.tsx:41-44 | progress runs 0 to 100, strictly increasing, within 0–100 |
| ExportModal.ExportTraceShape | src/components/ExportModal.tsx:35-123 | in one export's sequence of 15 flag/progress states the busy flag is up until the finally block drops it, then progress returns to 0; from the reset on progress stays in 0–100 and climbs strictly through the loop |
| ExportModal.ExportDialog.constructor | src/components/ExportModal.tsx:26-33 | default options zip, metadata on, content on, images off; not exporting; progress 0; empty state log |
| ExportModal.ExportDialog.ChooseFormat | src/components/ExportModal.tsx:144-146 | only the format changes |
| ExportModal.ExportDialog.SetIncludeMetadata | src/components/ExportModal.tsx:182-184 | only the metadata flag changes |
| ExportModal.ExportDialog.SetIncludeContent | src/components/ExportModal.tsx:195-197 | only the content flag changes |
| ExportModal.ExportDialog.SetIncludeImages | src/components/ExportModal.tsx:208-210 | only the images flag changes |
| ExportModal.ExportDialog.HandleExport | src/components/ExportModal.tsx:35-126 | the state log gains exactly `ExportModal.ExportTrace` of the old progress; on success the file for the options is downloaded, "Export Complete" is reported and close is requested; on failure "Export Failed" and the dialog stays open; not exporting afterwards either way |
| ArchivePage.ExportIsMatchingAndSelected | frontend/src/pages/Archive.tsx:284 | the export receives exactly the loaded snapshots that pass the filters and are selected, as an order-preserving subsequence |
| ArchivePage.HiddenSelectionNotExported | frontend/src/pages/Archive.tsx:284 | a selected snapshot hidden by the filters is not exported |
| ArchivePage.HeaderCount | frontend/src/pages/Archive.tsx:149 | the header is `<shown> of <total> snapshot shown` exactly when the total is 1, and `<shown> of <total> snapshots shown` exactly when it is not, so the plural follows the total and not the shown count |
| ArchivePage.Archive.EmptyPanelText | frontend/src/pages/Archive.tsx:162-206 | the empty-list message appears exactly when the list block is rendered (some snapshot loaded) and nothing passes the filters, and it then always reads "No snapshots match your current filters", never the "no archived versions" text |
| ArchivePage.Archive.constructor | frontend/src/pages/Archive.tsx:19-25 | empty lists, loading, no error, `{}` filters, no selection, dialog closed |
| ArchivePage.Archive.FetchSnapshots | frontend/src/pages/Archive.tsx:28-47 | no domain: nothing changes; a response sets both lists to it and clears the error; a failure keeps both lists and records the message; loading ends; the subsequence invariant is kept |
| ArchivePage.Archive.RunFilterEffect | frontend/src/pages/Archive.tsx:50-92 | the filtered list becomes the loaded list through every active filter, and nothing else changes |
| ArchivePage.Archive.ChangeFilters | frontend/src/pages/Archive.tsx:167 | new filters, then the filter effect |
| ArchivePage.Archive.ToggleRow | frontend/src/pages/Archive.tsx:223-228 | the selection becomes the checkbox change of the old one |
| ArchivePage.Archive.ChangeSelection | frontend/src/pages/Archive.tsx:177 | the selection handed back by the bulk bar or calendar replaces the old one |
| ArchivePage.Archive.OpenExportModal | frontend/src/pages/Archive.tsx:106-108 | only opens the dialog |
| ArchivePage.Archive.CloseExportModal | frontend/src/pages/Archive.tsx:283 | only closes the dialog |
| ArchivePage.Archive.ExportedSnapshots | frontend/src/pages/Archive.tsx:284 | a snapshot is exported exactly when it is shown and its timestamp is selected |
| ArchivePage.Archive.View | frontend/src/pages/Archive.tsx:252-255 | the View button navigates exactly when enabled, to the snapshot's path, and otherwise shows the "Snapshot unavailable" notice naming the status |
| ArchivePage.LoadThenFilter | frontend/src/pages/Archive.tsx:36-37 | after a load with no filters set, the filter effect shows every loaded snapshot |
| DomainSearch.TrimEmptyIffBlank | frontend/src/pages/Index.tsx:21 | `trim()` gives the empty string exactly when every character is white space |
| DomainSearch.StripProtocol | frontend/src/pages/Index.tsx:32 | one leading `https://` or `http://` is removed, case-sensitively, otherwise the text is unchanged |
| DomainSearch.StripWww | frontend/src/pages/Index.tsx:33 | one leading `www.` is removed, case-sensitively, otherwise the text is unchanged |
| DomainSearch.CutPath | frontend/src/pages/Index.tsx:34 | the result is a prefix of the input |
| DomainSearch.CutPathRemovesSlash | frontend/src/pages/Index.tsx:34 | on one line, the text is cut just before its first `/`, leaving no `/` |
| DomainSearch.CutPathKeepsSlashBeforeNewline | frontend/src/pages/Index.tsx:34 | "a/b", newline, "c" is left whole, `/` included, since `.` does not cross a line end |
| DomainSearch.CleanDomain | frontend/src/pages/Index.tsx:31-35 | the cleaned domain is no longer than the input and has no upper-case letter |
| DomainSearch.CleanDomainHasNoSlash | frontend/src/pages/Index.tsx:34 | input on one line cleans to a domain without `/` |
| DomainSearch.CleanDomainKeepsPlainDomain | frontend/src/pages/Index.tsx:31-35 | a domain with no prefix, no `/` and no capital is unchanged |
| DomainSearch.LowerOfPlain | frontend/src/pages/Index.tsx:35 | text with nothing to strip or cut is only lower-cased |
| DomainSearch.UpperCaseWwwKept | frontend/src/pages/Index.tsx:32-35 | `WWW.` + d cleans to `www.` + lower-cased d: the prefix test precedes lower-casing |
| DomainSearch.CutAtSlash | frontend/src/pages/Index.tsx:34 | d + `/` + path on one line is cut to d |
| DomainSearch.ProtocolThenWww | frontend/src/pages/Index.tsx:31-35 | `https://www.` or `http://www.` + d + `/` + path cleans to lower-cased d |
| DomainSearch.SpacesKept | frontend/src/pages/Index.tsx:21 | surrounding spaces survive cleaning: trim only decides emptiness |
| DomainSearch.Utf8 | frontend/src/pages/Index.tsx:37 | one to four bytes, each below 256, one byte exactly for ASCII |
| DomainSearch.Percent | frontend/src/pages/Index.tsx:37 | `%XY` whose two hex digits read back as the byte |
| DomainSearch.PercentBytesOfEncoding | frontend/src/pages/Index.tsx:37 | the percent escapes of an encoded string read back as its UTF-8 bytes |
| DomainSearch.Utf8WellFormed | frontend/src/pages/Index.tsx:37 | a character's bytes form one well-formed sequence denoting its code point |
| DomainSearch.Utf8DecodeAll | frontend/src/pages/Index.tsx:37 | decoding a string's UTF-8 bytes gives the string back |
| DomainSearch.DecodeEncode | frontend/src/pages/Index.tsx:37 | decoding an encoded component gives the component back |
| DomainSearch.EncodedHasNoSlash | frontend/src/pages/Index.tsx:37 | an encoded component has no `/` |
| DomainSearch.EncodeUnreserved | frontend/src/pages/Index.tsx:37 | letters, digits and `-_.!~*'()` are kept as they are |
| DomainSearch.HandleSearch | frontend/src/pages/Index.tsx:20-38 | "Domain Required" exactly for blank input, otherwise navigation to `/archive/` + the encoded cleaned domain |
| DomainSearch.SearchTarget | frontend/src/pages/Index.tsx:37 | the target is `/archive/` and one segment without `/`, which decodes to the cleaned domain |
| DomainSearch.PlainDomainSearchesItself | frontend/src/pages/Index.tsx:20-38 | a lower-case domain of letters, dots and dashes not starting with `www.` searches for itself |
| DomainSearch.ExampleSearchesItself | frontend/src/pages/Index.tsx:40-45 | each example button's domain (line 122 puts it in the input) searches for itself |
| Text.Lower | frontend/src/pages/Archive.tsx:84-87 | `toLowerCase` keeps the length and lower-cases each character |
| Text.LowerIdempotent | frontend/src/pages/Archive.tsx:84-87 | lower-casing twice is lower-casing once |
| Text.ContainsIff | frontend/src/pages/Archive.tsx:86-87 | `includes` holds exactly when the part occurs at some index |
| Text.NatToStringRoundTrip | src/components/ExportModal.tsx:91 | a count's decimal text reads back as the count |
| Text.SplitJoin | src/components/ExportModal.tsx:83 | splitting a newline-joined list of newline-free lines gives the lines back |
| Text.BeforeFirst | src/components/ExportModal.tsx:68 | `split('T')[0]` is the longest prefix without `T` |

## Left out

- Network I/O: the requests in `frontend/src/utils/api.ts`, their use in the pages, and `frontend/src/pages/SnapshotViewer.tsx`. A response is a parameter (`None` for a failed request). `frontend/src/hooks/useApi.ts` wraps react-query configuration and is not part of this model.
- The backend (`backend/app`): routes, persistence, task queue, browser capture and settings. `backend/app/utils/export.py` only delegates to libraries. None of it is part of this model.
- `frontend/src/pages/ApiDocs.tsx` and `frontend/src/pages/Browse.tsx` are static or mock content. `src/pages/Index.tsx` is an empty check around a timer. They are not part of this model.
- The clock and date formatting (`new Date()`, `toISOString`, `toLocaleString`, date-fns `format`): a snapshot's parsed time, the calendar day key and the current ISO time are inputs. An invalid date (NaN time) is not represented.
- `ExportModal.ExportDialog.HandleExport`: the three `new Date()` calls within one export are one `now`.
- `SizeParse.ParseLeadingDecimal`: `parseFloat` is an exact decimal in `real`. IEEE rounding, exponents (`1e3`) and `Infinity` are not modelled. A text with no leading number plays the part of NaN and fails every comparison.
- `Text.Lower`: `toLowerCase` is ASCII-only here. Unicode case mapping is not modelled.
- `DomainSearch.EncodeURIComponent`: strings are sequences of Unicode scalar values. A lone surrogate, on which the browser throws, is not modelled.
- `DomainSearch.DecodeURIComponent`: an inverse written for the output of the encoder. It does not reject overlong or reserved-escape forms as the browser's decoder does.
- The exact text of `JSON.stringify(…, null, 2)`: only the record shape is modelled (`ExportModal.JsonRecord`).
- Toasts, rendering, the Blob and object-URL download, and the tab switch between list and calendar view (`viewMode`): user-visible effects appear as returned `Notice` values, a returned download and flags.
- The 200 ms waits in the progress loop and interleavings between asynchronous handlers: each handler runs to completion in one call. A callback that throws is a boolean parameter.
- `BulkOperations.BulkBar.HandleBulkExport`: the `onBulkExport` callback is the page's, which only opens the export dialog. The model returns the snapshots handed over rather than calling it.
