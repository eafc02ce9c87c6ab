/**
 * The archive page for one domain (frontend/src/pages/Archive.tsx): the
 * loaded snapshots, the filtered list derived from them, the filter record,
 * the selection and the export dialog flag, together with the handlers that
 * update them. The backend response is a parameter (`None` when the request
 * fails); the effect that re-filters after a change of filters or snapshots
 * is the method `RunFilterEffect`.
 */
module ArchivePage {
  import opened Maybe
  import opened Seqs
  import opened Text
  import opened Snapshots
  import opened SnapshotFilters
  import opened FilterEngine
  import opened Selection

  function MatchesAndSelected(f: FilterOptions, sel: seq<string>): Snapshot -> bool {
    (s: Snapshot) => Matches(f, s) && s.timestamp in sel
  }

  /**
   * The export dialog receives exactly the loaded snapshots that pass the
   * filters and are selected, in load order.
   */
  lemma ExportIsMatchingAndSelected(list: seq<Snapshot>, f: FilterOptions, sel: seq<string>)
    ensures SelectedOf(Apply(list, f), sel) == Filter(list, MatchesAndSelected(f, sel))
    ensures IsSubsequence(SelectedOf(Apply(list, f), sel), list)
  {
    FilterTwice(list, MatchesFilters(f), TimestampIn(sel), MatchesAndSelected(f, sel));
    FilterIsSubsequence(list, MatchesAndSelected(f, sel));
  }

  /** A selected snapshot that the filters hide is not exported. */
  lemma HiddenSelectionNotExported(list: seq<Snapshot>, f: FilterOptions, sel: seq<string>, s: Snapshot)
    requires s in list && s.timestamp in sel && !Matches(f, s)
    ensures s !in SelectedOf(Apply(list, f), sel)
  {
  }

  /** `{filteredSnapshots.length} of {snapshots.length} snapshot(s) shown`. */
  function HeaderCount(shown: nat, total: nat): (r: string)
    ensures r == NatToString(shown) + " of " + NatToString(total) + " snapshot shown" <==> total == 1
    ensures r == NatToString(shown) + " of " + NatToString(total) + " snapshots shown" <==> total != 1
  {
    var prefix := NatToString(shown) + " of " + NatToString(total) + " ";
    assert |prefix + "snapshot shown"| != |prefix + "snapshots shown"|;
    assert prefix + "snapshot shown" == NatToString(shown) + " of " + NatToString(total) + " snapshot shown";
    assert prefix + "snapshots shown" == NatToString(shown) + " of " + NatToString(total) + " snapshots shown";
    prefix + CountNoun(total) + " shown"
  }

  /** The text of the empty list panel, chosen by whether any snapshot is loaded at all. */
  function EmptyListMessage(domain: string, total: nat): string {
    if total == 0 then "No archived versions found for " + domain
    else "No snapshots match your current filters"
  }

  class Archive {
    const domain: string
    var snapshots: seq<Snapshot>
    var filteredSnapshots: seq<Snapshot>
    var loading: bool
    var error: Option<string>
    var filters: FilterOptions
    var selectedSnapshots: seq<string>
    var showExportModal: bool

    /** The filtered list is always the loaded list with some snapshots left out, in load order. */
    ghost predicate Valid()
      reads this
    {
      IsSubsequence(filteredSnapshots, snapshots)
    }

    constructor (domain: string)
      ensures this.domain == domain
      ensures snapshots == [] && filteredSnapshots == [] && loading && error.None?
      ensures filters == NoFilters && selectedSnapshots == [] && !showExportModal
      ensures Valid()
    {
      this.domain := domain;
      snapshots := [];
      filteredSnapshots := [];
      loading := true;
      error := None;
      filters := NoFilters;
      selectedSnapshots := [];
      showExportModal := false;
    }

    /**
     * The load effect. Without a domain nothing happens. Otherwise a response
     * sets both lists to the loaded snapshots, and a failure records the
     * backend message and keeps the lists; loading ends either way.
     */
    method FetchSnapshots(response: Option<seq<Snapshot>>)
      requires Valid()
      modifies this
      ensures Valid()
      ensures filters == old(filters) && selectedSnapshots == old(selectedSnapshots)
      ensures showExportModal == old(showExportModal)
      ensures domain == "" ==>
                snapshots == old(snapshots) && filteredSnapshots == old(filteredSnapshots) &&
                loading == old(loading) && error == old(error)
      ensures domain != "" ==> !loading
      ensures domain != "" && response.Some? ==>
                snapshots == response.value && filteredSnapshots == response.value && error.None?
      ensures domain != "" && response.None? ==>
                snapshots == old(snapshots) && filteredSnapshots == old(filteredSnapshots) &&
                error == Some(LoadFailedMessage)
    {
      if domain == "" {
        return;
      }
      loading := true;
      error := None;
      if response.Some? {
        snapshots := response.value;
        filteredSnapshots := response.value;
        SubsequenceReflexive(snapshots);
      } else {
        error := Some(LoadFailedMessage);
      }
      loading := false;
    }

    /** The filter effect: the filtered list becomes the loaded list passed through every active filter. */
    method RunFilterEffect()
      modifies this
      ensures filteredSnapshots == Apply(snapshots, filters)
      ensures Valid()
      ensures snapshots == old(snapshots) && filters == old(filters) && loading == old(loading)
      ensures error == old(error) && selectedSnapshots == old(selectedSnapshots)
      ensures showExportModal == old(showExportModal)
    {
      filteredSnapshots := RunFilterPasses(snapshots, filters);
      ApplyIsSubsequence(snapshots, filters);
    }

    /** The filter panel emits new options; the effect then re-filters. */
    method ChangeFilters(f: FilterOptions)
      modifies this
      ensures filters == f && filteredSnapshots == Apply(snapshots, f)
      ensures Valid()
      ensures snapshots == old(snapshots) && loading == old(loading) && error == old(error)
      ensures selectedSnapshots == old(selectedSnapshots) && showExportModal == old(showExportModal)
    {
      filters := f;
      RunFilterEffect();
    }

    /** The row checkbox in the list view. */
    method ToggleRow(ts: string, checked: bool)
      modifies this
      ensures selectedSnapshots == CheckboxChange(old(selectedSnapshots), ts, checked)
      ensures snapshots == old(snapshots) && filteredSnapshots == old(filteredSnapshots)
      ensures filters == old(filters) && loading == old(loading) && error == old(error)
      ensures showExportModal == old(showExportModal)
    {
      selectedSnapshots := CheckboxChange(selectedSnapshots, ts, checked);
    }

    /** The bulk bar and the calendar hand back a whole new selection. */
    method ChangeSelection(sel: seq<string>)
      modifies this
      ensures selectedSnapshots == sel
      ensures snapshots == old(snapshots) && filteredSnapshots == old(filteredSnapshots)
      ensures filters == old(filters) && loading == old(loading) && error == old(error)
      ensures showExportModal == old(showExportModal)
    {
      selectedSnapshots := sel;
    }

    /** The page's `handleBulkExport` only opens the dialog. */
    method OpenExportModal()
      modifies this
      ensures showExportModal
      ensures snapshots == old(snapshots) && filteredSnapshots == old(filteredSnapshots)
      ensures filters == old(filters) && selectedSnapshots == old(selectedSnapshots)
      ensures loading == old(loading) && error == old(error)
    {
      showExportModal := true;
    }

    method CloseExportModal()
      modifies this
      ensures !showExportModal
      ensures snapshots == old(snapshots) && filteredSnapshots == old(filteredSnapshots)
      ensures filters == old(filters) && selectedSnapshots == old(selectedSnapshots)
      ensures loading == old(loading) && error == old(error)
    {
      showExportModal := false;
    }

    /** The snapshots handed to the export dialog: the shown ones whose timestamp is selected, in shown order. */
    function ExportedSnapshots(): (r: seq<Snapshot>)
      reads this
      ensures forall s :: s in r <==> s in filteredSnapshots && s.timestamp in selectedSnapshots
    {
      SelectedOf(filteredSnapshots, selectedSnapshots)
    }

    /** What clicking "View" on a row does. */
    function View(s: Snapshot): (r: ViewOutcome)
      reads this
      ensures r.NavigateTo? <==> ViewEnabled(s)
      ensures r.NavigateTo? ==> r.path == "/snapshot/" + domain + "/" + s.timestamp
      ensures r.Unavailable? ==> r.notice == Notice("Snapshot unavailable", "This snapshot is " + s.status, true)
    {
      ViewSnapshot(domain, s)
    }

    /** The filters, the bulk bar and the list tabs are rendered only once some snapshot is loaded. */
    predicate ListPanelRendered()
      reads this
    {
      |snapshots| > 0
    }

    /**
     * The message of the empty list view. It appears exactly when the list
     * tabs are rendered and no snapshot passes the filters, and since the tabs
     * need a loaded snapshot it always blames the filters; the "no archived
     * versions" branch cannot be reached.
     */
    function EmptyPanelText(): (r: Option<string>)
      reads this
      ensures r.Some? <==> ListPanelRendered() && filteredSnapshots == []
      ensures r.Some? ==> r.value == "No snapshots match your current filters"
      ensures r.Some? ==> r.value != "No archived versions found for " + domain
    {
      if ListPanelRendered() && |filteredSnapshots| == 0 then
        assert ("No archived versions found for " + domain)[3] == 'a';
        Some(EmptyListMessage(domain, |snapshots|))
      else
        None
    }
  }

  /** After a load with no filters set, the filter effect leaves every loaded snapshot shown. */
  method LoadThenFilter(domain: string, loaded: seq<Snapshot>) returns (shown: seq<Snapshot>)
    requires domain != ""
    ensures shown == loaded
  {
    var page := new Archive(domain);
    page.FetchSnapshots(Some(loaded));
    page.RunFilterEffect();
    ApplyNoFilters(loaded);
    shown := page.filteredSnapshots;
  }
}
