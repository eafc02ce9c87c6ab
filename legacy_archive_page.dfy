/**
 * The older archive page (src/pages/Archive.tsx): it loads the snapshots of
 * a domain and lists them all, with no filters, selection or export. The
 * backend response is a parameter (`None` when the request fails).
 */
module LegacyArchivePage {
  import opened Maybe
  import opened Text
  import opened Snapshots

  /** The "No snapshots found" panel replaces the timeline exactly when nothing is loaded and no error is shown. */
  predicate EmptyStateShown(snapshots: seq<Snapshot>, error: Option<string>) {
    |snapshots| == 0 && error.None?
  }

  /** `{n} snapshot(s) found`. */
  function FoundLabel(n: nat): (r: string)
    ensures r == NatToString(n) + " snapshot found" <==> n == 1
    ensures r == NatToString(n) + " snapshots found" <==> n != 1
  {
    NatToString(n) + " " + CountNoun(n) + " found"
  }

  class LegacyArchive {
    const domain: string
    var snapshots: seq<Snapshot>
    var loading: bool
    var error: Option<string>

    constructor (domain: string)
      ensures this.domain == domain && snapshots == [] && loading && error.None?
    {
      this.domain := domain;
      snapshots := [];
      loading := true;
      error := None;
    }

    /**
     * The load effect. Without a domain nothing happens. Otherwise a response
     * replaces the snapshots and clears the error; a failure records the
     * backend message and keeps the snapshots; loading ends either way.
     */
    method FetchSnapshots(response: Option<seq<Snapshot>>)
      modifies this
      ensures domain == "" ==> snapshots == old(snapshots) && loading == old(loading) && error == old(error)
      ensures domain != "" ==> !loading
      ensures domain != "" && response.Some? ==> snapshots == response.value && error.None?
      ensures domain != "" && response.None? ==> snapshots == old(snapshots) && error == Some(LoadFailedMessage)
    {
      if domain == "" {
        return;
      }
      loading := true;
      error := None;
      if response.Some? {
        snapshots := response.value;
      } else {
        error := Some(LoadFailedMessage);
      }
      loading := false;
    }

    predicate ShowsEmptyState()
      reads this
    {
      EmptyStateShown(snapshots, error)
    }
  }

  /**
   * A first load that fails shows the error instead of the empty panel; a
   * first load that returns nothing shows the empty panel.
   */
  method FirstLoad(domain: string, response: Option<seq<Snapshot>>) returns (emptyPanel: bool, errorShown: bool)
    requires domain != ""
    ensures errorShown <==> response.None?
    ensures emptyPanel <==> response == Some([])
  {
    var page := new LegacyArchive(domain);
    page.FetchSnapshots(response);
    emptyPanel := page.ShowsEmptyState();
    errorShown := page.error.Some?;
  }
}
