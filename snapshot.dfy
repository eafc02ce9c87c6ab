/**
 * The snapshot record the backend returns for one capture of a domain, and
 * the two per-snapshot rules every collection view applies: which badge
 * colour a status gets, and whether the snapshot can be opened.
 */
module Snapshots {
  import opened Maybe
  import opened Text

  /**
   * One archived capture. `timestamp` is the ISO-8601 key used for selection;
   * `time` is what `new Date(timestamp)` yields (milliseconds), supplied by the
   * caller instead of being parsed here. `status` is kept as the raw string so
   * that values outside `completed | processing | failed` keep their meaning.
   */
  datatype Snapshot = Snapshot(
    timestamp: string,
    time: int,
    url: string,
    title: Option<string>,
    status: string,
    size: Option<string>)

  const Completed := "completed"
  const Processing := "processing"
  const Failed := "failed"

  /** JavaScript truthiness of an optional string: present and not empty. */
  predicate Truthy(o: Option<string>) {
    o.Some? && o.value != ""
  }

  /** `o || fallback` for an optional string. */
  function OrElse(o: Option<string>, fallback: string): (r: string)
    ensures Truthy(o) ==> r == o.value
    ensures !Truthy(o) ==> r == fallback
  {
    if Truthy(o) then o.value else fallback
  }

  const GreenBadge := "bg-green-100 text-green-800 dark:bg-green-900 dark:text-green-200"
  const YellowBadge := "bg-yellow-100 text-yellow-800 dark:bg-yellow-900 dark:text-yellow-200"
  const RedBadge := "bg-red-100 text-red-800 dark:bg-red-900 dark:text-red-200"
  const GrayBadge := "bg-gray-100 text-gray-800 dark:bg-gray-900 dark:text-gray-200"

  /** `getStatusColor`: the badge classes for a status; every unknown status is gray. */
  function StatusColor(status: string): (c: string)
    ensures c == GreenBadge <==> status == Completed
    ensures c == YellowBadge <==> status == Processing
    ensures c == RedBadge <==> status == Failed
    ensures c == GrayBadge <==> status !in {Completed, Processing, Failed}
  {
    if status == Completed then GreenBadge
    else if status == Processing then YellowBadge
    else if status == Failed then RedBadge
    else GrayBadge
  }

  /** A transient notification (a toast). */
  datatype Notice = Notice(title: string, description: string, destructive: bool)

  /** What clicking "View" does: navigate to a route, or report why not. */
  datatype ViewOutcome = NavigateTo(path: string) | Unavailable(notice: Notice)

  /** Whether the "View" button is enabled (`disabled={snapshot.status !== 'completed'}`). */
  predicate ViewEnabled(s: Snapshot) {
    s.status == Completed
  }

  /** `handleViewSnapshot`: only a completed snapshot opens; any other reports its status. */
  function ViewSnapshot(domain: string, s: Snapshot): (r: ViewOutcome)
    ensures r.NavigateTo? <==> ViewEnabled(s)
    ensures r.NavigateTo? ==> r.path == "/snapshot/" + domain + "/" + s.timestamp
    ensures r.Unavailable? ==> r.notice == Notice("Snapshot unavailable", "This snapshot is " + s.status, true)
  {
    if s.status == Completed then
      NavigateTo("/snapshot/" + domain + "/" + s.timestamp)
    else
      Unavailable(Notice("Snapshot unavailable", "This snapshot is " + s.status, true))
  }

  /** Viewing a processing snapshot does not navigate and names the status. */
  lemma ViewProcessingReports(domain: string, s: Snapshot)
    requires s.status == Processing
    ensures ViewSnapshot(domain, s) == Unavailable(Notice("Snapshot unavailable", "This snapshot is processing", true))
  {
  }

  /** What both archive pages show when the backend cannot be reached. */
  const LoadFailedMessage := "Failed to load snapshots. Make sure the backend is running on http://localhost:8000"

  /** `snapshot${n !== 1 ? 's' : ''}`: singular for exactly one, plural for every other count, zero included. */
  function CountNoun(n: nat): (r: string)
    ensures r == "snapshot" <==> n == 1
    ensures r == "snapshots" <==> n != 1
  {
    if n != 1 then "snapshots" else "snapshot"
  }

  /** The row heading: `snapshot.title || domain`. */
  function DisplayTitle(s: Snapshot, domain: string): (r: string)
    ensures Truthy(s.title) ==> r == s.title.value
    ensures !Truthy(s.title) ==> r == domain
  {
    OrElse(s.title, domain)
  }
}
