/**
 * The bulk-operations bar (frontend/src/components/BulkOperations.tsx): the
 * "select all" toggle, which compares lengths only, and the export and delete
 * handlers, which raise `isProcessing` around the parent's callback and always
 * lower it afterwards. The callbacks are outside this model; whether each one
 * throws is a parameter.
 */
module BulkOperations {
  import opened Maybe
  import opened Seqs
  import opened Text
  import opened Snapshots
  import opened Selection

  /** `snapshots.map(s => s.timestamp)`. */
  function Timestamps(list: seq<Snapshot>): (r: seq<string>)
    ensures |r| == |list|
    ensures forall i :: 0 <= i < |list| ==> r[i] == list[i].timestamp
  {
    seq(|list|, i requires 0 <= i < |list| => list[i].timestamp)
  }

  /** `allSelected`: a non-empty list and a selection of the same length. */
  predicate AllSelected(list: seq<Snapshot>, sel: seq<string>) {
    |list| > 0 && |sel| == |list|
  }

  /** `toggleSelectAll`: clear when everything counts as selected, otherwise select every listed timestamp in list order. */
  function ToggleSelectAll(list: seq<Snapshot>, sel: seq<string>): (r: seq<string>)
    ensures AllSelected(list, sel) ==> r == []
    ensures !AllSelected(list, sel) ==> |r| == |list| && forall i :: 0 <= i < |list| ==> r[i] == list[i].timestamp
  {
    if AllSelected(list, sel) then [] else Timestamps(list)
  }

  /** Selecting every timestamp selects every listed snapshot. */
  lemma {:induction false} SelectAllSelectsEverything(list: seq<Snapshot>)
    ensures SelectedOf(list, Timestamps(list)) == list
  {
    forall s | s in list
      ensures TimestampIn(Timestamps(list))(s)
    {
      var i :| 0 <= i < |list| && list[i] == s;
      assert Timestamps(list)[i] == s.timestamp;
    }
    FilterKeepsAll(list, TimestampIn(Timestamps(list)));
  }

  /**
   * On a non-empty list, a select-all makes `allSelected` hold, so pressing the
   * button again clears the selection; pressing it twice from a partial
   * selection therefore ends with nothing selected, not with the original.
   */
  lemma ToggleSelectAllTwice(list: seq<Snapshot>, sel: seq<string>)
    requires |list| > 0
    ensures !AllSelected(list, sel) ==> AllSelected(list, ToggleSelectAll(list, sel))
    ensures ToggleSelectAll(list, ToggleSelectAll(list, sel)) ==
            if AllSelected(list, sel) then Timestamps(list) else []
  {
  }

  /** A selection of the right length counts as "all selected" even when it names none of the listed snapshots. */
  lemma AllSelectedComparesLengthsOnly(s: Snapshot)
    requires s.timestamp != "other"
    ensures AllSelected([s], ["other"])
    ensures SelectedOf([s], ["other"]) == []
  {
    SelectedNone([s], ["other"]);
  }

  const BulkExportFailedNotice := Notice("Export Failed", "Failed to start export process", true)
  const DeleteFailedNotice := Notice("Delete Failed", "Failed to delete snapshots", true)

  /** "Exporting <n> snapshots...". */
  function ExportStartedNotice(n: nat): (r: Notice)
    ensures !r.destructive && r.title == "Export Started"
    ensures r.description == "Exporting " + NatToString(n) + " snapshots..."
  {
    Notice("Export Started", "Exporting " + NatToString(n) + " snapshots...", false)
  }

  /** "Deleted <n> snapshots". */
  function DeletedNotice(n: nat): (r: Notice)
    ensures !r.destructive && r.title == "Snapshots Deleted"
    ensures r.description == "Deleted " + NatToString(n) + " snapshots"
  {
    Notice("Snapshots Deleted", "Deleted " + NatToString(n) + " snapshots", false)
  }

  /** Two texts with the same fixed parts around a count are equal only if the counts are. */
  lemma CountBetween(prefix: string, suffix: string, n: nat, m: nat)
    requires prefix + NatToString(n) + suffix == prefix + NatToString(m) + suffix
    ensures n == m
  {
    var t := prefix + NatToString(n) + suffix;
    var a := NatToString(n);
    var b := NatToString(m);
    assert |a| == |b|;
    assert t[|prefix|..|prefix| + |a|] == a;
    assert (prefix + b + suffix)[|prefix|..|prefix| + |b|] == b;
    NatToStringRoundTrip(n);
    NatToStringRoundTrip(m);
  }

  /** The export notice names the number of snapshots: different counts give different texts. */
  lemma ExportStartedNamesCount(n: nat, m: nat)
    requires ExportStartedNotice(n) == ExportStartedNotice(m)
    ensures n == m
  {
    CountBetween("Exporting ", " snapshots...", n, m);
  }

  /** The delete notice names the number of snapshots: different counts give different texts. */
  lemma DeletedNamesCount(n: nat, m: nat)
    requires DeletedNotice(n) == DeletedNotice(m)
    ensures n == m
  {
    CountBetween("Deleted ", " snapshots", n, m);
  }

  /** What happens around a handler, in order: the busy flag is set, or the parent's callback runs. */
  datatype BarEvent = SetProcessing(on: bool) | CallbackRan(snapshots: seq<Snapshot>)

  /**
   * The bar's own state. `selection` stands for the `selectedSnapshots` prop,
   * which the parent replaces with whatever `onSelectionChange` emits;
   * `events` records every change of `isProcessing` and every callback, in order.
   */
  class BulkBar {
    var isProcessing: bool
    var selection: seq<string>
    ghost var events: seq<BarEvent>

    constructor (sel: seq<string>)
      ensures !isProcessing && selection == sel && events == []
    {
      isProcessing := false;
      selection := sel;
      events := [];
    }

    /**
     * `handleBulkExport`: nothing happens when no listed snapshot is selected;
     * otherwise `isProcessing` is raised, the selected snapshots are handed to
     * the export callback, and the flag is lowered again whatever the callback does.
     */
    method HandleBulkExport(list: seq<Snapshot>, exportThrows: bool)
      returns (handedOver: Option<seq<Snapshot>>, notice: Option<Notice>)
      modifies this
      ensures var selected := SelectedOf(list, old(selection));
              if selected == [] then
                handedOver.None? && notice.None? && isProcessing == old(isProcessing) && events == old(events)
              else
                handedOver == Some(selected) && !isProcessing &&
                events == old(events) + [SetProcessing(true), CallbackRan(selected), SetProcessing(false)] &&
                notice == Some(if exportThrows then BulkExportFailedNotice else ExportStartedNotice(|selected|))
      ensures selection == old(selection)
    {
      var selected := SelectedOf(list, selection);
      if |selected| == 0 {
        return None, None;
      }
      isProcessing := true;
      events := events + [SetProcessing(true)];
      handedOver := Some(selected);
      events := events + [CallbackRan(selected)];
      if exportThrows {
        notice := Some(BulkExportFailedNotice);
      } else {
        notice := Some(ExportStartedNotice(|selected|));
      }
      isProcessing := false;
      events := events + [SetProcessing(false)];
    }

    /**
     * `handleBulkDelete`: nothing happens when no listed snapshot is selected or
     * there is no delete callback; otherwise the callback runs with
     * `isProcessing` raised, a successful delete clears the selection and a
     * failed one leaves it as it was, and the flag is lowered in both cases.
     */
    method HandleBulkDelete(list: seq<Snapshot>, hasDeleteHandler: bool, deleteThrows: bool)
      returns (handedOver: Option<seq<Snapshot>>, notice: Option<Notice>)
      modifies this
      ensures var selected := SelectedOf(list, old(selection));
              if selected == [] || !hasDeleteHandler then
                handedOver.None? && notice.None? && events == old(events) &&
                isProcessing == old(isProcessing) && selection == old(selection)
              else
                handedOver == Some(selected) && !isProcessing &&
                events == old(events) + [SetProcessing(true), CallbackRan(selected), SetProcessing(false)] &&
                (if deleteThrows then selection == old(selection) && notice == Some(DeleteFailedNotice)
                 else selection == [] && notice == Some(DeletedNotice(|selected|)))
    {
      var selected := SelectedOf(list, selection);
      if |selected| == 0 || !hasDeleteHandler {
        return None, None;
      }
      isProcessing := true;
      events := events + [SetProcessing(true)];
      handedOver := Some(selected);
      events := events + [CallbackRan(selected)];
      if deleteThrows {
        notice := Some(DeleteFailedNotice);
      } else {
        selection := [];
        notice := Some(DeletedNotice(|selected|));
      }
      isProcessing := false;
      events := events + [SetProcessing(false)];
    }

    /** The "Select All" / "Deselect All" button. */
    method PressSelectAll(list: seq<Snapshot>)
      modifies this
      ensures selection == ToggleSelectAll(list, old(selection))
      ensures isProcessing == old(isProcessing) && events == old(events)
    {
      selection := ToggleSelectAll(list, selection);
    }
  }
}
