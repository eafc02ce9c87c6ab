/**
 * The selection shared by the archive page, the bulk-operations bar and the
 * calendar: a list of snapshot timestamps, edited by the row checkbox
 * (frontend/src/pages/Archive.tsx) and the calendar's per-snapshot toggle
 * (frontend/src/components/CalendarView.tsx), and resolved against a list of
 * snapshots (frontend/src/components/BulkOperations.tsx). The list may hold
 * the same timestamp more than once; removing an id removes every copy.
 */
module Selection {
  import opened Seqs
  import opened Snapshots

  function NotId(ts: string): string -> bool { t => t != ts }

  /** `selection.filter(t => t !== ts)`: every copy of `ts` goes, every other id keeps its copies and its order. */
  function RemoveId(sel: seq<string>, ts: string): (r: seq<string>)
    ensures ts !in r
    ensures forall t :: t != ts ==> multiset(r)[t] == multiset(sel)[t]
    ensures |r| <= |sel|
  {
    FilterCountAll(sel, NotId(ts));
    Filter(sel, NotId(ts))
  }

  /** Removing keeps the surviving ids in their order. */
  lemma RemoveIdIsSubsequence(sel: seq<string>, ts: string)
    ensures IsSubsequence(RemoveId(sel, ts), sel)
  {
    FilterIsSubsequence(sel, NotId(ts));
  }

  /** Removing an id that is not selected changes nothing. */
  lemma RemoveAbsentId(sel: seq<string>, ts: string)
    requires ts !in sel
    ensures RemoveId(sel, ts) == sel
  {
    FilterKeepsAll(sel, NotId(ts));
  }

  /**
   * The row checkbox's `onChange`: checking appends the timestamp at the end,
   * unchecking removes every copy of it; no other id changes.
   */
  function CheckboxChange(sel: seq<string>, ts: string, checked: bool): (r: seq<string>)
    ensures checked ==> |r| == |sel| + 1 && r[..|sel|] == sel && r[|sel|] == ts
    ensures checked ==> multiset(r)[ts] == multiset(sel)[ts] + 1
    ensures !checked ==> ts !in r
    ensures forall t :: t != ts ==> multiset(r)[t] == multiset(sel)[t]
  {
    if checked then sel + [ts] else RemoveId(sel, ts)
  }

  /**
   * `toggleSnapshotSelection`: an id that is selected is removed (every copy),
   * one that is not is appended; no other id changes.
   */
  function ToggleId(sel: seq<string>, ts: string): (r: seq<string>)
    ensures ts in r <==> ts !in sel
    ensures ts !in sel ==> r == sel + [ts]
    ensures forall t :: t != ts ==> multiset(r)[t] == multiset(sel)[t]
  {
    CheckboxChange(sel, ts, ts !in sel)
  }

  /** Toggling an id that was not selected, twice, restores the selection exactly. */
  lemma ToggleTwiceAbsent(sel: seq<string>, ts: string)
    requires ts !in sel
    ensures ToggleId(ToggleId(sel, ts), ts) == sel
  {
    FilterAppend(sel, [ts], NotId(ts));
    RemoveAbsentId(sel, ts);
    assert Filter([ts], NotId(ts)) == [];
  }

  /** Toggling any id twice restores the set of selected ids (copies of it collapse to one). */
  lemma ToggleTwiceSameIds(sel: seq<string>, ts: string)
    ensures forall t :: t in ToggleId(ToggleId(sel, ts), ts) <==> t in sel
  {
    var once := ToggleId(sel, ts);
    var twice := ToggleId(once, ts);
    forall t
      ensures t in twice <==> t in sel
    {
      if t != ts {
        assert multiset(twice)[t] == multiset(sel)[t];
      }
    }
  }

  /** Toggling a selected id twice can reorder the list: the id comes back at the end. */
  lemma ToggleTwiceReorders()
    ensures ToggleId(ToggleId(["a", "b"], "a"), "a") == ["b", "a"]
  {
    assert ToggleId(["a", "b"], "a") == ["b"] by {
      assert ["a", "b"][1..] == ["b"];
      assert ["b"][1..] == [];
    }
  }

  function TimestampIn(sel: seq<string>): Snapshot -> bool { (s: Snapshot) => s.timestamp in sel }

  /**
   * `getSelectedSnapshots` (and the export dialog's subset): the listed
   * snapshots whose timestamp is selected, in list order.
   */
  function SelectedOf(list: seq<Snapshot>, sel: seq<string>): (r: seq<Snapshot>)
    ensures forall s :: s in r <==> s in list && s.timestamp in sel
    ensures |r| <= |list|
  {
    Filter(list, TimestampIn(sel))
  }

  /** The selected snapshots keep the list's order. */
  lemma SelectedKeepsListOrder(list: seq<Snapshot>, sel: seq<string>)
    ensures IsSubsequence(SelectedOf(list, sel), list)
  {
    FilterIsSubsequence(list, TimestampIn(sel));
  }

  /** Selected ids that match no listed snapshot are ignored. */
  lemma SelectedIgnoresForeignIds(list: seq<Snapshot>, sel: seq<string>, extra: seq<string>)
    requires forall s :: s in list ==> s.timestamp !in extra
    ensures SelectedOf(list, sel + extra) == SelectedOf(list, sel)
  {
    FilterAgree(list, TimestampIn(sel + extra), TimestampIn(sel));
  }

  /** Nothing is selected from a list whose timestamps are all unselected. */
  lemma SelectedNone(list: seq<Snapshot>, sel: seq<string>)
    requires forall s :: s in list ==> s.timestamp !in sel
    ensures SelectedOf(list, sel) == []
  {
    FilterDropsAll(list, TimestampIn(sel));
  }

  /** The order of the selection does not matter, only which ids it holds. */
  lemma SelectedDependsOnIdsOnly(list: seq<Snapshot>, sel: seq<string>, other: seq<string>)
    requires forall t :: t in sel <==> t in other
    ensures SelectedOf(list, sel) == SelectedOf(list, other)
  {
    FilterAgree(list, TimestampIn(sel), TimestampIn(other));
  }
}
