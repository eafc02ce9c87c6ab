/**
 * The calendar view (frontend/src/components/CalendarView.tsx): snapshots
 * grouped by the day they were taken, the group shown for the picked day,
 * and the number of days that have snapshots. The day key, `yyyy-MM-dd` of
 * the timestamp in the local timezone, is a parameter `dayKey`.
 */
module CalendarView {
  import opened Maybe
  import opened Seqs
  import opened Snapshots

  type DayKey = string -> string

  function OnDay(dayKey: DayKey, d: string): Snapshot -> bool { (s: Snapshot) => dayKey(s.timestamp) == d }

  /** One step of the reduce: push `s` onto the group of its day, creating the group if it is missing. */
  function AddToGroup(acc: map<string, seq<Snapshot>>, dayKey: DayKey, s: Snapshot): map<string, seq<Snapshot>> {
    var d := dayKey(s.timestamp);
    acc[d := (if d in acc then acc[d] else []) + [s]]
  }

  /** `snapshotsByDate`: the reduce over the list, from the left. */
  function Groups(list: seq<Snapshot>, dayKey: DayKey): map<string, seq<Snapshot>>
    decreases |list|
  {
    if list == [] then map[] else AddToGroup(Groups(list[..|list| - 1], dayKey), dayKey, list[|list| - 1])
  }

  /** `Object.keys(snapshotsByDate)`: the day keys in the order their first snapshot appears. */
  function DayKeys(list: seq<Snapshot>, dayKey: DayKey): seq<string>
    decreases |list|
  {
    if list == [] then []
    else
      var keys := DayKeys(list[..|list| - 1], dayKey);
      var d := dayKey(list[|list| - 1].timestamp);
      if d in keys then keys else keys + [d]
  }

  /**
   * The reduce as the component runs it: one pass over the list that pushes
   * each snapshot into the accumulator's group for its day.
   */
  method GroupByDay(list: seq<Snapshot>, dayKey: DayKey) returns (groups: map<string, seq<Snapshot>>, keys: seq<string>)
    ensures groups == Groups(list, dayKey) && keys == DayKeys(list, dayKey)
    ensures forall d :: d in groups <==> d in keys
    ensures forall d :: d in groups ==> groups[d] == Filter(list, OnDay(dayKey, d))
  {
    groups := map[];
    keys := [];
    var i := 0;
    while i < |list|
      invariant 0 <= i <= |list|
      invariant groups == Groups(list[..i], dayKey)
      invariant keys == DayKeys(list[..i], dayKey)
    {
      assert list[..i + 1][..i] == list[..i];
      var s := list[i];
      var d := dayKey(s.timestamp);
      if d !in groups {
        GroupsKeys(list[..i], dayKey);
        groups := groups[d := []];
      }
      if d !in keys {
        keys := keys + [d];
      }
      groups := groups[d := groups[d] + [s]];
      i := i + 1;
    }
    assert list[..|list|] == list;
    GroupsKeys(list, dayKey);
    forall d | d in groups
      ensures groups[d] == Filter(list, OnDay(dayKey, d))
    {
      GroupIsDayFilter(list, dayKey, d);
    }
  }

  /** Groups and day keys name the same days: exactly the days some snapshot was taken on. */
  lemma {:induction false} GroupsKeys(list: seq<Snapshot>, dayKey: DayKey)
    ensures forall d :: d in Groups(list, dayKey) <==> d in DayKeys(list, dayKey)
    ensures forall d :: d in DayKeys(list, dayKey) <==> exists s :: s in list && dayKey(s.timestamp) == d
    decreases |list|
  {
    if list != [] {
      var init := list[..|list| - 1];
      GroupsKeys(init, dayKey);
      assert list == init + [list[|list| - 1]];
      assert forall s :: s in list <==> s in init || s == list[|list| - 1];
    }
  }

  /** Every group holds exactly the snapshots of its day, in input order; a day without snapshots has no group. */
  lemma {:induction false} GroupIsDayFilter(list: seq<Snapshot>, dayKey: DayKey, d: string)
    ensures d in Groups(list, dayKey) ==> Groups(list, dayKey)[d] == Filter(list, OnDay(dayKey, d))
    ensures d !in Groups(list, dayKey) ==> Filter(list, OnDay(dayKey, d)) == []
    decreases |list|
  {
    if list != [] {
      var init := list[..|list| - 1];
      var s := list[|list| - 1];
      GroupIsDayFilter(init, dayKey, d);
      assert list == init + [s];
      FilterAppend(init, [s], OnDay(dayKey, d));
      assert [s][1..] == [];
    }
  }

  /** Day keys are listed once each. */
  lemma {:induction false} DayKeysDistinct(list: seq<Snapshot>, dayKey: DayKey)
    ensures forall i, j :: 0 <= i < j < |DayKeys(list, dayKey)| ==> DayKeys(list, dayKey)[i] != DayKeys(list, dayKey)[j]
    decreases |list|
  {
    if list != [] {
      DayKeysDistinct(list[..|list| - 1], dayKey);
    }
  }

  /** Every snapshot lands in the group of its own day. */
  lemma SnapshotInItsGroup(list: seq<Snapshot>, dayKey: DayKey, s: Snapshot)
    requires s in list
    ensures dayKey(s.timestamp) in Groups(list, dayKey)
    ensures s in Groups(list, dayKey)[dayKey(s.timestamp)]
  {
    GroupsKeys(list, dayKey);
    GroupIsDayFilter(list, dayKey, dayKey(s.timestamp));
  }

  /** The total size of the groups named by `keys` (a missing group counts as empty). */
  function SizeOfGroups(keys: seq<string>, groups: map<string, seq<Snapshot>>): nat
    decreases |keys|
  {
    if keys == [] then 0
    else SizeOfGroups(keys[..|keys| - 1], groups) +
         (if keys[|keys| - 1] in groups then |groups[keys[|keys| - 1]]| else 0)
  }

  /** Changing one group changes the total by the change in that group's size, if its day is listed. */
  lemma {:induction false} SizeOfGroupsUpdate(keys: seq<string>, groups: map<string, seq<Snapshot>>, d: string, g: seq<Snapshot>)
    requires forall i, j :: 0 <= i < j < |keys| ==> keys[i] != keys[j]
    ensures SizeOfGroups(keys, groups[d := g]) ==
            SizeOfGroups(keys, groups) + (if d in keys then |g| - (if d in groups then |groups[d]| else 0) else 0)
    decreases |keys|
  {
    if keys != [] {
      var init := keys[..|keys| - 1];
      SizeOfGroupsUpdate(init, groups, d, g);
      assert keys == init + [keys[|keys| - 1]];
      assert d in keys <==> d in init || d == keys[|keys| - 1];
      assert keys[|keys| - 1] !in init;
    }
  }

  /** The group sizes add up to the number of snapshots. */
  lemma {:induction false} GroupSizesSum(list: seq<Snapshot>, dayKey: DayKey)
    ensures SizeOfGroups(DayKeys(list, dayKey), Groups(list, dayKey)) == |list|
    decreases |list|
  {
    if list != [] {
      var init := list[..|list| - 1];
      var s := list[|list| - 1];
      var d := dayKey(s.timestamp);
      var keys := DayKeys(init, dayKey);
      var groups := Groups(init, dayKey);
      GroupSizesSum(init, dayKey);
      GroupsKeys(init, dayKey);
      DayKeysDistinct(init, dayKey);
      var g := (if d in groups then groups[d] else []) + [s];
      SizeOfGroupsUpdate(keys, groups, d, g);
      if d !in keys {
        assert (keys + [d])[..|keys|] == keys;
        assert SizeOfGroups(keys + [d], groups[d := g]) == SizeOfGroups(keys, groups[d := g]) + 1;
      }
    }
  }

  /**
   * `selectedDateSnapshots`: the group of the picked day (given as its key),
   * or nothing when no day is picked or the day has no group.
   */
  function SelectedDateSnapshots(groups: map<string, seq<Snapshot>>, selectedDay: Option<string>): (r: seq<Snapshot>)
    ensures selectedDay.None? ==> r == []
    ensures selectedDay.Some? && selectedDay.value !in groups ==> r == []
    ensures selectedDay.Some? && selectedDay.value in groups ==> r == groups[selectedDay.value]
  {
    if selectedDay.None? then []
    else if selectedDay.value in groups then groups[selectedDay.value]
    else []
  }

  /** The snapshots shown for a picked day are exactly that day's snapshots, in input order. */
  lemma ShownForDay(list: seq<Snapshot>, dayKey: DayKey, day: string)
    ensures SelectedDateSnapshots(Groups(list, dayKey), Some(day)) == Filter(list, OnDay(dayKey, day))
  {
    GroupIsDayFilter(list, dayKey, day);
  }

  /** `datesWithSnapshots.length`: one entry per day key. */
  function DaysWithSnapshots(list: seq<Snapshot>, dayKey: DayKey): nat {
    |DayKeys(list, dayKey)|
  }

  /** A list without repeats has as many elements as its set. */
  lemma {:induction false} DistinctCardinality(xs: seq<string>)
    requires forall i, j :: 0 <= i < j < |xs| ==> xs[i] != xs[j]
    ensures |set x | x in xs| == |xs|
    decreases |xs|
  {
    if xs != [] {
      var init := xs[..|xs| - 1];
      DistinctCardinality(init);
      assert xs == init + [xs[|xs| - 1]];
      assert (set x | x in xs) == (set x | x in init) + {xs[|xs| - 1]};
      assert xs[|xs| - 1] !in init;
    }
  }

  /** The "days with snapshots" count is the number of distinct days the snapshots were taken on. */
  lemma DaysCountDistinctDays(list: seq<Snapshot>, dayKey: DayKey)
    ensures DaysWithSnapshots(list, dayKey) == |set s | s in list :: dayKey(s.timestamp)|
  {
    var keys := DayKeys(list, dayKey);
    GroupsKeys(list, dayKey);
    DayKeysDistinct(list, dayKey);
    DistinctCardinality(keys);
    assert (set x | x in keys) == (set s | s in list :: dayKey(s.timestamp));
  }
}
