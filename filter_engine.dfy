/**
 * The archive page's filter effect (frontend/src/pages/Archive.tsx): four
 * passes over the snapshot list, each applied only when its criterion is
 * truthy. `Apply` is the reference meaning (keep the snapshots every active
 * pass keeps); `RunFilterPasses` is the pass-by-pass computation the effect
 * performs, proved equal to it.
 */
module FilterEngine {
  import opened Maybe
  import opened Seqs
  import opened Text
  import opened Snapshots
  import opened SizeParse
  import opened SnapshotFilters

  // ---- criteria, as the effect tests them for truthiness ----

  /** A string key that is present, defined and not empty. */
  function TruthyText(s: Slot<string>): (r: Option<string>)
    ensures r.Some? <==> s.Defined? && s.value != ""
    ensures r.Some? ==> r.value == s.value
  {
    if s.Defined? && s.value != "" then Some(s.value) else None
  }

  function StatusCriterion(f: FilterOptions): Option<string> { TruthyText(f.status) }

  function SizeCriterion(f: FilterOptions): Option<string> { TruthyText(f.size) }

  function SearchCriterion(f: FilterOptions): Option<string> { TruthyText(f.searchContent) }

  /** `filters.dateRange?.from || filters.dateRange?.to`: a range with at least one bound. */
  function DateCriterion(f: FilterOptions): (r: Option<DateRange>)
    ensures r.Some? <==> f.dateRange.Defined? && (f.dateRange.value.from.Some? || f.dateRange.value.to.Some?)
    ensures r.Some? ==> r.value == f.dateRange.value
  {
    if f.dateRange.Defined? && (f.dateRange.value.from.Some? || f.dateRange.value.to.Some?) then
      Some(f.dateRange.value)
    else None
  }

  // ---- what each pass keeps ----

  predicate HasStatus(status: string, s: Snapshot) {
    s.status == status
  }

  /**
   * The size pass: a snapshot without a truthy size is dropped; otherwise its
   * leading number decides the bucket (a NaN, here `None`, fails every
   * comparison), and an unrecognised bucket name keeps it.
   */
  predicate InSizeBucket(bucket: string, s: Snapshot) {
    if !Truthy(s.size) then false
    else
      var v := ParseLeadingDecimal(s.size.value);
      if bucket == "small" then v.Some? && v.value < 1.0
      else if bucket == "medium" then v.Some? && 1.0 <= v.value <= 5.0
      else if bucket == "large" then v.Some? && v.value > 5.0
      else true
  }

  /** The date pass: not before `from` and not after `to`; an absent bound does not constrain. */
  predicate InDateRange(range: DateRange, s: Snapshot) {
    !(range.from.Some? && s.time < range.from.value) &&
    !(range.to.Some? && s.time > range.to.value)
  }

  /** The content search: the lower-cased term occurs in the lower-cased title or url. */
  predicate MatchesSearch(term: string, s: Snapshot) {
    var t := Lower(term);
    (s.title.Some? && Contains(Lower(s.title.value), t)) || Contains(Lower(s.url), t)
  }

  /** The callbacks handed to `filter` by each pass. */
  function StatusIs(status: string): Snapshot -> bool { s => HasStatus(status, s) }

  function SizeIn(bucket: string): Snapshot -> bool { s => InSizeBucket(bucket, s) }

  function WithinRange(range: DateRange): Snapshot -> bool { s => InDateRange(range, s) }

  function SearchFor(term: string): Snapshot -> bool { s => MatchesSearch(term, s) }

  // ---- the reference meaning ----

  /** Whether pass `k` (0 status, 1 size, 2 date, 3 search) lets `s` through; an inactive pass lets everything through. */
  predicate PassKeeps(f: FilterOptions, k: nat, s: Snapshot) {
    if k == 0 then StatusCriterion(f).None? || HasStatus(StatusCriterion(f).value, s)
    else if k == 1 then SizeCriterion(f).None? || InSizeBucket(SizeCriterion(f).value, s)
    else if k == 2 then DateCriterion(f).None? || InDateRange(DateCriterion(f).value, s)
    else if k == 3 then SearchCriterion(f).None? || MatchesSearch(SearchCriterion(f).value, s)
    else true
  }

  /** `s` survives the first `n` passes. */
  predicate SurvivesFirst(f: FilterOptions, n: nat, s: Snapshot) {
    (n <= 0 || PassKeeps(f, 0, s)) && (n <= 1 || PassKeeps(f, 1, s)) &&
    (n <= 2 || PassKeeps(f, 2, s)) && (n <= 3 || PassKeeps(f, 3, s))
  }

  /** `s` survives all four passes. */
  predicate Matches(f: FilterOptions, s: Snapshot) {
    SurvivesFirst(f, 4, s)
  }

  function SurvivorsOfFirst(f: FilterOptions, n: nat): Snapshot -> bool { s => SurvivesFirst(f, n, s) }

  function MatchesFilters(f: FilterOptions): Snapshot -> bool { s => Matches(f, s) }

  /** The filtered list: the snapshots that match, in their original order. */
  function Apply(list: seq<Snapshot>, f: FilterOptions): seq<Snapshot> {
    Filter(list, MatchesFilters(f))
  }

  // ---- the effect, pass by pass ----

  /** One pass, applied or skipped, takes the survivors of `k` passes to the survivors of `k + 1`. */
  lemma PassStep(list: seq<Snapshot>, f: FilterOptions, k: nat, before: seq<Snapshot>,
                 active: bool, pass: Snapshot -> bool, after: seq<Snapshot>)
    requires k < 4
    requires before == Filter(list, SurvivorsOfFirst(f, k))
    requires after == if active then Filter(before, pass) else before
    requires forall x :: SurvivesFirst(f, k + 1, x) == (SurvivesFirst(f, k, x) && (!active || pass(x)))
    ensures after == Filter(list, SurvivorsOfFirst(f, k + 1))
  {
    if active {
      FilterTwice(list, SurvivorsOfFirst(f, k), pass, SurvivorsOfFirst(f, k + 1));
    } else {
      FilterAgree(list, SurvivorsOfFirst(f, k), SurvivorsOfFirst(f, k + 1));
    }
  }

  lemma StatusStep(list: seq<Snapshot>, f: FilterOptions, before: seq<Snapshot>)
    requires before == Filter(list, SurvivorsOfFirst(f, 0))
    ensures (if StatusCriterion(f).Some? then Filter(before, StatusIs(StatusCriterion(f).value)) else before)
            == Filter(list, SurvivorsOfFirst(f, 1))
  {
    var c := StatusCriterion(f);
    PassStep(list, f, 0, before, c.Some?, StatusIs(c.GetOr("")),
             if c.Some? then Filter(before, StatusIs(c.value)) else before);
  }

  lemma SizeStep(list: seq<Snapshot>, f: FilterOptions, before: seq<Snapshot>)
    requires before == Filter(list, SurvivorsOfFirst(f, 1))
    ensures (if SizeCriterion(f).Some? then Filter(before, SizeIn(SizeCriterion(f).value)) else before)
            == Filter(list, SurvivorsOfFirst(f, 2))
  {
    var c := SizeCriterion(f);
    PassStep(list, f, 1, before, c.Some?, SizeIn(c.GetOr("")),
             if c.Some? then Filter(before, SizeIn(c.value)) else before);
  }

  lemma DateStep(list: seq<Snapshot>, f: FilterOptions, before: seq<Snapshot>)
    requires before == Filter(list, SurvivorsOfFirst(f, 2))
    ensures (if DateCriterion(f).Some? then Filter(before, WithinRange(DateCriterion(f).value)) else before)
            == Filter(list, SurvivorsOfFirst(f, 3))
  {
    var c := DateCriterion(f);
    PassStep(list, f, 2, before, c.Some?, WithinRange(c.GetOr(EmptyRange)),
             if c.Some? then Filter(before, WithinRange(c.value)) else before);
  }

  lemma SearchStep(list: seq<Snapshot>, f: FilterOptions, before: seq<Snapshot>)
    requires before == Filter(list, SurvivorsOfFirst(f, 3))
    ensures (if SearchCriterion(f).Some? then Filter(before, SearchFor(SearchCriterion(f).value)) else before)
            == Filter(list, SurvivorsOfFirst(f, 4))
  {
    var c := SearchCriterion(f);
    PassStep(list, f, 3, before, c.Some?, SearchFor(c.GetOr("")),
             if c.Some? then Filter(before, SearchFor(c.value)) else before);
  }

  /**
   * The effect body: start from a copy of the list and re-filter it once per
   * truthy criterion, in the order status, size, date range, content.
   */
  method RunFilterPasses(snapshots: seq<Snapshot>, filters: FilterOptions) returns (filtered: seq<Snapshot>)
    ensures filtered == Apply(snapshots, filters)
  {
    filtered := snapshots;
    FilterKeepsAll(snapshots, SurvivorsOfFirst(filters, 0));

    StatusStep(snapshots, filters, filtered);
    var status := StatusCriterion(filters);
    if status.Some? {
      filtered := Filter(filtered, StatusIs(status.value));
    }

    SizeStep(snapshots, filters, filtered);
    var size := SizeCriterion(filters);
    if size.Some? {
      filtered := Filter(filtered, SizeIn(size.value));
    }

    DateStep(snapshots, filters, filtered);
    var range := DateCriterion(filters);
    if range.Some? {
      filtered := Filter(filtered, WithinRange(range.value));
    }

    SearchStep(snapshots, filters, filtered);
    var term := SearchCriterion(filters);
    if term.Some? {
      filtered := Filter(filtered, SearchFor(term.value));
    }

    FilterAgree(snapshots, SurvivorsOfFirst(filters, 4), MatchesFilters(filters));
  }

  // ---- properties of the filtered list ----

  /** Filtering only removes snapshots and keeps the order of the rest. */
  lemma ApplyIsSubsequence(list: seq<Snapshot>, f: FilterOptions)
    ensures IsSubsequence(Apply(list, f), list)
  {
    FilterIsSubsequence(list, MatchesFilters(f));
  }

  /** Without a truthy criterion, nothing is filtered out. */
  lemma ApplyWithoutCriteria(list: seq<Snapshot>, f: FilterOptions)
    requires StatusCriterion(f).None? && SizeCriterion(f).None?
    requires DateCriterion(f).None? && SearchCriterion(f).None?
    ensures Apply(list, f) == list
  {
    FilterKeepsAll(list, MatchesFilters(f));
  }

  /** The empty filter record keeps every snapshot. */
  lemma ApplyNoFilters(list: seq<Snapshot>)
    ensures Apply(list, NoFilters) == list
  {
    ApplyWithoutCriteria(list, NoFilters);
  }

  /**
   * A status key present but `undefined` makes the filters "active" for the
   * panel's badge, yet filters nothing out.
   */
  lemma ActiveYetFiltersNothing(list: seq<Snapshot>)
    ensures HasActiveFilters(FilterOptions(Undefined, Missing, Missing, Missing))
    ensures Apply(list, FilterOptions(Undefined, Missing, Missing, Missing)) == list
  {
    ApplyWithoutCriteria(list, FilterOptions(Undefined, Missing, Missing, Missing));
  }

  /** A status filter alone keeps exactly the snapshots with that status, in order. */
  lemma ApplyStatusOnly(list: seq<Snapshot>, status: string)
    requires status != ""
    ensures Apply(list, FilterOptions(Defined(status), Missing, Missing, Missing)) == Filter(list, StatusIs(status))
    ensures forall s :: s in Apply(list, FilterOptions(Defined(status), Missing, Missing, Missing)) <==>
                        s in list && s.status == status
  {
    FilterAgree(list, MatchesFilters(FilterOptions(Defined(status), Missing, Missing, Missing)), StatusIs(status));
  }

  /** Filters compose: filtering an already filtered list by its own criteria changes nothing. */
  lemma ApplyIdempotent(list: seq<Snapshot>, f: FilterOptions)
    ensures Apply(Apply(list, f), f) == Apply(list, f)
  {
    FilterKeepsAll(Apply(list, f), MatchesFilters(f));
  }

  /** A snapshot without a truthy size is dropped by every size bucket, even an unrecognised one. */
  lemma SizeRequiresValue(bucket: string, s: Snapshot)
    requires !Truthy(s.size)
    ensures !InSizeBucket(bucket, s)
  {
  }

  /**
   * A size that reads as a number falls in exactly one of the three buckets;
   * 1 and 5 themselves are "medium".
   */
  lemma SizeBucketsPartition(s: Snapshot, v: real)
    requires Truthy(s.size) && ParseLeadingDecimal(s.size.value) == Some(v)
    ensures InSizeBucket("small", s) <==> v < 1.0
    ensures InSizeBucket("medium", s) <==> 1.0 <= v <= 5.0
    ensures InSizeBucket("large", s) <==> v > 5.0
    ensures (InSizeBucket("small", s) || InSizeBucket("medium", s) || InSizeBucket("large", s))
    ensures !(InSizeBucket("small", s) && InSizeBucket("medium", s))
    ensures !(InSizeBucket("medium", s) && InSizeBucket("large", s))
    ensures !(InSizeBucket("small", s) && InSizeBucket("large", s))
  {
  }

  /** A size with no number in front (NaN) is in none of the three buckets. */
  lemma SizeWithoutNumber(s: Snapshot)
    requires Truthy(s.size) && ParseLeadingDecimal(s.size.value).None?
    ensures !InSizeBucket("small", s) && !InSizeBucket("medium", s) && !InSizeBucket("large", s)
  {
  }

  /** An unrecognised bucket name keeps every snapshot that has a size. */
  lemma SizeUnknownBucket(bucket: string, s: Snapshot)
    requires bucket !in {"small", "medium", "large"}
    ensures InSizeBucket(bucket, s) <==> Truthy(s.size)
  {
  }

  /** "2.4MB" is medium: the unit is ignored and only the number counts. */
  lemma ExampleSizeIsMedium(s: Snapshot)
    requires s.size == Some("2.4MB")
    ensures InSizeBucket("medium", s) && !InSizeBucket("small", s) && !InSizeBucket("large", s)
  {
    ExampleSize();
  }

  /** Both bounds of the date range are inclusive. */
  lemma DateBoundsInclusive(range: DateRange, s: Snapshot)
    ensures InDateRange(range, s) <==>
            (range.from.None? || range.from.value <= s.time) && (range.to.None? || s.time <= range.to.value)
  {
  }

  /** Searching ignores the case of the term. */
  lemma SearchIgnoresTermCase(term: string, s: Snapshot)
    ensures MatchesSearch(Lower(term), s) == MatchesSearch(term, s)
  {
    LowerIdempotent(term);
  }

  /** Without a title, only the url is searched. */
  lemma SearchUrlOnly(term: string, s: Snapshot)
    requires s.title.None?
    ensures MatchesSearch(term, s) <==> exists i :: OccursAt(Lower(s.url), Lower(term), i)
  {
    ContainsIff(Lower(s.url), Lower(term));
  }

  /** An upper-case search term finds a lower-case title. */
  lemma ExampleSearch(s: Snapshot)
    requires s.title == Some("home page") && s.url == "https://example.com/"
    ensures MatchesSearch("HOME", s)
  {
    assert Lower("HOME") == "home";
    assert Lower("home page") == "home page";
    assert StartsWith("home page", "home");
  }

  /**
   * Three snapshots taken on days 5, 15 and 21 filtered by the range from day
   * 10 to day 20 leave only the middle one.
   */
  lemma ExampleDateRange(a: Snapshot, b: Snapshot, c: Snapshot)
    requires a.time == 5 && b.time == 15 && c.time == 21
    ensures Apply([a, b, c], FilterOptions(Missing, Missing, Defined(DateRange(Some(10), Some(20))), Missing)) == [b]
  {
    var f := FilterOptions(Missing, Missing, Defined(DateRange(Some(10), Some(20))), Missing);
    var m := MatchesFilters(f);
    assert !m(a) && m(b) && !m(c);
    assert [a, b, c][1..] == [b, c];
    assert [b, c][1..] == [c];
    assert [c][1..] == [];
    assert Filter([c], m) == [];
    assert Filter([b, c], m) == [b];
    assert Filter([a, b, c], m) == [b];
  }
}
