/**
 * The filter criteria record and the filter panel that edits it
 * (src/components/SnapshotFilters.tsx). Every key of the record is optional,
 * and a key may be present while holding `undefined`: `Slot` keeps the two
 * apart, because the "active filters" test counts keys, not values.
 */
module SnapshotFilters {
  import opened Maybe

  /** One optional key of a TypeScript object: absent, present but `undefined`, or present with a value. */
  datatype Slot<T> = Missing | Undefined | Defined(value: T)

  /**
   * `{ from: Date | null; to: Date | null }`, each date given as its time value;
   * `None` stands for `null` (a picker that returns no date stores `null`).
   */
  datatype DateRange = DateRange(from: Option<int>, to: Option<int>)

  const EmptyRange := DateRange(None, None)

  /** `FilterOptions`. `status`, `size` and `searchContent` are free strings as the type declares them. */
  datatype FilterOptions = FilterOptions(
    status: Slot<string>,
    size: Slot<string>,
    dateRange: Slot<DateRange>,
    searchContent: Slot<string>)

  /** `{}`. */
  const NoFilters := FilterOptions(Missing, Missing, Missing, Missing)

  function SlotKeys<T>(s: Slot<T>): nat { if s.Missing? then 0 else 1 }

  /** `Object.keys(options).length`. */
  function KeyCount(f: FilterOptions): (n: nat)
    ensures n <= 4
    ensures n == 0 <==> f == NoFilters
  {
    SlotKeys(f.status) + SlotKeys(f.size) + SlotKeys(f.dateRange) + SlotKeys(f.searchContent)
  }

  /** `hasActiveFilters`: at least one key is present, whatever it holds. */
  predicate HasActiveFilters(f: FilterOptions) {
    KeyCount(f) > 0
  }

  /** A key present with value `undefined` still makes the filters active. */
  lemma UndefinedKeyIsActive(f: FilterOptions)
    requires f.status == Undefined
    ensures HasActiveFilters(f)
  {
  }

  /** The later of two spreads wins for every key it has. */
  function Override<T>(current: Slot<T>, update: Slot<T>): (r: Slot<T>)
    ensures update != Missing ==> r == update
    ensures update == Missing ==> r == current
  {
    if update.Missing? then current else update
  }

  /** `updateFilters`: `{ ...currentFilters, ...newFilters }`. */
  function UpdateFilters(current: FilterOptions, update: FilterOptions): (r: FilterOptions)
    ensures update.status != Missing ==> r.status == update.status
    ensures update.status == Missing ==> r.status == current.status
    ensures update.size != Missing ==> r.size == update.size
    ensures update.size == Missing ==> r.size == current.size
    ensures update.dateRange != Missing ==> r.dateRange == update.dateRange
    ensures update.dateRange == Missing ==> r.dateRange == current.dateRange
    ensures update.searchContent != Missing ==> r.searchContent == update.searchContent
    ensures update.searchContent == Missing ==> r.searchContent == current.searchContent
  {
    FilterOptions(
      Override(current.status, update.status),
      Override(current.size, update.size),
      Override(current.dateRange, update.dateRange),
      Override(current.searchContent, update.searchContent))
  }

  /** Merging keeps every key already present and adds the update's keys. */
  lemma UpdateKeepsKeys(current: FilterOptions, update: FilterOptions)
    ensures KeyCount(UpdateFilters(current, update)) >= KeyCount(current)
    ensures KeyCount(UpdateFilters(current, update)) >= KeyCount(update)
    ensures HasActiveFilters(update) ==> HasActiveFilters(UpdateFilters(current, update))
  {
  }

  /** Applying the same update twice is applying it once; the empty update changes nothing. */
  lemma UpdateIdempotent(current: FilterOptions, update: FilterOptions)
    ensures UpdateFilters(UpdateFilters(current, update), update) == UpdateFilters(current, update)
    ensures UpdateFilters(current, NoFilters) == current
  {
  }

  /** `value || undefined`: the empty choice stores `undefined` under its key. */
  function OrUndefined(value: string): (r: Slot<string>)
    ensures value == "" ==> r == Undefined
    ensures value != "" ==> r == Defined(value)
  {
    if value == "" then Undefined else Defined(value)
  }

  /**
   * The filter panel. `filters` stands for the `currentFilters` prop, which the
   * parent replaces with whatever `onFiltersChange` emits; `dateRange` is the
   * panel's own date-range state.
   */
  class FilterPanel {
    var filters: FilterOptions
    var dateRange: DateRange
    var isOpen: bool

    /** Local state starts from `currentFilters.dateRange || { from: null, to: null }`. */
    constructor (current: FilterOptions)
      ensures filters == current && !isOpen
      ensures dateRange == if current.dateRange.Defined? then current.dateRange.value else EmptyRange
    {
      filters := current;
      dateRange := if current.dateRange.Defined? then current.dateRange.value else EmptyRange;
      isOpen := false;
    }

    method ToggleOpen()
      modifies this
      ensures isOpen == !old(isOpen)
      ensures filters == old(filters) && dateRange == old(dateRange)
    {
      isOpen := !isOpen;
    }

    /** `clearFilters`: resets the local range and emits `{}`. */
    method ClearFilters()
      modifies this
      ensures dateRange == EmptyRange
      ensures filters == NoFilters && !HasActiveFilters(filters)
      ensures isOpen == old(isOpen)
    {
      dateRange := EmptyRange;
      filters := NoFilters;
    }

    /** The status select: the empty choice stores `undefined`. */
    method ChooseStatus(value: string)
      modifies this
      ensures filters == UpdateFilters(old(filters), FilterOptions(OrUndefined(value), Missing, Missing, Missing))
      ensures dateRange == old(dateRange) && isOpen == old(isOpen)
    {
      filters := UpdateFilters(filters, FilterOptions(OrUndefined(value), Missing, Missing, Missing));
    }

    /** The size select: the empty choice stores `undefined`. */
    method ChooseSize(value: string)
      modifies this
      ensures filters == UpdateFilters(old(filters), FilterOptions(Missing, OrUndefined(value), Missing, Missing))
      ensures dateRange == old(dateRange) && isOpen == old(isOpen)
    {
      filters := UpdateFilters(filters, FilterOptions(Missing, OrUndefined(value), Missing, Missing));
    }

    /** The search box: emptying it stores `undefined`. */
    method EditSearch(value: string)
      modifies this
      ensures filters == UpdateFilters(old(filters), FilterOptions(Missing, Missing, Missing, OrUndefined(value)))
      ensures dateRange == old(dateRange) && isOpen == old(isOpen)
    {
      filters := UpdateFilters(filters, FilterOptions(Missing, Missing, Missing, OrUndefined(value)));
    }

    /** The From picker: keeps the current To, stores `null` when the date is deselected, and emits the whole range. */
    method PickFrom(date: Option<int>)
      modifies this
      ensures dateRange == DateRange(date, old(dateRange).to)
      ensures filters == UpdateFilters(old(filters), FilterOptions(Missing, Missing, Defined(dateRange), Missing))
      ensures isOpen == old(isOpen)
    {
      var newRange := dateRange.(from := date);
      dateRange := newRange;
      filters := UpdateFilters(filters, FilterOptions(Missing, Missing, Defined(newRange), Missing));
    }

    /** The To picker: keeps the current From, stores `null` when the date is deselected, and emits the whole range. */
    method PickTo(date: Option<int>)
      modifies this
      ensures dateRange == DateRange(old(dateRange).from, date)
      ensures filters == UpdateFilters(old(filters), FilterOptions(Missing, Missing, Defined(dateRange), Missing))
      ensures isOpen == old(isOpen)
    {
      var newRange := dateRange.(to := date);
      dateRange := newRange;
      filters := UpdateFilters(filters, FilterOptions(Missing, Missing, Defined(newRange), Missing));
    }
  }
}
