/** Sorting of the table. Sort entries are column keys, optionally prefixed with `-` for a
    descending sort; a language suffix `:code` of a translation column is never sent to the
    server, so it is cut off whenever the sort is read or written. */
module TableSort {
  import opened Strings
  import opened Options
  import opened TableTypes

  /** The sort of the table component: `{ by, desc }`, with `by` named `column` here. */
  datatype SortSpec = SortSpec(column: string, desc: bool)

  /** The cleaning applied to one sort entry: drop everything from the first `:` and keep a
      leading `-`. */
  function CleanSortEntry(entry: string): (r: string)
    ensures ':' !in r
    ensures r == BeforeFirst(entry, ':')
    ensures StartsWith(entry, "-") && |entry| > 1 && entry[1] != ':' ==> StartsWith(r, "-")
    ensures ':' !in entry ==> r == entry
  {
    if ':' in entry then
      if StartsWith(entry, "-") then
        DashedBeforeFirst(entry);
        "-" + BeforeFirst(entry[1..], ':')
      else BeforeFirst(entry, ':')
    else entry
  }

  /** Cutting after a leading `-` is cutting the whole entry. */
  lemma DashedBeforeFirst(entry: string)
    requires StartsWith(entry, "-") && ':' in entry
    ensures "-" + BeforeFirst(entry[1..], ':') == BeforeFirst(entry, ':')
  {
    var rest := entry[1..];
    assert entry == "-" + rest;
    var field := BeforeFirst(rest, ':');
    var tail := rest[|field| + 1..];
    assert rest == field + [':'] + tail;
    assert entry == ("-" + field) + [':'] + tail;
    BeforeFirstOfConcat("-" + field, ':', tail);
  }

  /** Cleaning every entry. */
  function CleanSort(entries: seq<string>): (r: seq<string>)
    ensures |r| == |entries|
    ensures forall i :: 0 <= i < |r| ==> r[i] == CleanSortEntry(entries[i])
  {
    seq(|entries|, i requires 0 <= i < |entries| => CleanSortEntry(entries[i]))
  }

  /** Cleaning is idempotent: a cleaned sort is left alone. */
  lemma CleanSortIdempotent(entries: seq<string>)
    ensures CleanSort(CleanSort(entries)) == CleanSort(entries)
  {
  }

  /** The `sort` getter: the query's sort (none reads as `[]`), cleaned. */
  function Sort(q: LayoutQuery): (r: seq<string>)
    ensures q.sort.None? ==> r == []
    ensures q.sort.Some? ==> |r| == |q.sort.value|
    ensures forall i :: 0 <= i < |r| ==> ':' !in r[i]
  {
    CleanSort(q.sort.GetOr([]))
  }

  /** The `sort` setter: store the cleaned sort, keeping every other query key. */
  method SetSort(query: LayoutQueryRef, newSort: seq<string>)
    modifies query
    ensures query.value == old(query.value).(sort := Some(CleanSort(newSort)))
  {
    query.value := query.value.(sort := Some(CleanSort(newSort)));
  }

  /** Reading the sort back after setting it yields the cleaned sort. */
  lemma SortAfterSet(q: LayoutQuery, newSort: seq<string>)
    ensures Sort(q.(sort := Some(CleanSort(newSort)))) == CleanSort(newSort)
  {
    CleanSortIdempotent(newSort);
  }

  /** `tableSort`: none when the first entry is missing or empty; otherwise descending
      exactly when it starts with `-`, by the rest of the entry. */
  function TableSortOf(q: LayoutQuery): (r: Option<SortSpec>)
    ensures r.None? <==> |Sort(q)| == 0 || Sort(q)[0] == ""
    ensures r.Some? ==> (r.value.desc <==> StartsWith(Sort(q)[0], "-"))
    ensures r.Some? ==> Sort(q)[0] == (if r.value.desc then "-" else "") + r.value.column
  {
    var s := Sort(q);
    if |s| == 0 || s[0] == "" then None
    else if StartsWith(s[0], "-") then
      assert s[0] == "-" + s[0][1..];
      Some(SortSpec(s[0][1..], true))
    else Some(SortSpec(s[0], false))
  }

  /** The sort `onSortChange` stores. */
  function SortForChange(newSort: Option<SortSpec>): (r: seq<string>)
    ensures newSort.None? || newSort.value.column == "" ==> r == []
    ensures newSort.Some? && newSort.value.column != "" ==>
      r == [(if newSort.value.desc then "-" else "") + BeforeFirst(newSort.value.column, ':')]
  {
    if newSort.None? || newSort.value.column == "" then []
    else
      var field := if ':' in newSort.value.column then BeforeFirst(newSort.value.column, ':') else newSort.value.column;
      assert "" + field == field;
      [if newSort.value.desc then "-" + field else field]
  }

  /** `onSortChange(newSort)`: clear the sort, or sort by the column without its suffix. */
  method OnSortChange(query: LayoutQueryRef, newSort: Option<SortSpec>)
    modifies query
    ensures query.value == old(query.value).(sort := Some(SortForChange(newSort)))
  {
    if newSort.None? || newSort.value.column == "" {
      query.value := query.value.(sort := Some([]));
      return;
    }
    var sortField := newSort.value.column;
    if ':' in sortField {
      sortField := BeforeFirst(sortField, ':');
    }
    var sortString := if newSort.value.desc then "-" + sortField else sortField;
    query.value := query.value.(sort := Some([sortString]));
  }

  /** A sort chosen in the table comes back from `tableSort` as the same column, without its
      language suffix, in the same direction. */
  lemma SortChangeRoundTrip(q: LayoutQuery, column: string, desc: bool)
    requires column != "" && !StartsWith(column, "-") && BeforeFirst(column, ':') != ""
    ensures TableSortOf(q.(sort := Some(SortForChange(Some(SortSpec(column, desc)))))) ==
      Some(SortSpec(BeforeFirst(column, ':'), desc))
  {
    var field := BeforeFirst(column, ':');
    var entry := (if desc then "-" else "") + field;
    var q' := q.(sort := Some(SortForChange(Some(SortSpec(column, desc)))));
    assert q'.sort.value == [entry];
    assert CleanSortEntry(entry) == entry;
    assert Sort(q') == [entry];
    assert field[0] == column[0];
    if desc {
      assert entry[1..] == field;
    } else {
      assert !StartsWith(entry, "-");
    }
  }
}
