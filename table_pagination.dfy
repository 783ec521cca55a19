/** Paging of the table: the page and page size live in the layout query, with defaults
    when they are unset, and changing the page size returns to the first page. */
module TablePagination {
  import opened Strings
  import opened Options
  import opened TableTypes

  /** The `page` getter: the query's page, or 1 when it is absent or 0. */
  function Page(q: LayoutQuery): (p: int)
    ensures q.page.Some? && q.page.value != 0 ==> p == q.page.value
    ensures q.page.None? || q.page.value == 0 ==> p == 1
    ensures p != 0
  {
    if q.page.Some? && q.page.value != 0 then q.page.value else 1
  }

  /** The `limit` getter: the query's limit, or 100 when it is absent or 0. */
  function Limit(q: LayoutQuery): (l: int)
    ensures q.limit.Some? && q.limit.value != 0 ==> l == q.limit.value
    ensures q.limit.None? || q.limit.value == 0 ==> l == 100
    ensures l != 0
  {
    if q.limit.Some? && q.limit.value != 0 then q.limit.value else 100
  }

  /** The `page` setter: only `page` changes. */
  method SetPage(query: LayoutQueryRef, newPage: int)
    modifies query
    ensures query.value == old(query.value).(page := Some(newPage))
  {
    query.value := query.value.(page := Some(newPage));
  }

  /** The `limit` setter: `limit` changes and `page` returns to 1. */
  method SetLimit(query: LayoutQueryRef, newLimit: int)
    modifies query
    ensures query.value == old(query.value).(limit := Some(newLimit), page := Some(1))
  {
    query.value := query.value.(limit := Some(newLimit), page := Some(1));
  }

  /** After a page-size change the getters read the new size and the first page, and the
      sort and fields are untouched. */
  lemma LimitChangeResetsPage(q: LayoutQuery, newLimit: int)
    requires newLimit != 0
    ensures var q' := q.(limit := Some(newLimit), page := Some(1));
      Limit(q') == newLimit && Page(q') == 1 && q'.sort == q.sort && q'.fields == q.fields
      && q'.extra == q.extra
  {
  }

  /** One entry of the page-size menu. */
  datatype PageSizeOption = PageSizeOption(text: string, value: nat)

  const PageSizeOptions: seq<PageSizeOption> := [
    PageSizeOption("10", 10), PageSizeOption("25", 25), PageSizeOption("50", 50),
    PageSizeOption("100", 100), PageSizeOption("250", 250), PageSizeOption("500", 500)]

  /** The menu runs strictly upwards from 10 to 500, includes the default page size, and
      each label is the decimal form of its value. */
  lemma PageSizeOptionsFacts()
    ensures PageSizeOptions[0].value == 10 && PageSizeOptions[|PageSizeOptions| - 1].value == 500
    ensures forall i, j :: 0 <= i < j < |PageSizeOptions| ==>
      PageSizeOptions[i].value < PageSizeOptions[j].value
    ensures forall i :: 0 <= i < |PageSizeOptions| ==>
      PageSizeOptions[i].text == NatToString(PageSizeOptions[i].value)
    ensures exists i :: 0 <= i < |PageSizeOptions| && PageSizeOptions[i].value == Limit(EmptyQuery)
  {
    assert NatToString(10) == "10";
    assert NatToString(25) == "25";
    assert NatToString(50) == "50";
    assert NatToString(100) == "100";
    assert NatToString(250) == "250";
    assert NatToString(500) == "500";
    assert PageSizeOptions[3].value == 100;
  }

  /** A query with nothing set. */
  const EmptyQuery: LayoutQuery := LayoutQuery(None, None, None, None, map[])
}
