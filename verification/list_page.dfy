/** The state shared by the employees, users and vehicles pages: the loaded
    collection, the filtered view the list shows, the selected item, the
    loading flag, the page-level error banner and the search box. */
module ListPage {
  import opened Wrappers
  import opened Text
  import opened Seqs
  import opened Search
  import opened Http

  datatype ListState<T> = ListState(
    items: seq<T>,
    filtered: seq<T>,
    selected: Option<T>,
    loading: bool,
    error: string,
    query: string)

  /** The state right after mount, while the first load is in flight. */
  function Mounted<T>(): (s: ListState<T>)
    ensures s.loading && s.items == [] && s.filtered == [] && s.selected.None?
    ensures s.error == "" && s.query == ""
  {
    ListState([], [], None, true, "", "")
  }

  /** The page's fetch handler once the response is in: a 2xx replaces both
      the collection and the filtered view with the payload and clears the
      selection when the payload is non-empty; any failure sets the banner and
      keeps the data; the loading flag is cleared in every case. */
  function Load<T>(s: ListState<T>, resp: Response<seq<T>>, failure: string): (r: ListState<T>)
    ensures !r.loading && r.query == s.query
    ensures resp.Ok? ==> r.items == resp.payload && r.filtered == resp.payload && r.error == s.error
    ensures resp.Ok? && |resp.payload| > 0 ==> r.selected.None?
    ensures resp.Ok? && |resp.payload| == 0 ==> r.selected == s.selected
    ensures !resp.Ok? ==> r.items == s.items && r.filtered == s.filtered && r.selected == s.selected
    ensures resp.Failed? ==> r.error == failure
    ensures resp.Thrown? ==> r.error == resp.reason
  {
    match resp
    case Ok(data) =>
      s.(items := data, filtered := data,
         selected := if |data| > 0 then None else s.selected,
         loading := false)
    case Failed(_, _) => s.(error := failure, loading := false)
    case Thrown(reason) => s.(error := reason, loading := false)
  }

  /** Typing in the search box. */
  function SetQuery<T>(s: ListState<T>, query: string): (r: ListState<T>)
    ensures r.query == query && r.items == s.items && r.filtered == s.filtered
    ensures r.selected == s.selected && r.error == s.error && r.loading == s.loading
  {
    s.(query := query)
  }

  /** Clicking an item of the list. */
  function Select<T>(s: ListState<T>, item: T): (r: ListState<T>)
    ensures r.selected == Some(item) && r.items == s.items && r.filtered == s.filtered
    ensures r.query == s.query && r.error == s.error && r.loading == s.loading
  {
    s.(selected := Some(item))
  }

  /** The filter effect, run whenever the query or the collection changes. */
  function Refresh<T(==)>(s: ListState<T>, fieldsOf: T -> seq<string>): (r: ListState<T>)
    ensures r.items == s.items && r.query == s.query && r.selected == s.selected
    ensures r.error == s.error && r.loading == s.loading
    ensures IsSubsequence(r.filtered, r.items) && |r.filtered| <= |r.items|
    ensures IsBlank(s.query) ==> r.filtered == s.items
  {
    s.(filtered := SearchBy(s.items, s.query, fieldsOf))
  }

  /** The filtered view agrees with the collection and the query. */
  predicate InSync<T(==)>(s: ListState<T>, fieldsOf: T -> seq<string>) {
    s.filtered == SearchBy(s.items, s.query, fieldsOf)
  }

  /** After a successful load and the filter effect it triggers, the list
      shows the payload searched by the current query, and the whole payload
      when the query is blank. */
  lemma LoadThenRefresh<T>(s: ListState<T>, data: seq<T>, failure: string, fieldsOf: T -> seq<string>)
    ensures var r := Refresh(Load(s, Ok(data), failure), fieldsOf);
            && InSync(r, fieldsOf)
            && r.items == data
            && r.filtered == SearchBy(data, s.query, fieldsOf)
            && (IsBlank(s.query) ==> r.filtered == data)
  {
  }

  /** Running the filter effect twice is the same as running it once. */
  lemma RefreshIdempotent<T>(s: ListState<T>, fieldsOf: T -> seq<string>)
    ensures Refresh(Refresh(s, fieldsOf), fieldsOf) == Refresh(s, fieldsOf)
  {
  }

  /** Typing a query and running the effect it triggers shows the collection
      searched by the new query. The selection is kept even when the new view
      no longer lists it, so the detail pane goes on showing it. */
  lemma SetQueryThenRefresh<T>(s: ListState<T>, query: string, fieldsOf: T -> seq<string>)
    ensures var r := Refresh(SetQuery(s, query), fieldsOf);
            && InSync(r, fieldsOf)
            && r.filtered == SearchBy(s.items, query, fieldsOf)
            && r.selected == s.selected
            && (!s.loading && s.selected.Some? ==> DetailPane(r, "", "") == Details(s.selected.value))
  {
  }

  /** Clicking an item shows it in the detail pane once loading is over, and
      it does not interfere with the filter effect. */
  lemma SelectShowsDetails<T>(s: ListState<T>, item: T, fieldsOf: T -> seq<string>)
    ensures !s.loading ==> DetailPane(Select(s, item), "", "") == Details(item)
    ensures Refresh(Select(s, item), fieldsOf) == Select(Refresh(s, fieldsOf), item)
  {
  }

  /** A failed load leaves a synchronised view synchronised. */
  lemma FailedLoadKeepsSync<T>(s: ListState<T>, resp: Response<seq<T>>, failure: string, fieldsOf: T -> seq<string>)
    requires InSync(s, fieldsOf) && !resp.Ok?
    ensures InSync(Load(s, resp, failure), fieldsOf)
  {
  }

  /** What the detail column shows. */
  datatype Pane<T> = Skeleton | Details(item: T) | Placeholder(message: string)

  /** Skeleton while loading, else the selected item's details, else a
      placeholder whose text depends on whether the filtered view is empty. */
  function DetailPane<T>(s: ListState<T>, emptyMessage: string, selectMessage: string): (p: Pane<T>)
    ensures p.Skeleton? <==> s.loading
    ensures p.Details? <==> !s.loading && s.selected.Some?
    ensures p.Details? ==> p.item == s.selected.value
    ensures p.Placeholder? && |s.filtered| == 0 ==> p.message == emptyMessage
    ensures p.Placeholder? && |s.filtered| > 0 ==> p.message == selectMessage
  {
    if s.loading then Skeleton
    else if s.selected.Some? then Details(s.selected.value)
    else Placeholder(if |s.filtered| == 0 then emptyMessage else selectMessage)
  }
}
