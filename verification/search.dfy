/** The client-side search shared by the list pages: keep the items in which
    some searchable field contains the lower-cased query, unless the query is
    blank. Each page supplies its own list of searchable fields. */
module Search {
  import opened Text
  import opened Seqs
  import opened Wrappers

  /** Some field, lower-cased, contains the lower-cased (but untrimmed) query. */
  predicate Matches(query: string, fields: seq<string>) {
    exists k | 0 <= k < |fields| :: Contains(Lower(fields[k]), Lower(query))
  }

  /** The per-item search predicate of a page. */
  function Matcher<T>(query: string, fieldsOf: T -> seq<string>): T -> bool {
    x => Matches(query, fieldsOf(x))
  }

  /** The filtered view of `items` for `query`: all of `items` when the
      trimmed query is empty, otherwise the matching items in order. */
  function SearchBy<T(==)>(items: seq<T>, query: string, fieldsOf: T -> seq<string>): (r: seq<T>)
    ensures IsSubsequence(r, items)
    ensures |r| <= |items|
    ensures IsBlank(query) ==> r == items
    ensures forall i | 0 <= i < |r| :: IsBlank(query) || Matches(query, fieldsOf(r[i]))
    ensures forall i | 0 <= i < |items| ::
              items[i] in r <==> IsBlank(query) || Matches(query, fieldsOf(items[i]))
    ensures forall i | 0 <= i < |items| :: !IsBlank(query) && Matches(query, fieldsOf(items[i])) ==>
              multiset(r)[items[i]] == multiset(items)[items[i]]
  {
    if IsBlank(query) then
      SubsequenceReflexive(items);
      items
    else
      var r := Filter(items, Matcher(query, fieldsOf));
      forall i | 0 <= i < |items|
        ensures items[i] in r <==> Matches(query, fieldsOf(items[i]))
      {
        FilterMembership(items, Matcher(query, fieldsOf), items[i]);
      }
      r
  }

  /** Searching the filtered view again with the same query changes nothing. */
  lemma SearchIdempotent<T>(items: seq<T>, query: string, fieldsOf: T -> seq<string>)
    ensures SearchBy(SearchBy(items, query, fieldsOf), query, fieldsOf) == SearchBy(items, query, fieldsOf)
  {
    if !IsBlank(query) {
      FilterIdempotent(items, Matcher(query, fieldsOf));
    }
  }

  /** No field list matches when it is empty; otherwise the first field or
      one of the rest must match. */
  lemma MatchesCons(query: string, f: string, fs: seq<string>)
    ensures !Matches(query, [])
    ensures Matches(query, [f] + fs) <==> Contains(Lower(f), Lower(query)) || Matches(query, fs)
  {
    var all := [f] + fs;
    if Matches(query, fs) {
      var k :| 0 <= k < |fs| && Contains(Lower(fs[k]), Lower(query));
      assert all[k + 1] == fs[k];
    }
    if Matches(query, all) {
      var k :| 0 <= k < |all| && Contains(Lower(all[k]), Lower(query));
      if k > 0 {
        assert fs[k - 1] == all[k];
      }
    }
    assert all[0] == f;
  }

  /** An optional field takes part in the search only when it is truthy. */
  lemma MatchesPresent(query: string, o: Option<string>)
    ensures Matches(query, Present(o)) <==> Truthy(o) && Contains(Lower(o.value), Lower(query))
  {
    MatchesCons(query, "", []);
    if Truthy(o) {
      MatchesCons(query, o.value, []);
      assert [o.value] + [] == [o.value];
    }
  }

  /** Searching a one-item list keeps the item exactly when the query is
      blank or the item matches. */
  lemma SearchSingleton<T>(x: T, query: string, fieldsOf: T -> seq<string>)
    ensures SearchBy([x], query, fieldsOf) == if IsBlank(query) || Matches(query, fieldsOf(x)) then [x] else []
  {
    if !IsBlank(query) {
      assert [x][1..] == [];
    }
  }
}
