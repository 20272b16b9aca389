/**
 * The two list operations that every list page repeats on its own record
 * type: the search box filter and delete-by-id.
 */
module Lists {
  import opened JsArray
  import opened JsString

  /**
   * The search test of the list pages: one of the record's searchable
   * texts, lower-cased, contains the lower-cased query.
   */
  predicate SearchMatches(fields: seq<string>, query: string) {
    exists k | 0 <= k < |fields| :: Includes(ToLower(fields[k]), ToLower(query))
  }

  /** `list.filter(x => f1.includes(q) || f2.includes(q) || ...)`. */
  function Search<T(==,!new)>(list: seq<T>, fieldsOf: T -> seq<string>, query: string): (r: seq<T>)
    ensures forall x :: x in r <==> x in list && SearchMatches(fieldsOf(x), query)
    ensures forall x :: multiset(r)[x] == if SearchMatches(fieldsOf(x), query) then multiset(list)[x] else 0
    ensures IsSubsequence(r, list)
  {
    var p := x => SearchMatches(fieldsOf(x), query);
    FilterIsSubsequence(list, p);
    FilterMultiset(list, p);
    Filter(list, p)
  }

  /** An empty query keeps every record that has at least one searchable text. */
  lemma SearchEmptyQuery<T(!new)>(list: seq<T>, fieldsOf: T -> seq<string>)
    requires forall k | 0 <= k < |list| :: fieldsOf(list[k]) != []
    ensures Search(list, fieldsOf, "") == list
  {
    forall k | 0 <= k < |list|
      ensures SearchMatches(fieldsOf(list[k]), "")
    {
      IncludesEmpty(ToLower(fieldsOf(list[k])[0]));
    }
    FilterKeepsAll(list, x => SearchMatches(fieldsOf(x), ""));
  }

  /** Typing more characters into the search box can only hide rows, never reorder them. */
  lemma SearchNarrows<T(!new)>(list: seq<T>, fieldsOf: T -> seq<string>, query: string, more: string)
    ensures IsSubsequence(Search(list, fieldsOf, query + more), Search(list, fieldsOf, query))
  {
    ToLowerAppend(query, more);
    forall x | SearchMatches(fieldsOf(x), query + more)
      ensures SearchMatches(fieldsOf(x), query)
    {
      var k :| 0 <= k < |fieldsOf(x)| && Includes(ToLower(fieldsOf(x)[k]), ToLower(query + more));
      IncludesPrefix(ToLower(fieldsOf(x)[k]), ToLower(query), ToLower(more));
    }
    FilterNarrows(list, x => SearchMatches(fieldsOf(x), query + more), x => SearchMatches(fieldsOf(x), query));
  }

  /**
   * `list.filter(x => x.id !== id)`: every record with that id removed, the
   * others kept in order with their multiplicities.
   */
  function WithoutId<T(==,!new)>(list: seq<T>, idOf: T -> string, id: string): (r: seq<T>)
    ensures forall x :: x in r <==> x in list && idOf(x) != id
    ensures forall x :: multiset(r)[x] == if idOf(x) == id then 0 else multiset(list)[x]
    ensures IsSubsequence(r, list)
  {
    var p := x => idOf(x) != id;
    FilterIsSubsequence(list, p);
    FilterMultiset(list, p);
    Filter(list, p)
  }

  /** Deleting an id that no record carries leaves the list as it is. */
  lemma WithoutAbsentId<T(!new)>(list: seq<T>, idOf: T -> string, id: string)
    requires forall k | 0 <= k < |list| :: idOf(list[k]) != id
    ensures WithoutId(list, idOf, id) == list
  {
    FilterKeepsAll(list, x => idOf(x) != id);
  }

  /** Deleting the same id twice is deleting it once. */
  lemma WithoutIdTwice<T(!new)>(list: seq<T>, idOf: T -> string, id: string)
    ensures WithoutId(WithoutId(list, idOf, id), idOf, id) == WithoutId(list, idOf, id)
  {
    var r := WithoutId(list, idOf, id);
    assert forall k | 0 <= k < |r| :: r[k] in r;
    WithoutAbsentId(r, idOf, id);
  }
}
