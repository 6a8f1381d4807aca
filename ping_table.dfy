/**
 * The search filter of the ping table component: a case-insensitive
 * substring filter over the ping records shown in the table. Only the
 * `filtered` computation is modelled; the rendering is not.
 */
module PingTable {

  import opened Options
  import opened JsString

  /** A ping as the table receives it; `message` is optional. */
  datatype TablePing = TablePing(
    id: string,
    lat: string,
    lng: string,
    timestamp: string,
    parentId: Option<string>,
    message: Option<string>)

  /**
   * The callback given to `Array.filter`, for an already lower-cased query:
   * the query occurs in the lower-cased id, lat, lng or (when present) message.
   */
  predicate Matches(p: TablePing, query: string) {
    || Includes(Lower(p.id), query)
    || Includes(Lower(p.lat), query)
    || Includes(Lower(p.lng), query)
    || (p.message.Some? && Includes(Lower(p.message.value), query))
  }

  /** Independent statement of a hit: the query is a substring of one of the searchable fields. */
  ghost predicate Hit(p: TablePing, query: string) {
    || Substring(query, Lower(p.id))
    || Substring(query, Lower(p.lat))
    || Substring(query, Lower(p.lng))
    || (p.message.Some? && Substring(query, Lower(p.message.value)))
  }

  /** `Array.filter` with the callback above: keeps the matching pings, in order. */
  function KeepMatching(pings: seq<TablePing>, query: string): (r: seq<TablePing>)
    ensures |r| <= |pings|
    ensures forall p :: p in r <==> p in pings && Matches(p, query)
  {
    if pings == [] then []
    else
      var rest := KeepMatching(pings[1..], query);
      assert pings == [pings[0]] + pings[1..];
      if Matches(pings[0], query) then [pings[0]] + rest else rest
  }

  /** The table's `filtered` value for the text typed into the search box. */
  function Filter(pings: seq<TablePing>, search: string): (r: seq<TablePing>)
    ensures |r| <= |pings|
    ensures forall p :: p in r <==> p in pings && Hit(p, Lower(search))
  {
    KeepMatching(pings, Lower(search))
  }

  /** `r` is `s` with some elements dropped and the rest kept in order. */
  ghost predicate IsSubsequence<T>(r: seq<T>, s: seq<T>)
    decreases |s|
  {
    if r == [] then true
    else if s == [] then false
    else (r[0] == s[0] && IsSubsequence(r[1..], s[1..])) || IsSubsequence(r, s[1..])
  }

  /** The result keeps the original order and neither adds nor duplicates a ping. */
  lemma {:induction false} FilterIsSubsequence(pings: seq<TablePing>, search: string)
    ensures IsSubsequence(Filter(pings, search), pings)
  {
    KeepMatchingIsSubsequence(pings, Lower(search));
  }

  lemma {:induction false} KeepMatchingIsSubsequence(pings: seq<TablePing>, query: string)
    ensures IsSubsequence(KeepMatching(pings, query), pings)
  {
    if pings != [] {
      KeepMatchingIsSubsequence(pings[1..], query);
      var rest := KeepMatching(pings[1..], query);
      if Matches(pings[0], query) {
        assert KeepMatching(pings, query) == [pings[0]] + rest;
        assert ([pings[0]] + rest)[1..] == rest;
      } else if rest != [] {
        assert KeepMatching(pings, query) == rest;
      }
    }
  }

  /** Each ping is kept exactly as many times as it occurs when it matches, and never otherwise. */
  lemma {:induction false} FilterCounts(pings: seq<TablePing>, search: string, p: TablePing)
    ensures multiset(Filter(pings, search))[p]
         == if Hit(p, Lower(search)) then multiset(pings)[p] else 0
  {
    KeepMatchingCounts(pings, Lower(search), p);
  }

  lemma {:induction false} KeepMatchingCounts(pings: seq<TablePing>, query: string, p: TablePing)
    ensures multiset(KeepMatching(pings, query))[p]
         == if Matches(p, query) then multiset(pings)[p] else 0
  {
    if pings != [] {
      KeepMatchingCounts(pings[1..], query, p);
      assert pings == [pings[0]] + pings[1..];
      var rest := KeepMatching(pings[1..], query);
      if Matches(pings[0], query) {
        assert KeepMatching(pings, query) == [pings[0]] + rest;
      }
    }
  }

  /** Soundness: every kept ping holds the lower-cased query in one of its searchable fields. */
  lemma FilterSound(pings: seq<TablePing>, search: string, p: TablePing)
    requires p in Filter(pings, search)
    ensures p in pings
    ensures || Substring(Lower(search), Lower(p.id))
            || Substring(Lower(search), Lower(p.lat))
            || Substring(Lower(search), Lower(p.lng))
            || (p.message.Some? && Substring(Lower(search), Lower(p.message.value)))
  {
  }

  /** Completeness: every ping holding the lower-cased query in a searchable field is kept. */
  lemma FilterComplete(pings: seq<TablePing>, search: string, p: TablePing)
    requires p in pings
    requires Hit(p, Lower(search))
    ensures p in Filter(pings, search)
  {
  }

  /** An empty search box shows every ping: the empty string is included in every id. */
  lemma {:induction false} FilterEmptySearch(pings: seq<TablePing>)
    ensures Filter(pings, "") == pings
  {
    if pings != [] {
      FilterEmptySearch(pings[1..]);
      EmptyIncluded(Lower(pings[0].id));
      assert pings == [pings[0]] + pings[1..];
    }
  }

  /** Matching ignores case: searching for `search` or for its lower-cased form gives the same table. */
  lemma FilterCaseInsensitive(pings: seq<TablePing>, search: string)
    ensures Filter(pings, search) == Filter(pings, Lower(search))
  {
    LowerIdempotent(search);
  }

  /** A ping without a message can only match through its id, lat or lng. */
  lemma NoMessageMatch(p: TablePing, search: string)
    requires p.message.None?
    ensures p in Filter([p], search)
        <==> || Substring(Lower(search), Lower(p.id))
             || Substring(Lower(search), Lower(p.lat))
             || Substring(Lower(search), Lower(p.lng))
  {
  }

  /** Filtering the filtered table again with the same search changes nothing. */
  lemma {:induction false} FilterIdempotent(pings: seq<TablePing>, search: string)
    ensures Filter(Filter(pings, search), search) == Filter(pings, search)
  {
    KeepMatchingIdempotent(pings, Lower(search));
  }

  lemma {:induction false} KeepMatchingIdempotent(pings: seq<TablePing>, query: string)
    ensures KeepMatching(KeepMatching(pings, query), query) == KeepMatching(pings, query)
  {
    if pings != [] {
      KeepMatchingIdempotent(pings[1..], query);
      var rest := KeepMatching(pings[1..], query);
      if Matches(pings[0], query) {
        assert ([pings[0]] + rest)[1..] == rest;
      }
    }
  }
}
