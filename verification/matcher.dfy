/** The server's search endpoint, `GET /api/customers/search`: a query and an
    optional limit against the customer store, answered with the total number
    of matching customers and the first page of them. The store is a value
    here, so the handler is a function of it and cannot change it. */
module Matcher {
  import opened Wrappers
  import opened Text
  import opened Wire

  datatype Tag = Tag(id: int, name: string)

  /** A stored customer with its tags in the order the store yields them. */
  datatype Customer = Customer(id: int, name: string, address: string, postcode: string, tags: seq<Tag>)

  /** `Api:SearchResultsLimit` and `Api:MinSearchCharacters`. */
  datatype Config = Config(searchLimit: int, minSearchChars: int)

  /** The values used when the configuration names neither setting. */
  const DefaultConfig := Config(10, 2)

  /** The page size actually applied: the caller's limit when given, never
      more than the configured ceiling, and no lower bound (a zero or
      negative limit is passed on as it is). */
  function EffectiveLimit(limit: Option<int>, searchLimit: int): (r: int)
    ensures r <= searchLimit
    ensures limit.None? ==> r == searchLimit
    ensures limit.Some? && limit.value <= searchLimit ==> r == limit.value
    ensures limit.Some? && limit.value > searchLimit ==> r == searchLimit
  {
    var requested := if limit.Some? then limit.value else searchLimit;
    if requested < searchLimit then requested else searchLimit
  }

  /** The guard in front of the store: a missing, empty or blank query, or one
      shorter than configured, in UTF-16 code units counted before any trimming. */
  predicate IsShortQuery(query: Option<string>, minSearchChars: int) {
    query.None? || IsBlank(query.value) || Utf16Length(query.value) < minSearchChars
  }

  /** `LIKE '%query%'` under a case-insensitive collation. */
  predicate Like(field: string, query: string) {
    Contains(LowerString(field), LowerString(query))
  }

  predicate AnyTagLike(tags: seq<Tag>, query: string) {
    exists i :: 0 <= i < |tags| && Like(tags[i].name, query)
  }

  /** The filter of the search: the query occurs in the name, the address, the
      postcode or the name of at least one tag. */
  predicate IsMatch(c: Customer, query: string) {
    Like(c.name, query) || Like(c.address, query) || Like(c.postcode, query) || AnyTagLike(c.tags, query)
  }

  /** The matching customers in store order. */
  function Where(store: seq<Customer>, query: string): (r: seq<Customer>)
    ensures |r| <= |store|
    ensures forall c :: c in r <==> c in store && IsMatch(c, query)
  {
    if store == [] then []
    else if IsMatch(store[0], query) then [store[0]] + Where(store[1..], query)
    else Where(store[1..], query)
  }

  /** Filtering keeps store order: the matches of a concatenation are the
      matches of the first part followed by those of the second. */
  lemma {:induction false} WhereKeepsOrder(a: seq<Customer>, b: seq<Customer>, query: string)
    ensures Where(a + b, query) == Where(a, query) + Where(b, query)
  {
    if a != [] {
      assert (a + b)[1..] == a[1..] + b;
      WhereKeepsOrder(a[1..], b, query);
    } else {
      assert a + b == b;
    }
  }

  /** When every stored customer matches, the match list is the store itself. */
  lemma {:induction false} WhereAllMatch(store: seq<Customer>, query: string)
    requires forall c :: c in store ==> IsMatch(c, query)
    ensures Where(store, query) == store
  {
    if store != [] {
      assert forall c :: c in store[1..] ==> c in store;
      WhereAllMatch(store[1..], query);
    }
  }

  function TagNames(tags: seq<Tag>): (r: seq<string>)
    ensures |r| == |tags|
    ensures forall i :: 0 <= i < |tags| ==> r[i] == tags[i].name
  {
    if tags == [] then [] else [tags[0].name] + TagNames(tags[1..])
  }

  /** The projection to `CustomerDto`: scalar fields copied, tags replaced by
      their names in the same order. */
  function Project(c: Customer): (d: CustomerDto)
    ensures d.id == c.id && d.name == c.name && d.address == c.address && d.postcode == c.postcode
    ensures |d.tags| == |c.tags| && forall i :: 0 <= i < |c.tags| ==> d.tags[i] == c.tags[i].name
  {
    CustomerDto(c.id, c.name, c.address, c.postcode, TagNames(c.tags))
  }

  function ProjectAll(cs: seq<Customer>): (r: seq<CustomerDto>)
    ensures |r| == |cs|
    ensures forall i :: 0 <= i < |cs| ==> r[i] == Project(cs[i])
  {
    seq(|cs|, i requires 0 <= i < |cs| => Project(cs[i]))
  }

  /** LINQ `Take`: the first `n` elements, all of them when there are fewer,
      none when `n` is zero or negative. */
  function Take<T>(xs: seq<T>, n: int): (r: seq<T>)
    ensures r <= xs
    ensures |r| == if n <= 0 then 0 else if n < |xs| then n else |xs|
  {
    if n <= 0 then [] else if n < |xs| then xs[..n] else xs
  }

  /** The request handler. A short query is answered with an empty page and a
      zero count whatever the store holds. Otherwise the count is the number
      of all matching customers and the page is a prefix of that same list,
      as long as the effective limit allows, each entry the projection of a
      stored matching customer. */
  function Search(store: seq<Customer>, query: Option<string>, limit: Option<int>, config: Config): (r: SearchResponse)
    ensures IsShortQuery(query, config.minSearchChars) ==> r == EmptyResponse
    ensures !IsShortQuery(query, config.minSearchChars) ==>
              && r.totalCount == |Where(store, query.value)|
              && r.customers <= ProjectAll(Where(store, query.value))
              && (forall d :: d in r.customers ==>
                    exists c :: c in store && IsMatch(c, query.value) && d == Project(c))
    ensures var n := EffectiveLimit(limit, config.searchLimit);
            |r.customers| == if n <= 0 then 0 else if n < r.totalCount then n else r.totalCount
    ensures |r.customers| <= r.totalCount
    ensures r.customers != [] ==> |r.customers| <= EffectiveLimit(limit, config.searchLimit) <= config.searchLimit
  {
    var effectiveLimit := EffectiveLimit(limit, config.searchLimit);
    if IsShortQuery(query, config.minSearchChars) then
      EmptyResponse
    else
      var allMatching := ProjectAll(Where(store, query.value));
      var page := Take(allMatching, effectiveLimit);
      assert forall d :: d in page ==> d in allMatching;
      SearchResponse(page, |allMatching|)
  }
}
