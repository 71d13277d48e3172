/** The browser and the endpoint together: what the client puts on the wire
    always gets past the endpoint's guard, and what the endpoint answers is
    what the client delivers. */
module Protocol {
  import opened Wrappers
  import opened Text
  import opened Wire
  import opened Matcher
  import opened Client

  /** What the client sends always meets the endpoint's length requirement
      whenever the endpoint asks for no more than the client's own two code
      units (the shipped setting asks for exactly two). The endpoint's blank
      test is the only part of its guard that can still turn the query away,
      and only a query that begins and ends with the next-line character,
      which `trim()` keeps and .NET counts as white space, can fail it. */
  lemma SentQueryPassesServerGuard(query: Option<string>, limit: Option<int>, minSearchChars: int)
    requires minSearchChars <= MinQueryLength
    ensures Begin(query, limit).Send? ==>
              var sent := Begin(query, limit).request.query;
              && Utf16Length(sent) >= minSearchChars
              && (IsShortQuery(Some(sent), minSearchChars) <==> IsBlank(sent))
              && (IsBlank(sent) ==> sent[0] == NextLine && sent[|sent| - 1] == NextLine)
  {
    if Begin(query, limit).Send? {
      TrimmedBlankEndsWithNextLine(query.value);
    }
  }

  /** Two next-line characters: the client sends them, since `trim()` keeps
      them and they make two code units, while the endpoint finds them blank
      and answers with the empty response whatever the store holds. */
  lemma NextLineQueryIsSentButRefused(store: seq<Customer>, config: Config)
    ensures var q := [NextLine, NextLine];
            && Begin(Some(q), None) == Send(Request(q, DefaultLimit))
            && Search(store, Some(q), Some(DefaultLimit), config) == EmptyResponse
  {
    var q := [NextLine, NextLine];
    TrimKeepsInnerText(q);
    assert IsBlank(q);
  }

  /** A single character outside the Basic Multilingual Plane is two UTF-16
      code units on both sides: the client sends it and the endpoint searches
      for it under the default settings. */
  lemma AstralCharacterIsLongEnough(store: seq<Customer>)
    ensures var q := "\U{1F600}";
            && Begin(Some(q), None) == Send(Request(q, DefaultLimit))
            && Search(store, Some(q), Some(DefaultLimit), DefaultConfig).totalCount == |Where(store, q)|
  {
    var q := "\U{1F600}";
    TrimKeepsInnerText(q);
    assert Utf16Length(q) == 2;
    assert !IsBlank(q);
  }

  /** With the client's default limit the page never holds more than ten
      customers, whatever the endpoint's ceiling, and never more than that
      ceiling either. */
  lemma DefaultPageIsAtMostTen(store: seq<Customer>, query: string, config: Config)
    requires Begin(Some(query), None).Send?
    ensures var request := Begin(Some(query), None).request;
            var r := Search(store, Some(request.query), Some(request.limit), config);
            |r.customers| <= DefaultLimit && |r.customers| <= if config.searchLimit < 0 then 0 else config.searchLimit
  {
  }

  /** A round trip: when the first attempt is answered in time by the
      endpoint, the client delivers exactly the endpoint's answer for the
      trimmed query after a single request, and every customer in it is the
      projection of a stored customer that matches that query. */
  lemma RoundTrip(store: seq<Customer>, query: string, config: Config, later: seq<Attempt>, latencyMs: nat)
    requires Utf16Length(Trim(query)) >= MinQueryLength && config.minSearchChars <= MinQueryLength
    requires |later| >= RetryCount && latencyMs < TimeoutMs
    ensures var answer := Search(store, Some(Trim(query)), Some(DefaultLimit), config);
            var c := SearchCustomers(Some(query), None, [Attempt(latencyMs, Ok(answer))] + later);
            && c == Call(Delivered(answer), [Request(Trim(query), DefaultLimit)], 0)
            && forall d :: d in answer.customers ==> exists s :: s in store && IsMatch(s, Trim(query)) && d == Project(s)
  {
  }
}
