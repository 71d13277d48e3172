/** Runs of the autocomplete component against the service, each driving a
    fresh `CustomerAutocomplete` through its handlers and stating what the
    user ends up seeing. */
module AutocompleteScenarios {
  import opened Wrappers
  import opened Text
  import opened Wire
  import opened Client
  import opened Autocomplete

  /** The debounce timer elapses with `q` waiting, a query long enough to
      search and different from the last one handed on: a search for the
      trimmed query starts under the next number and the old results stay on
      show meanwhile. */
  method Pause(ac: CustomerAutocomplete, q: string)
    requires ac.Valid() && ac.minChars == 2
    requires Utf16Length(Trim(q)) >= 2 && ac.pipeline.pending == Some(Value(q)) && ac.pipeline.lastProcessed != Some(Value(q))
    modifies ac
    ensures ac.Valid()
    ensures ac.pipeline == Pipeline(None, Some(Value(q)), old(ac.pipeline.latest) + 1, true)
    ensures ac.requests == old(ac.requests) + [(ac.pipeline.latest, Request(Trim(q), DefaultLimit))]
    ensures ac.isLoading && ac.errorMessage.None? && ac.highlightedIndex == old(ac.highlightedIndex)
    ensures ac.currentResults == old(ac.currentResults) && ac.showDropdown == old(ac.showDropdown)
    ensures ac.customerSelected == old(ac.customerSelected) && ac.searchChanged == old(ac.searchChanged)
  {
    ac.DebounceElapsed();
  }

  /** The user types `q` and pauses until the debounce timer elapses. */
  method TypeAndPause(ac: CustomerAutocomplete, q: string)
    requires ac.Valid() && ac.minChars == 2
    requires Utf16Length(Trim(q)) >= 2 && ac.pipeline.lastProcessed != Some(Value(q))
    modifies ac
    ensures ac.Valid()
    ensures ac.pipeline == Pipeline(None, Some(Value(q)), old(ac.pipeline.latest) + 1, true)
    ensures ac.requests == old(ac.requests) + [(ac.pipeline.latest, Request(Trim(q), DefaultLimit))]
    ensures ac.isLoading && ac.errorMessage.None? && ac.highlightedIndex == -1
    ensures ac.currentResults == old(ac.currentResults) && ac.showDropdown == old(ac.showDropdown)
    ensures ac.customerSelected == old(ac.customerSelected)
  {
    ac.SetValue(Value(q));
    Pause(ac, q);
  }

  /** The response of the awaited latest search arrives with a page: the
      page is shown and loading ends. */
  method ReceivePage(ac: CustomerAutocomplete, page: seq<CustomerDto>)
    requires ac.Valid() && ac.pipeline.awaiting
    modifies ac
    ensures ac.Valid()
    ensures ac.currentResults == page && !ac.isLoading && ac.pipeline == old(ac.pipeline).(awaiting := false)
    ensures ac.errorMessage == old(ac.errorMessage) && ac.requests == old(ac.requests)
    ensures ac.highlightedIndex == old(ac.highlightedIndex) && ac.showDropdown == old(ac.showDropdown)
    ensures ac.customerSelected == old(ac.customerSelected)
  {
    ac.ResponseArrived(ac.pipeline.latest, Delivered(SearchResponse(page, |page|)));
  }

  /** The outcome of a search older than the latest arrives: nothing
      changes. */
  method ReceiveStale(ac: CustomerAutocomplete, seqNo: nat, outcome: Completion)
    requires ac.Valid() && seqNo < ac.pipeline.latest
    modifies ac
    ensures ac.Valid() && ac.Snap() == old(ac.Snap())
  {
    ac.ResponseArrived(seqNo, outcome);
  }

  /** ArrowDown with the dropdown open on a non-empty list moves the
      highlight one down, stopping on the last result, and changes nothing
      else. */
  method PressArrowDown(ac: CustomerAutocomplete)
    requires ac.Valid() && ac.showDropdown && ac.currentResults != []
    modifies ac
    ensures ac.Valid()
    ensures ac.Snap() == old(ac.Snap()).(highlightedIndex := Min(old(ac.highlightedIndex) + 1, |ac.currentResults| - 1))
  {
    ac.OnKeyDown(ArrowDown);
  }

  /** A fresh component in which the user typed `q` and paused: one search
      has started and is awaited. */
  method OneSearch(q: string) returns (ac: CustomerAutocomplete)
    requires Utf16Length(Trim(q)) >= 2
    ensures fresh(ac) && ac.Valid() && ac.minChars == 2
    ensures ac.pipeline == Pipeline(None, Some(Value(q)), 1, true)
    ensures ac.requests == [(1, Request(Trim(q), DefaultLimit))]
    ensures ac.errorMessage.None? && ac.currentResults == [] && ac.customerSelected == [] && !ac.showDropdown
  {
    ac := new CustomerAutocomplete(2);
    assert ac.requests == [] && ac.pipeline == InitialPipeline && !ac.showDropdown;
    TypeAndPause(ac, q);
  }

  /** A fresh component in which the user typed `first`, paused, typed
      `second` and paused again: two searches have started and the second is
      awaited. */
  method TwoSearches(first: string, second: string) returns (ac: CustomerAutocomplete)
    requires Utf16Length(Trim(first)) >= 2 && Utf16Length(Trim(second)) >= 2 && first != second
    ensures fresh(ac) && ac.Valid() && ac.minChars == 2
    ensures ac.pipeline == Pipeline(None, Some(Value(second)), 2, true)
    ensures ac.requests == [(1, Request(Trim(first), DefaultLimit)), (2, Request(Trim(second), DefaultLimit))]
    ensures ac.errorMessage.None? && ac.currentResults == [] && ac.customerSelected == []
  {
    ac := OneSearch(first);
    TypeAndPause(ac, second);
  }

  /** Out-of-order responses: the user types a first query, waits for its
      search to start, then types a second one and waits again. The second
      response arrives first and is shown; the first response arriving after
      it, whether a page or an error, is discarded, so the list shows the
      newer page, loading is over and no error is displayed. */
  method StaleResponseIsDiscarded(first: string, second: string, newer: seq<CustomerDto>, olderOutcome: Completion)
    returns (shown: seq<CustomerDto>, loading: bool, error: Option<string>, sent: seq<(nat, Request)>)
    requires Utf16Length(Trim(first)) >= 2 && Utf16Length(Trim(second)) >= 2 && first != second
    ensures shown == newer && !loading && error.None?
    ensures sent == [(1, Request(Trim(first), DefaultLimit)), (2, Request(Trim(second), DefaultLimit))]
  {
    var ac := TwoSearches(first, second);
    ReceivePage(ac, newer);
    ReceiveStale(ac, 1, olderOutcome);
    shown, loading, error, sent := ac.currentResults, ac.isLoading, ac.errorMessage, ac.requests;
  }

  /** The user types `values` one after the other, faster than the debounce
      period: each value is emitted on `searchChanged` and replaces the one
      waiting for the timer, and no search starts. */
  method TypeBurst(ac: CustomerAutocomplete, values: seq<string>)
    requires ac.Valid()
    modifies ac
    ensures ac.Valid()
    ensures ac.searchChanged == old(ac.searchChanged) + values
    ensures ac.requests == old(ac.requests)
    ensures ac.pipeline == if values == [] then old(ac.pipeline)
                           else old(ac.pipeline).(pending := Some(Value(values[|values| - 1])))
  {
    var i := 0;
    while i < |values|
      invariant 0 <= i <= |values|
      invariant ac.Valid()
      invariant ac.searchChanged == old(ac.searchChanged) + values[..i]
      invariant ac.requests == old(ac.requests)
      invariant ac.pipeline == if i == 0 then old(ac.pipeline)
                               else old(ac.pipeline).(pending := Some(Value(values[i - 1])))
    {
      ac.SetValue(Value(values[i]));
      assert values[..i + 1] == values[..i] + [values[i]];
      i := i + 1;
    }
    assert values[..|values|] == values;
  }

  /** Debouncing: a burst of keystrokes followed by one quiet period emits
      every value on `searchChanged` but sends a single request, for the
      last value, trimmed. */
  method BurstSendsOneRequest(values: seq<string>)
    returns (changed: seq<string>, sent: seq<(nat, Request)>)
    requires |values| > 0 && Utf16Length(Trim(values[|values| - 1])) >= 2
    ensures changed == values
    ensures sent == [(1, Request(Trim(values[|values| - 1]), DefaultLimit))]
  {
    var ac := new CustomerAutocomplete(2);
    assert ac.requests == [] && ac.searchChanged == [] && ac.pipeline == InitialPipeline;
    TypeBurst(ac, values);
    Pause(ac, values[|values| - 1]);
    changed, sent := ac.searchChanged, ac.requests;
  }

  /** A fresh component, focused, showing the page `shown` for `first`, in
      which the user has typed `second` and paused: the search for `second`
      is awaited while the old page stays on show with no highlight. */
  method NewSearchOverOldList(first: string, second: string, shown: seq<CustomerDto>) returns (ac: CustomerAutocomplete)
    requires Utf16Length(Trim(first)) >= 2 && Utf16Length(Trim(second)) >= 2 && first != second
    ensures fresh(ac) && ac.Valid()
    ensures ac.pipeline.awaiting && ac.currentResults == shown && ac.showDropdown && ac.highlightedIndex == -1
    ensures ac.customerSelected == []
  {
    ac := OneSearch(first);
    ReceivePage(ac, shown);
    ac.OnFocus();
    TypeAndPause(ac, second);
  }

  /** The highlight is reset when the input changes but not when results
      arrive. Three results are on show while the search for a new value is
      in flight; the user arrows down to the third, then the new search
      answers with a single customer. The highlight stays on index 2, past
      the end of the list, and Enter then selects nobody. */
  method HighlightCanOutliveResults(first: string, second: string, a: CustomerDto, b: CustomerDto, c: CustomerDto, d: CustomerDto)
    returns (highlight: int, count: int, selected: seq<CustomerDto>)
    requires Utf16Length(Trim(first)) >= 2 && Utf16Length(Trim(second)) >= 2 && first != second
    ensures highlight == 2 && count == 1 && selected == []
  {
    var ac := NewSearchOverOldList(first, second, [a, b, c]);
    PressArrowDown(ac);
    PressArrowDown(ac);
    PressArrowDown(ac);
    ReceivePage(ac, [d]);
    ac.OnKeyDown(Enter);
    highlight, count, selected := ac.highlightedIndex, |ac.currentResults|, ac.customerSelected;
  }
}
