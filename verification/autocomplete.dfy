/** The `customer-autocomplete` component. Its `results$` pipeline
    (`startWith('')`, `debounceTime`, `distinctUntilChanged`, `switchMap` to
    `performSearch`) is modelled by functions over the pipeline's own state,
    driven by discrete events instead of clock time: a value change arms the
    debounce timer, the timer elapsing hands the value on, and a response
    comes back tagged with the number of the search that asked for it. The
    component's fields and its event handlers form the class
    `CustomerAutocomplete`. */
module Autocomplete {
  import opened Wrappers
  import opened Text
  import opened Wire
  import Client

  /** The value of the search `FormControl`, which `reset`-style updates can
      make null. */
  datatype FieldValue = Null | Value(text: string)

  /** `value || ''`. */
  function OrEmpty(v: FieldValue): string {
    if v.Null? then "" else v.text
  }

  /** What `performSearch` did: the result list is known at once (a short
      query, or the service's own short-query answer), or a request was sent
      and its response is awaited. */
  datatype SearchStart = Settled(results: seq<CustomerDto>) | Outstanding(request: Client.Request)

  /** `performSearch`: a query that is empty, or shorter than `minChars` once
      trimmed, yields an empty list without calling the service; otherwise the
      service is called with the trimmed query and its default limit, and only
      a query that also passes the service's own two-code-unit guard makes an
      HTTP request. Lengths are counted in UTF-16 code units. */
  function PerformSearch(query: string, minChars: int): (s: SearchStart)
    ensures s.Settled? ==> s.results == []
    ensures s.Outstanding? <==>
              query != "" && Utf16Length(Trim(query)) >= minChars && Utf16Length(Trim(query)) >= Client.MinQueryLength
    ensures s.Outstanding? ==> s.request == Client.Request(Trim(query), Client.DefaultLimit)
  {
    if query == "" || Utf16Length(Trim(query)) < minChars then Settled([])
    else
      TrimIdempotent(query);
      match Client.Begin(Some(Trim(query)), None)
      case Immediate(response) => Settled(response.customers)
      case Send(request) => Outstanding(request)
  }

  /** The state of the `results$` pipeline: the value waiting for the
      debounce timer (if it is armed), the last value handed on by
      `distinctUntilChanged`, the number of the latest search `switchMap`
      started, and whether that search's response is still awaited. */
  datatype Pipeline = Pipeline(pending: Option<FieldValue>, lastProcessed: Option<FieldValue>, latest: nat, awaiting: bool)

  /** Right after subscription: `startWith('')` has put `''` on the timer. */
  const InitialPipeline := Pipeline(Some(Value("")), None, 0, false)

  /** A new value restarts the debounce timer with that value. */
  function Changed(p: Pipeline, v: FieldValue): Pipeline {
    p.(pending := Some(v))
  }

  /** The debounce timer elapses. With no timer armed nothing happens. A
      value equal to the last one handed on is dropped. Any other value is
      handed on: the search it starts gets the next number, which makes every
      earlier search's response stale. */
  function Fire(p: Pipeline, minChars: int): (r: (Pipeline, Option<SearchStart>))
    ensures r.0.pending.None? && r.0.latest >= p.latest
    ensures r.1.Some? <==> p.pending.Some? && p.pending != p.lastProcessed
    ensures r.1.None? ==> r.0 == p.(pending := None)
    ensures r.1.Some? ==> && r.1.value == PerformSearch(OrEmpty(p.pending.value), minChars)
                          && r.0.lastProcessed == p.pending
                          && r.0.latest == p.latest + 1
                          && (r.0.awaiting <==> r.1.value.Outstanding?)
  {
    match p.pending
    case None => (p, None)
    case Some(v) =>
      if p.lastProcessed == Some(v) then (p.(pending := None), None)
      else
        var start := PerformSearch(OrEmpty(v), minChars);
        (Pipeline(None, Some(v), p.latest + 1, start.Outstanding?), Some(start))
  }

  /** The `switchMap` gate: only the response of the latest search, and only
      while it is awaited, gets through. */
  predicate Accepts(p: Pipeline, seqNo: nat) {
    p.awaiting && seqNo == p.latest
  }

  function Respond(p: Pipeline, seqNo: nat): Pipeline {
    if Accepts(p, seqNo) then p.(awaiting := false) else p
  }

  /** The events the pipeline reacts to. */
  datatype Event = ValueChange(v: FieldValue) | DebounceElapsed | ResponseFor(seqNo: nat)

  function Step(p: Pipeline, e: Event, minChars: int): Pipeline {
    match e
    case ValueChange(v) => Changed(p, v)
    case DebounceElapsed => Fire(p, minChars).0
    case ResponseFor(n) => Respond(p, n)
  }

  /** The sequence numbers whose responses got through, in arrival order. */
  function Applied(p: Pipeline, events: seq<Event>, minChars: int): seq<nat>
    decreases |events|
  {
    if events == [] then []
    else
      var e := events[0];
      (if e.ResponseFor? && Accepts(p, e.seqNo) then [e.seqNo] else [])
        + Applied(Step(p, e, minChars), events[1..], minChars)
  }

  /** The queries handed to `performSearch`, in order. */
  function Dispatched(p: Pipeline, events: seq<Event>, minChars: int): seq<string>
    decreases |events|
  {
    if events == [] then []
    else
      var e := events[0];
      (if e.DebounceElapsed? && p.pending.Some? && p.pending != p.lastProcessed
       then [OrEmpty(p.pending.value)] else [])
        + Dispatched(Step(p, e, minChars), events[1..], minChars)
  }

  predicate StrictlyIncreasing(s: seq<nat>) {
    forall i, j :: 0 <= i < j < |s| ==> s[i] < s[j]
  }

  /** One step never goes back to an older search, and a search that stays
      the latest is awaited afterwards only if it was awaited before. */
  lemma StepAdvances(p: Pipeline, e: Event, minChars: int)
    ensures var q := Step(p, e, minChars);
            q.latest > p.latest || (q.latest == p.latest && (q.awaiting ==> p.awaiting))
  {
  }

  /** The visible outcome never regresses: over any run, the responses that
      get through belong to strictly increasing search numbers, none of them
      older than the latest search at the start, and the latest search's own
      response only if it was still awaited. */
  lemma {:induction false} AppliedNeverRegresses(p: Pipeline, events: seq<Event>, minChars: int)
    ensures StrictlyIncreasing(Applied(p, events, minChars))
    ensures forall x :: x in Applied(p, events, minChars) ==> x > p.latest || (x == p.latest && p.awaiting)
    decreases |events|
  {
    if events != [] {
      var e := events[0];
      var q := Step(p, e, minChars);
      StepAdvances(p, e, minChars);
      AppliedNeverRegresses(q, events[1..], minChars);
      var rest := Applied(q, events[1..], minChars);
      var head: seq<nat> := if e.ResponseFor? && Accepts(p, e.seqNo) then [e.seqNo] else [];
      var all := Applied(p, events, minChars);
      assert all == head + rest;
      if head != [] {
        assert q.latest == p.latest && !q.awaiting;
        forall i, j | 0 <= i < j < |all| ensures all[i] < all[j] {
          assert all[j] == rest[j - 1] && rest[j - 1] in rest;
          if i > 0 {
            assert all[i] == rest[i - 1];
          }
        }
      }
    }
  }

  /** A superseded search's response is never applied, however late it comes. */
  lemma SupersededNeverApplied(p: Pipeline, events: seq<Event>, minChars: int, n: nat)
    requires n < p.latest
    ensures n !in Applied(p, events, minChars)
  {
    AppliedNeverRegresses(p, events, minChars);
  }

  /** The value changes of a burst of keystrokes. */
  function Changes(values: seq<FieldValue>): (r: seq<Event>)
    ensures |r| == |values|
    ensures forall i :: 0 <= i < |values| ==> r[i] == ValueChange(values[i])
  {
    seq(|values|, i requires 0 <= i < |values| => ValueChange(values[i]))
  }

  /** Debouncing: a burst of values followed by a single quiet period hands
      on exactly one query, that of the last value, unless the last value is
      the one handed on before. */
  lemma {:induction false} BurstDispatchesLastOnly(p: Pipeline, values: seq<FieldValue>, minChars: int)
    requires |values| > 0
    ensures Dispatched(p, Changes(values) + [DebounceElapsed], minChars) ==
            if p.lastProcessed == Some(values[|values| - 1]) then [] else [OrEmpty(values[|values| - 1])]
    decreases |values|
  {
    var events := Changes(values) + [DebounceElapsed];
    var q := Changed(p, values[0]);
    assert events[0] == ValueChange(values[0]);
    assert Dispatched(p, events, minChars) == Dispatched(q, events[1..], minChars);
    if |values| == 1 {
      assert events[1..] == [DebounceElapsed];
      assert Dispatched(q, events[1..], minChars) ==
             (if q.pending != q.lastProcessed then [OrEmpty(values[0])] else [])
               + Dispatched(Fire(q, minChars).0, [], minChars);
    } else {
      assert events[1..] == Changes(values[1..]) + [DebounceElapsed];
      BurstDispatchesLastOnly(q, values[1..], minChars);
    }
  }

  /** `distinctUntilChanged`: typing a value again after its search was
      started hands nothing on. */
  lemma RepeatedValueIsDropped(p: Pipeline, v: FieldValue, minChars: int)
    requires p.lastProcessed != Some(v)
    ensures Dispatched(p, [ValueChange(v), DebounceElapsed, ValueChange(v), DebounceElapsed], minChars) == [OrEmpty(v)]
  {
    var events := [ValueChange(v), DebounceElapsed, ValueChange(v), DebounceElapsed];
    var p1 := Step(p, events[0], minChars);
    var p2 := Step(p1, events[1], minChars);
    var p3 := Step(p2, events[2], minChars);
    var p4 := Step(p3, events[3], minChars);
    assert p3.pending == p3.lastProcessed;
    assert events[3..][1..] == [];
    assert Dispatched(p3, events[3..], minChars) == [] + Dispatched(p4, [], minChars);
    assert events[2..][1..] == events[3..];
    assert Dispatched(p2, events[2..], minChars) == [];
    assert events[1..][1..] == events[2..];
    assert Dispatched(p1, events[1..], minChars) == [OrEmpty(v)] + Dispatched(p2, events[2..], minChars);
    assert Dispatched(p, events, minChars) == [] + Dispatched(p1, events[1..], minChars);
  }

  /** The keys `onKeyDown` reacts to; every other key is `OtherKey`. */
  datatype Key = ArrowDown | ArrowUp | Enter | Escape | OtherKey

  /** All fields of the component at one moment, including the values it has
      emitted so far (`searchChanged`, `customerSelected`) and the requests it
      has made, each with the number of the search that made it. */
  datatype Snapshot = Snapshot(
    value: FieldValue,
    showDropdown: bool,
    highlightedIndex: int,
    errorMessage: Option<string>,
    isLoading: bool,
    currentResults: seq<CustomerDto>,
    pipeline: Pipeline,
    blurTimers: nat,
    searchChanged: seq<string>,
    customerSelected: seq<CustomerDto>,
    requests: seq<(nat, Client.Request)>)

  /** The component after construction and `ngOnInit`. */
  const InitialSnapshot := Snapshot(Value(""), false, -1, None, false, [], InitialPipeline, 0, [], [], [])

  /** The request log: every request was made by a search no later than the
      latest, in increasing order of search, and an awaited latest search
      has made the last request. */
  predicate RequestLog(requests: seq<(nat, Client.Request)>, latest: nat, awaiting: bool) {
    && (forall i :: 0 <= i < |requests| ==> requests[i].0 <= latest)
    && (forall i, j :: 0 <= i < j < |requests| ==> requests[i].0 < requests[j].0)
    && (awaiting ==> |requests| > 0 && requests[|requests| - 1].0 == latest)
  }

  /** A search that sends nothing moves past every logged request. */
  lemma RequestLogAdvances(requests: seq<(nat, Client.Request)>, latest: nat, awaiting: bool)
    requires RequestLog(requests, latest, awaiting)
    ensures RequestLog(requests, latest + 1, false)
  {
  }

  /** A search that sends a request logs it under its own, newest number. */
  lemma RequestLogAppends(requests: seq<(nat, Client.Request)>, latest: nat, awaiting: bool, request: Client.Request)
    requires RequestLog(requests, latest, awaiting)
    ensures RequestLog(requests + [(latest + 1, request)], latest + 1, true)
  {
    var t := requests + [(latest + 1, request)];
    forall i, j | 0 <= i < j < |t| ensures t[i].0 < t[j].0 {
      if j < |requests| {
        assert t[i] == requests[i] && t[j] == requests[j];
      } else {
        assert t[i] == requests[i] && requests[i].0 <= latest;
      }
    }
  }

  /** The highlight is "none" or an index; the loading indicator is on exactly
      while the latest search's response is awaited; the request log is
      ordered. */
  predicate Invariant(s: Snapshot) {
    && s.highlightedIndex >= -1
    && s.isLoading == s.pipeline.awaiting
    && RequestLog(s.requests, s.pipeline.latest, s.pipeline.awaiting)
  }

  /** A new input value, typed or set: `searchChanged` emits it (`''` for
      null), the highlight is reset and the debounce timer restarts. */
  function ValueChanged(s: Snapshot, v: FieldValue): Snapshot {
    s.(value := v, highlightedIndex := -1, searchChanged := s.searchChanged + [OrEmpty(v)],
       pipeline := Changed(s.pipeline, v))
  }

  /** The debounce timer elapses. When a value is handed on, `performSearch`
      clears the error and either shows the empty list at once or turns the
      loading indicator on and records the request under the new number. */
  function Debounced(s: Snapshot, minChars: int): Snapshot {
    var fired := Fire(s.pipeline, minChars);
    var p := fired.0;
    if fired.1.None? then s.(pipeline := p)
    else if fired.1.value.Settled? then
      s.(pipeline := p, errorMessage := None, isLoading := false, currentResults := fired.1.value.results)
    else
      s.(pipeline := p, errorMessage := None, isLoading := true,
         requests := s.requests + [(p.latest, fired.1.value.request)])
  }

  /** The service call of search `seqNo` completes. A stale or duplicate
      response changes nothing. Otherwise loading ends; a delivered page
      replaces the results, a failure records its message and leaves the
      results as they were (the inner stream completes without a value). */
  function Responded(s: Snapshot, seqNo: nat, completion: Client.Completion): (r: Snapshot)
    ensures !Accepts(s.pipeline, seqNo) ==> r == s
    ensures Accepts(s.pipeline, seqNo) ==>
              && r == s.(pipeline := r.pipeline, isLoading := false, currentResults := r.currentResults,
                         errorMessage := r.errorMessage)
              && r.pipeline == s.pipeline.(awaiting := false)
    ensures Accepts(s.pipeline, seqNo) && completion.Delivered? ==>
              r.currentResults == completion.response.customers && r.errorMessage == s.errorMessage
    ensures Accepts(s.pipeline, seqNo) && completion.Failed? ==>
              r.currentResults == s.currentResults && r.errorMessage == Some(completion.message)
  {
    if !Accepts(s.pipeline, seqNo) then s
    else match completion
      case Delivered(response) =>
        s.(pipeline := Respond(s.pipeline, seqNo), isLoading := false, currentResults := response.customers)
      case Failed(message) =>
        s.(pipeline := Respond(s.pipeline, seqNo), isLoading := false, errorMessage := Some(message))
  }

  /** `selectCustomer`: the input shows the customer's name (a value change
      like any other, so `searchChanged` emits the name and the debounce
      timer restarts with it), the customer is emitted once, the dropdown
      closes and the highlight is reset. The results, the error, the loading
      indicator, the running search and the blur callbacks stay as they were. */
  function Selected(s: Snapshot, c: CustomerDto): (r: Snapshot)
    ensures r == s.(value := Value(c.name), searchChanged := s.searchChanged + [c.name],
                    pipeline := s.pipeline.(pending := Some(Value(c.name))),
                    customerSelected := s.customerSelected + [c], showDropdown := false, highlightedIndex := -1)
  {
    ValueChanged(s, Value(c.name)).(customerSelected := s.customerSelected + [c], showDropdown := false,
                                    highlightedIndex := -1)
  }

  /** Selecting a customer starts a search for the customer's name once the
      debounce timer elapses, unless the name is the value last handed on. */
  lemma SelectionSearchesForName(s: Snapshot, c: CustomerDto, minChars: int)
    ensures Dispatched(Selected(s, c).pipeline, [DebounceElapsed], minChars) ==
            if s.pipeline.lastProcessed == Some(Value(c.name)) then [] else [c.name]
  {
    var p := Selected(s, c).pipeline;
    assert [DebounceElapsed][1..] == [];
    assert Dispatched(p, [DebounceElapsed], minChars) ==
           (if p.pending != p.lastProcessed then [c.name] else []) + Dispatched(Fire(p, minChars).0, [], minChars);
  }

  /** `onKeyDown`. Nothing happens while the dropdown is hidden or there are
      no results. ArrowDown moves the highlight down and stops on the last
      result; ArrowUp moves it up and stops on "none"; neither wraps. Enter
      selects the highlighted customer when the highlight is on one. Escape
      hides the dropdown and clears the highlight and nothing else. */
  function KeyDown(s: Snapshot, key: Key): (r: Snapshot)
    ensures !s.showDropdown || s.currentResults == [] ==> r == s
    ensures s.showDropdown && s.currentResults != [] && key == ArrowDown ==>
              && r == s.(highlightedIndex := r.highlightedIndex)
              && r.highlightedIndex == Min(s.highlightedIndex + 1, |s.currentResults| - 1)
              && (s.highlightedIndex >= -1 ==> 0 <= r.highlightedIndex < |s.currentResults|)
    ensures s.showDropdown && s.currentResults != [] && key == ArrowUp ==>
              && r == s.(highlightedIndex := r.highlightedIndex)
              && r.highlightedIndex == Max(s.highlightedIndex - 1, -1)
              && (s.highlightedIndex < |s.currentResults| ==> -1 <= r.highlightedIndex < |s.currentResults|)
    ensures s.showDropdown && s.currentResults != [] && key == Enter ==>
              if 0 <= s.highlightedIndex < |s.currentResults|
              then r == Selected(s, s.currentResults[s.highlightedIndex])
              else r == s
    ensures s.showDropdown && s.currentResults != [] && key == Escape ==>
              r == s.(showDropdown := false, highlightedIndex := -1)
    ensures key == OtherKey ==> r == s
  {
    var n := |s.currentResults|;
    var h := s.highlightedIndex;
    if !s.showDropdown || n == 0 then s
    else match key
      case ArrowDown => s.(highlightedIndex := Min(h + 1, n - 1))
      case ArrowUp => s.(highlightedIndex := Max(h - 1, -1))
      case Enter => if 0 <= h < n then Selected(s, s.currentResults[h]) else s
      case Escape => s.(showDropdown := false, highlightedIndex := -1)
      case OtherKey => s
  }

  function Min(a: int, b: int): int { if a < b then a else b }

  function Max(a: int, b: int): int { if a > b then a else b }

  /** Every event the component handles. */
  datatype UiEvent =
    | Typed(v: FieldValue)
    | TimerElapsed
    | Response(seqNo: nat, completion: Client.Completion)
    | Focus
    | Blur
    | BlurTimer
    | KeyPress(key: Key)
    | Click(c: CustomerDto)
    | ClearInput

  /** The component's reaction to one event. A blur callback with none
      scheduled cannot happen and changes nothing. */
  function Next(s: Snapshot, e: UiEvent, minChars: int): Snapshot {
    match e
    case Typed(v) => ValueChanged(s, v)
    case TimerElapsed => Debounced(s, minChars)
    case Response(n, c) => Responded(s, n, c)
    case Focus => s.(showDropdown := true)
    case Blur => s.(blurTimers := s.blurTimers + 1)
    case BlurTimer =>
      if s.blurTimers == 0 then s
      else s.(blurTimers := s.blurTimers - 1, showDropdown := false, highlightedIndex := -1)
    case KeyPress(k) => KeyDown(s, k)
    case Click(c) => Selected(s, c)
    case ClearInput => ValueChanged(s, Value("")).(showDropdown := false, highlightedIndex := -1)
  }

  /** Handing a value on keeps the request log ordered: the new request
      carries a number above every earlier one. */
  lemma DebouncedKeepsInvariant(s: Snapshot, minChars: int)
    requires Invariant(s)
    ensures Invariant(Debounced(s, minChars))
  {
    var fired := Fire(s.pipeline, minChars);
    if fired.1.Some? {
      if fired.1.value.Settled? {
        RequestLogAdvances(s.requests, s.pipeline.latest, s.pipeline.awaiting);
      } else {
        RequestLogAppends(s.requests, s.pipeline.latest, s.pipeline.awaiting, fired.1.value.request);
      }
    }
  }

  lemma KeyDownKeepsInvariant(s: Snapshot, key: Key)
    requires Invariant(s)
    ensures Invariant(KeyDown(s, key))
  {
  }

  /** Every handler keeps the invariant. */
  lemma NextKeepsInvariant(s: Snapshot, e: UiEvent, minChars: int)
    requires Invariant(s)
    ensures Invariant(Next(s, e, minChars))
  {
    match e
    case TimerElapsed => DebouncedKeepsInvariant(s, minChars);
    case KeyPress(k) => KeyDownKeepsInvariant(s, k);
    case _ =>
  }

  /** The invariant holds in every state the component can reach. */
  lemma {:induction false} RunKeepsInvariant(s: Snapshot, events: seq<UiEvent>, minChars: int)
    requires Invariant(s)
    ensures Invariant(Run(s, events, minChars))
    decreases |events|
  {
    if events != [] {
      NextKeepsInvariant(s, events[0], minChars);
      RunKeepsInvariant(Next(s, events[0], minChars), events[1..], minChars);
    }
  }

  function Run(s: Snapshot, events: seq<UiEvent>, minChars: int): Snapshot
    decreases |events|
  {
    if events == [] then s else Run(Next(s, events[0], minChars), events[1..], minChars)
  }

  /** The pipeline event an event of the component amounts to: a value
      change (typed, a click on a customer, clearing), the timer, or a
      response. Focus and blur leave the pipeline alone; a key press is not
      mapped, since whether Enter selects depends on the state. */
  function PipelineEvent(e: UiEvent): Option<Event> {
    match e
    case Typed(v) => Some(ValueChange(v))
    case TimerElapsed => Some(DebounceElapsed)
    case Response(n, _) => Some(ResponseFor(n))
    case Click(c) => Some(ValueChange(Value(c.name)))
    case ClearInput => Some(ValueChange(Value("")))
    case _ => None
  }

  function PipelineEvents(events: seq<UiEvent>): seq<Event>
    decreases |events|
  {
    if events == [] then []
    else
      (if PipelineEvent(events[0]).Some? then [PipelineEvent(events[0]).value] else [])
        + PipelineEvents(events[1..])
  }

  /** The pipeline after a sequence of its own events. */
  function Steps(p: Pipeline, events: seq<Event>, minChars: int): Pipeline
    decreases |events|
  {
    if events == [] then p else Steps(Step(p, events[0], minChars), events[1..], minChars)
  }

  /** Each handler moves the component's pipeline exactly as the pipeline's
      own step for the event it amounts to, and leaves it alone otherwise. */
  lemma NextMovesPipeline(s: Snapshot, e: UiEvent, minChars: int)
    requires !e.KeyPress?
    ensures Next(s, e, minChars).pipeline ==
            if PipelineEvent(e).Some? then Step(s.pipeline, PipelineEvent(e).value, minChars) else s.pipeline
  {
  }

  /** Over a run without key presses the component's pipeline is the pipeline
      driven by the projected events, so what is proved of `Steps`,
      `Applied` and `Dispatched` holds of the component. */
  lemma {:induction false} RunMovesPipeline(s: Snapshot, events: seq<UiEvent>, minChars: int)
    requires forall i :: 0 <= i < |events| ==> !events[i].KeyPress?
    ensures Run(s, events, minChars).pipeline == Steps(s.pipeline, PipelineEvents(events), minChars)
    decreases |events|
  {
    if events != [] {
      var e := events[0];
      var t := Next(s, e, minChars);
      NextMovesPipeline(s, e, minChars);
      RunMovesPipeline(t, events[1..], minChars);
      var rest := PipelineEvents(events[1..]);
      if PipelineEvent(e).Some? {
        var pe := PipelineEvent(e).value;
        assert PipelineEvents(events) == [pe] + rest;
        assert ([pe] + rest)[1..] == rest;
        assert Steps(s.pipeline, [pe] + rest, minChars) == Steps(Step(s.pipeline, pe, minChars), rest, minChars);
      } else {
        assert PipelineEvents(events) == [] + rest;
        assert [] + rest == rest;
      }
    }
  }

  /** Repeated ArrowDown from "none" walks down the list and then stays on the
      last result: after `k` presses the highlight is on result
      `min(k, n) - 1`; it never wraps to the top. */
  lemma {:induction false} ArrowDownStopsAtLast(s: Snapshot, k: nat, minChars: int)
    requires s.showDropdown && s.currentResults != [] && s.highlightedIndex == -1
    ensures var r := Run(s, seq(k, _ => KeyPress(ArrowDown)), minChars);
            && r.highlightedIndex == Min(k, |s.currentResults|) - 1
            && r == s.(highlightedIndex := r.highlightedIndex)
  {
    if k > 0 {
      var downs := seq(k, _ => KeyPress(ArrowDown));
      var t := Run(s, seq(k - 1, _ => KeyPress(ArrowDown)), minChars);
      ArrowDownStopsAtLast(s, k - 1, minChars);
      RunSnoc(s, seq(k - 1, _ => KeyPress(ArrowDown)), KeyPress(ArrowDown), minChars);
      assert downs == seq(k - 1, _ => KeyPress(ArrowDown)) + [KeyPress(ArrowDown)];
    } else {
      assert seq(k, _ => KeyPress(ArrowDown)) == [];
    }
  }

  /** Running one more event after a run. */
  lemma {:induction false} RunSnoc(s: Snapshot, events: seq<UiEvent>, e: UiEvent, minChars: int)
    ensures Run(s, events + [e], minChars) == Next(Run(s, events, minChars), e, minChars)
    decreases |events|
  {
    if events == [] {
      assert events + [e] == [e];
      assert [e][1..] == [];
    } else {
      assert (events + [e])[1..] == events[1..] + [e];
      RunSnoc(Next(s, events[0], minChars), events[1..], e, minChars);
    }
  }

  /** The component itself: its fields, and one method per handler, each
      proved to leave the fields as the corresponding transition says. */
  class CustomerAutocomplete {
    const minChars: int

    var value: FieldValue
    var showDropdown: bool
    var highlightedIndex: int
    var errorMessage: Option<string>
    var isLoading: bool
    var currentResults: seq<CustomerDto>
    var pipeline: Pipeline
    /** `setTimeout` callbacks scheduled by `onBlur` that have not run yet. */
    var blurTimers: nat
    var searchChanged: seq<string>
    var customerSelected: seq<CustomerDto>
    var requests: seq<(nat, Client.Request)>

    function Snap(): Snapshot
      reads this
    {
      Snapshot(value, showDropdown, highlightedIndex, errorMessage, isLoading, currentResults,
               pipeline, blurTimers, searchChanged, customerSelected, requests)
    }

    ghost predicate Valid()
      reads this
    {
      Invariant(Snap())
    }

    /** The component after construction and `ngOnInit`. */
    constructor (minChars: int)
      ensures Valid() && this.minChars == minChars
      ensures Snap() == InitialSnapshot
    {
      this.minChars := minChars;
      value := Value("");
      showDropdown := false;
      highlightedIndex := -1;
      errorMessage := None;
      isLoading := false;
      currentResults := [];
      pipeline := InitialPipeline;
      blurTimers := 0;
      searchChanged := [];
      customerSelected := [];
      requests := [];
    }

    /** The `valueChanges` subscriptions: a typed value, or `setValue`. */
    method SetValue(v: FieldValue)
      requires Valid()
      modifies this
      ensures Valid()
      ensures Snap() == ValueChanged(old(Snap()), v)
    {
      NextKeepsInvariant(Snap(), Typed(v), minChars);
      value := v;
      searchChanged := searchChanged + [OrEmpty(v)];
      highlightedIndex := -1;
      pipeline := Changed(pipeline, v);
    }

    /** The debounce timer elapses. */
    method DebounceElapsed()
      requires Valid()
      modifies this
      ensures Valid()
      ensures Snap() == Debounced(old(Snap()), minChars)
    {
      ghost var before := Snap();
      DebouncedKeepsInvariant(before, minChars);
      var fired := Fire(pipeline, minChars);
      pipeline := fired.0;
      if fired.1.None? {
        assert Snap() == before.(pipeline := fired.0);
      } else if fired.1.value.Settled? {
        errorMessage := None;
        isLoading := false;
        currentResults := fired.1.value.results;
        assert Snap() == before.(pipeline := fired.0, errorMessage := None, isLoading := false,
                                 currentResults := fired.1.value.results);
      } else {
        errorMessage := None;
        isLoading := true;
        requests := requests + [(pipeline.latest, fired.1.value.request)];
        assert Snap() == before.(pipeline := fired.0, errorMessage := None, isLoading := true,
                                 requests := before.requests + [(fired.0.latest, fired.1.value.request)]);
      }
    }

    /** The service call of search `seqNo` completes. */
    method ResponseArrived(seqNo: nat, completion: Client.Completion)
      requires Valid()
      modifies this
      ensures Valid()
      ensures Snap() == Responded(old(Snap()), seqNo, completion)
    {
      NextKeepsInvariant(Snap(), Response(seqNo, completion), minChars);
      if Accepts(pipeline, seqNo) {
        pipeline := Respond(pipeline, seqNo);
        isLoading := false;
        match completion
        case Delivered(response) =>
          currentResults := response.customers;
        case Failed(message) =>
          errorMessage := Some(message);
      }
    }

    method OnFocus()
      requires Valid()
      modifies this
      ensures Valid()
      ensures Snap() == old(Snap()).(showDropdown := true)
    {
      showDropdown := true;
    }

    /** `onBlur` only schedules the hiding, so that a click on an item still
        lands. */
    method OnBlur()
      requires Valid()
      modifies this
      ensures Valid()
      ensures Snap() == old(Snap()).(blurTimers := old(blurTimers) + 1)
    {
      blurTimers := blurTimers + 1;
    }

    /** One of the callbacks scheduled by `onBlur` runs. */
    method BlurTimerFired()
      requires Valid() && blurTimers > 0
      modifies this
      ensures Valid()
      ensures Snap() == old(Snap()).(blurTimers := old(blurTimers) - 1, showDropdown := false,
                                     highlightedIndex := -1)
    {
      blurTimers := blurTimers - 1;
      showDropdown := false;
      highlightedIndex := -1;
    }

    method SelectCustomer(c: CustomerDto)
      requires Valid()
      modifies this
      ensures Valid()
      ensures Snap() == Selected(old(Snap()), c)
    {
      NextKeepsInvariant(Snap(), Click(c), minChars);
      SetValue(Value(c.name));
      customerSelected := customerSelected + [c];
      showDropdown := false;
      highlightedIndex := -1;
    }

    /** `clear`: the input is emptied (a value change), the dropdown closes and
        the highlight is reset. */
    method Clear()
      requires Valid()
      modifies this
      ensures Valid()
      ensures Snap() == ValueChanged(old(Snap()), Value("")).(showDropdown := false, highlightedIndex := -1)
    {
      SetValue(Value(""));
      showDropdown := false;
      highlightedIndex := -1;
    }

    method OnKeyDown(key: Key)
      requires Valid()
      modifies this
      ensures Valid()
      ensures Snap() == KeyDown(old(Snap()), key)
    {
      KeyDownKeepsInvariant(Snap(), key);
      var n := |currentResults|;
      if !showDropdown || n == 0 {
        return;
      }
      match key
      case ArrowDown =>
        highlightedIndex := Min(highlightedIndex + 1, n - 1);
      case ArrowUp =>
        highlightedIndex := Max(highlightedIndex - 1, -1);
      case Enter =>
        if 0 <= highlightedIndex < n {
          SelectCustomer(currentResults[highlightedIndex]);
        }
      case Escape =>
        showDropdown := false;
        highlightedIndex := -1;
      case OtherKey =>
    }
  }
}
