/**
  The autocomplete text box as a state machine over discrete events: the
  parent's value changing, the user typing, the debounced term settling, a
  suggestion fetch completing, a suggestion being picked, focus and blur.
  The debounce and blur timers are not modelled: their firing is an event.
*/
module Autocomplete {
  import opened Wrappers

  datatype Suggestion = Suggestion(id: string, nome: string)

  /** How a suggestion fetch ended: with an array, with some other value (such as `undefined`), or by throwing. */
  datatype FetchResult = FetchedArray(items: seq<Suggestion>) | FetchedOther | FetchFailed

  /**
    The component's state. `term` is the last debounced search term the loading effect
    ran for (not component state in the source, but what that effect closes over).
  */
  datatype State = State(
    inputValue: string,
    suggestions: seq<Suggestion>,
    isLoading: bool,
    showSuggestions: bool,
    term: string)

  function Initial(value: string): State {
    State(value, [], false, false, value)
  }

  datatype Event =
    | ValueProp(value: string)
    | Typed(text: string)
    | TermSettled(debounced: string)
    | FetchDone(result: FetchResult)
    | Select(suggestion: Suggestion)
    | Focus
    | BlurElapsed

  /** The new state, the value reported through `onChange` (if any) and the term fetched (if any). */
  datatype Step = Step(state: State, reported: Option<string>, fetched: Option<string>)

  /** The suggestions a fetch result leaves: the array itself, or none at all. */
  function Stored(result: FetchResult): (r: seq<Suggestion>)
    ensures result.FetchedArray? ==> r == result.items
    ensures !result.FetchedArray? ==> r == []
  {
    if result.FetchedArray? then result.items else []
  }

  function Next(s: State, e: Event): (r: Step)
    ensures e.Select? ==>
      r.state.inputValue == e.suggestion.nome && r.reported == Some(e.suggestion.nome) && !r.state.showSuggestions
    ensures e.FetchDone? ==> !r.state.isLoading && r.state.suggestions == Stored(e.result)
    ensures e.TermSettled? && e.debounced == [] ==> r.fetched == None && r.state.suggestions == []
    ensures r.fetched.Some? <==> e.TermSettled? && e.debounced != []
    ensures r.fetched.Some? ==> r.fetched.value == e.debounced && r.state.isLoading
    ensures e.ValueProp? ==> r.state == s.(inputValue := e.value) && r.reported == None
    ensures r.reported.Some? <==> e.Typed? || e.Select?
  {
    match e
    case ValueProp(value) => Step(s.(inputValue := value), None, None)
    case Typed(text) => Step(s.(inputValue := text), Some(text), None)
    case TermSettled(debounced) =>
      if debounced == [] then Step(s.(suggestions := [], term := debounced), None, None)
      else Step(s.(isLoading := true, term := debounced), None, Some(debounced))
    case FetchDone(result) => Step(s.(suggestions := Stored(result), isLoading := false), None, None)
    case Select(suggestion) =>
      Step(s.(inputValue := suggestion.nome, showSuggestions := false), Some(suggestion.nome), None)
    case Focus => Step(s.(showSuggestions := true), None, None)
    case BlurElapsed => Step(s.(showSuggestions := false), None, None)
  }

  /** What the panel under the input shows. */
  datatype Panel = Hidden | Spinner | Items(items: seq<Suggestion>) | NoResults

  function PanelOf(s: State): (r: Panel)
    ensures r != Hidden <==> s.showSuggestions && s.inputValue != []
    ensures r == Spinner <==> s.showSuggestions && s.inputValue != [] && s.isLoading
    ensures r.Items? ==> r.items == s.suggestions && r.items != []
  {
    if !(s.showSuggestions && s.inputValue != []) then Hidden
    else if s.isLoading then Spinner
    else if |s.suggestions| > 0 then Items(s.suggestions)
    else NoResults
  }

  /** Runs a sequence of events from a state. */
  function Run(s: State, events: seq<Event>): State
    decreases |events|
  {
    if |events| == 0 then s else Run(Next(s, events[0]).state, events[1..])
  }

  lemma RunCons(s: State, e: Event, rest: seq<Event>)
    ensures Run(s, [e] + rest) == Run(Next(s, e).state, rest)
  {
    assert ([e] + rest)[1..] == rest;
  }

  /** `x` was among the items of a fetch result in `events`. */
  predicate Fetched(x: Suggestion, events: seq<Event>) {
    exists i :: 0 <= i < |events| && events[i].FetchDone? && events[i].result.FetchedArray?
      && x in events[i].result.items
  }

  /** Every suggestion on offer was returned by some fetch, or was already on offer before. */
  lemma {:induction false} RunSuggestionsFetched(s: State, events: seq<Event>)
    ensures forall x :: x in Run(s, events).suggestions ==> x in s.suggestions || Fetched(x, events)
    decreases |events|
  {
    if |events| > 0 {
      var e := events[0];
      var s1 := Next(s, e).state;
      RunSuggestionsFetched(s1, events[1..]);
      forall x | x in Run(s, events).suggestions
        ensures x in s.suggestions || Fetched(x, events)
      {
        if Fetched(x, events[1..]) {
          var i :| 0 <= i < |events[1..]| && events[1..][i].FetchDone? && events[1..][i].result.FetchedArray?
            && x in events[1..][i].result.items;
          assert events[i + 1] == events[1..][i];
        } else if e.FetchDone? {
          assert x in Stored(e.result);
          assert events[0] == e;
        }
      }
    }
  }

  /**
    A blank term does not end the loading state: the spinner of an earlier fetch stays
    until that fetch completes, while the suggestions are already cleared.
  */
  lemma BlankTermKeepsLoading(s: State)
    requires s.isLoading
    ensures Next(s, TermSettled([])).state.isLoading
    ensures Next(s, TermSettled([])).state.suggestions == []
  {
  }

  /** Picking a suggestion hides the panel, and the spinner with it. */
  lemma SelectHidesPanel(s: State, suggestion: Suggestion)
    ensures PanelOf(Next(s, Select(suggestion)).state) == Hidden
    ensures Next(s, Select(suggestion)).state.suggestions == s.suggestions
  {
  }

  /** Every completed fetch ends the loading state, and a later blank term clears what it stored. */
  lemma FetchThenBlankTerm(s: State, result: FetchResult)
    ensures !Run(s, [FetchDone(result)]).isLoading
    ensures Run(s, [FetchDone(result), TermSettled([])]).suggestions == []
  {
    var s1 := Next(s, FetchDone(result)).state;
    RunCons(s, FetchDone(result), []);
    RunCons(s, FetchDone(result), [TermSettled([])]);
    RunCons(s1, TermSettled([]), []);
  }

  /**
    Nothing ties a result to the term it was fetched for: a result arriving after
    the term has moved on is stored all the same.
  */
  lemma LateResultStored(s: State, older: string, newer: string, items: seq<Suggestion>)
    requires older != [] && newer != []
    ensures Run(s, [TermSettled(older), TermSettled(newer), FetchDone(FetchedArray(items))]).suggestions == items
    ensures Run(s, [TermSettled(older), TermSettled(newer), FetchDone(FetchedArray(items))]).term == newer
  {
    var done := FetchDone(FetchedArray(items));
    var s1 := Next(s, TermSettled(older)).state;
    var s2 := Next(s1, TermSettled(newer)).state;
    RunCons(s, TermSettled(older), [TermSettled(newer), done]);
    RunCons(s1, TermSettled(newer), [done]);
    RunCons(s2, done, []);
  }
}
