/**
 * The location search box: the text, the suggestions shown under it, whether
 * its dialog is open, and whether it stands for the user's current position.
 * Typing fetches suggestions from the address service; choosing one, asking
 * for the current location, or clearing updates the state.
 */
module SearchBar {
  import opened Wrappers
  import opened JsValues
  import opened OneMap

  // ---------------------------------------------------------------- the caret

  /** A text input: its value and its selection. */
  datatype InputState = InputState(value: string, selectionStart: int, selectionEnd: int)

  /** The whole non-empty value is selected. */
  predicate FullySelected(input: InputState) {
    input.selectionStart == 0 && input.selectionEnd == |input.value| && |input.value| > 0
  }

  /**
   * `moveCaretToEndIfFullySelected`: when the whole value is selected, the
   * caret is put at the end of the value the input holds by the next frame,
   * `later`; otherwise the input is left alone.
   */
  function MoveCaretToEndIfFullySelected(input: Option<InputState>, later: string): Option<InputState> {
    match input
    case None => None
    case Some(i) =>
      if !FullySelected(i) then input
      else Some(InputState(later, |later|, |later|))
  }

  /** The caret moves only out of a full selection, to the end, and doing it again changes nothing. */
  lemma CaretRule(input: Option<InputState>, later: string)
    ensures var r := MoveCaretToEndIfFullySelected(input, later);
      && (r != input <==> input.Some? && FullySelected(input.value) && input.value != InputState(later, |later|, |later|))
      && (r.Some? ==> !FullySelected(r.value) || r == input)
      && (input.Some? && FullySelected(input.value) ==> r == Some(InputState(later, |later|, |later|)) && !FullySelected(r.value))
      && MoveCaretToEndIfFullySelected(r, later) == r
  {
  }

  // ---------------------------------------------------------------- suggestions

  /** One result as received; any field may be missing. */
  datatype RawResult = RawResult(
    building: Option<string>,
    blkNo: Option<string>,
    roadName: Option<string>,
    address: Option<string>,
    postal: Option<string>,
    latitude: Option<string>,
    longitude: Option<string>)

  /** What the address service answered: nothing usable (a network or parse error), or a body with or without `results`. */
  datatype Response = FetchFailed | Answer(results: Option<seq<RawResult>>)

  /** `v || ''` */
  function OrEmpty(v: Option<string>): (r: string)
    ensures Truthy(v) ==> r == v.value
    ensures !Truthy(v) ==> r == ""
  {
    if Truthy(v) then v.value else ""
  }

  /** `String(v)`, as `parseFloat` sees a missing field. */
  function CoordinateText(v: Option<string>): string {
    v.GetOr("undefined")
  }

  /** The suggestion a result becomes: absent text fields read as '' (building and block included, and `NIL` kept). */
  function Suggestion(r: RawResult): Address {
    Address(
      Some(OrEmpty(r.building)),
      Some(OrEmpty(r.blkNo)),
      OrEmpty(r.roadName),
      OrEmpty(r.address),
      OrEmpty(r.postal),
      ParseFloat(CoordinateText(r.latitude)),
      ParseFloat(CoordinateText(r.longitude)))
  }

  /** `!query.trim()` */
  predicate BlankQuery(query: string) {
    Trim(query) == ""
  }

  /** The suggestions a query leaves shown, given the service's answer. */
  function SuggestionsFor(query: string, response: Response): seq<Address> {
    if BlankQuery(query) then []
    else match response
      case FetchFailed => []
      case Answer(None) => []
      case Answer(Some(results)) => Suggestions(results)
  }

  /** `results.map(...)` */
  function Suggestions(results: seq<RawResult>): seq<Address> {
    seq(|results|, i requires 0 <= i < |results| => Suggestion(results[i]))
  }

  /**
   * Nothing is suggested for a query of white space only, nor when the
   * request fails or the answer has no results; otherwise there is one
   * suggestion per result, in order, with every text field set.
   */
  lemma SuggestionsRule(query: string, response: Response)
    ensures AllWhiteSpace(query) ==> SuggestionsFor(query, response) == []
    ensures !AllWhiteSpace(query) && (response.FetchFailed? || response.results.None?) ==> SuggestionsFor(query, response) == []
    ensures !AllWhiteSpace(query) && response.Answer? && response.results.Some? ==>
      var rs := response.results.value;
      var s := SuggestionsFor(query, response);
      && |s| == |rs|
      && forall i :: 0 <= i < |rs| ==>
           && s[i].building.Some? && s[i].block.Some?
           && s[i].address == (if Truthy(rs[i].address) then rs[i].address.value else "")
           && s[i].road == (if Truthy(rs[i].roadName) then rs[i].roadName.value else "")
  {
    TrimEmptyIffBlank(query);
  }

  // ---------------------------------------------------------------- the component's state

  class SearchBox {
    var location: string
    var suggestions: seq<Address>
    var isOpen: bool
    var isUsingCurrentLocation: bool
    /** The queries sent to the address service, in order. */
    var requests: seq<string>
    /** The addresses handed to `onSearchAction`, in order. */
    var searched: seq<Address>
    /** How many times `onUseCurrentLocationAction` was called. */
    var currentLocationCalls: nat

    constructor (initialLocation: Option<Address>)
      ensures location == (if initialLocation.Some? then initialLocation.value.address else "")
      ensures suggestions == [] && !isOpen && !isUsingCurrentLocation
      ensures requests == [] && searched == [] && currentLocationCalls == 0
    {
      location := if initialLocation.Some? then initialLocation.value.address else "";
      suggestions := [];
      isOpen := false;
      isUsingCurrentLocation := false;
      requests := [];
      searched := [];
      currentLocationCalls := 0;
    }

    /** The "use current location" option is offered. */
    predicate OffersCurrentLocation()
      reads this
    {
      Trim(location) == ""
    }

    /** A new initial location from the parent replaces the text. */
    method InitialLocationChanged(initialLocation: Option<Address>)
      modifies this
      ensures initialLocation.Some? ==> location == initialLocation.value.address
      ensures initialLocation.None? ==> location == old(location)
      ensures suggestions == old(suggestions) && isOpen == old(isOpen) && isUsingCurrentLocation == old(isUsingCurrentLocation)
      ensures requests == old(requests) && searched == old(searched) && currentLocationCalls == old(currentLocationCalls)
    {
      if initialLocation.Some? {
        location := initialLocation.value.address;
      }
    }

    /**
     * `fetchSuggestions`: a blank query clears the suggestions without a
     * request; otherwise one request is made and its answer decides the
     * suggestions. The promise itself always resolves to nothing.
     */
    method FetchSuggestions(query: string, response: Response) returns (r: seq<Address>)
      modifies this
      ensures r == []
      ensures suggestions == SuggestionsFor(query, response)
      ensures requests == old(requests) + (if BlankQuery(query) then [] else [query])
      ensures location == old(location) && isOpen == old(isOpen) && isUsingCurrentLocation == old(isUsingCurrentLocation)
      ensures searched == old(searched) && currentLocationCalls == old(currentLocationCalls)
    {
      r := [];
      if Trim(query) == "" {
        suggestions := [];
        return;
      }
      requests := requests + [query];
      match response
      case FetchFailed =>
        suggestions := [];
      case Answer(results) =>
        if results.Some? {
          suggestions := Suggestions(results.value);
        } else {
          suggestions := [];
        }
    }

    /** Typing: the text follows, suggestions are fetched, and current-location mode ends; typing in the box (not the dialog) also opens the dialog. */
    method ValueChanged(value: string, response: Response, inDialog: bool)
      modifies this
      ensures location == value
      ensures suggestions == SuggestionsFor(value, response)
      ensures requests == old(requests) + (if BlankQuery(value) then [] else [value])
      ensures isOpen == (old(isOpen) || !inDialog)
      ensures !isUsingCurrentLocation
      ensures searched == old(searched) && currentLocationCalls == old(currentLocationCalls)
    {
      location := value;
      var _ := FetchSuggestions(value, response);
      if !inDialog {
        isOpen := true;
      }
      isUsingCurrentLocation := false;
    }

    /** `handleSuggestionClick` */
    method SuggestionClicked(choice: Address)
      modifies this
      ensures location == choice.address
      ensures !isUsingCurrentLocation && suggestions == [] && !isOpen
      ensures searched == old(searched) + [choice]
      ensures requests == old(requests) && currentLocationCalls == old(currentLocationCalls)
    {
      location := choice.address;
      isUsingCurrentLocation := false;
      searched := searched + [choice];
      suggestions := [];
      isOpen := false;
    }

    /** `handleUseCurrentLocation`; `yourLocation` is the translated "your location" text. */
    method UseCurrentLocation(yourLocation: string)
      modifies this
      ensures location == yourLocation && isUsingCurrentLocation && !isOpen
      ensures currentLocationCalls == old(currentLocationCalls) + 1
      ensures suggestions == old(suggestions) && requests == old(requests) && searched == old(searched)
    {
      location := yourLocation;
      isUsingCurrentLocation := true;
      currentLocationCalls := currentLocationCalls + 1;
      isOpen := false;
    }

    /** `clearInput`: afterwards the current-location option is offered again. */
    method ClearInput()
      modifies this
      ensures location == "" && suggestions == [] && !isUsingCurrentLocation
      ensures OffersCurrentLocation()
      ensures isOpen == old(isOpen) && requests == old(requests) && searched == old(searched)
      ensures currentLocationCalls == old(currentLocationCalls)
    {
      location := "";
      suggestions := [];
      isUsingCurrentLocation := false;
    }

    /** Clicking the box, or the dialog reporting a change, sets whether the dialog is open. */
    method SetOpen(open: bool)
      modifies this
      ensures isOpen == open
      ensures location == old(location) && suggestions == old(suggestions)
      ensures isUsingCurrentLocation == old(isUsingCurrentLocation)
      ensures requests == old(requests) && searched == old(searched) && currentLocationCalls == old(currentLocationCalls)
    {
      isOpen := open;
    }
  }

  /** The current-location option is offered exactly when the text is white space only. */
  lemma OffersCurrentLocationIffBlank(location: string)
    ensures Trim(location) == "" <==> AllWhiteSpace(location)
  {
    TrimEmptyIffBlank(location);
  }
}
