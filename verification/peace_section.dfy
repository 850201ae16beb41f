/**
 * The closing "peace" section's header and theme switching.
 *
 * The section owns one flag, `isBlack`, set by clicking the section.  Whether
 * the header is visible and whether the dark theme is on belong to the parent
 * that passes the `onToggleHeader` and `onToggleTheme` callbacks; the section
 * changes both through those callbacks when it mounts, when the
 * page scrolls into it (`onEnter`) and when the page scrolls back out above
 * it (`onLeaveBack`).  The state is the three booleans together; the events
 * are pure transitions on it.  The ref that mirrors `isBlack` for the
 * scroll callbacks is taken to hold the same value as the flag.
 */
module PeaceSection {
  import opened Wrappers

  datatype State = State(headerVisible: bool, themeDark: bool, isBlack: bool)

  /** The events after mounting: scrolling in, scrolling back out above the
      section, and clicking it. */
  datatype Event = Enter | LeaveBack | Click

  /** Mounting: the section's flag starts cleared and the header is shown
      whatever the page had; the theme is left as the page had it. */
  function Mount(page: State): (s: State)
    ensures s.headerVisible && !s.isBlack
    ensures s.themeDark == page.themeDark
  {
    State(true, page.themeDark, false)
  }

  /** Scrolling into the section shows the header, and turns the dark theme
      on again only if the section has been clicked. */
  function OnEnter(s: State): (r: State)
    ensures r.headerVisible && r.isBlack == s.isBlack
    ensures r.themeDark <==> s.themeDark || s.isBlack
  {
    if s.isBlack then State(true, true, s.isBlack) else s.(headerVisible := true)
  }

  /** Scrolling back up out of the section hides the header and restores the
      light theme, even after a click. */
  function OnLeaveBack(s: State): (r: State)
    ensures !r.headerVisible && !r.themeDark && r.isBlack == s.isBlack
  {
    s.(headerVisible := false, themeDark := false)
  }

  /** Clicking the section sets its flag and switches to the dark theme; the
      header is not touched. */
  function HandleClick(s: State): (r: State)
    ensures r.isBlack && r.themeDark && r.headerVisible == s.headerVisible
  {
    s.(isBlack := true, themeDark := true)
  }

  function Step(s: State, e: Event): State {
    match e
    case Enter => OnEnter(s)
    case LeaveBack => OnLeaveBack(s)
    case Click => HandleClick(s)
  }

  /** The state after the events, applied in order. */
  function Run(s: State, events: seq<Event>): State
    decreases |events|
  {
    if |events| == 0 then s else Step(Run(s, events[..|events| - 1]), events[|events| - 1])
  }

  /** A second click changes nothing. */
  lemma ClickIdempotent(s: State)
    ensures HandleClick(HandleClick(s)) == HandleClick(s)
  {
  }

  /** Leaving back and re-entering shows the header with the dark theme
      exactly when the section has been clicked: the click survives the
      round trip, the light theme before the click does too. */
  lemma LeaveAndReenter(s: State)
    ensures OnEnter(OnLeaveBack(s)) == State(true, s.isBlack, s.isBlack)
  {
  }

  /** The flag is set after a run exactly when it was set before or the run
      holds a click: it never goes back to false. */
  lemma {:induction false} IsBlackOnlyByClick(s: State, events: seq<Event>)
    ensures Run(s, events).isBlack <==> s.isBlack || Click in events
    decreases |events|
  {
    if |events| > 0 {
      var init := events[..|events| - 1];
      IsBlackOnlyByClick(s, init);
      assert events == init + [events[|events| - 1]];
    }
  }

  /** Once the flag is set, it stays set through any events. */
  lemma IsBlackMonotone(s: State, events: seq<Event>)
    requires s.isBlack
    ensures Run(s, events).isBlack
  {
    IsBlackOnlyByClick(s, events);
  }

  /** The last scroll event of a run, ignoring clicks. */
  function LastScroll(events: seq<Event>): (e: Option<Event>)
    ensures e.None? <==> forall k :: 0 <= k < |events| ==> events[k] == Click
    ensures e.Some? ==> e.value != Click
    ensures e.Some? ==> exists k :: 0 <= k < |events| && events[k] == e.value &&
                                   (forall j :: k < j < |events| ==> events[j] == Click)
    decreases |events|
  {
    if |events| == 0 then None
    else if events[|events| - 1] != Click then Some(events[|events| - 1])
    else LastScroll(events[..|events| - 1])
  }

  /** After mounting, the header is visible unless the last scroll event was
      a leave-back. */
  lemma {:induction false} HeaderFollowsLastScroll(page: State, events: seq<Event>)
    ensures Run(Mount(page), events).headerVisible <==> LastScroll(events) != Some(LeaveBack)
    decreases |events|
  {
    if |events| > 0 {
      HeaderFollowsLastScroll(page, events[..|events| - 1]);
    }
  }

  /** Whenever the header is shown after a click, the theme is dark. */
  predicate Consistent(s: State) {
    s.isBlack && s.headerVisible ==> s.themeDark
  }

  /** Every event leaves a consistent state, whatever the state before:
      each one either hides the header, or turns the dark theme on whenever
      the flag is set. */
  lemma EveryEventConsistent(s: State, e: Event)
    ensures Consistent(Step(s, e))
  {
  }

  /** The states reachable from mounting over a page whose theme was
      `pageDark`: before a click the header is shown with the page's theme or
      the light one, or hidden with the light one; after a click the header
      is shown only with the dark theme. */
  predicate Reachable(pageDark: bool, s: State) {
    if s.isBlack then Consistent(s)
    else if s.headerVisible then !s.themeDark || pageDark
    else !s.themeDark
  }

  /** Every run from mounting ends in a reachable state. */
  lemma {:induction false} RunReachable(page: State, events: seq<Event>)
    ensures Reachable(page.themeDark, Run(Mount(page), events))
    decreases |events|
  {
    if |events| > 0 {
      RunReachable(page, events[..|events| - 1]);
    }
  }

  /** Every reachable state is the end of some run from mounting. */
  lemma ReachableByRun(page: State, s: State)
    requires Reachable(page.themeDark, s)
    ensures exists events :: Run(Mount(page), events) == s
  {
    var m := Mount(page);
    if !s.isBlack && s.headerVisible && s.themeDark {
      assert Run(m, []) == s;
    } else if !s.isBlack && s.headerVisible {
      assert [LeaveBack, Enter][..1] == [LeaveBack];
      assert Run(m, [LeaveBack, Enter]) == s;
    } else if !s.isBlack {
      assert Run(m, [LeaveBack]) == s;
    } else if s.headerVisible {
      assert Run(m, [Click]) == s;
    } else if s.themeDark {
      assert [LeaveBack, Click][..1] == [LeaveBack];
      assert Run(m, [LeaveBack, Click]) == s;
    } else {
      assert [Click, LeaveBack][..1] == [Click];
      assert Run(m, [Click, LeaveBack]) == s;
    }
  }
}
