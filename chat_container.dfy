/**
 * The message list (`ChatContainer`): the scroll coordinator that decides
 * between following new content and leaving the user where they scrolled,
 * and which message shows the streaming indicator. A scroll event records a
 * pending classification; the debounce timer firing is a separate step.
 */
module ChatContainer {
  import opened Wrappers
  import opened Page

  /** Within this many pixels of the end the view counts as at the bottom. */
  const BottomThreshold: int := 10

  /** The geometry the container reports on a scroll event, in whole pixels. */
  datatype ScrollEvent = ScrollEvent(scrollTop: int, scrollHeight: int, clientHeight: int)

  /** What the debounced callback of one scroll event will act on. */
  datatype Classification = Classification(hasScrolledUp: bool, isAtBottom: bool)

  datatype ScrollState = ScrollState(
    showScrollButton: bool, userHasScrolled: bool,
    lastScrollPosition: int, pending: Option<Classification>)

  function Abs(x: int): nat
  {
    if x < 0 then -x else x
  }

  /** `Math.abs(scrollHeight - scrollTop - clientHeight) < 10`. */
  predicate IsAtBottom(e: ScrollEvent)
  {
    Abs(e.scrollHeight - e.scrollTop - e.clientHeight) < BottomThreshold
  }

  /** The classification `onScroll` captures, given the previously recorded position. */
  function Classify(lastPosition: int, e: ScrollEvent): Classification
  {
    Classification(lastPosition > e.scrollTop, IsAtBottom(e))
  }

  /**
   * The debounced callback: "scrolled up" sets the flag, then "at bottom"
   * clears it, so arriving at the bottom wins.
   */
  function Settle(userHasScrolled: bool, c: Classification): (r: bool)
    ensures c.isAtBottom ==> !r
    ensures !c.isAtBottom && c.hasScrolledUp ==> r
    ensures !c.isAtBottom && !c.hasScrolledUp ==> r == userHasScrolled
  {
    var afterUp := if c.hasScrolledUp then true else userHasScrolled;
    if c.isAtBottom then false else afterUp
  }

  /** On mount: button hidden, not scrolled, position 0, no timer. */
  function InitialScroll(): ScrollState
  {
    ScrollState(false, false, 0, None)
  }

  /**
   * `onScroll`: replaces any pending classification by this event's, records
   * the position, and shows the button exactly when not at the bottom.
   */
  function OnScrollStep(s: ScrollState, e: ScrollEvent): (r: ScrollState)
    ensures r.pending == Some(Classification(s.lastScrollPosition > e.scrollTop, IsAtBottom(e)))
    ensures r.lastScrollPosition == e.scrollTop
    ensures r.showScrollButton <==> !IsAtBottom(e)
    ensures r.userHasScrolled == s.userHasScrolled
  {
    s.(pending := Some(Classify(s.lastScrollPosition, e)),
       lastScrollPosition := e.scrollTop,
       showScrollButton := !IsAtBottom(e))
  }

  /** The debounce timer fires: the pending classification, if any, settles the flag. */
  function TimerFiresStep(s: ScrollState): (r: ScrollState)
    ensures r.pending.None?
    ensures s.pending.Some? ==> r.userHasScrolled == Settle(s.userHasScrolled, s.pending.value)
    ensures s.pending.None? ==> r == s
    ensures r.showScrollButton == s.showScrollButton && r.lastScrollPosition == s.lastScrollPosition
  {
    match s.pending
    case None => s
    case Some(c) => s.(userHasScrolled := Settle(s.userHasScrolled, c), pending := None)
  }

  /** `scrollToBottom`: hides the button and clears the flag; a pending timer stays. */
  function ScrollToBottomStep(s: ScrollState): (r: ScrollState)
    ensures !r.showScrollButton && !r.userHasScrolled
    ensures r.lastScrollPosition == s.lastScrollPosition && r.pending == s.pending
  {
    s.(showScrollButton := false, userHasScrolled := false)
  }

  /** The auto-scroll effect scrolls to the bottom only while the user has not scrolled away. */
  predicate AutoScrolls(s: ScrollState, hasContainer: bool)
  {
    !s.userHasScrolled && hasContainer
  }

  /** A burst of scroll events with no timer firing in between. */
  function Burst(s: ScrollState, events: seq<ScrollEvent>): ScrollState
    decreases |events|
  {
    if events == [] then s else Burst(OnScrollStep(s, events[0]), events[1..])
  }

  /** The position recorded just before the last event of a burst. */
  function PositionBeforeLast(s: ScrollState, events: seq<ScrollEvent>): int
    requires events != []
  {
    if |events| == 1 then s.lastScrollPosition else events[|events| - 2].scrollTop
  }

  /**
   * After a burst, only the last event's classification is pending (each
   * event cancelled the one before), against the position recorded just
   * before it; the flag itself has not moved.
   */
  lemma {:induction false} BurstKeepsLast(s: ScrollState, events: seq<ScrollEvent>)
    requires events != []
    ensures var last := events[|events| - 1];
      Burst(s, events) == s.(
        pending := Some(Classify(PositionBeforeLast(s, events), last)),
        lastScrollPosition := last.scrollTop,
        showScrollButton := !IsAtBottom(last))
    decreases |events|
  {
    if |events| > 1 {
      var next := OnScrollStep(s, events[0]);
      BurstKeepsLast(next, events[1..]);
      if |events| == 2 {
        assert PositionBeforeLast(next, events[1..]) == events[0].scrollTop;
      } else {
        assert events[1..][|events[1..]| - 2] == events[|events| - 2];
      }
    }
  }

  /** When the timer fires after a burst, the flag is settled by the last event alone. */
  lemma DebounceSettlesLast(s: ScrollState, events: seq<ScrollEvent>)
    requires events != []
    ensures TimerFiresStep(Burst(s, events)).userHasScrolled
      == Settle(s.userHasScrolled, Classify(PositionBeforeLast(s, events), events[|events| - 1]))
    ensures TimerFiresStep(Burst(s, events)).showScrollButton == !IsAtBottom(events[|events| - 1])
  {
    BurstKeepsLast(s, events);
  }

  /**
   * A burst that ends within the bottom threshold leaves `userHasScrolled`
   * false once the timer fires, whatever upward moves came before.
   */
  lemma ArrivingAtBottomWins(s: ScrollState, events: seq<ScrollEvent>)
    requires events != [] && IsAtBottom(events[|events| - 1])
    ensures !TimerFiresStep(Burst(s, events)).userHasScrolled
    ensures AutoScrolls(TimerFiresStep(Burst(s, events)), true)
  {
    DebounceSettlesLast(s, events);
  }

  /** A burst whose last event moved up, away from the bottom, stops auto-scrolling. */
  lemma ScrollingUpStopsFollowing(s: ScrollState, events: seq<ScrollEvent>)
    requires events != [] && !IsAtBottom(events[|events| - 1])
    requires PositionBeforeLast(s, events) > events[|events| - 1].scrollTop
    ensures TimerFiresStep(Burst(s, events)).userHasScrolled
    ensures !AutoScrolls(TimerFiresStep(Burst(s, events)), true)
  {
    DebounceSettlesLast(s, events);
  }

  /**
   * The streaming indicator goes to each message whose id equals the last
   * message's id, and only while streaming.
   */
  function ShowsIndicator(messages: seq<Message>, isStreaming: bool, k: nat): bool
    requires k < |messages|
  {
    isStreaming && messages[k].id == messages[|messages| - 1].id
  }

  /**
   * While streaming the last message shows the indicator; when the ids are
   * distinct no other message does; when not streaming none does.
   */
  lemma IndicatorOnLast(messages: seq<Message>, isStreaming: bool, k: nat)
    requires k < |messages|
    ensures isStreaming ==> ShowsIndicator(messages, isStreaming, |messages| - 1)
    ensures !isStreaming ==> !ShowsIndicator(messages, isStreaming, k)
    ensures (forall i, j :: 0 <= i < j < |messages| ==> messages[i].id != messages[j].id) ==>
      (ShowsIndicator(messages, isStreaming, k) <==> isStreaming && k == |messages| - 1)
  {
  }

  /** The scroll coordinator's refs and state, updated in place by its handlers. */
  class ScrollCoordinator {
    var showScrollButton: bool
    var userHasScrolled: bool
    var lastScrollPosition: int
    var pending: Option<Classification>

    function State(): ScrollState
      reads this
    {
      ScrollState(showScrollButton, userHasScrolled, lastScrollPosition, pending)
    }

    constructor ()
      ensures State() == InitialScroll()
    {
      showScrollButton := false;
      userHasScrolled := false;
      lastScrollPosition := 0;
      pending := None;
    }

    /** `onScroll`; it returns at once when the container is not mounted. */
    method OnScroll(hasContainer: bool, e: ScrollEvent)
      modifies this
      ensures State() == if hasContainer then OnScrollStep(old(State()), e) else old(State())
    {
      if hasContainer {
        var isAtBottom := IsAtBottom(e);
        var hasScrolledUp := lastScrollPosition > e.scrollTop;
        pending := Some(Classification(hasScrolledUp, isAtBottom));
        lastScrollPosition := e.scrollTop;
        showScrollButton := !isAtBottom;
      }
    }

    /** The pending timeout's callback runs. */
    method TimerFires()
      modifies this
      ensures State() == TimerFiresStep(old(State()))
    {
      if pending.Some? {
        var c := pending.value;
        if c.hasScrolledUp {
          userHasScrolled := true;
        }
        if c.isAtBottom {
          userHasScrolled := false;
        }
        pending := None;
      }
    }

    /** `scrollToBottom`; it returns at once when the container is not mounted. */
    method ScrollToBottom(hasContainer: bool)
      modifies this
      ensures State() == if hasContainer then ScrollToBottomStep(old(State())) else old(State())
    {
      if hasContainer {
        showScrollButton := false;
        userHasScrolled := false;
      }
    }

    /** The effect run when the messages or the streaming flag change. */
    method AutoScrollEffect(hasContainer: bool) returns (scrolled: bool)
      modifies this
      ensures scrolled == AutoScrolls(old(State()), hasContainer)
      ensures State() == if scrolled then ScrollToBottomStep(old(State())) else old(State())
    {
      scrolled := !userHasScrolled && hasContainer;
      if scrolled {
        ScrollToBottom(hasContainer);
      }
    }
  }
}
