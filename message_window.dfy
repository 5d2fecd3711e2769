/** The windowed message list: it shows a suffix of the active chat's
    messages starting at `visibleStart`, pages backward on demand, and keeps
    the view pinned to the newest message while the viewer is at the bottom.
    Timers, the intersection observer and animation frames are turned into
    discrete events (methods) of the Window class. */
module MessageWindow {
  import opened Util
  import opened Text
  import opened Conversations

  /** How many messages the window starts with. */
  const InitialWindow := 50
  /** How many earlier messages one load adds. */
  const PageSize := 25
  /** Distance from the bottom, in pixels, under which the view counts as pinned. */
  const PinThreshold := 50

  function Min(a: int, b: int): int
  {
    if a <= b then a else b
  }

  /** `Math.max(0, n - 50)`: the first visible index for `n` messages, which
      leaves the last min(50, n) messages visible. */
  function InitialStart(n: nat): (s: nat)
    ensures s <= n
    ensures n - s == Min(InitialWindow, n)
  {
    if n > InitialWindow then n - InitialWindow else 0
  }

  /** `Math.max(0, start - 25)`: one load moves the start back by
      min(25, start) and never below 0. */
  function PageBack(start: nat): (s: nat)
    ensures s <= start
    ensures start - s == Min(PageSize, start)
  {
    if start > PageSize then start - PageSize else 0
  }

  /** `messages.slice(start)`: the messages from `start` on, none when
      `start` is past the end. */
  function Visible(ms: seq<Message>, start: nat): (v: seq<Message>)
    ensures |v| == if start <= |ms| then |ms| - start else 0
    ensures forall i :: 0 <= i < |v| ==> v[i] == ms[start + i]
  {
    if start <= |ms| then ms[start..] else []
  }

  /** The initial window is exactly the last min(50, n) messages. */
  lemma InitialWindowIsLastFifty(ms: seq<Message>)
    ensures |Visible(ms, InitialStart(|ms|))| == Min(50, |ms|)
    ensures Visible(ms, InitialStart(|ms|)) == ms[|ms| - Min(50, |ms|)..]
  {
  }

  /** Appending a message to the history extends the visible suffix by that
      message, once the start is within the history. */
  lemma VisibleAppend(ms: seq<Message>, m: Message, start: nat)
    requires start <= |ms|
    ensures Visible(ms + [m], start) == Visible(ms, start) + [m]
  {
    assert (ms + [m])[start..] == ms[start..] + [m];
  }

  /** Moving the start back only adds earlier messages in front. */
  lemma PageBackExtends(ms: seq<Message>, start: nat)
    requires start <= |ms|
    ensures Visible(ms, PageBack(start)) == ms[PageBack(start)..start] + Visible(ms, start)
  {
    assert ms[PageBack(start)..] == ms[PageBack(start)..start] + ms[start..];
  }

  /** The start after `k` completed loads. */
  function PageBackTimes(start: nat, k: nat): nat
  {
    if k == 0 then start else PageBackTimes(PageBack(start), k - 1)
  }

  /** `k` loads move the start back by 25 each, clamped at 0. */
  lemma {:induction false} PageBackTimesIs(start: nat, k: nat)
    ensures PageBackTimes(start, k) == if start > PageSize * k then start - PageSize * k else 0
  {
    if k > 0 {
      PageBackTimesIs(PageBack(start), k - 1);
      if start <= PageSize {
        assert PageBack(start) == 0;
        PageBackTimesZero(k - 1);
      }
    }
  }

  lemma {:induction false} PageBackTimesZero(k: nat)
    ensures PageBackTimes(0, k) == 0
  {
    if k > 0 {
      PageBackTimesZero(k - 1);
    }
  }

  /** 80 messages open at 30; loads give 5, then 0, and stay at 0. */
  lemma EightyMessages(k: nat)
    requires k >= 2
    ensures InitialStart(80) == 30 && PageBack(30) == 5 && PageBackTimes(30, k) == 0
  {
    PageBackTimesIs(30, k);
  }

  /** `scrollHeight - scrollTop - clientHeight < 50`. */
  predicate AtBottom(scrollTop: int, scrollHeight: int, clientHeight: int)
  {
    scrollHeight - scrollTop - clientHeight < PinThreshold
  }

  /** The label of the "load earlier" button for a given start. */
  function LoadLabel(start: nat): string
  {
    "Load " + Decimal(Min(PageSize, start)) + " earlier messages"
  }

  class Window {
    var messages: seq<Message>
    var visibleStart: nat
    var isLoadingMore: bool
    var hasScrolledToBottom: bool
    var isAutoScrolling: bool
    /** How many programmatic scrolls to the bottom sentinel have been issued. */
    var scrollRequests: nat

    /** Mounting: the window starts at `max(0, n - 50)`, pinned; the
      auto-scroll effect runs once on mount and raises the suppression flag. */
    constructor (ms: seq<Message>)
      ensures messages == ms && visibleStart == InitialStart(|ms|)
      ensures !isLoadingMore && hasScrolledToBottom && isAutoScrolling
      ensures scrollRequests == 1
    {
      messages := ms;
      visibleStart := InitialStart(|ms|);
      isLoadingMore := false;
      hasScrolledToBottom := true;
      isAutoScrolling := true;
      scrollRequests := 1;
    }

    function VisibleMessages(): seq<Message>
      reads this
    {
      Visible(messages, visibleStart)
    }

    /** `hasMoreMessages`. */
    predicate HasMoreMessages()
      reads this
    {
      visibleStart > 0
    }

    /** The "load earlier" button: shown while there is more and no load
      is running; it offers min(25, start) messages. */
    function LoadButton(): (button: Option<string>)
      reads this
      ensures button.Some? <==> visibleStart > 0 && !isLoadingMore
      ensures button.Some? ==> button.value == LoadLabel(visibleStart)
    {
      if HasMoreMessages() && !isLoadingMore then Some(LoadLabel(visibleStart)) else None
    }

    /** The parent passes a new message list. The window start is kept (it is
      only a state initialiser); when the length changed and the view is
      pinned, the auto-scroll effect scrolls to the bottom and raises the
      suppression flag. */
    method Receive(ms: seq<Message>)
      modifies this
      ensures messages == ms
      ensures visibleStart == old(visibleStart) && isLoadingMore == old(isLoadingMore)
      ensures hasScrolledToBottom == old(hasScrolledToBottom)
      ensures if |ms| != |old(messages)| && hasScrolledToBottom
        then isAutoScrolling && scrollRequests == old(scrollRequests) + 1
        else isAutoScrolling == old(isAutoScrolling) && scrollRequests == old(scrollRequests)
    {
      if |ms| != |messages| && hasScrolledToBottom {
        isAutoScrolling := true;
        scrollRequests := scrollRequests + 1;
      }
      messages := ms;
    }

    /** `loadMoreMessages`: a no-op while a load runs or at the start;
      otherwise it raises the guard and schedules the page step. */
    method LoadMore()
      modifies this`isLoadingMore
      ensures if old(isLoadingMore) || visibleStart == 0
        then isLoadingMore == old(isLoadingMore)
        else isLoadingMore
    {
      if isLoadingMore || visibleStart <= 0 {
        return;
      }
      isLoadingMore := true;
    }

    /** The 100 ms timer of a load fires: the start moves back one page and
      the guard is cleared. */
    method LoadTimerFires()
      modifies this`visibleStart, this`isLoadingMore
      ensures !isLoadingMore
      ensures visibleStart == if old(isLoadingMore) then PageBack(old(visibleStart)) else old(visibleStart)
    {
      if isLoadingMore {
        visibleStart := PageBack(visibleStart);
        isLoadingMore := false;
      }
    }

    /** The top sentinel comes into view: ignored while auto-scrolling. */
    method TopSentinelIntersects()
      modifies this`isLoadingMore
      ensures old(isAutoScrolling) ==> isLoadingMore == old(isLoadingMore)
      ensures !old(isAutoScrolling) && !old(isLoadingMore) && visibleStart > 0 ==> isLoadingMore
      ensures old(isLoadingMore) ==> isLoadingMore
      ensures !old(isAutoScrolling) ==> isLoadingMore == (old(isLoadingMore) || visibleStart > 0)
    {
      if !isAutoScrolling {
        LoadMore();
      }
    }

    /** `handleScroll`: ignored while auto-scrolling; otherwise the pin
      follows the 50-pixel rule, and becoming pinned runs the auto-scroll effect. */
    method Scroll(scrollTop: int, scrollHeight: int, clientHeight: int)
      modifies this`hasScrolledToBottom, this`isAutoScrolling, this`scrollRequests
      ensures old(isAutoScrolling) ==>
        && hasScrolledToBottom == old(hasScrolledToBottom)
        && isAutoScrolling && scrollRequests == old(scrollRequests)
      ensures !old(isAutoScrolling) ==> hasScrolledToBottom == AtBottom(scrollTop, scrollHeight, clientHeight)
      ensures !old(isAutoScrolling) ==>
        if hasScrolledToBottom && !old(hasScrolledToBottom)
        then isAutoScrolling && scrollRequests == old(scrollRequests) + 1
        else !isAutoScrolling && scrollRequests == old(scrollRequests)
    {
      if isAutoScrolling {
        return;
      }
      var pinned := AtBottom(scrollTop, scrollHeight, clientHeight);
      if pinned && !hasScrolledToBottom {
        isAutoScrolling := true;
        scrollRequests := scrollRequests + 1;
      }
      hasScrolledToBottom := pinned;
    }

    /** The 500 ms cooldown after a programmatic scroll ends. */
    method CooldownEnds()
      modifies this`isAutoScrolling
      ensures !isAutoScrolling
    {
      isAutoScrolling := false;
    }
  }
}
