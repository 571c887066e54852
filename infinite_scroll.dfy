/**
 * The infinite-scroll trigger of src/hooks/useInfiniteScroll.ts: the
 * near-bottom test, the `handleScroll` gate with its `isLoadingRef` latch,
 * `reset`, and the `throttle` wrapper the window listener goes through.
 * Scroll metrics, re-renders and timer expiry are explicit events.
 */
module InfiniteScroll {

  /** `UI_CONFIG.INFINITE_SCROLL_THRESHOLD` (src/constants/config.ts). */
  const DefaultThreshold := 300

  /** The hook's options: `enabled`, `hasItems`, `isLoading`, `threshold`. */
  datatype ScrollInputs = ScrollInputs(enabled: bool, hasItems: bool, isLoading: bool, threshold: int)

  /**
   * `window.pageYOffset` and `document.documentElement.scrollTop`, which may
   * be fractional on zoomed pages, and the whole-pixel
   * `document.documentElement.scrollHeight` and `window.innerHeight`.
   */
  datatype ScrollMetrics = ScrollMetrics(pageYOffset: real, documentScrollTop: real, scrollHeight: int, innerHeight: int)

  /** `window.pageYOffset || document.documentElement.scrollTop`: a zero offset falls through. */
  function ScrollTop(m: ScrollMetrics): (r: real)
    ensures m.pageYOffset != 0.0 ==> r == m.pageYOffset
    ensures m.pageYOffset == 0.0 ==> r == m.documentScrollTop
  {
    if m.pageYOffset != 0.0 then m.pageYOffset else m.documentScrollTop
  }

  /**
   * `scrollTop + clientHeight >= scrollHeight - threshold`: at most
   * `threshold` pixels of content are left below the viewport.
   */
  predicate IsNearBottom(m: ScrollMetrics, threshold: int)
  {
    ScrollTop(m) + m.innerHeight as real >= (m.scrollHeight - threshold) as real
  }

  /** A larger threshold never turns a near-bottom position into a far one. */
  lemma NearBottomThresholdMonotone(m: ScrollMetrics, t1: int, t2: int)
    requires t1 <= t2 && IsNearBottom(m, t1)
    ensures IsNearBottom(m, t2)
  {
  }

  /**
   * With non-negative offsets, a page no taller than the viewport plus the
   * threshold is near the bottom wherever it is scrolled.
   */
  lemma ShortPageNearBottom(m: ScrollMetrics, threshold: int)
    requires m.pageYOffset >= 0.0 && m.documentScrollTop >= 0.0
    requires m.scrollHeight <= m.innerHeight + threshold
    ensures IsNearBottom(m, threshold)
  {
  }

  /** Scrolling further down (a larger positive offset) keeps a near-bottom position near the bottom. */
  lemma NearBottomMonotone(m: ScrollMetrics, offset: real, threshold: int)
    requires m.pageYOffset > 0.0 && offset >= m.pageYOffset
    requires IsNearBottom(m, threshold)
    ensures IsNearBottom(m.(pageYOffset := offset), threshold)
  {
  }

  /**
   * Whether `handleScroll` calls `onLoadMore`: never when disabled, without
   * items, while loading or with the latch set; otherwise exactly when near
   * the bottom.
   */
  function ScrollLoads(inputs: ScrollInputs, latch: bool, m: ScrollMetrics): (r: bool)
    ensures !inputs.enabled || !inputs.hasItems || inputs.isLoading || latch ==> !r
    ensures inputs.enabled && inputs.hasItems && !inputs.isLoading && !latch ==>
      (r <==> IsNearBottom(m, inputs.threshold))
  {
    if !inputs.enabled || !inputs.hasItems || inputs.isLoading || latch then false
    else IsNearBottom(m, inputs.threshold)
  }

  /** The effect subscribes a listener only when enabled and with items. */
  predicate ListenerActive(inputs: ScrollInputs)
  {
    inputs.enabled && inputs.hasItems
  }

  /** `throttle(func, limit)`: the closure's `inThrottle` flag. */
  class Throttle {
    var inThrottle: bool

    /** A fresh closure: `let inThrottle` starts out undefined, i.e. open. */
    constructor ()
      ensures !inThrottle
    {
      inThrottle := false;
    }

    /** One call of the wrapper: forwarded when open, and then closed; dropped otherwise. */
    method Call() returns (forwarded: bool)
      modifies this
      ensures forwarded == !old(inThrottle)
      ensures inThrottle
    {
      forwarded := !inThrottle;
      inThrottle := true;
    }

    /** The `setTimeout(..., limit)` of a forwarded call firing. */
    method TimerFires()
      modifies this
      ensures !inThrottle
    {
      inThrottle := false;
    }
  }

  class ScrollTrigger {
    var inputs: ScrollInputs
    /** `isLoadingRef.current` */
    var isLoadingRef: bool
    /** The throttle of the currently subscribed listener. */
    var throttle: Throttle

    /**
     * The first render: `useRef(false)`, then the effects, which copy
     * `isLoading` into the latch and subscribe a fresh throttled listener.
     */
    constructor (initial: ScrollInputs)
      ensures inputs == initial && isLoadingRef == initial.isLoading
      ensures fresh(throttle) && !throttle.inThrottle
    {
      inputs := initial;
      isLoadingRef := initial.isLoading;
      throttle := new Throttle();
    }

    /**
     * A re-render with options `next`; `newLoadMore` says whether the
     * `onLoadMore` callback is a new function. The latch follows `isLoading`
     * only when that option changed. When `handleScroll` or the options the
     * listener effect depends on changed, the listener is replaced by a new
     * one with an open throttle.
     */
    method Rerender(next: ScrollInputs, newLoadMore: bool)
      modifies this
      ensures inputs == next
      ensures isLoadingRef == if next.isLoading != old(inputs).isLoading then next.isLoading else old(isLoadingRef)
      ensures newLoadMore || next != old(inputs) ==> fresh(throttle) && !throttle.inThrottle
      ensures !newLoadMore && next == old(inputs) ==> throttle == old(throttle)
    {
      if next.isLoading != inputs.isLoading {
        isLoadingRef := next.isLoading;
      }
      if newLoadMore || next != inputs {
        throttle := new Throttle();
      }
      inputs := next;
    }

    /**
     * `handleScroll()`: when the gate lets it through and the page is near
     * the bottom, sets the latch and asks for more.
     */
    method HandleScroll(m: ScrollMetrics) returns (loadMore: bool)
      modifies this
      ensures loadMore == ScrollLoads(old(inputs), old(isLoadingRef), m)
      ensures old(isLoadingRef) ==> !loadMore
      ensures isLoadingRef == (old(isLoadingRef) || loadMore)
      ensures inputs == old(inputs) && throttle == old(throttle)
    {
      loadMore := false;
      if !inputs.enabled || !inputs.hasItems || inputs.isLoading || isLoadingRef {
        return;
      }
      if IsNearBottom(m, inputs.threshold) {
        isLoadingRef := true;
        loadMore := true;
      }
    }

    /**
     * A window scroll event: ignored without a listener; otherwise passed
     * through the throttle, which forwards it to `handleScroll` only when
     * open.
     */
    method OnScroll(m: ScrollMetrics) returns (loadMore: bool)
      modifies this, throttle
      ensures loadMore == (ListenerActive(old(inputs)) && !old(throttle.inThrottle)
                           && ScrollLoads(old(inputs), old(isLoadingRef), m))
      ensures isLoadingRef == (old(isLoadingRef) || loadMore)
      ensures throttle.inThrottle == (old(throttle.inThrottle) || ListenerActive(old(inputs)))
      ensures inputs == old(inputs) && throttle == old(throttle)
    {
      loadMore := false;
      if ListenerActive(inputs) {
        var forwarded := throttle.Call();
        if forwarded {
          loadMore := HandleScroll(m);
        }
      }
    }

    /** `reset()`: clears the latch. */
    method Reset()
      modifies this
      ensures !isLoadingRef
      ensures inputs == old(inputs) && throttle == old(throttle)
    {
      isLoadingRef := false;
    }
  }

  /**
   * After a scroll that asked for more, no later scroll asks again until the
   * latch is cleared, even with the throttle's timer fired in between.
   */
  method LatchHoldsUntilCleared(st: ScrollTrigger, m1: ScrollMetrics, m2: ScrollMetrics)
    returns (first: bool, second: bool)
    modifies st, st.throttle
    ensures first ==> !second
  {
    first := st.OnScroll(m1);
    st.throttle.TimerFires();
    second := st.OnScroll(m2);
  }

  /**
   * Once `reset` has cleared the latch and the throttle's timer has fired, a
   * scroll near the bottom asks for more again while enabled, with items and
   * not loading.
   */
  method ResetReopensTrigger(st: ScrollTrigger, m: ScrollMetrics) returns (loadMore: bool)
    requires ListenerActive(st.inputs) && !st.inputs.isLoading && IsNearBottom(m, st.inputs.threshold)
    modifies st, st.throttle
    ensures loadMore
  {
    st.Reset();
    st.throttle.TimerFires();
    loadMore := st.OnScroll(m);
  }
}
