/** The in-view hook (src/hooks/use-in-view.ts): a flag that follows the
    intersection entries the observer delivers. With `triggerOnce` the observer
    disconnects on the first intersecting entry and the flag is never reset.
    An entry is its `isIntersecting` value; a batch is the entries of one callback. */
module InView {

  datatype InViewState = InViewState(isInView: bool, observing: bool)

  /** The flag starts false, before any observer exists. */
  const Initial := InViewState(false, false)

  /** A run of the effect. The previous run's cleanup has disconnected any earlier
      observer; a new one is created only for an existing element. */
  function Observe(st: InViewState, hasElement: bool): (r: InViewState)
    ensures r.isInView == st.isInView
    ensures r.observing == hasElement
  {
    st.(observing := hasElement)
  }

  /** One entry: an intersecting one sets the flag (and, with `triggerOnce`,
      disconnects); another resets it unless `triggerOnce`. */
  function HandleEntry(st: InViewState, intersecting: bool, triggerOnce: bool): (r: InViewState)
    ensures intersecting ==> r.isInView
    ensures intersecting && triggerOnce ==> !r.observing
    ensures !intersecting && !triggerOnce ==> !r.isInView
    ensures !intersecting && triggerOnce ==> r == st
    ensures !triggerOnce ==> r.observing == st.observing
  {
    if intersecting then InViewState(true, st.observing && !triggerOnce)
    else if !triggerOnce then st.(isInView := false)
    else st
  }

  /** `handleIntersect`: the entries of one callback in order. */
  function HandleIntersect(st: InViewState, entries: seq<bool>, triggerOnce: bool): (r: InViewState)
    decreases |entries|
  {
    if |entries| == 0 then st
    else HandleIntersect(HandleEntry(st, entries[0], triggerOnce), entries[1..], triggerOnce)
  }

  /** Without `triggerOnce` the flag is the last entry of the batch. */
  lemma {:induction false} FollowsLastEntry(st: InViewState, entries: seq<bool>)
    requires |entries| > 0
    ensures HandleIntersect(st, entries, false).isInView == entries[|entries| - 1]
    decreases |entries|
  {
    if |entries| > 1 {
      FollowsLastEntry(HandleEntry(st, entries[0], false), entries[1..]);
    }
  }

  /** With `triggerOnce` the flag after a batch is true exactly when it was true
      before or some entry intersects. */
  lemma {:induction false} TriggerOnceBatch(st: InViewState, entries: seq<bool>)
    ensures HandleIntersect(st, entries, true).isInView <==> st.isInView || true in entries
    decreases |entries|
  {
    if |entries| > 0 {
      TriggerOnceBatch(HandleEntry(st, entries[0], true), entries[1..]);
      assert entries == [entries[0]] + entries[1..];
    }
  }

  /** Callbacks reach the hook only while it observes. */
  function Deliver(st: InViewState, entries: seq<bool>, triggerOnce: bool): (r: InViewState)
    ensures !st.observing ==> r == st
  {
    if st.observing then HandleIntersect(st, entries, triggerOnce) else st
  }

  /** A run of callbacks. */
  function Run(st: InViewState, batches: seq<seq<bool>>, triggerOnce: bool): InViewState
    decreases |batches|
  {
    if |batches| == 0 then st else Run(Deliver(st, batches[0], triggerOnce), batches[1..], triggerOnce)
  }

  /** Without an element nothing is observed and the flag stays false. */
  lemma NoElementStaysFalse(batches: seq<seq<bool>>, triggerOnce: bool)
    ensures Run(Observe(Initial, false), batches, triggerOnce) == Initial
  {
    NothingObservedNothingChanges(Initial, batches, triggerOnce);
  }

  /** When the effect re-runs without an element, the earlier observer is gone and
      no later callback changes the flag, whatever it was. */
  lemma RerunWithoutElementFreezes(st: InViewState, batches: seq<seq<bool>>, triggerOnce: bool)
    ensures Run(Observe(st, false), batches, triggerOnce) == st.(observing := false)
  {
    NothingObservedNothingChanges(Observe(st, false), batches, triggerOnce);
  }

  lemma {:induction false} NothingObservedNothingChanges(st: InViewState, batches: seq<seq<bool>>, triggerOnce: bool)
    requires !st.observing
    ensures Run(st, batches, triggerOnce) == st
    decreases |batches|
  {
    if |batches| > 0 {
      NothingObservedNothingChanges(st, batches[1..], triggerOnce);
    }
  }

  /** With `triggerOnce`, once the flag is true it stays true for any later events. */
  lemma {:induction false} TriggerOnceStaysTrue(st: InViewState, batches: seq<seq<bool>>)
    requires st.isInView
    ensures Run(st, batches, true).isInView
    decreases |batches|
  {
    if |batches| > 0 {
      var next := Deliver(st, batches[0], true);
      TriggerOnceBatch(st, batches[0]);
      TriggerOnceStaysTrue(next, batches[1..]);
    }
  }
}
