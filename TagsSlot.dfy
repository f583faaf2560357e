/**
 * The single-slot registry for `getTags` callbacks, as values. React Native
 * lets a callback be invoked only once, so the bridge keeps at most one
 * pending callback: a request fills the slot only when it is empty, and each
 * answer from the SDK invokes whatever the slot holds and empties it.
 */
module TagsSlot {
  import opened Wrappers
  import opened Json

  /** A JavaScript callback, by identity. */
  datatype Callback = Callback(id: nat)

  /** One invocation of a callback with the tags the SDK delivered. */
  datatype Invocation = Invocation(callback: Callback, tags: Json)

  datatype State = State(
    pending: Option<Callback>,  // pendingGetTagsCallback
    handlers: nat,              // SDK tag handlers given out and not yet answered
    requested: seq<Callback>,   // every non-null callback passed to getTags
    invoked: seq<Invocation>    // every callback invocation, in order
  )

  /**
   * A `getTags` call from JavaScript (`None` is a null callback), or the SDK
   * answering one of its handlers.
   */
  datatype Event = GetTags(callback: Option<Callback>) | TagsAvailable(tags: Json)

  const Empty: State := State(None, 0, [], [])

  /**
   * The slot's invariant: a pending callback was requested and still has an
   * SDK answer coming, every invoked callback was requested, and there are
   * never more invocations plus pending callbacks than requests.
   */
  predicate Inv(s: State) {
    && (s.pending.Some? ==> s.handlers > 0 && s.pending.value in s.requested)
    && (forall i :: 0 <= i < |s.invoked| ==> s.invoked[i].callback in s.requested)
    && |s.invoked| + (if s.pending.Some? then 1 else 0) <= |s.requested|
  }

  /** Whether `cb` has been invoked. */
  predicate WasInvoked(s: State, cb: Callback) {
    exists i :: 0 <= i < |s.invoked| && s.invoked[i].callback == cb
  }

  /**
   * No callback has been invoked twice, and the pending one not at all: the
   * React Native restriction the slot exists for.
   */
  predicate InvokedOnce(s: State) {
    && (forall i, j :: 0 <= i < j < |s.invoked| ==> s.invoked[i].callback != s.invoked[j].callback)
    && (s.pending.Some? ==> !WasInvoked(s, s.pending.value))
  }

  /**
   * `getTags(callback)`: fill the slot only when it is empty (a null callback
   * leaves it empty), and ask the SDK for the tags in any case.
   */
  function Request(s: State, callback: Option<Callback>): (r: State)
    ensures s.pending.None? ==> r.pending == callback
    ensures s.pending.Some? ==> r.pending == s.pending
    ensures r.handlers == s.handlers + 1
    ensures r.requested == s.requested + (if callback.Some? then [callback.value] else [])
    ensures r.invoked == s.invoked
  {
    State(if s.pending.None? then callback else s.pending,
          s.handlers + 1, s.requested + (if callback.Some? then [callback.value] else []), s.invoked)
  }

  /** `tagsAvailable(tags)`: invoke the pending callback if there is one, then empty the slot. */
  function Resolve(s: State, tags: Json): (r: State)
    requires s.handlers > 0
    ensures r.pending == None
    ensures r.handlers == s.handlers - 1 && r.requested == s.requested
    ensures s.pending.Some? ==> r.invoked == s.invoked + [Invocation(s.pending.value, tags)]
    ensures s.pending.None? ==> r.invoked == s.invoked
  {
    State(None, s.handlers - 1, s.requested,
          if s.pending.Some? then s.invoked + [Invocation(s.pending.value, tags)] else s.invoked)
  }

  /** The SDK answers only handlers it was given. */
  predicate Enabled(s: State, e: Event) {
    e.TagsAvailable? ==> s.handlers > 0
  }

  function Step(s: State, e: Event): State
    requires Enabled(s, e)
  {
    match e
    case GetTags(callback) => Request(s, callback)
    case TagsAvailable(tags) => Resolve(s, tags)
  }

  /** Whether every event of the sequence can happen in turn. */
  predicate Feasible(s: State, events: seq<Event>)
    decreases |events|
  {
    events == [] || (Enabled(s, events[0]) && Feasible(Step(s, events[0]), events[1..]))
  }

  function Run(s: State, events: seq<Event>): State
    requires Feasible(s, events)
    decreases |events|
  {
    if events == [] then s else Run(Step(s, events[0]), events[1..])
  }

  /** Every callback passed in by the events is a new one, as React Native creates one per call. */
  predicate FreshCallbacks(s: State, events: seq<Event>)
    requires Feasible(s, events)
    decreases |events|
  {
    events == [] ||
    ((events[0].GetTags? && events[0].callback.Some? ==> events[0].callback.value !in s.requested)
     && FreshCallbacks(Step(s, events[0]), events[1..]))
  }

  lemma StepKeepsInv(s: State, e: Event)
    requires Inv(s) && Enabled(s, e)
    ensures Inv(Step(s, e))
  {
  }

  /** The slot's invariant holds after any feasible sequence of requests and answers. */
  lemma {:induction false} RunKeepsInv(s: State, events: seq<Event>)
    requires Inv(s) && Feasible(s, events)
    ensures Inv(Run(s, events))
    decreases |events|
  {
    if events != [] {
      StepKeepsInv(s, events[0]);
      RunKeepsInv(Step(s, events[0]), events[1..]);
    }
  }

  /** Once the SDK has answered every handler, no callback is left in the slot. */
  lemma AnsweredMeansEmpty(s: State, events: seq<Event>)
    requires Inv(s) && Feasible(s, events)
    requires Run(s, events).handlers == 0
    ensures Run(s, events).pending == None
  {
    RunKeepsInv(s, events);
  }

  lemma StepKeepsInvokedOnce(s: State, e: Event)
    requires Inv(s) && InvokedOnce(s) && Enabled(s, e)
    requires e.GetTags? && e.callback.Some? ==> e.callback.value !in s.requested
    ensures InvokedOnce(Step(s, e))
  {
  }

  /**
   * With fresh callbacks, no callback is ever invoked twice, however requests
   * and SDK answers interleave.
   */
  lemma {:induction false} RunKeepsInvokedOnce(s: State, events: seq<Event>)
    requires Inv(s) && InvokedOnce(s) && Feasible(s, events) && FreshCallbacks(s, events)
    ensures InvokedOnce(Run(s, events))
    decreases |events|
  {
    if events != [] {
      StepKeepsInvokedOnce(s, events[0]);
      StepKeepsInv(s, events[0]);
      RunKeepsInvokedOnce(Step(s, events[0]), events[1..]);
    }
  }

  /**
   * Two overlapping requests: the first registrant is invoked once with the
   * first answer, the second answer invokes nothing, and the slot ends empty.
   */
  lemma OverlappingRequests(a: Callback, b: Callback, first: Json, second: Json)
    ensures Feasible(Empty, [GetTags(Some(a)), GetTags(Some(b)), TagsAvailable(first), TagsAvailable(second)])
    ensures Run(Empty, [GetTags(Some(a)), GetTags(Some(b)), TagsAvailable(first), TagsAvailable(second)])
              == State(None, 0, [a, b], [Invocation(a, first)])
  {
    var events := [GetTags(Some(a)), GetTags(Some(b)), TagsAvailable(first), TagsAvailable(second)];
    var s1 := Request(Empty, Some(a));
    var s2 := Request(s1, Some(b));
    var s3 := Resolve(s2, first);
    var s4 := Resolve(s3, second);
    assert events[1..] == [GetTags(Some(b)), TagsAvailable(first), TagsAvailable(second)];
    assert events[2..] == [TagsAvailable(first), TagsAvailable(second)];
    assert events[3..] == [TagsAvailable(second)];
    assert events[1..][1..] == events[2..] && events[2..][1..] == events[3..];
    assert Feasible(s4, []) && Run(s4, []) == s4;
    assert Feasible(s3, events[3..]) && Run(s3, events[3..]) == s4;
    assert Feasible(s2, events[2..]) && Run(s2, events[2..]) == s4;
    assert Feasible(s1, events[1..]) && Run(s1, events[1..]) == s4;
  }

  /**
   * A requested callback that is neither pending nor invoked is never
   * invoked later, as long as every later callback is a new one.
   */
  lemma {:induction false} PassedOverStaysUninvoked(s: State, cb: Callback, events: seq<Event>)
    requires Inv(s) && Feasible(s, events) && FreshCallbacks(s, events)
    requires cb in s.requested && s.pending != Some(cb) && !WasInvoked(s, cb)
    ensures !WasInvoked(Run(s, events), cb)
    decreases |events|
  {
    if events != [] {
      var next := Step(s, events[0]);
      StepKeepsInv(s, events[0]);
      assert next.pending != Some(cb);
      assert !WasInvoked(next, cb) by {
        if events[0].TagsAvailable? && s.pending.Some? {
          assert next.invoked == s.invoked + [Invocation(s.pending.value, events[0].tags)];
        }
      }
      PassedOverStaysUninvoked(next, cb, events[1..]);
    }
  }

  /**
   * A callback passed to `getTags` while another one is pending is never
   * invoked, whatever requests and answers follow, when every callback is a
   * new one: its caller never receives the tags.
   */
  lemma {:induction false} RequestWhilePendingNeverInvoked(s: State, cb: Callback, events: seq<Event>)
    requires Inv(s) && s.pending.Some?
    requires Feasible(s, [GetTags(Some(cb))] + events) && FreshCallbacks(s, [GetTags(Some(cb))] + events)
    ensures !WasInvoked(Run(s, [GetTags(Some(cb))] + events), cb)
  {
    var all := [GetTags(Some(cb))] + events;
    assert all[0] == GetTags(Some(cb)) && all[1..] == events;
    var next := Request(s, Some(cb));
    StepKeepsInv(s, all[0]);
    assert cb !in s.requested;
    PassedOverStaysUninvoked(next, cb, events);
  }
}
