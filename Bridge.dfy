/**
 * The native OneSignal module for React Native on Android, reduced to the
 * state it keeps itself: the two one-way flags of its lifecycle guard and
 * the single pending `getTags` callback. SDK initialisations, broadcast
 * receiver registrations and JavaScript callback invocations are recorded in
 * ghost logs; each method is proved to act as the matching function of
 * Lifecycle or TagsSlot, whose lemmas carry the properties.
 */
module Bridge {
  import opened Wrappers
  import opened Json
  import Lifecycle
  import TagsSlot

  class RNOneSignal {
    var oneSignalInitDone: bool
    var registeredEvents: bool
    var pendingGetTagsCallback: Option<TagsSlot.Callback>

    ghost var sdkInits: seq<Lifecycle.SdkInit>     // calls that reached OneSignal.init
    ghost var receivers: seq<Lifecycle.Channel>    // broadcast receivers registered
    ghost var tagsHandlers: nat                    // OneSignal.getTags handlers not yet answered
    ghost var requestedCallbacks: seq<TagsSlot.Callback>
    ghost var invocations: seq<TagsSlot.Invocation>

    ghost function Guard(): Lifecycle.State
      reads this
    {
      Lifecycle.State(oneSignalInitDone, registeredEvents, sdkInits, receivers)
    }

    ghost function Tags(): TagsSlot.State
      reads this
    {
      TagsSlot.State(pendingGetTagsCallback, tagsHandlers, requestedCallbacks, invocations)
    }

    /** Receivers are registered, the guard's and the slot's invariants hold. */
    ghost predicate Valid()
      reads this
    {
      registeredEvents && Lifecycle.Inv(Guard()) && TagsSlot.Inv(Tags())
    }

    /**
     * The constructor runs `initOneSignal` with the app id read from the
     * manifest (`None` when missing) and whether an activity is current.
     */
    constructor (manifestAppId: Option<string>, hasActivity: bool)
      ensures Valid()
      ensures Guard() == Lifecycle.Created(manifestAppId, hasActivity)
      ensures Tags() == TagsSlot.Empty
    {
      oneSignalInitDone := false;
      registeredEvents := false;
      pendingGetTagsCallback := None;
      sdkInits := [];
      receivers := [];
      tagsHandlers := 0;
      requestedCallbacks := [];
      invocations := [];
      new;
      InitOneSignal(manifestAppId, hasActivity);
    }

    /** `initOneSignal()`: register the receivers once, then `init` with a usable manifest app id. */
    method InitOneSignal(manifestAppId: Option<string>, hasActivity: bool)
      requires Lifecycle.Inv(Guard())
      modifies this
      ensures Guard() == Lifecycle.InitOneSignal(old(Guard()), manifestAppId, hasActivity)
      ensures Lifecycle.Inv(Guard())
      ensures Tags() == old(Tags())
    {
      if !registeredEvents {
        registeredEvents := true;
        receivers := receivers + [Lifecycle.Opened];
        receivers := receivers + [Lifecycle.Received];
        receivers := receivers + [Lifecycle.DirectReply];
      }
      if manifestAppId.Some? && |manifestAppId.value| > 0 {
        Init(manifestAppId, hasActivity);
      }
    }

    /** `init(appId)`, from `initOneSignal` or from JavaScript; `None` is a null app id. */
    method Init(appId: Option<string>, hasActivity: bool)
      requires Lifecycle.Inv(Guard())
      modifies this
      ensures Guard() == Lifecycle.Init(old(Guard()), appId, hasActivity)
      ensures Lifecycle.Inv(Guard())
      ensures Tags() == old(Tags())
    {
      if oneSignalInitDone {
        return;
      }
      oneSignalInitDone := true;
      sdkInits := sdkInits + [Lifecycle.SdkInit(Lifecycle.ContextFor(hasActivity), appId)];
    }

    /** `onHostResume()`. */
    method OnHostResume(manifestAppId: Option<string>, hasActivity: bool)
      requires Valid()
      modifies this
      ensures Valid()
      ensures Guard() == Lifecycle.Step(old(Guard()), Lifecycle.HostResume(manifestAppId, hasActivity))
      ensures Tags() == old(Tags())
    {
      InitOneSignal(manifestAppId, hasActivity);
    }

    /** `getTags(callback)`: keep the callback only if none is pending, and ask the SDK; `None` is a null callback. */
    method GetTags(callback: Option<TagsSlot.Callback>)
      requires Valid()
      modifies this
      ensures Valid()
      ensures Tags() == TagsSlot.Request(old(Tags()), callback)
      ensures Guard() == old(Guard())
    {
      if pendingGetTagsCallback.None? {
        pendingGetTagsCallback := callback;
      }
      if callback.Some? {
        requestedCallbacks := requestedCallbacks + [callback.value];
      }
      tagsHandlers := tagsHandlers + 1;
    }

    /** The SDK answers one `getTags` handler with `tags`. */
    method TagsAvailable(tags: Json)
      requires Valid()
      requires tagsHandlers > 0
      modifies this
      ensures Valid()
      ensures Tags() == TagsSlot.Resolve(old(Tags()), tags)
      ensures Guard() == old(Guard())
    {
      if pendingGetTagsCallback.Some? {
        invocations := invocations + [TagsSlot.Invocation(pendingGetTagsCallback.value, tags)];
      }
      pendingGetTagsCallback := None;
      tagsHandlers := tagsHandlers - 1;
    }
  }

  /**
   * A client: two `getTags` calls before the SDK answers, then two answers.
   * Only the first callback is invoked, once, with the first answer.
   */
  method OverlappingGetTags(bridge: RNOneSignal, a: TagsSlot.Callback, b: TagsSlot.Callback,
                            first: Json, second: Json)
    requires bridge.Valid() && bridge.Tags() == TagsSlot.Empty
    modifies bridge
    ensures bridge.Valid()
    ensures bridge.invocations == [TagsSlot.Invocation(a, first)]
    ensures bridge.pendingGetTagsCallback == None
  {
    bridge.GetTags(Some(a));
    bridge.GetTags(Some(b));
    bridge.TagsAvailable(first);
    bridge.TagsAvailable(second);
  }

  /**
   * A client: the guard lives in the instance, not in the process. A second
   * module instance, as React Native creates when it rebuilds its context,
   * initialises the SDK and registers the three receivers once more.
   */
  method SecondInstanceInitsAgain(appId: string, hasActivity: bool)
    returns (first: RNOneSignal, second: RNOneSignal)
    requires |appId| > 0
    ensures |first.sdkInits| + |second.sdkInits| == 2
    ensures |first.receivers| + |second.receivers| == 6
  {
    first := new RNOneSignal(Some(appId), hasActivity);
    second := new RNOneSignal(Some(appId), hasActivity);
  }
}
