/**
 * The lifecycle guard of the OneSignal bridge module, as values: the two
 * one-way flags `oneSignalInitDone` and `registeredEvents`, together with
 * ghost logs of the SDK initialisations and of the broadcast receivers
 * registered. The class in Bridge.dfy is proved to follow these functions.
 */
module Lifecycle {
  import opened Wrappers

  /** The three broadcast channels the bridge listens on. */
  datatype Channel = Opened | Received | DirectReply

  /** The receivers registered by one registration round, in registration order. */
  const AllChannels: seq<Channel> := [Opened, Received, DirectReply]

  /** What `OneSignal.init` is given as its context. */
  datatype Context = CurrentActivity | ApplicationContext

  /** One call of `OneSignal.init`; `None` is a null app id passed from JavaScript. */
  datatype SdkInit = SdkInit(context: Context, appId: Option<string>)

  datatype State = State(
    initDone: bool,          // oneSignalInitDone
    registered: bool,        // registeredEvents
    sdkInits: seq<SdkInit>,  // every call that reached OneSignal.init
    receivers: seq<Channel>  // every broadcast receiver registered
  )

  /** Events after construction: a host resume, or `init` called from JavaScript. */
  datatype Event =
    | HostResume(manifestAppId: Option<string>, hasActivity: bool)
    | JsInit(appId: Option<string>, hasActivity: bool)

  /** The field values before the constructor runs `initOneSignal`. */
  const Unregistered: State := State(false, false, [], [])

  /**
   * The guard's invariant: the flag is set exactly when the SDK was
   * initialised, which happened at most once, and receivers were registered
   * in exactly one round exactly when `registeredEvents` is set.
   */
  predicate Inv(s: State) {
    && |s.sdkInits| <= 1
    && (s.initDone <==> |s.sdkInits| == 1)
    && s.receivers == (if s.registered then AllChannels else [])
  }

  /** An activity when there is one, the application context otherwise. */
  function ContextFor(hasActivity: bool): (r: Context)
    ensures r == ApplicationContext <==> !hasActivity
  {
    if hasActivity then CurrentActivity else ApplicationContext
  }

  /** Whether a manifest app id is present and non-empty. */
  predicate HasAppId(manifestAppId: Option<string>)
    ensures HasAppId(manifestAppId) <==> manifestAppId != None && manifestAppId != Some("")
  {
    manifestAppId.Some? && |manifestAppId.value| > 0
  }

  /**
   * `init(appId)`: once the flag is set nothing happens; otherwise the flag
   * is set, whatever `appId` is (even empty or null), and the SDK is
   * initialised with exactly that id.
   */
  function Init(s: State, appId: Option<string>, hasActivity: bool): (r: State)
    ensures r.initDone
    ensures s.initDone ==> r == s
    ensures !s.initDone ==> r.sdkInits == s.sdkInits + [SdkInit(ContextFor(hasActivity), appId)]
    ensures r.registered == s.registered && r.receivers == s.receivers
  {
    if s.initDone then s
    else s.(initDone := true, sdkInits := s.sdkInits + [SdkInit(ContextFor(hasActivity), appId)])
  }

  /**
   * `initOneSignal()`: registers the receivers unless already done, then calls
   * `init` only with a present, non-empty manifest app id.
   */
  function InitOneSignal(s: State, manifestAppId: Option<string>, hasActivity: bool): (r: State)
    ensures r.registered
    ensures r.receivers == (if s.registered then s.receivers else s.receivers + AllChannels)
    ensures !HasAppId(manifestAppId) ==> r.initDone == s.initDone && r.sdkInits == s.sdkInits
    ensures HasAppId(manifestAppId) ==> r.initDone
    ensures s.initDone ==> r.initDone && r.sdkInits == s.sdkInits
    ensures HasAppId(manifestAppId) && !s.initDone ==>
              r.sdkInits == s.sdkInits + [SdkInit(ContextFor(hasActivity), manifestAppId)]
  {
    var registered := if s.registered then s else s.(registered := true, receivers := s.receivers + AllChannels);
    if HasAppId(manifestAppId) then Init(registered, manifestAppId, hasActivity) else registered
  }

  /** The state right after the constructor. */
  function Created(manifestAppId: Option<string>, hasActivity: bool): (r: State)
    ensures Inv(r)
    ensures r.receivers == AllChannels
    ensures r.initDone <==> HasAppId(manifestAppId)
  {
    InitOneSignal(Unregistered, manifestAppId, hasActivity)
  }

  function Step(s: State, e: Event): State {
    match e
    case HostResume(manifestAppId, hasActivity) => InitOneSignal(s, manifestAppId, hasActivity)
    case JsInit(appId, hasActivity) => Init(s, appId, hasActivity)
  }

  /** The state after a sequence of events. */
  function Run(s: State, events: seq<Event>): State
    decreases |events|
  {
    if events == [] then s else Run(Step(s, events[0]), events[1..])
  }

  /** Every event keeps the invariant. */
  lemma StepKeepsInv(s: State, e: Event)
    requires Inv(s)
    ensures Inv(Step(s, e))
  {
  }

  /** Over any sequence of resumes and `init` calls the SDK is initialised at most once. */
  lemma {:induction false} RunKeepsInv(s: State, events: seq<Event>)
    requires Inv(s)
    ensures Inv(Run(s, events))
    decreases |events|
  {
    if events != [] {
      StepKeepsInv(s, events[0]);
      RunKeepsInv(Step(s, events[0]), events[1..]);
    }
  }

  /** Neither flag is ever cleared, and once set, nothing more reaches the SDK or registers a receiver. */
  lemma {:induction false} RunIsMonotone(s: State, events: seq<Event>)
    ensures s.initDone ==> Run(s, events).initDone && Run(s, events).sdkInits == s.sdkInits
    ensures s.registered ==> Run(s, events).registered && Run(s, events).receivers == s.receivers
    ensures |s.sdkInits| <= |Run(s, events).sdkInits|
    decreases |events|
  {
    if events != [] {
      RunIsMonotone(Step(s, events[0]), events[1..]);
    }
  }

  /** Resumes that never see a present, non-empty manifest app id never initialise the SDK. */
  lemma {:induction false} ResumesWithoutAppIdNeverInit(s: State, events: seq<Event>)
    requires forall i :: 0 <= i < |events| ==> events[i].HostResume? && !HasAppId(events[i].manifestAppId)
    ensures Run(s, events).initDone == s.initDone
    ensures Run(s, events).sdkInits == s.sdkInits
    decreases |events|
  {
    if events != [] {
      ResumesWithoutAppIdNeverInit(Step(s, events[0]), events[1..]);
    }
  }

  /**
   * The whole life of a module instance: whatever the constructor saw and
   * whatever follows, the SDK is initialised at most once and each of the
   * three receivers is registered exactly once.
   */
  lemma {:induction false} LifetimeAtMostOnce(manifestAppId: Option<string>, hasActivity: bool, events: seq<Event>)
    ensures |Run(Created(manifestAppId, hasActivity), events).sdkInits| <= 1
    ensures Run(Created(manifestAppId, hasActivity), events).receivers == AllChannels
  {
    RunKeepsInv(Created(manifestAppId, hasActivity), events);
    RunIsMonotone(Created(manifestAppId, hasActivity), events);
  }

  /**
   * With a non-empty manifest app id at construction, the one SDK
   * initialisation there will ever be uses that id; later `init` calls from
   * JavaScript, with whatever id, change nothing.
   */
  lemma {:induction false} ManifestAppIdWins(appId: string, hasActivity: bool, events: seq<Event>)
    requires |appId| > 0
    ensures Run(Created(Some(appId), hasActivity), events).sdkInits
              == [SdkInit(ContextFor(hasActivity), Some(appId))]
  {
    RunIsMonotone(Created(Some(appId), hasActivity), events);
  }

  /** Running two sequences of events one after the other is running their concatenation. */
  lemma {:induction false} RunAppend(s: State, first: seq<Event>, second: seq<Event>)
    ensures Run(s, first + second) == Run(Run(s, first), second)
    decreases |first|
  {
    if first != [] {
      assert (first + second)[0] == first[0] && (first + second)[1..] == first[1..] + second;
      RunAppend(Step(s, first[0]), first[1..], second);
    } else {
      assert first + second == second;
    }
  }

  /**
   * Without a usable manifest app id, neither at construction nor at the
   * resumes before it, the first `init` from JavaScript is the one that
   * reaches the SDK, even with an empty or null id; nothing after it does.
   */
  lemma {:induction false} FirstJsInitWins(manifestAppId: Option<string>, hasActivity: bool,
                                           resumes: seq<Event>, appId: Option<string>,
                                           jsHasActivity: bool, events: seq<Event>)
    requires !HasAppId(manifestAppId)
    requires forall i :: 0 <= i < |resumes| ==> resumes[i].HostResume? && !HasAppId(resumes[i].manifestAppId)
    ensures Run(Created(manifestAppId, hasActivity), resumes + [JsInit(appId, jsHasActivity)] + events).sdkInits
              == [SdkInit(ContextFor(jsHasActivity), appId)]
  {
    var created := Created(manifestAppId, hasActivity);
    var beforeInit := Run(created, resumes);
    ResumesWithoutAppIdNeverInit(created, resumes);
    var afterInit := Step(beforeInit, JsInit(appId, jsHasActivity));
    RunAppend(created, resumes, [JsInit(appId, jsHasActivity)] + events);
    assert resumes + [JsInit(appId, jsHasActivity)] + events == resumes + ([JsInit(appId, jsHasActivity)] + events);
    var rest := [JsInit(appId, jsHasActivity)] + events;
    assert rest[0] == JsInit(appId, jsHasActivity) && rest[1..] == events;
    RunIsMonotone(afterInit, events);
  }
}
