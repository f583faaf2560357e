# OneSignal React Native bridge (Android) — a Dafny model

The Android side of `react-native-onesignal` is a React Native module,
`RNOneSignal`, that forwards JavaScript calls to the OneSignal push SDK. Most of
its methods are one-line forwards. Three parts have behaviour of their own, and
this project models and proves them:

- **Lifecycle guard.** `initOneSignal` runs from the constructor and on every
  `onHostResume`. It registers the three broadcast receivers (opened, received,
  direct reply) behind the one-way flag `registeredEvents`. It then calls
  `init` when the manifest app id is present and non-empty. `init`, which
  JavaScript can also call, reaches `OneSignal.init` only while the one-way flag
  `oneSignalInitDone` is clear, and sets that flag whatever app id it got.
- **Single-slot `getTags` callback.** `getTags` stores its callback in
  `pendingGetTagsCallback` only when the slot is empty. It always hands the SDK
  a new handler. Each answer from the SDK invokes the callback in the slot, if
  any, and then empties the slot.
- **`postNotification` body.** The method builds a JSON object step by step:
  `contents`, then `include_player_ids` and `data.p2p_notification` when given.
  It then copies every key of `otherParameters`, overwriting what is there, and
  adds `data.hidden = true` when asked. Any `JSONException` aborts the post.

Files:

- `Wrappers.dfy` holds `Option`, whose `None` stands for Java's `null`.
- `Json.dfy` holds JSON values, the result of parsing a text, and the coercion
  done by `getBoolean`.
- `Lifecycle.dfy` holds the guard as values. It has a step function per event,
  runs over any sequence of resumes and JavaScript `init` calls, and the lemmas
  about those runs.
- `TagsSlot.dfy` holds the callback slot as values, with the same structure:
  step functions, runs, invariants and lemmas.
- `Payload.dfy` holds `postNotification` as an imperative method, proved equal
  to the function `Outcome`, and the lemmas about `Outcome`.
- `Bridge.dfy` holds the class `RNOneSignal` with the three real fields and
  ghost logs of the SDK initialisations, receiver registrations and callback
  invocations it makes. Each method is proved to act as the matching step
  function, so the lemmas above apply to the class.

Inputs the source reads from its environment are parameters:

- the manifest app id, as an `Option<string>`;
- whether a current activity exists;
- the JSON parser, a function `string -> ObjectText`;
- the tags the SDK delivers.

SDK initialisations (`OneSignal.init`), broadcast-receiver registrations on
the React context, and JavaScript callback invocations are recorded in the
ghost logs `sdkInits`, `receivers` and `invocations`. A ghost counter
`tagsHandlers` counts the SDK tag handlers that have not been answered yet.

Two behaviours of the code worth noting:

- A JavaScript `init("")` or `init(null)` does reach `OneSignal.init` with
  that id, when it is the first `init`. Only `initOneSignal` checks the id.
- `hidden: true` in `otherParameters` with no `data` object in the body makes
  `getJSONObject("data")` throw. The notification is then not posted at all.

A null app id given to `init` and a null callback given to `getTags` are
modelled as `None`.

## Model

| member | source | states |
|---|---|---|
| `Lifecycle.Init` | android/src/main/java/com/geektime/rnonesignalandroid/RNOneSignal.java:109-134 | after `init` the flag is set whatever the app id, even an empty or null one; once the flag was set, `init` changes nothing; otherwise exactly one SDK initialisation with that app id is added, using the activity if there is one and the application context if not |
| `Lifecycle.ContextFor` | android/src/main/java/com/geektime/rnonesignalandroid/RNOneSignal.java:111-126 | the SDK gets the application context exactly when there is no current activity |
| `Lifecycle.HasAppId` | android/src/main/java/com/geektime/rnonesignalandroid/RNOneSignal.java:94 | a manifest app id counts exactly when it is neither null nor empty |
| `Lifecycle.InitOneSignal` | android/src/main/java/com/geektime/rnonesignalandroid/RNOneSignal.java:79-97 | afterwards receivers are registered, and the three are added only if they were not registered before; a missing or empty manifest app id leaves the flag and the SDK untouched; a non-empty one leaves the flag set and, on the first time, initialises the SDK with that id; once the flag was set, no call reaches the SDK |
| `Lifecycle.Created` | android/src/main/java/com/geektime/rnonesignalandroid/RNOneSignal.java:55-61 | after the constructor the invariant holds, the three receivers are registered, and the SDK is initialised exactly when the manifest app id is present and non-empty |
| `Lifecycle.RunKeepsInv` | android/src/main/java/com/geektime/rnonesignalandroid/RNOneSignal.java:83-118 | over any sequence of resumes and `init` calls: at most one SDK initialisation, and the flag is set exactly when there was one; receivers registered in exactly one round exactly when `registeredEvents` is set |
| `Lifecycle.RunIsMonotone` | android/src/main/java/com/geektime/rnonesignalandroid/RNOneSignal.java:83-118 | neither flag is ever cleared; once `oneSignalInitDone` is set no later event reaches `OneSignal.init`; once `registeredEvents` is set no receiver is registered again |
| `Lifecycle.ResumesWithoutAppIdNeverInit` | android/src/main/java/com/geektime/rnonesignalandroid/RNOneSignal.java:92-96 | resumes that only ever see a null or empty manifest app id leave the flag and the SDK untouched |
| `Lifecycle.LifetimeAtMostOnce` | android/src/main/java/com/geektime/rnonesignalandroid/RNOneSignal.java:55-134 | over a module's whole life (constructor, then any resumes and `init` calls) the SDK is initialised at most once and each of the three receivers is registered exactly once |
| `Lifecycle.ManifestAppIdWins` | android/src/main/java/com/geektime/rnonesignalandroid/RNOneSignal.java:92-118 | with a non-empty manifest app id at construction, the only SDK initialisation ever made uses that id, whatever `init` calls follow |
| `Lifecycle.FirstJsInitWins` | android/src/main/java/com/geektime/rnonesignalandroid/RNOneSignal.java:109-134 | without a usable manifest app id at construction and at any resumes before it, the first JavaScript `init` is the only one to reach the SDK, with its id, even an empty or null one, whatever follows |
| `TagsSlot.Request` | android/src/main/java/com/geektime/rnonesignalandroid/RNOneSignal.java:146-151 | the callback fills the slot only when the slot is empty, and a null callback leaves it empty; a pending callback stays; one more SDK handler is outstanding, even for a null callback; no callback is invoked |
| `TagsSlot.Resolve` | android/src/main/java/com/geektime/rnonesignalandroid/RNOneSignal.java:153-157 | one SDK answer invokes the pending callback with the tags exactly when there is one, invokes nothing otherwise, and always leaves the slot empty |
| `TagsSlot.RunKeepsInv` | android/src/main/java/com/geektime/rnonesignalandroid/RNOneSignal.java:146-160 | over any feasible sequence of requests and answers: a pending callback was requested and still has an SDK answer coming; every invoked callback was requested; invocations plus pending never exceed requests |
| `TagsSlot.AnsweredMeansEmpty` | android/src/main/java/com/geektime/rnonesignalandroid/RNOneSignal.java:151-157 | once the SDK has answered every handler, the slot is empty |
| `TagsSlot.RunKeepsInvokedOnce` | android/src/main/java/com/geektime/rnonesignalandroid/RNOneSignal.java:52-53 | when every request brings a new callback, as React Native does, no callback is ever invoked twice and the pending one has not been invoked; this is the React Native restriction the slot exists for |
| `TagsSlot.PassedOverStaysUninvoked` | android/src/main/java/com/geektime/rnonesignalandroid/RNOneSignal.java:146-160 | a requested callback that is neither pending nor invoked is never invoked later, as long as later callbacks are new ones |
| `TagsSlot.RequestWhilePendingNeverInvoked` | android/src/main/java/com/geektime/rnonesignalandroid/RNOneSignal.java:147-149 | a callback passed to `getTags` while another is pending is never invoked, whatever requests and answers follow, when every callback is a new one |
| `TagsSlot.OverlappingRequests` | android/src/main/java/com/geektime/rnonesignalandroid/RNOneSignal.java:146-160 | two requests before any answer, then two answers: exactly one invocation, of the first registrant with the first answer; the second answer invokes nothing; the slot ends empty |
| `Json.GetBoolean` | android/src/main/java/com/geektime/rnonesignalandroid/RNOneSignal.java:343 | `getBoolean` gives a boolean as it is and a string reading "true" or "false" in any case as that boolean; any other string, `null`, and every other value are a `JSONException` |
| `Payload.TrimStart` | android/src/main/java/com/geektime/rnonesignalandroid/RNOneSignal.java:335 | the leading run of characters up to U+0020 is dropped: the result is a suffix, starts with another character unless empty, and every dropped character is at most U+0020 |
| `Payload.TrimEnd` | android/src/main/java/com/geektime/rnonesignalandroid/RNOneSignal.java:335 | the trailing run of characters up to U+0020 is dropped: the result is a prefix, ends with another character unless empty, and every dropped character is at most U+0020 |
| `Payload.Trim` | android/src/main/java/com/geektime/rnonesignalandroid/RNOneSignal.java:335-336 | `trim()` is no longer than its input, and its result neither starts nor ends with a character up to U+0020 |
| `Payload.TrimIsSlice` | android/src/main/java/com/geektime/rnonesignalandroid/RNOneSignal.java:335-336 | `trim()` removes characters only at the two ends: its result is a contiguous slice of the input, and every character outside it is at most U+0020 |
| `Payload.HasParameters` | android/src/main/java/com/geektime/rnonesignalandroid/RNOneSignal.java:335 | `otherParameters` is merged exactly when it is non-null and has a character above U+0020 |
| `Payload.TrimEmptyIffBlank` | android/src/main/java/com/geektime/rnonesignalandroid/RNOneSignal.java:335 | `trim().isEmpty()` holds exactly when every character is at most U+0020 |
| `Payload.BasePayload` | android/src/main/java/com/geektime/rnonesignalandroid/RNOneSignal.java:320-333 | the body before merging always has `contents`, holding the parsed contents; it has `include_player_ids` as `[playerId]` exactly when a player id is given; it has `data` as `{p2p_notification: data}` exactly when data is given; it has no other key |
| `Payload.PutAll` | android/src/main/java/com/geektime/rnonesignalandroid/RNOneSignal.java:336-341 | the key-copying loop leaves every parameter key with the parameter's value, overwriting earlier entries, keeps every other entry, and adds nothing else |
| `Payload.MarkHidden` | android/src/main/java/com/geektime/rnonesignalandroid/RNOneSignal.java:344 | posting goes ahead exactly when the body has a `data` object; that object then gains `hidden: true` and every other entry is unchanged |
| `Payload.Merge` | android/src/main/java/com/geektime/rnonesignalandroid/RNOneSignal.java:336-345 | the merged body has the keys of both; parameters win on every key except `data`, which may still gain `hidden`; without a `hidden` key, or with `hidden` coercing to false, the merged body is posted as it is; `hidden` that coerces to true marks `data`; `hidden` that does not coerce aborts |
| `Payload.MergeAbortsExactlyWhenHiddenFails` | android/src/main/java/com/geektime/rnonesignalandroid/RNOneSignal.java:343-345 | the merge step aborts exactly when `hidden` is present and either does not coerce or is true while the merged body has no `data` object |
| `Payload.Outcome` | android/src/main/java/com/geektime/rnonesignalandroid/RNOneSignal.java:318-365 | a malformed `contents`, `data` or non-blank `otherParameters` aborts the post; with well-formed input, a null or blank `otherParameters` posts the base body, and a non-blank one posts what merging its parsed keys into the base body gives; a posted body always has `contents`, and it has `include_player_ids` and `data` whenever they were given |
| `Payload.AbortsExactlyWhenThrows` | android/src/main/java/com/geektime/rnonesignalandroid/RNOneSignal.java:319-364 | nothing is posted exactly when a step throws: a parse fails, or `hidden` does not coerce, or `hidden` is true with no `data` object in the merged body; in every other case a body is posted |
| `Payload.PostNotification` | android/src/main/java/com/geektime/rnonesignalandroid/RNOneSignal.java:317-365 | the step-by-step builder posts exactly what `Outcome` describes, or aborts exactly when it does |
| `Payload.BlankParametersAddNothing` | android/src/main/java/com/geektime/rnonesignalandroid/RNOneSignal.java:335 | a null or whitespace-only `otherParameters` posts the base body unchanged |
| `Payload.HiddenParameterMarksData` | android/src/main/java/com/geektime/rnonesignalandroid/RNOneSignal.java:343-345 | with `hidden` true among the parameters, a posted body's `data` object has `hidden: true`; the post aborts exactly when there is no `data` object: either the parameters' `data` is not an object, or there is no data at all |
| `Bridge.RNOneSignal.constructor` | android/src/main/java/com/geektime/rnonesignalandroid/RNOneSignal.java:55-61 | the new module is in the state `Lifecycle.Created` gives for its manifest app id, and its tags slot is empty |
| `Bridge.RNOneSignal.InitOneSignal` | android/src/main/java/com/geektime/rnonesignalandroid/RNOneSignal.java:79-97 | the fields and ghost logs move as `Lifecycle.InitOneSignal` says, and the tags slot is unchanged |
| `Bridge.RNOneSignal.Init` | android/src/main/java/com/geektime/rnonesignalandroid/RNOneSignal.java:109-134 | the fields and ghost logs move as `Lifecycle.Init` says, and the tags slot is unchanged |
| `Bridge.RNOneSignal.OnHostResume` | android/src/main/java/com/geektime/rnonesignalandroid/RNOneSignal.java:485-488 | a resume reruns `initOneSignal`, keeps the module valid, and leaves the tags slot unchanged |
| `Bridge.RNOneSignal.GetTags` | android/src/main/java/com/geektime/rnonesignalandroid/RNOneSignal.java:146-151 | the slot and handler count move as `TagsSlot.Request` says, the module stays valid, and the guard is unchanged |
| `Bridge.RNOneSignal.TagsAvailable` | android/src/main/java/com/geektime/rnonesignalandroid/RNOneSignal.java:153-157 | the slot and the invocation log move as `TagsSlot.Resolve` says, the module stays valid, and the guard is unchanged |
| `Bridge.SecondInstanceInitsAgain` | android/src/main/java/com/geektime/rnonesignalandroid/RNOneSignal.java:49-61 | the flags belong to the instance: two module instances with a manifest app id initialise the SDK twice in all and register six receivers in all |
| `Bridge.OverlappingGetTags` | android/src/main/java/com/geektime/rnonesignalandroid/RNOneSignal.java:146-160 | on the class itself: two `getTags` calls, then two SDK answers, invoke only the first callback, once, with the first answer, and leave the slot empty |

## Left out

- SDK pass-through methods are not modelled; they have no logic of their own:
  `sendTag`, `sendTags`, `deleteTag`, `enableVibrate`, `enableSound`,
  `setSubscription`, `promptLocation`, `syncHashedEmail`, `setLogLevel`,
  `setLocationShared`, `clearOneSignalNotifications`, `cancelNotification`,
  `inFocusDisplaying`, the privacy-consent methods and `onHostDestroy`.
- `setEmail`, `setUnauthenticatedEmail`, `logoutEmail` and their helper
  `jsonFromErrorMessageString` are not modelled: they only wrap SDK callbacks.
- `getPermissionSubscriptionState` is not modelled: it only reads SDK state
  objects.
- Event forwarding to JavaScript is not modelled. This covers the broadcast
  receivers' `notify*` methods, `RemoteInput`, the cancel by
  `notificationId.hashCode()`, `configure` (which builds a
  `{userId, pushToken}` map and emits `OneSignal-idsAvailable`), and the React
  event emitter. `RNUtils` is not part of this model. A
  registration is recorded as a ghost log entry per channel.
- `appIdFromManifest` is not modelled; its `PackageManager` lookup becomes the
  `Option<string>` parameter. `getCurrentActivity` becomes a boolean parameter.
  The static `OneSignal.sdkType = "react"` assignments are not modelled.
- Parsing of JSON text by org.json is a parameter, not modelled. A `null`
  `contents` is not modelled, because it throws `NullPointerException` rather
  than `JSONException`. JSON numbers are integers only.
- `Json.GetBoolean`: Java's `equalsIgnoreCase` is modelled only for the two
  words it is compared with: ASCII letters in either case, and U+017F for 's'.
- The SDK posting, its response handlers and all logging are left out.
  `postNotification` returns what it would post, or `Aborted`.
- The SDK calls callbacks on its own threads, with no synchronisation. The model
  takes each SDK answer as one sequential event.
- Lifecycle.LifetimeAtMostOnce: at-most-once is proved only for sequential
  interleavings of the constructor, `onHostResume` and `init`, each event taken
  as atomic. React Native runs `init` on its native-modules thread and
  `onHostResume` on the UI thread; `oneSignalInitDone` is a plain field, so a
  race between the check and the set in `init` could reach `OneSignal.init`
  twice. That race is not modelled. The guarantee is also per module instance:
  `oneSignalInitDone` and `registeredEvents` are instance fields, while
  `OneSignal.init` and receiver registration act on the whole process. A new
  instance, as React Native creates when it rebuilds its context, starts with
  both flags clear, initialises the SDK again and registers the three
  receivers again; `onHostDestroy` removes no receiver.
- Lifecycle.RunKeepsInv: the same restriction; the invariant is proved for
  sequential runs of whole events only.
- `Bridge.RNOneSignal.TagsAvailable` requires an unanswered SDK handler. It
  stands for the SDK's promise to answer only handlers it was given.
