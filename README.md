# AirSig manager: gesture-session bookkeeping

This project models the session bookkeeping that `AirSigManager` keeps around the AirSig
gesture engine. The engine itself is opaque. The model covers:

- the identification mode and the target list, and the reset of the training state
  whenever either one changes;
- the bounded cache of recent sensor data, keyed by gesture id;
- the dispatch of an incoming gesture to common-gesture identification;
- the compare list given to the engine: targets filtered to the common-id range and
  mapped to the engine's gestures;
- turning the engine's answer (a gesture name and a score) into a verdict for the
  continuation and for the `onCommonGestureMatch` observer;
- the `ErrorCount`, `SmartTrainActionBundle` and `IdentifyActionBundle` records.

Modules:

- `Wrappers` (`wrappers.dfy`): `Option`, which stands in for a C# null.
- `AirSigGestures` (`gestures.dfy`): the `CommonGesture` codes and the engine's
  `ASGesture` constants. Also the range filter, the compare-list loop
  (`BuildCompareList`) against its reference definition `CompareGestures`, the
  case-insensitive name resolution and the pass-score verdict.
- `AirSigCache` (`sample_cache.dfy`): the eviction rule of the sorted cache as the
  function `EvictForInsert`, with its properties.
- `AirSigSession` and `AirSigStats` (`session.dfy`): the mode/target state as a value.
  `setMode` and `setTarget` are functions over it, with lemmas about any sequence of
  setter calls. `ErrorCount` is here too.
- `AirSigManagerModel` (`manager.dfy`): the classes. `AirSigManager` has the fields
  that the source updates in place. `RecognizeListener` models
  `OnMultipleGestureRecognizingResultListener`. The two bundle classes are here too.
  Each method's `ensures` ties the new state to the value-level functions above.

The engine is an event log. `IdentifyCommonGesture` appends an `EngineRequest` (the
compare list, the sensor data and a fresh listener) to `engineRequests`. The engine's
later answer is a call of that listener's `OnResult(name, score)`. An observer is a
"registered" flag plus a log of the notifications it received. A continuation is a
counter of its invocations. The listener's `sInstance` is the manager that created it.

Three behaviours of the code that are easy to misread:

- **Eviction order.** The source calls the cache one "for recent used sensor data"
  (AirSigManager.cs:153), but it is a `SortedDictionary`, and eviction removes `First()`,
  which is the smallest key, not the oldest insertion. The two are the same only when
  ids increase.
- **When the engine is skipped.** Only an empty target list returns before the engine
  is contacted. A target list that is non-empty but has no common id still reaches the
  engine, with an empty compare list (`CompareGesturesEmpty` says when that happens).
- **Comparing target lists.** `setTarget` compares lists element by element, in order
  (`SequenceEqual`). A permutation therefore counts as a change (`SetTargetPermutationResets`).

## Model

| member | source | states |
|---|---|---|
| `AirSigManagerModel.AirSigManager.SetMode` | Assets/AirSig/Assets/Script/AirSigManager.cs:96-110 | the new mode/target state is `AfterSetMode` of the old one; no other field changes |
| `AirSigManagerModel.AirSigManager.SetTarget` | Assets/AirSig/Assets/Script/AirSigManager.cs:113-125 | the new state is `AfterSetTarget` of the old one; mode, continuous recognition, cache and logs do not change |
| `AirSigSession.SetModeNoOpIff` | Assets/AirSig/Assets/Script/AirSigManager.cs:96-110 | setMode changes nothing exactly when the mode equals the current one; otherwise it stores the mode, enables continuous recognition, zeroes the fail count and clears training, and leaves the target alone |
| `AirSigSession.SetTargetNoOpIff` | Assets/AirSig/Assets/Script/AirSigManager.cs:113-125 | setTarget changes nothing exactly when the list equals the current one in order; otherwise it stores the list, zeroes the fail count and clears training, and leaves the mode alone |
| `AirSigSession.SetTwiceIsSetOnce` | Assets/AirSig/Assets/Script/AirSigManager.cs:96-125 | a repeated setMode or setTarget with the same value leaves the state (fail count included) as the first call left it |
| `AirSigSession.SetTargetPermutationResets` | Assets/AirSig/Assets/Script/AirSigManager.cs:114-124 | with target [1001, 1003], setting [1003, 1001] counts as a change and resets training |
| `AirSigSession.ResetIsStable` | Assets/AirSig/Assets/Script/AirSigManager.cs:96-125 | once the fail count is 0 and training is empty, no sequence of setter calls changes that |
| `AirSigSession.ConfigChangeResets` | Assets/AirSig/Assets/Script/AirSigManager.cs:96-125 | after any sequence of setter calls that ends with a different mode or target, the fail count is 0 and training is empty |
| `AirSigSession.NoConfigChangeNoEffect` | Assets/AirSig/Assets/Script/AirSigManager.cs:96-125 | a sequence of setter calls that each write the current value leaves the whole state unchanged |
| `AirSigCache.MinKey` | Assets/AirSig/Assets/Script/AirSigManager.cs:533 | the first key of the sorted cache is a key and is no larger than any key |
| `AirSigCache.MaxKey` | Assets/AirSig/Assets/Script/AirSigManager.cs:548 | the last key of the sorted cache is a key and is no smaller than any key |
| `AirSigCache.EvictForInsert` | Assets/AirSig/Assets/Script/AirSigManager.cs:532-535 | reference definition of what the eviction `while` leaves (`AddToCache`'s loop is proved equal to it by its invariant): it keeps a sub-map of the cache with values unchanged. It leaves 9 entries when the cache had 10 or more, and otherwise keeps everything |
| `AirSigCache.EvictRemovesSmallest` | Assets/AirSig/Assets/Script/AirSigManager.cs:532-535 | every evicted key is smaller than every kept key, so the evicted entries are exactly the smallest ones |
| `AirSigCache.EvictFullCache` | Assets/AirSig/Assets/Script/AirSigManager.cs:532-535 | a cache of exactly 10 entries loses its smallest key and nothing else |
| `AirSigCache.FullCacheEvictsSmallest` | Assets/AirSig/Assets/Script/AirSigManager.cs:531-537 | with ids 1..10 cached, making room removes id 1 and keeps ids 2..10, so id 11 is then free to insert |
| `AirSigManagerModel.AirSigManager.AddToCache` | Assets/AirSig/Assets/Script/AirSigManager.cs:531-537 | the cache becomes `EvictForInsert(old)` plus `id ↦ data` (missing data, None, is stored too), or stays `EvictForInsert(old)` when the id is still present and Add throws. The size stays at most 10. Every other remaining entry is an unchanged old entry |
| `AirSigManagerModel.AirSigManager.GetFromCache` | Assets/AirSig/Assets/Script/AirSigManager.cs:539-544 | returns what is stored under the id (which may itself be None) when the id is a key, and None otherwise; it is Some exactly when the id is a key holding data |
| `AirSigManagerModel.AirSigManager.GetLastFromCache` | Assets/AirSig/Assets/Script/AirSigManager.cs:546-551 | returns the entry with the largest key, or (0, None) for an empty cache |
| `AirSigGestures.RangeFilter` | Assets/AirSig/Assets/Script/AirSigManager.cs:399 | the `Where` query is no longer than its input, and all its ids lie strictly between 1000 and 1008 |
| `AirSigGestures.RangeFilterCounts` | Assets/AirSig/Assets/Script/AirSigManager.cs:399 | the query keeps every occurrence of an in-range id and no occurrence of any other id |
| `AirSigGestures.TargetGestureDomain` | Assets/AirSig/Assets/Script/AirSigManager.cs:404-420 | the switch adds a gesture exactly for 1001, 1003 and 1006, and those ids all lie in the common range |
| `AirSigGestures.TargetGestureRoundTrip` | Assets/AirSig/Assets/Script/AirSigManager.cs:404-482 | resolving the name of the engine gesture that a target was sent as gives back the target's id |
| `AirSigGestures.BuildCompareList` | Assets/AirSig/Assets/Script/AirSigManager.cs:399-421 | the loop over the range-filtered query builds exactly `CompareGestures` of the unfiltered targets |
| `AirSigGestures.CompareGesturesIgnoreRange` | Assets/AirSig/Assets/Script/AirSigManager.cs:399-421 | range filtering before the switch does not change the compare list |
| `AirSigGestures.CompareGesturesAppend` | Assets/AirSig/Assets/Script/AirSigManager.cs:403-421 | the compare list follows input order: the list for `a + b` is the list for `a` followed by the list for `b` |
| `AirSigGestures.CompareGesturesCount` | Assets/AirSig/Assets/Script/AirSigManager.cs:403-421 | HEART, c and DOWN occur as often as 1001, 1003 and 1006 occur among the targets (duplicates kept); s, UP, RIGHT and LEFT never occur |
| `AirSigGestures.CompareGesturesEmpty` | Assets/AirSig/Assets/Script/AirSigManager.cs:387-421 | the compare list is empty exactly when no target is 1001, 1003 or 1006 |
| `AirSigGestures.Resolve` | Assets/AirSig/Assets/Script/AirSigManager.cs:470-482 | a name resolves to Heart, C or Down exactly when it matches "HEART", "c" or "DOWN" ignoring case, and to None exactly when it matches none of them |
| `AirSigGestures.ResolveIgnoresCase` | Assets/AirSig/Assets/Script/AirSigManager.cs:474-481 | names equal up to letter case resolve alike |
| `AirSigGestures.ResolveEngineNames` | Assets/AirSig/Assets/Script/AirSigManager.cs:470-482 | the engine names HEART, c and DOWN resolve to Heart, C and Down; s, UP, RIGHT and LEFT resolve to None |
| `AirSigGestures.ResolveOtherCases` | Assets/AirSig/Assets/Script/AirSigManager.cs:474-481 | "heart", "C" and "Down" resolve to Heart, C and Down; "S" resolves to None |
| `AirSigGestures.VerdictCases` | Assets/AirSig/Assets/Script/AirSigManager.cs:485-490 | the verdict is the resolved gesture exactly when the score reaches the pass score, and None otherwise |
| `AirSigGestures.VerdictMonotone` | Assets/AirSig/Assets/Script/AirSigManager.cs:485-502 | a higher score never turns a match into None |
| `AirSigManagerModel.RecognizeListener.constructor` | Assets/AirSig/Assets/Script/AirSigManager.cs:449-456 | the listener keeps the id, pass score, continuation, bundle and observer switch of its request |
| `AirSigManagerModel.RecognizeListener.OnResult` | Assets/AirSig/Assets/Script/AirSigManager.cs:458-509 | with a continuation and a bundle, the bundle's matchIndex gets the verdict's code, its score gets v and its type gets "common", and the continuation runs once; otherwise the bundle is untouched. When notification is on and an observer is registered, exactly one (id, verdict, v) notification is logged, and none otherwise |
| `AirSigManagerModel.AirSigManager.IdentifyCommonGestureWith` | Assets/AirSig/Assets/Script/AirSigManager.cs:386-439 | an empty target list contacts no engine. Otherwise exactly one request is added, holding `CompareGestures(targets)`, the sensor data and a fresh listener that carries the call's arguments |
| `AirSigManagerModel.AirSigManager.IdentifyCommonGesture` | Assets/AirSig/Assets/Script/AirSigManager.cs:381-383 | the same as the full call, with no continuation, no bundle and observer notification on |
| `AirSigManagerModel.AirSigManager.PerformActionWithGesture` | Assets/AirSig/Assets/Script/AirSigManager.cs:553-565 | no sensor data, or no IdentifyCommon bit, means no request. Otherwise it identifies against the current target at pass score 0.9, notifying the observer |
| `AirSigManagerModel.AirSigManager.PerformActionWithCachedGesture` | Assets/AirSig/Assets/Script/AirSigManager.cs:581-583 | dispatches the cached data of the id; an id not in the cache, or cached without data, is a no-op |
| `AirSigManagerModel.AirSigManager.OnSensorDataRecorded` | Assets/AirSig/Assets/Script/AirSigManager.cs:520-528 | caches the data (missing data included), then dispatches it in the current mode (missing data contacts no engine), then logs the id for a registered trigger observer, with or without data. A duplicate id stops after the eviction |
| `AirSigManagerModel.AirSigManager.constructor` | Assets/AirSig/Assets/Script/AirSigManager.cs:77-155 | starts in mode None with an empty target, fail count 0, no training, an empty cache, no requests and no observers |
| `AirSigManagerModel.IdentifyHeartScenario` | Assets/AirSig/Assets/Script/AirSigManager.cs:484-508 | identifying id 42 against [Heart] at 0.9, with the engine answering "HEART", notifies (42, Heart, score) at a passing score and (42, None, score) below it |
| `AirSigManagerModel.IdentifyActionBundle.constructor` | Assets/AirSig/Assets/Script/AirSigManager.cs:188-193 | stores id, basedIndex and sensor data; the score is 0, matchIndex is 0 (None) and the type is unset |
| `AirSigManagerModel.SmartTrainActionBundle.constructor` | Assets/AirSig/Assets/Script/AirSigManager.cs:172-177 | stores the target index and the cache; nextIndex is the cache size minus 1 and progress is 0 |
| `AirSigGestures.InCommonRange` | Assets/AirSig/Assets/Script/AirSigManager.cs:399 | definition of the `Where` condition, an id strictly between 1000 and 1008; `RangeFilter` and `RangeFilterCounts` state what the query keeps |
| `AirSigGestures.TargetGesture` | Assets/AirSig/Assets/Script/AirSigManager.cs:404-420 | definition of the `switch`: HEART for 1001, c for 1003, DOWN for 1006, nothing otherwise; stated as a property by `TargetGestureDomain` and inverted by `TargetGestureInverse` |
| `AirSigGestures.CompareGestures` | Assets/AirSig/Assets/Script/AirSigManager.cs:399-421 | reference definition of the compare list: one engine gesture per target that has one, in order; `BuildCompareList` is proved to compute it, and `CompareGesturesCount`, `CompareGesturesAppend` and `CompareGesturesEmpty` are proved about it |
| `AirSigGestures.EqualsIgnoreCase` | Assets/AirSig/Assets/Script/AirSigManager.cs:474-481 | `String.Compare(a, b, true) == 0` with ASCII case folding; every string equals itself ignoring case |
| `AirSigGestures.Verdict` | Assets/AirSig/Assets/Script/AirSigManager.cs:485-490 | definition of the reported gesture (the resolved one at or above the pass score, None below it), also used for the bundle's matchIndex at 498-503; `VerdictCases` and `VerdictMonotone` are proved about it |
| `AirSigSession.IncludesIdentifyCommon` | Assets/AirSig/Assets/Script/AirSigManager.cs:559 | definition of `(action & Mode.IdentifyCommon) > 0` on a 32-bit mode; `PerformActionWithGesture` states its effect |
| `AirSigSession.AfterSetMode` | Assets/AirSig/Assets/Script/AirSigManager.cs:96-110 | definition of setMode on the session state; `SetModeNoOpIff`, `SetTwiceIsSetOnce` and the setter-sequence lemmas are proved about it |
| `AirSigSession.AfterSetTarget` | Assets/AirSig/Assets/Script/AirSigManager.cs:113-125 | definition of setTarget on the session state; `SetTargetNoOpIff`, `SetTargetPermutationResets` and the setter-sequence lemmas are proved about it |
| `AirSigStats.ErrorCount.IsCommonErrHigher` | Assets/AirSig/Assets/Script/AirSigManager.cs:213-215 | definition of isCommonErrHigher, commonErrCount > userErrCount; `ErrorCountOrdering` relates it to the other side |
| `AirSigStats.ErrorCount.IsUserErrHigher` | Assets/AirSig/Assets/Script/AirSigManager.cs:217-219 | definition of isUserErrHigher, userErrCount > commonErrCount; `ErrorCountOrdering` relates it to the other side |
| `AirSigStats.NewErrorCount` | Assets/AirSig/Assets/Script/AirSigManager.cs:208-211 | a fresh ErrorCount is a tie: neither side is higher |
| `AirSigStats.ErrorCountOrdering` | Assets/AirSig/Assets/Script/AirSigManager.cs:213-219 | isCommonErrHigher and isUserErrHigher are never both true, and both are false exactly on a tie |

## Left out

- Engine and controller plumbing: `getEngineInstance`, `getControlManagerInstance`, the
  `AndroidJavaClass`/`AndroidJavaObject` calls and `AndroidJNI.CallVoidMethod` are foreign
  calls. The engine is modelled only as the log of requests it receives.
- `ContinuousRecognizeEnabled` is a plain boolean field. Its initial value comes from the
  controller, so it is a constructor parameter. `PauseInterval` is not modelled: only
  `Awake` sets it.
- Asynchronous delivery of `onResult` and `OnSensorDataRecorded` on engine threads is not
  modelled. Both are ordinary method calls.
- `GetCurrentGestureID` and `timeStart2` read the wall clock. The gesture id is a
  parameter. Nothing in the model assumes that ids increase.
- The empty stubs are not modelled because they have no behaviour: the training and
  user-gesture methods, `IdentifyNoProcess`, `TrainAndNoProcess`, `SmartTrainFilterData`,
  `Load`, `Save`, `saveLastTouch`, `showControllerForId`, `DeleteUserGesture` and
  `ResetSmartTrain`. As a result nothing ever raises `trainFailCount` or fills the training
  list, and the unused fields and threshold constants are left out.
- The Unity lifecycle is not modelled: `Awake`/`OnDestroy`, controller polling
  (`OnControllerUpdate`, `AppButton`, `TouchButtonDown`), debug logging and the
  single-instance guard. The static `sInstance` becomes the manager that issued the
  request, so the crash when `sInstance` is null after `OnDestroy` is not modelled.
- `AirSigManagerModel.RecognizeListener.OnResult`: a null gesture, which would crash at the unguarded
  `name()` call, is not modelled; the name is a required argument. The error argument
  is only logged, so it is left out.
- `AirSigManagerModel.RecognizeListener.OnResult`: the continuation's own effects are outside the model.
  Only its invocation is counted, and it is assumed not to change the manager.
- Scores are `real`, and the pass threshold is exactly 0.9. Single-precision rounding
  (0.9f is slightly below 0.9) is not modelled.
- `AirSigGestures.EqualsIgnoreCase` folds only ASCII letters. The culture-sensitive rules of
  `String.Compare(…, true)` (for example ignorable characters) are not modelled.
- `AirSigManagerModel.AirSigManager.SetTarget` stores a copy of the list. The source keeps
  the caller's list object, so later changes by the caller (aliasing) are not modelled,
  and a null list (which makes `SequenceEqual` throw) cannot be expressed. The bundle
  constructor's `cache` list is copied the same way.
- `AirSigManagerModel.AirSigManager.OnSensorDataRecorded`: the `length` argument is only
  logged, so it is left out. The gesture id is a parameter rather than a clock reading.
- Ids are unbounded integers, not 64-bit `long`, and the counters are not 32-bit `int`.
  No arithmetic is done on them.
- `ErrorCount` is a value. Nothing in the source changes its fields after construction,
  and `mGestureStat` is never used.
- `DemoInput.cs` (a demo that writes text from callbacks) and `lerp.cs` (camera
  interpolation) are not part of this model.
