/**
 * The AirSig manager as objects: the mode/target state, the sample cache,
 * the dispatch of an incoming gesture to common-gesture identification, the
 * engine's pending recognition requests and the listener that turns an
 * engine result into a verdict for the continuation and the observer.
 *
 * The engine is not modelled: a recognition request is recorded in
 * `engineRequests`, and the engine's answer is a later call of the request
 * listener's OnResult. Registered observers are flags; each notification
 * they receive is appended to a log.
 */
module AirSigManagerModel {
  import opened Wrappers
  import G = AirSigGestures
  import opened AirSigCache
  import opened AirSigSession

  const COMMON_PASS_THRESHOLD: real := 0.9

  /** One onCommonGestureMatch notification. */
  datatype MatchEvent = MatchEvent(gestureId: int, gesture: G.CommonGesture, score: real)

  /** A KeyValuePair of the cache; the default pair is (0, None). */
  datatype KeyValue<D> = KeyValue(key: int, value: Option<D>)

  /** One multipleRecognizeGesture call: the compare list, the sensor data and the result listener. */
  datatype EngineRequest<D> = EngineRequest(compareList: seq<G.ASGesture>, sensorData: D, listener: RecognizeListener<D>)

  /** The record of one identification attempt, filled in by the result listener. */
  class IdentifyActionBundle<D> {
    var id: int
    var basedIndex: int
    var matchIndex: int
    var kind: Option<string>   // the `type` field; a string that is null until set
    var score: real
    var sensorData: Option<D>

    constructor (gestureId: int, basedIndex: int, sensorData: Option<D>)
      ensures id == gestureId && this.basedIndex == basedIndex && this.sensorData == sensorData
      ensures score == 0.0 && matchIndex == G.CommonGesture.None.Code() && kind == None
    {
      id := gestureId;
      this.basedIndex := basedIndex;
      this.sensorData := sensorData;
      score := 0.0;
      matchIndex := 0;
      kind := None;
    }
  }

  /** The record of one smart-training session for a target. */
  class SmartTrainActionBundle<D> {
    var cache: seq<D>
    var targetIndex: int
    var nextIndex: int
    var progress: real

    /** The cursor starts at the last cached sample (-1 for an empty cache); progress starts at 0. */
    constructor (targetIndex: int, cache: seq<D>)
      ensures this.targetIndex == targetIndex && this.cache == cache
      ensures nextIndex == |cache| - 1 && progress == 0.0
    {
      this.targetIndex := targetIndex;
      this.cache := cache;
      nextIndex := |cache| - 1;
      progress := 0.0;
    }
  }

  /** The result listener handed to the engine with one recognition request. */
  class RecognizeListener<D> {
    const manager: AirSigManager<D>
    const mId: int
    const mPassScore: real
    const mHasFurtherAction: bool
    const mBundle: IdentifyActionBundle?<D>
    const mToInvokeCommonObserver: bool
    /** How often the continuation has been invoked. */
    var continuationCalls: nat

    constructor (manager: AirSigManager<D>, id: int, passScore: real, hasFurtherAction: bool,
                 bundle: IdentifyActionBundle?<D>, toInvokeCommonObserver: bool)
      ensures this.manager == manager && mId == id && mPassScore == passScore
      ensures mHasFurtherAction == hasFurtherAction && mBundle == bundle
      ensures mToInvokeCommonObserver == toInvokeCommonObserver && continuationCalls == 0
    {
      this.manager := manager;
      mId := id;
      mPassScore := passScore;
      mHasFurtherAction := hasFurtherAction;
      mBundle := bundle;
      mToInvokeCommonObserver := toInvokeCommonObserver;
      continuationCalls := 0;
    }

    /**
     * The engine's answer. With both a continuation and a bundle, the bundle
     * gets the verdict, the score and the type "common" and the continuation
     * runs once; then, when observer notification was asked for and an
     * observer is registered, it is notified once with the verdict.
     */
    method OnResult(gestureName: string, v: real)
      modifies this`continuationCalls, mBundle, manager`matchEvents
      ensures var verdict := G.Verdict(G.Resolve(gestureName), v, mPassScore);
        && (if mHasFurtherAction && mBundle != null then
              && mBundle.matchIndex == verdict.Code()
              && mBundle.score == v
              && mBundle.kind == Some("common")
              && continuationCalls == old(continuationCalls) + 1
            else
              continuationCalls == old(continuationCalls))
        && manager.matchEvents == old(manager.matchEvents) +
             (if mToInvokeCommonObserver && manager.hasMatchObserver then [MatchEvent(mId, verdict, v)] else [])
      ensures mBundle != null ==> && mBundle.id == old(mBundle.id)
                                  && mBundle.basedIndex == old(mBundle.basedIndex)
                                  && mBundle.sensorData == old(mBundle.sensorData)
      ensures mBundle != null && !mHasFurtherAction ==> unchanged(mBundle)
    {
      var gesture := G.Resolve(gestureName);
      if mHasFurtherAction && mBundle != null {
        if v >= mPassScore {
          mBundle.matchIndex := gesture.Code();
        } else {
          mBundle.matchIndex := G.CommonGesture.None.Code();
        }
        mBundle.score := v;
        mBundle.kind := Some("common");
        continuationCalls := continuationCalls + 1;
      }
      if mToInvokeCommonObserver {
        if manager.hasMatchObserver {
          if v >= mPassScore {
            manager.matchEvents := manager.matchEvents + [MatchEvent(mId, gesture, v)];
          } else {
            manager.matchEvents := manager.matchEvents + [MatchEvent(mId, G.CommonGesture.None, v)];
          }
        }
      }
    }
  }

  class AirSigManager<D> {
    var currentMode: Mode
    var currentTarget: seq<int>
    var continuousRecognizeEnabled: bool
    var trainFailCount: int
    var trainingProgressGestures: seq<D>
    var cache: map<int, Option<D>>
    /** Whether onCommonGestureMatch / onGestureTriggered have a handler, and what they were sent. */
    var hasMatchObserver: bool
    var matchEvents: seq<MatchEvent>
    var hasTriggeredObserver: bool
    var triggeredEvents: seq<int>
    /** The recognition requests handed to the engine, oldest first. */
    var engineRequests: seq<EngineRequest<D>>

    /** The mode/target state as a value. */
    function Session(): SessionState<D>
      reads this
    {
      SessionState(currentMode, currentTarget, continuousRecognizeEnabled, trainFailCount, trainingProgressGestures)
    }

    /** The field initialisers and Awake's cache clearing; the recognition flag belongs to the controller. */
    constructor (continuousRecognize: bool)
      ensures Session() == SessionState(MODE_NONE, [], continuousRecognize, 0, [])
      ensures cache == map[] && engineRequests == []
      ensures !hasMatchObserver && matchEvents == [] && !hasTriggeredObserver && triggeredEvents == []
    {
      currentMode := MODE_NONE;
      currentTarget := [];
      continuousRecognizeEnabled := continuousRecognize;
      trainFailCount := 0;
      trainingProgressGestures := [];
      cache := map[];
      hasMatchObserver := false;
      matchEvents := [];
      hasTriggeredObserver := false;
      triggeredEvents := [];
      engineRequests := [];
    }

    method SetMode(mode: Mode)
      modifies this`currentMode, this`continuousRecognizeEnabled, this`trainFailCount, this`trainingProgressGestures
      ensures Session() == AfterSetMode(old(Session()), mode)
    {
      if currentMode == mode {
        return;
      }
      currentMode := mode;
      continuousRecognizeEnabled := true;
      trainFailCount := 0;
      trainingProgressGestures := [];
    }

    method SetTarget(target: seq<int>)
      modifies this`currentTarget, this`trainFailCount, this`trainingProgressGestures
      ensures Session() == AfterSetTarget(old(Session()), target)
    {
      if currentTarget == target {
        return;
      }
      currentTarget := target;
      trainFailCount := 0;
      trainingProgressGestures := [];
    }

    /**
     * AddToCache: evict smallest keys while the cache is full, then add.
     * `added` is false when the id is still a key after eviction, where
     * SortedDictionary.Add throws; the evictions have happened by then.
     */
    method AddToCache(id: int, sensorData: Option<D>) returns (added: bool)
      modifies this`cache
      ensures added == (id !in EvictForInsert(old(cache)))
      ensures cache == if added then EvictForInsert(old(cache))[id := sensorData] else EvictForInsert(old(cache))
      ensures |cache| <= CACHE_SIZE
      ensures added ==> GetFromCache(id) == sensorData
      ensures forall k :: k in cache && k != id ==> k in old(cache) && cache[k] == old(cache)[k]
    {
      while |cache| >= CACHE_SIZE
        invariant EvictForInsert(cache) == EvictForInsert(old(cache))
        decreases |cache|
      {
        NonEmptyKeys(cache);
        var first := MinKey(cache.Keys);
        cache := cache - {first};
      }
      if id in cache {
        return false;
      }
      cache := cache[id := sensorData];
      added := true;
    }

    /**
     * The cached sensor data of a gesture id: what was stored (possibly None),
     * or None when the id was never stored or has been evicted.
     */
    function GetFromCache(id: int): (r: Option<D>)
      reads this
      ensures r.Some? <==> id in cache && cache[id].Some?
      ensures id in cache ==> r == cache[id]
    {
      if id in cache then cache[id] else None
    }

    /** The entry with the largest id, or the default pair (0, None) for an empty cache. */
    function GetLastFromCache(): (r: KeyValue<D>)
      reads this
      ensures |cache| == 0 ==> r == KeyValue(0, None)
      ensures |cache| > 0 ==> && r.key in cache && r.value == cache[r.key]
                              && forall k :: k in cache ==> k <= r.key
    {
      if |cache| > 0 then
        NonEmptyKeys(cache);
        var last := MaxKey(cache.Keys);
        KeyValue(last, cache[last])
      else
        KeyValue(0, None)
    }

    /**
     * What IdentifyCommonGesture does to the request log: nothing for an
     * empty target list; otherwise one new request whose compare list is
     * built from the targets and whose listener carries the call's arguments.
     */
    ghost predicate Identified(before: seq<EngineRequest<D>>, after: seq<EngineRequest<D>>, id: int,
                               passScore: real, sensorData: D, targets: seq<int>, hasFurtherAction: bool,
                               bundle: IdentifyActionBundle?<D>, toInvokeCommonObserver: bool)
    {
      if |targets| == 0 then after == before
      else
        && |after| == |before| + 1
        && after[..|before|] == before
        && var req := after[|before|];
        && req.compareList == G.CompareGestures(targets)
        && req.sensorData == sensorData
        && req.listener.manager == this
        && req.listener.mId == id
        && req.listener.mPassScore == passScore
        && req.listener.mHasFurtherAction == hasFurtherAction
        && req.listener.mBundle == bundle
        && req.listener.mToInvokeCommonObserver == toInvokeCommonObserver
    }

    /** IdentifyCommonGesture with a continuation, a bundle and the observer switch. */
    method IdentifyCommonGestureWith(id: int, passScore: real, sensorData: D, targets: seq<int>,
                                     hasFurtherAction: bool, bundle: IdentifyActionBundle?<D>,
                                     toInvokeCommonObserver: bool)
      modifies this`engineRequests
      ensures Identified(old(engineRequests), engineRequests, id, passScore, sensorData, targets,
                         hasFurtherAction, bundle, toInvokeCommonObserver)
      ensures |engineRequests| > |old(engineRequests)| ==>
                && fresh(engineRequests[|old(engineRequests)|].listener)
                && engineRequests[|old(engineRequests)|].listener.continuationCalls == 0
    {
      if |targets| <= 0 {
        return;
      }
      var compareList := G.BuildCompareList(targets);
      var listener := new RecognizeListener(this, id, passScore, hasFurtherAction, bundle, toInvokeCommonObserver);
      engineRequests := engineRequests + [EngineRequest(compareList, sensorData, listener)];
    }

    /** IdentifyCommonGesture without continuation or bundle, notifying the observer. */
    method IdentifyCommonGesture(id: int, passScore: real, sensorData: D, targets: seq<int>)
      modifies this`engineRequests
      ensures Identified(old(engineRequests), engineRequests, id, passScore, sensorData, targets, false, null, true)
      ensures |engineRequests| > |old(engineRequests)| ==>
                && fresh(engineRequests[|old(engineRequests)|].listener)
                && engineRequests[|old(engineRequests)|].listener.continuationCalls == 0
    {
      IdentifyCommonGestureWith(id, passScore, sensorData, targets, false, null, true);
    }

    /**
     * Dispatch of one gesture: nothing without sensor data; with the
     * IdentifyCommon bit, identification against the current target at the
     * common pass threshold.
     */
    method PerformActionWithGesture(action: Mode, gestureId: int, sensorData: Option<D>)
      modifies this`engineRequests
      ensures sensorData.None? || !IncludesIdentifyCommon(action) ==> engineRequests == old(engineRequests)
      ensures sensorData.Some? && IncludesIdentifyCommon(action) ==>
                Identified(old(engineRequests), engineRequests, gestureId, COMMON_PASS_THRESHOLD,
                           sensorData.value, currentTarget, false, null, true)
      ensures |engineRequests| > |old(engineRequests)| ==>
                && fresh(engineRequests[|old(engineRequests)|].listener)
                && engineRequests[|old(engineRequests)|].listener.continuationCalls == 0
    {
      if sensorData.None? {
        return;
      }
      if IncludesIdentifyCommon(action) {
        IdentifyCommonGesture(gestureId, COMMON_PASS_THRESHOLD, sensorData.value, currentTarget);
      }
    }

    /** The public overload: dispatch the cached sensor data of a gesture id. */
    method PerformActionWithCachedGesture(action: Mode, gestureId: int)
      modifies this`engineRequests
      ensures gestureId !in cache || cache[gestureId].None? || !IncludesIdentifyCommon(action) ==>
                engineRequests == old(engineRequests)
      ensures gestureId in cache && cache[gestureId].Some? && IncludesIdentifyCommon(action) ==>
                Identified(old(engineRequests), engineRequests, gestureId, COMMON_PASS_THRESHOLD,
                           cache[gestureId].value, currentTarget, false, null, true)
      ensures |engineRequests| > |old(engineRequests)| ==>
                && fresh(engineRequests[|old(engineRequests)|].listener)
                && engineRequests[|old(engineRequests)|].listener.continuationCalls == 0
    {
      PerformActionWithGesture(action, gestureId, GetFromCache(gestureId));
    }

    /**
     * The controller's OnSensorDataRecorded with the gesture id passed in:
     * cache the data, dispatch it in the current mode, then signal the
     * trigger observer. Missing data (None) is cached too, is not sent to
     * the engine, and is still signalled. `completed` is false when caching
     * threw on a duplicate id, which ends the call.
     */
    method OnSensorDataRecorded(sensorData: Option<D>, id: int) returns (completed: bool)
      modifies this`cache, this`engineRequests, this`triggeredEvents
      ensures completed == (id !in EvictForInsert(old(cache)))
      ensures cache == if completed then EvictForInsert(old(cache))[id := sensorData] else EvictForInsert(old(cache))
      ensures !completed || sensorData.None? || !IncludesIdentifyCommon(currentMode) ==>
                engineRequests == old(engineRequests)
      ensures completed && sensorData.Some? && IncludesIdentifyCommon(currentMode) ==>
                Identified(old(engineRequests), engineRequests, id, COMMON_PASS_THRESHOLD,
                           sensorData.value, currentTarget, false, null, true)
      ensures |engineRequests| > |old(engineRequests)| ==>
                && fresh(engineRequests[|old(engineRequests)|].listener)
                && engineRequests[|old(engineRequests)|].listener.continuationCalls == 0
      ensures triggeredEvents == old(triggeredEvents) + (if completed && hasTriggeredObserver then [id] else [])
    {
      completed := AddToCache(id, sensorData);
      if !completed {
        return;
      }
      PerformActionWithGesture(currentMode, id, sensorData);
      if hasTriggeredObserver {
        triggeredEvents := triggeredEvents + [id];
      }
    }
  }

  /**
   * Identifying gesture 42 against [Heart] at pass score 0.9, answered by the
   * engine with "HEART": the observer hears Heart at a passing score and None
   * below it, with the score either way.
   */
  method IdentifyHeartScenario<D>(sample: D, score: real) returns (events: seq<MatchEvent>)
    ensures score >= 0.9 ==> events == [MatchEvent(42, G.CommonGesture.Heart, score)]
    ensures score < 0.9 ==> events == [MatchEvent(42, G.CommonGesture.None, score)]
  {
    var manager := new AirSigManager<D>(true);
    manager.hasMatchObserver := true;
    manager.IdentifyCommonGesture(42, 0.9, sample, [G.CommonGesture.Heart.Code()]);
    var request := manager.engineRequests[0];
    assert request.compareList == [G.ASGesture.HEART];
    G.ResolveEngineNames();
    request.listener.OnResult(G.ASGesture.HEART.Name(), score);
    events := manager.matchEvents;
  }
}
