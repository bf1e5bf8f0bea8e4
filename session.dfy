/**
 * The mode/target configuration of the AirSig manager and the reset it
 * triggers: a change of mode or target zeroes the training-failure count and
 * clears the in-progress training gestures; a write of the current value
 * changes nothing.
 */
module AirSigSession {

  /** Mode is an int-backed flags enum; a value is its 32 bits. */
  type Mode = bv32

  const MODE_NONE: Mode := 0
  const MODE_IDENTIFY_COMMON: Mode := 1

  /** `(action & Mode.IdentifyCommon) > 0`: the masked value is 0 or 1, so this is the bit test. */
  predicate IncludesIdentifyCommon(action: Mode) {
    action & MODE_IDENTIFY_COMMON != 0
  }

  /** The manager fields that setMode and setTarget read and write. */
  datatype SessionState<D> = SessionState(
    mode: Mode,
    target: seq<int>,
    continuousRecognize: bool,
    trainFailCount: int,
    trainingProgress: seq<D>)

  /** setMode: nothing when the mode is unchanged; otherwise store it, re-enable continuous recognition and reset training. */
  function AfterSetMode<D>(st: SessionState<D>, mode: Mode): SessionState<D> {
    if st.mode == mode then st
    else st.(mode := mode, continuousRecognize := true, trainFailCount := 0, trainingProgress := [])
  }

  /** setTarget: nothing when the list is element-wise equal in order; otherwise store it and reset training. */
  function AfterSetTarget<D>(st: SessionState<D>, target: seq<int>): SessionState<D> {
    if st.target == target then st
    else st.(target := target, trainFailCount := 0, trainingProgress := [])
  }

  /** The configuration the reset policy protects. */
  function Config<D>(st: SessionState<D>): (Mode, seq<int>) {
    (st.mode, st.target)
  }

  /** No training failures recorded and no training in progress. */
  predicate IsReset<D>(st: SessionState<D>) {
    st.trainFailCount == 0 && st.trainingProgress == []
  }

  /** setMode is a no-op exactly when the mode is the current one; a change also resets training. */
  lemma SetModeNoOpIff<D>(st: SessionState<D>, mode: Mode)
    ensures AfterSetMode(st, mode) == st <==> mode == st.mode
    ensures mode != st.mode ==> var r := AfterSetMode(st, mode);
      r.mode == mode && r.continuousRecognize && IsReset(r) && r.target == st.target
  {
  }

  /** setTarget is a no-op exactly when the list equals the current one; a change also resets training. */
  lemma SetTargetNoOpIff<D>(st: SessionState<D>, target: seq<int>)
    ensures AfterSetTarget(st, target) == st <==> target == st.target
    ensures target != st.target ==> var r := AfterSetTarget(st, target);
      r.target == target && IsReset(r) && r.mode == st.mode && r.continuousRecognize == st.continuousRecognize
  {
  }

  /** A second setMode or setTarget with the same value changes nothing after the first. */
  lemma SetTwiceIsSetOnce<D>(st: SessionState<D>, mode: Mode, target: seq<int>)
    ensures AfterSetMode(AfterSetMode(st, mode), mode) == AfterSetMode(st, mode)
    ensures AfterSetTarget(AfterSetTarget(st, target), target) == AfterSetTarget(st, target)
  {
  }

  /** The comparison is order-sensitive: the same ids in another order count as a change and reset training. */
  lemma SetTargetPermutationResets<D>(st: SessionState<D>)
    requires st.target == [1001, 1003]
    ensures IsReset(AfterSetTarget(st, [1003, 1001]))
  {
  }

  /** One call of either setter, as a value. */
  datatype ConfigWrite = WriteMode(mode: Mode) | WriteTarget(target: seq<int>)

  function ApplyWrite<D>(st: SessionState<D>, w: ConfigWrite): SessionState<D> {
    match w
    case WriteMode(m) => AfterSetMode(st, m)
    case WriteTarget(t) => AfterSetTarget(st, t)
  }

  /** A sequence of setter calls, first to last. */
  function ApplyWrites<D>(st: SessionState<D>, ws: seq<ConfigWrite>): SessionState<D>
    decreases |ws|
  {
    if ws == [] then st else ApplyWrites(ApplyWrite(st, ws[0]), ws[1..])
  }

  /** Once reset, a state stays reset under any further setter calls. */
  lemma {:induction false} ResetIsStable<D>(st: SessionState<D>, ws: seq<ConfigWrite>)
    requires IsReset(st)
    ensures IsReset(ApplyWrites(st, ws))
    decreases |ws|
  {
    if ws != [] {
      ResetIsStable(ApplyWrite(st, ws[0]), ws[1..]);
    }
  }

  /**
   * The reset holds on every path: after any sequence of setter calls that
   * leaves the mode or the target different from where it started, there are
   * no training failures and no training in progress.
   */
  lemma {:induction false} ConfigChangeResets<D>(st: SessionState<D>, ws: seq<ConfigWrite>)
    requires Config(ApplyWrites(st, ws)) != Config(st)
    ensures IsReset(ApplyWrites(st, ws))
    decreases |ws|
  {
    var next := ApplyWrite(st, ws[0]);
    if Config(ApplyWrites(next, ws[1..])) != Config(next) {
      ConfigChangeResets(next, ws[1..]);
    } else {
      assert Config(next) != Config(st);
      ResetIsStable(next, ws[1..]);
    }
  }

  /** Setter calls that leave the configuration where it started are all no-ops, so nothing changes. */
  lemma {:induction false} NoConfigChangeNoEffect<D>(st: SessionState<D>, ws: seq<ConfigWrite>)
    requires forall i :: 0 <= i < |ws| ==> ws[i] == WriteMode(st.mode) || ws[i] == WriteTarget(st.target)
    ensures ApplyWrites(st, ws) == st
    decreases |ws|
  {
    if ws != [] {
      assert ApplyWrite(st, ws[0]) == st;
      assert forall i :: 0 <= i < |ws[1..]| ==> ws[1..][i] == ws[i + 1];
      NoConfigChangeNoEffect(st, ws[1..]);
    }
  }
}

/** The per-target error counters that bias the choice between common and user-trained matching. */
module AirSigStats {

  datatype ErrorCount = ErrorCount(commonErrCount: int, userErrCount: int) {
    predicate IsCommonErrHigher() {
      commonErrCount > userErrCount
    }

    predicate IsUserErrHigher() {
      userErrCount > commonErrCount
    }
  }

  /** The ErrorCount constructor: both counters start at zero. */
  function NewErrorCount(): (e: ErrorCount)
    ensures !e.IsCommonErrHigher() && !e.IsUserErrHigher()
  {
    ErrorCount(0, 0)
  }

  /** At most one side is higher, and neither is exactly on a tie. */
  lemma ErrorCountOrdering(e: ErrorCount)
    ensures !(e.IsCommonErrHigher() && e.IsUserErrHigher())
    ensures !e.IsCommonErrHigher() && !e.IsUserErrHigher() <==> e.commonErrCount == e.userErrCount
  {
  }
}
