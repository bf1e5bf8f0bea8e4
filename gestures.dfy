/**
 * The common gestures of the AirSig manager: their enum codes, the engine's
 * symbolic gestures, the target filter and switch that build the engine's
 * compare list, the case-insensitive name resolution of an engine result and
 * the pass-score verdict.
 */
module AirSigGestures {
  import Wrappers

  /** CommonGesture as the application sees it; Code() is the enum's int value. */
  datatype CommonGesture = None | Heart | C | Down {
    function Code(): int {
      match this
      case None => 0
      case Heart => 1001
      case C => 1003
      case Down => 1006
    }
  }

  /** CommonGesture._Start and CommonGesture._End: the open range of common ids. */
  const COMMON_RANGE_START: int := 1000
  const COMMON_RANGE_END: int := 1008

  /** ALL_COMMON_GESTURE: the ids the engine path can answer. */
  const ALL_COMMON_GESTURE: seq<int> := [1001, 1003, 1006]

  /** The engine's ASGesture constants, named as the engine names them. */
  datatype ASGesture = HEART | s | c | UP | RIGHT | DOWN | LEFT {
    /** What the engine's name() reports for the constant. */
    function Name(): string {
      match this
      case HEART => "HEART"
      case s => "s"
      case c => "c"
      case UP => "UP"
      case RIGHT => "RIGHT"
      case DOWN => "DOWN"
      case LEFT => "LEFT"
    }
  }

  // ---------------------------------------------------------------------------
  // Building the compare list
  // ---------------------------------------------------------------------------

  /** The `Where` condition of IdentifyCommonGesture. */
  predicate InCommonRange(target: int) {
    COMMON_RANGE_START < target < COMMON_RANGE_END
  }

  /** The lazy `Where` query: the in-range targets, in input order. */
  function RangeFilter(targets: seq<int>): (r: seq<int>)
    ensures |r| <= |targets|
    ensures forall i :: 0 <= i < |r| ==> InCommonRange(r[i])
  {
    if targets == [] then []
    else if InCommonRange(targets[0]) then [targets[0]] + RangeFilter(targets[1..])
    else RangeFilter(targets[1..])
  }

  /**
   * The `switch` of the compare-list loop: the engine gesture added for one
   * target, if any. Only the three common ids have a case.
   */
  function TargetGesture(target: int): Wrappers.Option<ASGesture> {
    if target == Heart.Code() then Wrappers.Some(HEART)
    else if target == C.Code() then Wrappers.Some(c)
    else if target == Down.Code() then Wrappers.Some(DOWN)
    else Wrappers.None
  }

  /** The switch has a case exactly for the ids of ALL_COMMON_GESTURE, and they all lie in the common range. */
  lemma TargetGestureDomain(target: int)
    ensures TargetGesture(target).Some? <==> target in ALL_COMMON_GESTURE
    ensures TargetGesture(target).Some? ==> InCommonRange(target)
  {
  }

  /**
   * Reference definition of the compare list handed to the engine: one engine
   * gesture per target that has one, in input order, duplicates kept.
   */
  function CompareGestures(targets: seq<int>): seq<ASGesture> {
    if targets == [] then [] else Added(targets[0]) + CompareGestures(targets[1..])
  }

  /** What one target adds to the compare list: its engine gesture, or nothing. */
  function Added(target: int): seq<ASGesture> {
    var g := TargetGesture(target);
    if g.Some? then [g.value] else []
  }

  /** The compare-list loop of IdentifyCommonGesture, over the range-filtered query. */
  method BuildCompareList(targets: seq<int>) returns (compareList: seq<ASGesture>)
    ensures compareList == CompareGestures(targets)
  {
    var query := RangeFilter(targets);
    compareList := [];
    for i := 0 to |query|
      invariant compareList == CompareGestures(query[..i])
    {
      var target := query[i];
      if target == Heart.Code() {
        compareList := compareList + [HEART];
      } else if target == C.Code() {
        compareList := compareList + [c];
      } else if target == Down.Code() {
        compareList := compareList + [DOWN];
      }
      assert query[..i + 1] == query[..i] + [target];
      CompareGesturesAppend(query[..i], [target]);
    }
    assert query[..|query|] == query;
    CompareGesturesIgnoreRange(targets);
  }

  /** The `Where` keeps every in-range occurrence and drops every other one. */
  lemma {:induction false} RangeFilterCounts(targets: seq<int>, t: int)
    ensures multiset(RangeFilter(targets))[t] == if InCommonRange(t) then multiset(targets)[t] else 0
  {
    if targets != [] {
      RangeFilterCounts(targets[1..], t);
      assert targets == [targets[0]] + targets[1..];
    }
  }

  /** Filtering by range first changes nothing: every id with a case is in range. */
  lemma {:induction false} CompareGesturesIgnoreRange(targets: seq<int>)
    ensures CompareGestures(RangeFilter(targets)) == CompareGestures(targets)
  {
    if targets != [] {
      TargetGestureDomain(targets[0]);
      CompareGesturesIgnoreRange(targets[1..]);
      if InCommonRange(targets[0]) {
        var rest := RangeFilter(targets[1..]);
        assert ([targets[0]] + rest)[1..] == rest;
      }
    }
  }

  /** The compare list of a concatenation is the concatenation of compare lists (order is kept). */
  lemma {:induction false} CompareGesturesAppend(a: seq<int>, b: seq<int>)
    ensures CompareGestures(a + b) == CompareGestures(a) + CompareGestures(b)
  {
    if a == [] {
      assert a + b == b;
    } else {
      var ab := a + b;
      assert ab != [] && ab[0] == a[0] && ab[1..] == a[1..] + b;
      CompareGesturesAppend(a[1..], b);
      assert CompareGestures(ab) == Added(a[0]) + CompareGestures(a[1..] + b);
      assert CompareGestures(a) == Added(a[0]) + CompareGestures(a[1..]);
    }
  }

  /** The id a gesture of the compare list stands for: the inverse of TargetGesture. */
  function GestureTarget(g: ASGesture): Wrappers.Option<int> {
    match g
    case HEART => Wrappers.Some(Heart.Code())
    case c => Wrappers.Some(C.Code())
    case DOWN => Wrappers.Some(Down.Code())
    case _ => Wrappers.None
  }

  lemma TargetGestureInverse(t: int, g: ASGesture)
    ensures TargetGesture(t) == Wrappers.Some(g) <==> GestureTarget(g) == Wrappers.Some(t)
  {
  }

  /**
   * Each engine gesture occurs in the compare list exactly as often as its id
   * occurs among the targets; s, UP, RIGHT and LEFT never occur, so in-range
   * ids 1002, 1004, 1005 and 1007 are dropped.
   */
  lemma {:induction false} CompareGesturesCount(targets: seq<int>, g: ASGesture)
    ensures multiset(CompareGestures(targets))[g] ==
      if GestureTarget(g).Some? then multiset(targets)[GestureTarget(g).value] else 0
  {
    if targets != [] {
      var t := targets[0];
      var rest := targets[1..];
      var head := Added(t);
      CompareGesturesCount(rest, g);
      TargetGestureInverse(t, g);
      assert targets == [t] + rest;
      assert multiset(targets) == multiset{t} + multiset(rest);
      assert CompareGestures(targets) == head + CompareGestures(rest);
      assert multiset(CompareGestures(targets)) == multiset(head) + multiset(CompareGestures(rest));
      assert multiset(head)[g] == if TargetGesture(t) == Wrappers.Some(g) then 1 else 0;
    }
  }

  /** The compare list is empty exactly when no target is one of the three common ids. */
  lemma {:induction false} CompareGesturesEmpty(targets: seq<int>)
    ensures CompareGestures(targets) == [] <==> forall i :: 0 <= i < |targets| ==> targets[i] !in ALL_COMMON_GESTURE
  {
    if targets != [] {
      TargetGestureDomain(targets[0]);
      CompareGesturesEmpty(targets[1..]);
      assert forall i :: 1 <= i < |targets| ==> targets[i] == targets[1..][i - 1];
    }
  }

  // ---------------------------------------------------------------------------
  // Resolving the engine's answer
  // ---------------------------------------------------------------------------

  /** Upper-case folding of the ASCII letters. */
  function Upper(ch: char): char {
    if 'a' <= ch <= 'z' then (ch as int - 32) as char else ch
  }

  /** String.Compare(a, b, true) == 0, with case folded on ASCII letters. */
  predicate EqualsIgnoreCase(a: string, b: string)
    ensures a == b ==> EqualsIgnoreCase(a, b)
  {
    |a| == |b| && forall i :: 0 <= i < |a| ==> Upper(a[i]) == Upper(b[i])
  }

  /**
   * The name-to-gesture chain of onResult. It is total: a name that matches
   * none of "HEART", "c" and "DOWN" (ignoring case) leaves the gesture at 0,
   * which is None.
   */
  function Resolve(gestureName: string): (r: CommonGesture)
    ensures r == Heart <==> EqualsIgnoreCase(gestureName, "HEART")
    ensures r == C <==> EqualsIgnoreCase(gestureName, "c")
    ensures r == Down <==> EqualsIgnoreCase(gestureName, "DOWN")
    ensures r == None <==> !EqualsIgnoreCase(gestureName, "HEART") && !EqualsIgnoreCase(gestureName, "c") && !EqualsIgnoreCase(gestureName, "DOWN")
  {
    if EqualsIgnoreCase(gestureName, "HEART") then Heart
    else if EqualsIgnoreCase(gestureName, "c") then C
    else if EqualsIgnoreCase(gestureName, "DOWN") then Down
    else None
  }

  /** Resolving the name of the gesture a target was sent as gives back the target's id. */
  lemma TargetGestureRoundTrip(target: int)
    requires TargetGesture(target).Some?
    ensures Resolve(TargetGesture(target).value.Name()).Code() == target
  {
  }

  /** Names whose folded letters differ at some position are not equal ignoring case. */
  lemma DifferAt(a: string, b: string, i: nat)
    requires i < |a| == |b|
    requires Upper(a[i]) != Upper(b[i])
    ensures !EqualsIgnoreCase(a, b)
  {
  }

  /** Two names that differ only in letter case resolve to the same gesture. */
  lemma ResolveIgnoresCase(a: string, b: string)
    requires EqualsIgnoreCase(a, b)
    ensures Resolve(a) == Resolve(b)
  {
  }

  /**
   * What each engine gesture resolves to: the three the compare list can hold
   * come back as themselves, and "s", "UP", "RIGHT", "LEFT" come back as None.
   */
  lemma ResolveEngineNames()
    ensures Resolve(HEART.Name()) == Heart
    ensures Resolve(c.Name()) == C
    ensures Resolve(DOWN.Name()) == Down
    ensures Resolve(s.Name()) == None
    ensures Resolve(UP.Name()) == None
    ensures Resolve(RIGHT.Name()) == None
    ensures Resolve(LEFT.Name()) == None
  {
    DifferAt("s", "c", 0);
    DifferAt("RIGHT", "HEART", 0);
    DifferAt("LEFT", "DOWN", 0);
  }

  /** Engine spellings in other letter cases resolve too, e.g. "heart", "C", "down". */
  lemma ResolveOtherCases()
    ensures Resolve("heart") == Heart
    ensures Resolve("C") == C
    ensures Resolve("Down") == Down
    ensures Resolve("S") == None
  {
    assert EqualsIgnoreCase("heart", "HEART") by {
      assert Upper('h') == 'H' && Upper('e') == 'E' && Upper('a') == 'A' && Upper('r') == 'R' && Upper('t') == 'T';
    }
    assert Upper('c') == 'C';
    assert Upper('o') == 'O' && Upper('w') == 'W' && Upper('n') == 'N';
    DifferAt("S", "c", 0);
  }

  // ---------------------------------------------------------------------------
  // The verdict
  // ---------------------------------------------------------------------------

  /** The reported gesture: the resolved one when the score reaches the pass score, None otherwise. */
  function Verdict(gesture: CommonGesture, score: real, passScore: real): CommonGesture {
    if score >= passScore then gesture else None
  }

  /** The verdict is the resolved gesture or None, and it is the gesture exactly at or above the pass score. */
  lemma VerdictCases(gesture: CommonGesture, score: real, passScore: real)
    requires gesture != None
    ensures Verdict(gesture, score, passScore) in {gesture, None}
    ensures Verdict(gesture, score, passScore) == gesture <==> score >= passScore
  {
  }

  /** A higher score never turns a match into a miss. */
  lemma VerdictMonotone(gesture: CommonGesture, low: real, high: real, passScore: real)
    requires low <= high
    requires Verdict(gesture, low, passScore) == gesture
    ensures Verdict(gesture, high, passScore) == gesture
  {
  }
}
