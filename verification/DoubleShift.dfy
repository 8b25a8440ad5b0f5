/** The double-shift detector (`createDoubleShiftDetector`) and what it recognises in a trace of key events. */
module DoubleShift {
  import opened KeyEvents

  datatype ShiftKey = ShiftLeft | ShiftRight | ShiftUnknown

  /** What the detector tells apart: a press of any other key, or of Shift with another modifier, is `OtherPress`. */
  datatype Input =
    | ShiftRepeat(key: ShiftKey)
    | PlainPress(key: ShiftKey, now: int)
    | OtherPress
    | ShiftUp(key: ShiftKey)
    | OtherUp
    | Reset

  /** `shiftPhysicalKey`. */
  function PhysicalKey(event: KeyEvent): ShiftKey {
    if event.code == "ShiftLeft" then ShiftLeft else if event.code == "ShiftRight" then ShiftRight else ShiftUnknown
  }

  function DownInput(event: KeyEvent, now: int): Input {
    if IsShift(event) && event.repeated then ShiftRepeat(PhysicalKey(event))
    else if !IsPlainShift(event) then OtherPress
    else PlainPress(PhysicalKey(event), now)
  }

  function UpInput(event: KeyEvent): Input {
    if IsShift(event) then ShiftUp(PhysicalKey(event)) else OtherUp
  }

  datatype State = State(last: int, down: set<ShiftKey>, blocked: bool)

  const START := State(0, {}, false)

  /** The next state and whether the input triggers. */
  function Step(s: State, input: Input, timeout: int): (State, bool) {
    match input
    case ShiftRepeat(key) => (s.(down := s.down + {key}), false)
    case OtherPress => (START, false)
    case PlainPress(key, now) =>
      if s.down != {} then (State(s.last, s.down + {key}, s.blocked || key !in s.down), false)
      else if s.blocked then (s, false)
      else
        var fires := s.last != 0 && 0 < now - s.last <= timeout;
        (State(if fires then 0 else now, {key}, false), fires)
    case ShiftUp(key) =>
      var down := s.down - {key};
      (if down == {} && s.blocked then State(0, down, false) else s.(down := down), false)
    case OtherUp => (s, false)
    case Reset => (START, false)
  }

  class Detector {
    const timeout: int
    var lastShiftAt: int
    var downShiftKeys: set<ShiftKey>
    var blockedUntilAllReleased: bool

    constructor (timeout: int)
      ensures this.timeout == timeout && View() == START
    {
      this.timeout := timeout;
      lastShiftAt, downShiftKeys, blockedUntilAllReleased := 0, {}, false;
    }

    function View(): State reads this {
      State(lastShiftAt, downShiftKeys, blockedUntilAllReleased)
    }

    method KeyDown(event: KeyEvent, now: int) returns (triggered: bool)
      modifies this
      ensures (View(), triggered) == Step(old(View()), DownInput(event, now), timeout)
    {
      if IsShift(event) && event.repeated {
        downShiftKeys := downShiftKeys + {PhysicalKey(event)};
        return false;
      }
      if !IsPlainShift(event) {
        lastShiftAt, downShiftKeys, blockedUntilAllReleased := 0, {}, false;
        return false;
      }
      var physicalKey := PhysicalKey(event);
      if downShiftKeys != {} {
        if physicalKey !in downShiftKeys {
          blockedUntilAllReleased := true;
        }
        downShiftKeys := downShiftKeys + {physicalKey};
        return false;
      }
      if blockedUntilAllReleased {
        return false;
      }
      var previous := lastShiftAt;
      downShiftKeys := downShiftKeys + {physicalKey};
      lastShiftAt := now;
      assert downShiftKeys == {physicalKey};
      if previous != 0 && 0 < now - previous <= timeout {
        lastShiftAt := 0;
        return true;
      }
      triggered := false;
    }

    method KeyUp(event: KeyEvent)
      modifies this
      ensures View() == Step(old(View()), UpInput(event), timeout).0
    {
      if !IsShift(event) {
        return;
      }
      downShiftKeys := downShiftKeys - {PhysicalKey(event)};
      if downShiftKeys == {} && blockedUntilAllReleased {
        lastShiftAt := 0;
        blockedUntilAllReleased := false;
      }
    }

    method ResetAll()
      modifies this
      ensures View() == Step(old(View()), Reset, timeout).0
    {
      lastShiftAt, downShiftKeys, blockedUntilAllReleased := 0, {}, false;
    }
  }

  function After(trace: seq<Input>, timeout: int): State {
    if trace == [] then START else Step(After(trace[..|trace| - 1], timeout), trace[|trace| - 1], timeout).0
  }

  predicate Fires(trace: seq<Input>, n: nat, timeout: int)
    requires n < |trace|
  {
    Step(After(trace[..n], timeout), trace[n], timeout).1
  }

  /** The Shift keys held since the last press of another key. */
  function Held(trace: seq<Input>): set<ShiftKey> {
    if trace == [] then {}
    else
      var before := Held(trace[..|trace| - 1]);
      match trace[|trace| - 1]
      case ShiftRepeat(key) => before + {key}
      case PlainPress(key, _) => before + {key}
      case ShiftUp(key) => before - {key}
      case OtherUp => before
      case OtherPress | Reset => {}
  }

  /** A plain press while no Shift is held. */
  predicate IsFresh(trace: seq<Input>, n: nat)
    requires n < |trace|
  {
    trace[n].PlainPress? && Held(trace[..n]) == {}
  }

  /** Another key, a reset, or a second Shift pressed while one is held. */
  predicate Interrupts(trace: seq<Input>, n: nat)
    requires n < |trace|
  {
    || trace[n].OtherPress? || trace[n].Reset?
    || (trace[n].PlainPress? && Held(trace[..n]) != {} && trace[n].key !in Held(trace[..n]))
  }

  /** A fresh press that has not triggered, and that no other fresh press or interruption follows. */
  ghost predicate IsFirstPress(trace: seq<Input>, m: nat, timeout: int) {
    && m < |trace| && IsFresh(trace, m) && !Fires(trace, m, timeout)
    && forall k :: m < k < |trace| ==> !IsFresh(trace, k) && !Interrupts(trace, k)
  }

  /** Times are positive. */
  predicate ClockRuns(trace: seq<Input>) {
    forall n :: 0 <= n < |trace| && trace[n].PlainPress? ==> trace[n].now > 0
  }

  /** What the state says about the trace so far. */
  ghost predicate Tells(trace: seq<Input>, s: State, timeout: int) {
    && s.down == Held(trace)
    && (s.blocked ==> s.down != {})
    && (!s.blocked && s.last != 0 ==> exists m: nat :: IsFirstPress(trace, m, timeout) && trace[m].now == s.last)
    && forall m: nat :: IsFirstPress(trace, m, timeout) ==> !s.blocked && trace[m].now == s.last
  }

  lemma FirstPressBefore(trace: seq<Input>, m: nat, timeout: int)
    requires trace != []
    ensures
      var shorter, n := trace[..|trace| - 1], |trace| - 1;
      IsFirstPress(trace, m, timeout) <==>
        if m == n then IsFresh(trace, n) && !Fires(trace, n, timeout)
        else IsFirstPress(shorter, m, timeout) && !IsFresh(trace, n) && !Interrupts(trace, n)
  {
    var shorter, n := trace[..|trace| - 1], |trace| - 1;
    forall k | 0 <= k < n
      ensures shorter[..k] == trace[..k] && IsFresh(shorter, k) == IsFresh(trace, k)
      ensures Interrupts(shorter, k) == Interrupts(trace, k) && Fires(shorter, k, timeout) == Fires(trace, k, timeout)
    {
      assert shorter[..k] == trace[..k] && shorter[k] == trace[k];
    }
  }

  lemma {:induction false} StateTells(trace: seq<Input>, timeout: int)
    requires ClockRuns(trace)
    ensures Tells(trace, After(trace, timeout), timeout)
  {
    if trace == [] {
    } else {
      var shorter, n := trace[..|trace| - 1], |trace| - 1;
      StateTells(shorter, timeout);
      var before, after := After(shorter, timeout), After(trace, timeout);
      forall m: nat
        ensures IsFirstPress(trace, m, timeout) <==>
          if m == n then IsFresh(trace, n) && !Fires(trace, n, timeout)
          else IsFirstPress(shorter, m, timeout) && !IsFresh(trace, n) && !Interrupts(trace, n)
      {
        FirstPressBefore(trace, m, timeout);
      }
      if !after.blocked && after.last != 0 {
        if IsFresh(trace, n) {
          assert IsFirstPress(trace, n, timeout);
        } else {
          assert !before.blocked && before.last == after.last;
          var m: nat :| IsFirstPress(shorter, m, timeout) && shorter[m].now == before.last;
          assert IsFirstPress(trace, m, timeout);
        }
      }
    }
  }

  /** The detector triggers exactly on a fresh press that follows a first press within the timeout. */
  lemma FiresExactly(trace: seq<Input>, n: nat, timeout: int)
    requires ClockRuns(trace) && n < |trace|
    ensures Fires(trace, n, timeout) <==>
      && IsFresh(trace, n)
      && exists m: nat :: IsFirstPress(trace[..n], m, timeout) && 0 < trace[n].now - trace[..n][m].now <= timeout
  {
    StateTells(trace[..n], timeout);
    var s := After(trace[..n], timeout);
    if Fires(trace, n, timeout) {
      var m: nat :| IsFirstPress(trace[..n], m, timeout) && trace[..n][m].now == s.last;
    } else if IsFresh(trace, n) {
      forall m: nat | IsFirstPress(trace[..n], m, timeout)
        ensures !(0 < trace[n].now - trace[..n][m].now <= timeout)
      {
        assert trace[..n][m].now == s.last > 0;
      }
    }
  }

  /** No press serves two triggers: the first press of a later trigger comes after the earlier trigger. */
  lemma PressesServeOnce(trace: seq<Input>, n: nat, later: nat, first: nat, timeout: int)
    requires ClockRuns(trace) && n < later < |trace|
    requires Fires(trace, n, timeout) && Fires(trace, later, timeout) && IsFirstPress(trace[..later], first, timeout)
    ensures n < first
  {
    FiresExactly(trace, n, timeout);
    assert trace[..later][..n] == trace[..n] && trace[..later][n] == trace[n];
    assert IsFresh(trace[..later], n) && Fires(trace[..later], n, timeout);
  }

  /**
   In every reachable state a blocked detector has a Shift key down, so a press is never refused for being blocked.
   */
  lemma {:induction false} BlockedMeansHeld(trace: seq<Input>, timeout: int)
    ensures After(trace, timeout).down == Held(trace)
    ensures After(trace, timeout).blocked ==> After(trace, timeout).down != {}
  {
    if trace == [] {
    } else {
      BlockedMeansHeld(trace[..|trace| - 1], timeout);
    }
  }
}
