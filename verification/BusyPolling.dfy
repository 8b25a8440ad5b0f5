/**
 Polling while an inspiration is busy (`createInspirationBusyPollingController`) as steps of its timers and fetches.
 */
module BusyPolling {

  /** Where a poll is: fetching, inside `onStillBusy`, waiting for `onDone`, or over. */
  datatype Phase = Fetching | Calling | Finishing | Over

  datatype Poll = Poll(generation: nat, phase: Phase)

  datatype Call = StillBusy(generation: nat) | Done(generation: nat)

  /**
   The controller's fields, the timers that are armed (each with its poll's generation), the polls
   started so far, and the callbacks made so far.
   */
  datatype State = State(hasSpace: bool, waiting: bool, publishing: bool, timer: int, generation: nat,
                         timers: map<int, nat>, nextTimer: int, polls: seq<Poll>, calls: seq<Call>)

  /** Anything that can happen, in any order, also from inside a callback. Polls are named by their position. */
  datatype Action =
    | Schedule
    | Cleanup
    | SetBusy(hasSpace: bool, waiting: bool, publishing: bool)
    | Fire(timer: int)
    | Resolve(poll: nat, isWaiting: bool, isPublishing: bool)
    | Reject(poll: nat)
    | CallReturns(poll: nat)
    | CallThrows(poll: nat)
    | DoneReturns(poll: nat)
    | DoneRejects(poll: nat)

  function Cleared(s: State): State {
    if s.timer == 0 then s else s.(timers := s.timers - {s.timer}, timer := 0)
  }

  /** `schedule`; the space's identifier is part of `hasSpace`. */
  function Scheduled(s: State): State {
    var c := Cleared(s);
    if !c.hasSpace || (!c.waiting && !c.publishing) then c
    else
      c.(generation := c.generation + 1, timer := c.nextTimer, nextTimer := c.nextTimer + 1,
         timers := c.timers[c.nextTimer := c.generation + 1])
  }

  function WithPhase(s: State, i: nat, phase: Phase): State
    requires i < |s.polls|
  {
    s.(polls := s.polls[i := s.polls[i].(phase := phase)])
  }

  /** The poll ends and goes on polling if it is still the current one. */
  function Again(s: State, i: nat): State
    requires i < |s.polls|
  {
    var over := WithPhase(s, i, Over);
    if s.polls[i].generation == s.generation then Scheduled(over) else over
  }

  predicate Enabled(s: State, action: Action) {
    match action
    case Schedule | Cleanup | SetBusy(_, _, _) => true
    case Fire(timer) => timer in s.timers
    case Resolve(i, _, _) => i < |s.polls| && s.polls[i].phase.Fetching?
    case Reject(i) => i < |s.polls| && s.polls[i].phase.Fetching?
    case CallReturns(i) => i < |s.polls| && s.polls[i].phase.Calling?
    case CallThrows(i) => i < |s.polls| && s.polls[i].phase.Calling?
    case DoneReturns(i) => i < |s.polls| && s.polls[i].phase.Finishing?
    case DoneRejects(i) => i < |s.polls| && s.polls[i].phase.Finishing?
  }

  /** The next state; an action that cannot happen changes nothing. */
  function Step(s: State, action: Action): State {
    if !Enabled(s, action) then s else Taken(s, action)
  }

  function Taken(s: State, action: Action): State
    requires Enabled(s, action)
  {
    match action
    case Schedule => Scheduled(s)
    case Cleanup => Cleared(s).(generation := s.generation + 1)
    case SetBusy(hasSpace, waiting, publishing) =>
      s.(hasSpace := hasSpace, waiting := waiting, publishing := publishing)
    case Fire(timer) => s.(timers := s.timers - {timer}, polls := s.polls + [Poll(s.timers[timer], Fetching)])
    case Resolve(i, waiting, publishing) =>
      var g := s.polls[i].generation;
      if g != s.generation then WithPhase(s, i, Over)
      else if waiting || publishing then
        WithPhase(s.(waiting := waiting, publishing := publishing, calls := s.calls + [StillBusy(g)]), i, Calling)
      else WithPhase(s.(calls := s.calls + [Done(g)]), i, Finishing)
    case Reject(i) => Again(s, i)
    case CallReturns(i) => Again(s, i)
    case CallThrows(i) => Again(s, i)
    case DoneReturns(i) => WithPhase(s, i, Over)
    case DoneRejects(i) => Again(s, i)
  }

  class Controller {
    var hasSpace: bool
    var waiting: bool
    var publishing: bool
    var timer: int
    var generation: nat
    /** The environment: armed timers and polls in flight. */
    var timers: map<int, nat>
    var nextTimer: int
    var polls: seq<Poll>
    var calls: seq<Call>

    constructor ()
      ensures View() == START
    {
      hasSpace, waiting, publishing, timer, generation := false, false, false, 0, 0;
      timers, nextTimer, polls, calls := map[], 1, [], [];
    }

    ghost function View(): State reads this {
      State(hasSpace, waiting, publishing, timer, generation, timers, nextTimer, polls, calls)
    }

    method ClearExistingTimer()
      modifies this`timers, this`timer
      ensures View() == Cleared(old(View()))
    {
      if timer == 0 {
        return;
      }
      timers := timers - {timer};
      timer := 0;
    }

    method ScheduleNext()
      modifies this`timers, this`timer, this`generation, this`nextTimer
      ensures View() == Scheduled(old(View()))
    {
      ClearExistingTimer();
      if !hasSpace || (!waiting && !publishing) {
        return;
      }
      generation := generation + 1;
      timers := timers[nextTimer := generation];
      timer := nextTimer;
      nextTimer := nextTimer + 1;
    }

    method CleanUp()
      modifies this`timers, this`timer, this`generation
      ensures View() == Step(old(View()), Cleanup)
    {
      ClearExistingTimer();
      generation := generation + 1;
    }

    method TimerFires(id: int)
      requires Enabled(View(), Fire(id))
      modifies this`timers, this`polls
      ensures View() == Step(old(View()), Fire(id))
    {
      polls := polls + [Poll(timers[id], Fetching)];
      timers := timers - {id};
    }

    /** The catch block, and what follows a returning `onStillBusy`. */
    method GoOn(i: nat)
      requires i < |polls|
      modifies this
      ensures View() == Again(old(View()), i)
    {
      polls := polls[i := polls[i].(phase := Over)];
      if polls[i].generation != generation {
        return;
      }
      ScheduleNext();
    }

    method FetchResolves(i: nat, isWaiting: bool, isPublishing: bool)
      requires Enabled(View(), Resolve(i, isWaiting, isPublishing))
      modifies this
      ensures View() == Step(old(View()), Resolve(i, isWaiting, isPublishing))
    {
      var poll := polls[i];
      if poll.generation != generation {
        polls := polls[i := poll.(phase := Over)];
        return;
      }
      if isWaiting || isPublishing {
        waiting, publishing := isWaiting, isPublishing;
        calls := calls + [StillBusy(poll.generation)];
        polls := polls[i := poll.(phase := Calling)];
        return;
      }
      calls := calls + [Done(poll.generation)];
      polls := polls[i := poll.(phase := Finishing)];
    }
  }

  const START := State(false, false, false, 0, 0, map[], 1, [], [])

  predicate IsLive(poll: Poll, generation: nat) {
    poll.generation == generation && !poll.phase.Over?
  }

  /** The polls of the current generation that are not over. */
  function Live(s: State): set<nat> {
    set i | 0 <= i < |s.polls| && IsLive(s.polls[i], s.generation)
  }

  /** At most the controller's own timer is armed, for the current generation, and then no current poll is in flight. */
  ghost predicate OnePending(s: State) {
    && s.nextTimer > 0 && s.timer < s.nextTimer
    && (s.timers == map[] || (s.timer > 0 && s.timers == map[s.timer := s.generation]))
    && (forall i :: 0 <= i < |s.polls| ==> s.polls[i].generation <= s.generation)
    && (forall i, j :: 0 <= i < j < |s.polls| && IsLive(s.polls[i], s.generation) ==> !IsLive(s.polls[j], s.generation))
    && (s.timers != map[] ==> forall i :: 0 <= i < |s.polls| ==> !IsLive(s.polls[i], s.generation))
  }

  /** Armed timers and polls in flight of the current generation are one at most. */
  lemma OnePendingCounts(s: State)
    requires OnePending(s)
    ensures |s.timers| + |Live(s)| <= 1
  {
    if i :| i in Live(s) {
      forall j | j in Live(s)
        ensures j == i
      {
        assert IsLive(s.polls[i], s.generation) && IsLive(s.polls[j], s.generation);
      }
      assert Live(s) == {i};
    }
  }

  lemma ScheduledKeeps(s: State)
    requires OnePending(s.(timers := map[])) && (s.timers == map[] || s.timers.Keys == {s.timer})
    requires s.timers == map[] || s.timer > 0
    ensures OnePending(Scheduled(s))
  {
    assert Cleared(s).timers == map[];
  }

  lemma AgainKeeps(s: State, i: nat)
    requires OnePending(s) && i < |s.polls|
    ensures OnePending(Again(s, i))
  {
    var over := WithPhase(s, i, Over);
    assert OnePending(over);
    ScheduledKeeps(over);
  }

  lemma CleanupKeeps(s: State)
    requires OnePending(s)
    ensures OnePending(Taken(s, Cleanup)) && Taken(s, Cleanup).timers == map[]
  {
    assert Cleared(s).timers == map[];
  }

  lemma FireKeeps(s: State, timer: int)
    requires OnePending(s) && timer in s.timers
    ensures OnePending(Taken(s, Fire(timer)))
  {
    assert s.timers - {timer} == map[];
  }

  lemma PhaseKeeps(s: State, i: nat, phase: Phase)
    requires OnePending(s) && i < |s.polls| && !s.polls[i].phase.Over?
    ensures OnePending(WithPhase(s, i, phase))
  {
    var after := WithPhase(s, i, phase);
    forall j | 0 <= j < |s.polls|
      ensures after.polls[j].generation == s.polls[j].generation
      ensures IsLive(after.polls[j], s.generation) ==> IsLive(s.polls[j], s.generation)
    {
    }
  }

  lemma ResolveKeeps(s: State, i: nat, waiting: bool, publishing: bool)
    requires OnePending(s) && Enabled(s, Resolve(i, waiting, publishing))
    ensures OnePending(Taken(s, Resolve(i, waiting, publishing)))
  {
    var g := s.polls[i].generation;
    var busy, done := s.(waiting := waiting, publishing := publishing, calls := s.calls + [StillBusy(g)]),
                      s.(calls := s.calls + [Done(g)]);
    assert OnePending(busy) && OnePending(done);
    PhaseKeeps(s, i, Over);
    PhaseKeeps(busy, i, Calling);
    PhaseKeeps(done, i, Finishing);
  }

  lemma StepKeepsOnePending(s: State, action: Action)
    requires OnePending(s)
    ensures OnePending(Step(s, action))
  {
    if Enabled(s, action) {
      match action {
        case Schedule => ScheduledKeeps(s);
        case Cleanup => CleanupKeeps(s);
        case SetBusy(_, _, _) =>
        case Fire(timer) => FireKeeps(s, timer);
        case Resolve(i, waiting, publishing) => ResolveKeeps(s, i, waiting, publishing);
        case DoneReturns(i) => PhaseKeeps(s, i, Over);
        case Reject(i) => AgainKeeps(s, i);
        case CallReturns(i) => AgainKeeps(s, i);
        case CallThrows(i) => AgainKeeps(s, i);
        case DoneRejects(i) => AgainKeeps(s, i);
      }
    }
  }

  function Run(s: State, actions: seq<Action>): State {
    if actions == [] then s else Step(Run(s, actions[..|actions| - 1]), actions[|actions| - 1])
  }

  /** Under every interleaving, at most one timer or current poll is pending. */
  lemma {:induction false} RunsKeepOnePending(s: State, actions: seq<Action>)
    requires OnePending(s)
    ensures OnePending(Run(s, actions)) && |Run(s, actions).timers| + |Live(Run(s, actions))| <= 1
  {
    if actions != [] {
      RunsKeepOnePending(s, actions[..|actions| - 1]);
      StepKeepsOnePending(Run(s, actions[..|actions| - 1]), actions[|actions| - 1]);
    }
    OnePendingCounts(Run(s, actions));
  }

  /** Polls keep their generation, and the current generation never goes back. */
  ghost predicate Grows(before: State, after: State) {
    && before.generation <= after.generation && |before.polls| <= |after.polls|
    && forall i :: 0 <= i < |before.polls| ==> after.polls[i].generation == before.polls[i].generation
  }

  lemma {:induction false} RunsGrow(s: State, actions: seq<Action>)
    ensures Grows(s, Run(s, actions))
  {
    if actions == [] {
    } else {
      RunsGrow(s, actions[..|actions| - 1]);
      StepGrows(Run(s, actions[..|actions| - 1]), actions[|actions| - 1]);
    }
  }

  lemma AgainGrows(s: State, i: nat)
    requires i < |s.polls|
    ensures Grows(s, Again(s, i))
  {
  }

  lemma StepGrows(s: State, action: Action)
    ensures Grows(s, Step(s, action))
  {
    if Enabled(s, action) && action != Schedule && action != Cleanup && !action.SetBusy? && !action.Fire? {
      AgainGrows(s, action.poll);
    }
  }

  /** The action is about this poll: its fetch or one of its callbacks comes back. */
  predicate IsAbout(action: Action, i: nat) {
    match action
    case Resolve(j, _, _) => i == j
    case Reject(j) => i == j
    case CallReturns(j) => i == j
    case CallThrows(j) => i == j
    case DoneReturns(j) => i == j
    case DoneRejects(j) => i == j
    case _ => false
  }

  /**
   After a cleanup, whatever happens next: no earlier timer is armed, and an earlier poll that comes back
   makes no callback, arms no timer and leaves everything but its own phase as it was.
   */
  lemma CleanupSilences(s: State, actions: seq<Action>, i: nat, action: Action)
    requires OnePending(s) && i < |s.polls| && IsAbout(action, i)
    ensures
      var later := Run(Step(s, Cleanup), actions);
      Step(later, action).(polls := later.polls) == later
    ensures Step(s, Cleanup).timers == map[] && s.polls[i].generation < Run(Step(s, Cleanup), actions).generation
  {
    CleanupKeeps(s);
    RunsGrow(Step(s, Cleanup), actions);
    StaleIsSilent(Run(Step(s, Cleanup), actions), i, action);
  }

  lemma StaleIsSilent(s: State, i: nat, action: Action)
    requires i < |s.polls| && IsAbout(action, i) && s.polls[i].generation != s.generation
    ensures Step(s, action).(polls := s.polls) == s
  {
  }

  /** A poll that finds the inspiration busy, and whose callback lets it be, is followed by another one. */
  lemma BusyGoesOn(s: State, i: nat, waiting: bool, publishing: bool)
    requires OnePending(s) && i < |s.polls| && IsLive(s.polls[i], s.generation) && s.polls[i].phase.Fetching?
    requires s.hasSpace && (waiting || publishing)
    ensures
      var next := Step(Step(s, Resolve(i, waiting, publishing)), CallReturns(i));
      next.timers == map[s.nextTimer := s.generation + 1] && next.calls == s.calls + [StillBusy(s.generation)]
  {
    assert Cleared(s).timers == map[];
  }
}
