/** The in-process lock around the market synchronisation that page views start: any number of threads serving pages,
    any interleaving, and background jobs that release a lock another thread took. */
module SyncLock {
  import opened Wrappers

  /** Where a thread stands; t is the number of the acquisition it is responsible for. */
  datatype Pc =
    | Start                      // entering refresh_events_from_dreamdex
    | Waiting                    // in the blocking acquire
    | Entered(t: nat)            // holding the lock, about to look for live events again
    | Syncing(t: nat)            // inside sync_events
    | Leaving(t: nat)            // in the finally block
    | Kicking                    // in _kick_background_event_sync, about to try the lock
    | Checking(t: nat)           // holding it, asking the cache whether another process is syncing
    | Backing(t: nat)            // another process is
    | Starting(t: nat)           // about to start the job thread
    | Job(t: nat)                // a job thread before sync_events
    | JobSyncing(t: nat)         // inside sync_events
    | JobFinally(t: nat)         // about to ask whether the lock is held
    | JobReleasing(t: nat)       // it was
    | Done
    | Raised                     // left with an exception

  /** held is the lock; acquired counts successful acquisitions and releases lists whose they were. */
  datatype State = State(held: bool, threads: seq<Pc>, acquired: nat, releases: seq<nat>, leaked: Option<nat>,
                         overReleased: bool)

  datatype Action =
    | Arrive | ServeFresh(i: nat) | Kick(i: nat) | Wait(i: nat) | Acquire(i: nat) | TimeOut(i: nat)
    | AlreadyFilled(i: nat)
    | BeginSync(i: nat) | EndSync(i: nat) | TryAcquire(i: nat) | SeeSyncing(i: nat) | MarkSyncing(i: nat)
    | StartJob(i: nat) | StartFails(i: nat) | JobFails(i: nat) | LookLocked(i: nat) | Release(i: nat)

  predicate Owner(pc: Pc) {
    pc.Entered? || pc.Syncing? || pc.Leaving? || pc.Checking? || pc.Backing? || pc.Starting?
    || pc.Job? || pc.JobSyncing? || pc.JobFinally? || pc.JobReleasing?
  }

  predicate Inside(pc: Pc) { pc.Syncing? || pc.JobSyncing? }

  function Move(s: State, i: nat, pc: Pc): State
    requires i < |s.threads|
  {
    s.(threads := s.threads[i := pc])
  }

  function Take(s: State, i: nat, pc: Pc): State
    requires i < |s.threads|
  {
    Move(s, i, pc).(held := true, acquired := s.acquired + 1)
  }

  /** threading.Lock.release: any thread may call it; on a free lock it raises. */
  function Drop(s: State, i: nat, t: nat): State
    requires i < |s.threads|
  {
    if s.held then Move(s, i, Done).(held := false, releases := s.releases + [t])
    else Move(s, i, Raised).(overReleased := true)
  }

  /** One step of one thread; an action that is not possible changes nothing. */
  function Step(s: State, a: Action): State {
    if a.Arrive? then s.(threads := s.threads + [Start])
    else if a.i >= |s.threads| then s
    else
      var i, pc := a.i, s.threads[a.i];
      match a
      case ServeFresh(_) => if pc.Start? then Move(s, i, Done) else s
      case Kick(_) => if pc.Start? then Move(s, i, Kicking) else s
      case Wait(_) => if pc.Start? then Move(s, i, Waiting) else s
      case Acquire(_) => if pc.Waiting? && !s.held then Take(s, i, Entered(s.acquired)) else s
      case TimeOut(_) => if pc.Waiting? then Move(s, i, Done) else s
      case AlreadyFilled(_) => if pc.Entered? then Move(s, i, Leaving(pc.t)) else s
      case BeginSync(_) =>
        if pc.Entered? then Move(s, i, Syncing(pc.t)) else if pc.Job? then Move(s, i, JobSyncing(pc.t)) else s
      case EndSync(_) =>
        if pc.Syncing? then Move(s, i, Leaving(pc.t)) else if pc.JobSyncing? then Move(s, i, JobFinally(pc.t)) else s
      case TryAcquire(_) =>
        if !pc.Kicking? then s else if s.held then Move(s, i, Done) else Take(s, i, Checking(s.acquired))
      case SeeSyncing(_) => if pc.Checking? then Move(s, i, Backing(pc.t)) else s
      case MarkSyncing(_) => if pc.Checking? then Move(s, i, Starting(pc.t)) else s
      case StartJob(_) =>
        if pc.Starting? then Move(s, i, Done).(threads := s.threads[i := Done] + [Job(pc.t)]) else s
      case StartFails(_) => if pc.Starting? then Move(s, i, Raised).(leaked := Some(pc.t)) else s
      case JobFails(_) => if pc.Job? then Move(s, i, JobFinally(pc.t)) else s
      case LookLocked(_) =>
        if pc.JobFinally? then Move(s, i, if s.held then JobReleasing(pc.t) else Done) else s
      case Release(_) =>
        if pc.Leaving? || pc.Backing? || pc.JobReleasing? then Drop(s, i, pc.t) else s
  }

  const IDLE := State(false, [], 0, [], None, false)

  function Run(actions: seq<Action>): State {
    if actions == [] then IDLE else Step(Run(actions[..|actions| - 1]), actions[|actions| - 1])
  }

  ghost predicate SomeOwner(s: State) { exists i :: 0 <= i < |s.threads| && Owner(s.threads[i]) }

  ghost predicate OneOwner(s: State) {
    forall i, j :: 0 <= i < |s.threads| && 0 <= j < |s.threads| && Owner(s.threads[i]) && Owner(s.threads[j]) ==> i == j
  }

  /** The lock is held exactly when it has one owner or a start failed, and all earlier acquisitions
      have been released, each once and in order. */
  ghost predicate Inv(s: State) {
    && OneOwner(s)
    && (s.held <==> SomeOwner(s) || s.leaked.Some?)
    && !(SomeOwner(s) && s.leaked.Some?)
    && |s.releases| + (if s.held then 1 else 0) == s.acquired
    && (forall i :: 0 <= i < |s.threads| && Owner(s.threads[i]) ==> s.threads[i].t == |s.releases|)
    && (s.leaked.Some? ==> s.leaked.value == |s.releases|)
    && (forall k :: 0 <= k < |s.releases| ==> s.releases[k] == k)
    && !s.overReleased
  }

  /** A step of a thread that neither takes nor gives up the lock. */
  lemma MoveKeepsInv(s: State, i: nat, pc: Pc)
    requires Inv(s) && i < |s.threads|
    requires Owner(pc) <==> Owner(s.threads[i])
    requires Owner(pc) ==> pc.t == s.threads[i].t
    ensures Inv(Move(s, i, pc))
  {
    var s' := Move(s, i, pc);
    if SomeOwner(s) {
      var j :| 0 <= j < |s.threads| && Owner(s.threads[j]);
      assert Owner(s'.threads[j]);
    }
  }

  lemma TakeKeepsInv(s: State, i: nat, pc: Pc)
    requires Inv(s) && i < |s.threads| && !s.held && !Owner(s.threads[i])
    requires Owner(pc) && pc.t == s.acquired
    ensures Inv(Take(s, i, pc))
  {
    var s' := Take(s, i, pc);
    assert forall j :: 0 <= j < |s.threads| ==> !Owner(s.threads[j]);
    assert Owner(s'.threads[i]);
  }

  lemma DropKeepsInv(s: State, i: nat)
    requires Inv(s) && i < |s.threads| && Owner(s.threads[i])
    ensures Inv(Drop(s, i, s.threads[i].t)) && !Drop(s, i, s.threads[i].t).held
  {
    var s' := Drop(s, i, s.threads[i].t);
    assert SomeOwner(s);
    assert forall j :: 0 <= j < |s'.threads| ==> !Owner(s'.threads[j]);
  }

  /** The kicker hands its acquisition to the job thread. */
  lemma HandOverKeepsInv(s: State, i: nat)
    requires Inv(s) && i < |s.threads| && s.threads[i].Starting?
    ensures Inv(Step(s, StartJob(i)))
  {
    var s' := Step(s, StartJob(i));
    assert SomeOwner(s);
    assert Owner(s'.threads[|s.threads|]);
    assert forall j :: 0 <= j < |s.threads| ==> !Owner(s'.threads[j]);
  }

  lemma FailedStartKeepsInv(s: State, i: nat)
    requires Inv(s) && i < |s.threads| && s.threads[i].Starting?
    ensures Inv(Step(s, StartFails(i)))
  {
    var s' := Step(s, StartFails(i));
    assert SomeOwner(s);
    assert forall j :: 0 <= j < |s.threads| ==> !Owner(s'.threads[j]);
  }

  lemma ArriveKeepsInv(s: State)
    requires Inv(s)
    ensures Inv(Step(s, Arrive))
  {
    var s' := Step(s, Arrive);
    if SomeOwner(s) {
      var j :| 0 <= j < |s.threads| && Owner(s.threads[j]);
      assert Owner(s'.threads[j]);
    }
  }

  lemma StepKeepsInv(s: State, a: Action)
    requires Inv(s)
    ensures Inv(Step(s, a))
  {
    hide Inv, OneOwner, SomeOwner;
    if a.Arrive? {
      ArriveKeepsInv(s);
    } else if a.i < |s.threads| {
      ThreadKeepsInv(s, a, s.threads[a.i]);
    }
  }

  lemma ThreadKeepsInv(s: State, a: Action, pc: Pc)
    requires Inv(s) && !a.Arrive? && a.i < |s.threads| && pc == s.threads[a.i]
    ensures Inv(Step(s, a))
  {
    hide Inv, OneOwner, SomeOwner;
    var i := a.i;
    if a.Acquire? && pc.Waiting? && !s.held {
      TakeKeepsInv(s, i, Entered(s.acquired));
    } else if a.TryAcquire? && pc.Kicking? && !s.held {
      TakeKeepsInv(s, i, Checking(s.acquired));
    } else if a.StartJob? && pc.Starting? {
      HandOverKeepsInv(s, i);
    } else if a.StartFails? && pc.Starting? {
      FailedStartKeepsInv(s, i);
    } else if a.Release? && Owner(pc) {
      DropKeepsInv(s, i);
    } else {
      if Owner(pc) { OwnerHolds(s, i); }
      var next := Step(s, a).threads[i];
      MoveKeepsInv(s, i, next);
      assert s.threads[i := s.threads[i]] == s.threads;
    }
  }

  lemma OwnerHolds(s: State, i: nat)
    requires Inv(s) && i < |s.threads| && Owner(s.threads[i])
    ensures s.held
  {
  }

  /** Main result: the invariant holds after every interleaving of any number of threads. */
  lemma {:induction false} AlwaysInv(actions: seq<Action>)
    ensures Inv(Run(actions))
  {
    if actions != [] {
      AlwaysInv(actions[..|actions| - 1]);
      StepKeepsInv(Run(actions[..|actions| - 1]), actions[|actions| - 1]);
    }
  }

  /** No interleaving puts two threads inside sync_events. */
  lemma MutualExclusion(actions: seq<Action>, i: nat, j: nat)
    requires i < |Run(actions).threads| && j < |Run(actions).threads|
    requires Inside(Run(actions).threads[i]) && Inside(Run(actions).threads[j])
    ensures i == j
  {
    AlwaysInv(actions);
  }

  /** The lock is held exactly when it has an owner or a thread start failed while holding it, never both;
      and no release ever hits a free lock. */
  lemma HeldIffOwned(actions: seq<Action>)
    ensures Run(actions).held <==> SomeOwner(Run(actions)) || Run(actions).leaked.Some?
    ensures !(SomeOwner(Run(actions)) && Run(actions).leaked.Some?)
    ensures !Run(actions).overReleased
  {
    AlwaysInv(actions);
  }

  function Times(log: seq<nat>, t: nat): nat {
    if log == [] then 0 else Times(log[..|log| - 1], t) + if log[|log| - 1] == t then 1 else 0
  }

  lemma {:induction false} CountingUp(log: seq<nat>, t: nat)
    requires forall k :: 0 <= k < |log| ==> log[k] == k
    ensures Times(log, t) == if t < |log| then 1 else 0
  {
    if log != [] { CountingUp(log[..|log| - 1], t); }
  }

  /** Every acquisition is released exactly once, or is still owned by the one owner, or was lost by a failed start. */
  lemma ReleasedExactlyOnce(actions: seq<Action>, t: nat)
    requires t < Run(actions).acquired
    ensures var s := Run(actions);
            || (Times(s.releases, t) == 1 && s.leaked != Some(t)
                && forall i :: 0 <= i < |s.threads| && Owner(s.threads[i]) ==> s.threads[i].t != t)
            || (Times(s.releases, t) == 0 && s.leaked == Some(t) && !SomeOwner(s))
            || (Times(s.releases, t) == 0 && s.leaked == None && 
                exists i :: 0 <= i < |s.threads| && Owner(s.threads[i]) && s.threads[i].t == t)
  {
    AlwaysInv(actions);
    CountingUp(Run(actions).releases, t);
  }

  /** After a failed start the lock stays held for the life of the process: no thread ever takes it, or
      enters sync_events, again. */
  lemma {:induction false} FailedStartIsForever(before: seq<Action>, after: seq<Action>)
    requires Run(before).leaked.Some?
    ensures var s := Run(before + after);
            s.held && s.leaked == Run(before).leaked && s.acquired == Run(before).acquired
            && forall i :: 0 <= i < |s.threads| ==> !Inside(s.threads[i])
  {
    AlwaysInv(before + after);
    if after == [] {
      assert before + after == before;
    } else {
      var init := after[..|after| - 1];
      FailedStartIsForever(before, init);
      AlwaysInv(before + init);
      assert (before + after)[..|before + after| - 1] == before + init;
      NoOwnerNoChange(Run(before + init), after[|after| - 1]);
    }
    assert !SomeOwner(Run(before + after));
  }

  lemma NoOwnerNoChange(s: State, a: Action)
    requires s.held && s.leaked.Some? && !SomeOwner(s)
    ensures Step(s, a).held && Step(s, a).leaked == s.leaked && Step(s, a).acquired == s.acquired
  {
    assert forall i :: 0 <= i < |s.threads| ==> !Owner(s.threads[i]);
  }

  /** Steps an owner still has to take before the lock is free. */
  function Distance(pc: Pc): nat
    requires Owner(pc)
  {
    match pc
    case Checking(_) => 7
    case Starting(_) => 6
    case Job(_) => 5
    case JobSyncing(_) => 4
    case JobFinally(_) => 3
    case Entered(_) => 3
    case Syncing(_) => 2
    case _ => 1
  }

  /** Every step an owner takes, other than a failed start, brings its acquisition closer to its release,
      or releases it, or hands it to the job thread, which is closer too. */
  lemma OwnersProgress(s: State, a: Action)
    requires Inv(s) && !a.Arrive? && a.i < |s.threads| && Owner(s.threads[a.i]) && Step(s, a) != s && !a.StartFails?
    ensures var s', pc := Step(s, a), s.threads[a.i];
            || (!s'.held && s'.releases == s.releases + [pc.t])
            || (exists j :: 0 <= j < |s'.threads| && Owner(s'.threads[j]) && s'.threads[j].t == pc.t
                            && Distance(s'.threads[j]) < Distance(pc))
  {
    OwnerHolds(s, a.i);
    var s' := Step(s, a);
    if a.StartJob? {
      assert s'.threads[|s.threads|] == Job(s.threads[a.i].t);
    } else if !a.Release? {
      assert Owner(s'.threads[a.i]);
    }
  }

  lemma RunAppend(actions: seq<Action>, a: Action)
    ensures Run(actions + [a]) == Step(Run(actions), a)
  {
    assert (actions + [a])[..|actions|] == actions;
  }

  /** A failed start is reachable: one page view is enough. */
  lemma StartCanFail() returns (actions: seq<Action>)
    ensures Run(actions).leaked.Some?
  {
    actions := [];
    RunAppend(actions, Arrive);
    actions := actions + [Arrive];
    assert Run(actions) == State(false, [Start], 0, [], None, false);
    RunAppend(actions, Kick(0));
    actions := actions + [Kick(0)];
    RunAppend(actions, TryAcquire(0));
    actions := actions + [TryAcquire(0)];
    RunAppend(actions, MarkSyncing(0));
    actions := actions + [MarkSyncing(0)];
    RunAppend(actions, StartFails(0));
    actions := actions + [StartFails(0)];
  }
}
