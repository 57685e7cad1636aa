// Bounded waiting in timer ticks: whoever is ready becomes current before a round of
// ticks, yields and WAIT_PID turns is over, whatever else happens in between.
module KernelTurns {
  import opened Machine
  import opened Syscalls
  import opened KernelSafety
  import opened KernelRuns
  import opened KernelLifecycle
  import opened KernelCalls

  // A step that offers the processor to others: a yield or timer tick in user mode, or
  // a turn of a WAIT_PID on a living process.
  ghost predicate Tick(m: State, a: Action) {
    || (User(m) && a == Yield)
    || exists target: nat :: WaitsForLiving(m, a, target)
  }

  ghost predicate WaitsForLiving(m: State, a: Action, target: nat) {
    WaitPidTurn(m, a, target) && target < |m.procs| && target != m.current && m.procs[target].state != Done
  }

  ghost predicate SameStates(m: State, w: State) {
    |w.procs| == |m.procs| && forall i :: 0 <= i < |m.procs| ==> w.procs[i].state == m.procs[i].state
  }

  // Such a step leaves everybody as ready as before and gives way.
  lemma TickGivesWay(m: State, a: Action)
    requires TableOk(m) && Tick(m, a)
    ensures SameStates(m, Next(m, a)) && GivesWay(m, Next(m, a)) && !Next(m, a).halted
  {
    hide Step, GivesWay, TableOk;
    if User(m) && a == Yield {
      YieldGivesWay(m);
    } else {
      var target: nat :| WaitsForLiving(m, a, target);
      WaitPidParks(m, a, target);
    }
  }

  // The steps of a run that offer the processor.
  ghost function Ticks(m: State, actions: seq<Action>): nat {
    if actions == [] then 0
    else
      var init, a := actions[..|actions| - 1], actions[|actions| - 1];
      Ticks(m, init) + if Tick(After(m, init), a) then 1 else 0
  }

  lemma {:induction false} SwitchesPrefix(log: seq<Event>, log': seq<Event>)
    requires log <= log'
    ensures Switches(log) <= Switches(log')
    decreases |log'|
  {
    if log != log' {
      SwitchesPrefix(log, log'[..|log'| - 1]);
    } else {
      assert log == log';
    }
  }

  // Offering the processor while `p` is ready and not chosen is a context switch.
  lemma TickSwitches(m: State, a: Action, p: nat)
    requires Sound(m) && Awake(m) && p < |m.procs| && m.procs[p].state == Ready && Next(m, a).current != p
    ensures Switches(m.log) + (if Tick(m, a) then 1 else 0) <= Switches(Next(m, a).log)
  {
    hide Step, Tick, Safe, SpacesPresent, CurrentUnblocked;
    var w := Next(m, a);
    SoundTable(m);
    if Tick(m, a) {
      TickGivesWay(m, a);
      assert p != m.current ==> OthersReady(m);
      LogSwitches(m.log, Switched(w.current));
    } else {
      LogGrows(m, a);
      SwitchesPrefix(m.log, w.log);
    }
  }

  lemma {:induction false} TicksAreSwitches(m: State, actions: seq<Action>, p: nat)
    requires Sound(m) && KeptWaiting(m, actions, p)
    ensures Sound(After(m, actions)) && Switches(m.log) + Ticks(m, actions) <= Switches(After(m, actions).log)
  {
    hide Awake, Sound, Next, Tick;
    if actions != [] {
      var init, a := actions[..|actions| - 1], actions[|actions| - 1];
      assert forall k :: 0 <= k <= |init| ==> init[..k] == actions[..k];
      assert actions[..|init|] == init && actions[..|actions|] == actions;
      TicksAreSwitches(m, init, p);
      NextSound(After(m, init), a);
      TickSwitches(After(m, init), a, p);
    }
  }

  // Whatever a run consists of, a process that is ready all along and never made
  // current in it has seen fewer ticks than its distance in the round plus the number
  // of processes created meanwhile.
  lemma BoundedTicks(m: State, actions: seq<Action>, p: nat)
    requires Sound(m) && KeptWaiting(m, actions, p)
    ensures Running(m) && Ticks(m, actions) < Distance(m, p) + (|After(m, actions).procs| - |m.procs|)
  {
    hide Awake, Sound, After, Ticks, KeptWaiting;
    TicksAreSwitches(m, actions, p);
    BoundedWaiting(m, actions, p);
  }

  // So when every step is a tick, a ready process is current after at most as many
  // steps as it is places away in the round.
  lemma TickRound(m: State, actions: seq<Action>, p: nat)
    requires Sound(m) && Running(m) && p < |m.procs| && m.procs[p].state == Ready && |actions| == Distance(m, p)
    requires forall k :: 0 <= k < |actions| ==> Tick(After(m, actions[..k]), actions[k])
    ensures exists k: nat :: 0 < k <= |actions| && After(m, actions[..k]).current == p
  {
    hide Awake, Sound, After, Tick;
    if forall k: nat :: 0 < k <= |actions| ==> After(m, actions[..k]).current != p {
      AllTicks(m, actions);
      forall k | 0 <= k <= |actions|
        ensures SameStates(m, After(m, actions[..k]))
      {
        TicksBefore(m, actions, k);
        AllTicks(m, actions[..k]);
      }
      assert KeptWaiting(m, actions, p);
      BoundedTicks(m, actions, p);
      assert false;
    }
  }

  lemma TicksBefore(m: State, actions: seq<Action>, n: nat)
    requires n <= |actions| && forall k :: 0 <= k < |actions| ==> Tick(After(m, actions[..k]), actions[k])
    ensures var first := actions[..n];
      forall k :: 0 <= k < |first| ==> Tick(After(m, first[..k]), first[k])
  {
    hide After, Tick;
    forall k | 0 <= k < n
      ensures Tick(After(m, actions[..n][..k]), actions[..n][k])
    {
      assert actions[..n][..k] == actions[..k];
    }
  }

  lemma {:induction false} AllTicks(m: State, actions: seq<Action>)
    requires Sound(m) && forall k :: 0 <= k < |actions| ==> Tick(After(m, actions[..k]), actions[k])
    ensures Sound(After(m, actions)) && Ticks(m, actions) == |actions| && SameStates(m, After(m, actions))
  {
    hide Awake, Sound, Next, Tick;
    if actions != [] {
      var n := |actions| - 1;
      TicksBefore(m, actions, n);
      AllTicks(m, actions[..n]);
      SoundTable(After(m, actions[..n]));
      NextSound(After(m, actions[..n]), actions[n]);
      TickGivesWay(After(m, actions[..n]), actions[n]);
    }
  }
}
