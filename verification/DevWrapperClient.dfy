/**
  The client over whole runs of the dev wrapper: what a completed reload stopped and started, and
  that a stop which nothing obeys comes to an end.
 */
module DevWrapperClient {
  import opened Wrappers
  import opened DevWrapperModel
  import opened DevWrapperRuns

  /** The stops of a reload are under way. */
  predicate Stopping(s: State) {
    s.reload.StoppingServer? || s.reload.StoppingClient?
  }

  /** A step completes a reload. */
  ghost predicate Completes(b: Boot, es: seq<Event>, n: nat)
    requires n < |es|
  {
    At(b, es, n + 1).tally.reloads > At(b, es, n).tally.reloads
  }

  lemma PolledKeepsClient(s: State, expired: bool)
    ensures var next := PolledReload(s, expired);
            next.Some? && (next.value.StoppingServer? || next.value.StoppingClient?) ==>
              Stopping(s) && next.value.client == s.reload.client
  {
    hide Poll, TargetsOf, LauncherTargets;
  }

  lemma PollKeepsClient(s: State, expired: bool)
    ensures var t := Step(s, ReloadPoll(expired));
            t.client == s.client && (Stopping(t) ==> Stopping(s) && t.reload.client == s.reload.client)
  {
    hide PolledReload, BeginStop, Poll, TargetsOf, ManagedTargets, LauncherTargets;
    PolledKeepsClient(s, expired);
    GivingUpStops(s);
  }

  lemma GivingUpStops(s: State)
    ensures var t := ShutDown(Abandon(s)); t.client == s.client && t.reload == NoReload
  {
  }

  predicate OfReload(e: Event) {
    e.ReloadRequest? || e.BuildFailed? || e.BuildDone? || e.ReloadPoll? || e.ReloadError? || e.ReloadResume?
  }

  lemma ReloadKeepsClient(s: State, e: Event)
    requires (Stopping(s) ==> s.reload.client == s.client) && OfReload(e) && !e.ReloadPoll?
    ensures var t := Step(s, e); Stopping(t) ==> t.reload.client == t.client && (Stopping(s) ==> t.client == s.client)
  {
    hide BeginStop, TargetsOf, LauncherTargets;
  }

  lemma RecoveryKeepsReload(s: State, e: Event)
    requires e.RecoveryPoll? || e.RecoveryError? || e.RecoveryResume?
    ensures React(s, e).reload == s.reload && React(s, e).client == s.client && React(s, e).tally.reloads == s.tally.reloads
  {
    hide BeginStop, TargetsOf, Poll, ManagedTargets, LauncherTargets;
  }

  lemma ExitKeepsReload(s: State, g: nat, code: Option<int>)
    ensures var t := OnServerExit(s, g, code);
            t.reload == s.reload && t.client == s.client && t.tally.reloads == s.tally.reloads
  {
    hide BeginStop, TargetsOf, ManagedTargets, LauncherTargets;
  }

  lemma RestKeepsReload(s: State, e: Event)
    requires e.Register? || e.ShutdownRequest? || e.ShutdownDone? || e.ProcessTable?
    ensures React(s, e).reload == s.reload && React(s, e).client == s.client && React(s, e).tally.reloads == s.tally.reloads
  {
  }

  lemma OthersKeepReload(s: State, e: Event)
    requires !OfReload(e)
    ensures Step(s, e).reload == s.reload && Step(s, e).client == s.client && Step(s, e).tally.reloads == s.tally.reloads
  {
    hide React;
    match e
    case RecoveryPoll(_) => RecoveryKeepsReload(s, e);
    case RecoveryError => RecoveryKeepsReload(s, e);
    case RecoveryResume(_) => RecoveryKeepsReload(s, e);
    case ServerExit(g, code) => ExitKeepsReload(s, g, code); ReactsToExit(s, g, code);
    case _ => RestKeepsReload(s, e);
  }

  lemma ReactsToExit(s: State, g: nat, code: Option<int>)
    ensures React(s, ServerExit(g, code)) == OnServerExit(s, g, code)
  {
    hide OnServerExit;
  }

  lemma StoppingStep(s: State, e: Event)
    requires Stopping(s) ==> s.reload.client == s.client
    ensures var t := Step(s, e); Stopping(t) ==> t.reload.client == t.client && (Stopping(s) ==> t.client == s.client)
  {
    hide Step;
    if e.ReloadPoll? {
      PollKeepsClient(s, e.expired);
    } else if OfReload(e) {
      ReloadKeepsClient(s, e);
    } else {
      OthersKeepReload(s, e);
    }
  }

  lemma CompletingStep(s: State, e: Event)
    requires Inv(s) && Step(s, e).tally.reloads > s.tally.reloads
    ensures !s.exited && e.ReloadResume? && s.reload.StoppingClient? && s.reload.stop.Dead?
    ensures Step(s, e).generation == s.generation + 1
    ensures Step(s, e).client == if !s.builtClient then e.vite else if s.client == s.reload.client then None else s.client
  {
    hide LogOk, StopOk, ClientStopOk, CountsOk, PolledReload, Poll, BeginStop, TargetsOf, ManagedTargets, LauncherTargets;
  }

  lemma OtherStepsKeepClient(s: State, e: Event)
    requires Inv(s) && !s.builtClient && Step(s, e).tally.reloads <= s.tally.reloads
    ensures Step(s, e).client == s.client
  {
    hide LogOk, StopOk, ClientStopOk, CountsOk, PolledReload, Poll, BeginStop, TargetsOf, ManagedTargets, LauncherTargets;
  }

  /** In any state whose reload is stopping, the step that began the stops; it recorded the client of that moment. */
  lemma {:induction false} StopsBegan(b: Boot, es: seq<Event>, n: nat) returns (k: nat)
    requires n <= |es| && Stopping(At(b, es, n))
    ensures k < n && !Stopping(At(b, es, k)) && At(b, es, n).client == At(b, es, n).reload.client
    ensures forall m :: k < m <= n ==> Stopping(At(b, es, m)) && At(b, es, m).reload.client == At(b, es, k + 1).client
  {
    hide Step, Run, At;
    AtStart(b, es);
    NothingStops(b);
    if n > 0 {
      AtNext(b, es, n - 1);
      if Stopping(At(b, es, n - 1)) {
        k := StopsBegan(b, es, n - 1);
        StoppingStep(At(b, es, n - 1), es[n-1]);
      } else {
        StoppingStep(At(b, es, n - 1), es[n-1]);
        k := n - 1;
      }
    }
  }

  lemma NothingStops(b: Boot)
    ensures !Stopping(b.Start()) && b.Start().client == if b.builtClient then None else b.vite
  {
  }

  /**
    A reload is completed only out of stops that have been under way since one step.  All targets its
    server had when they were last recorded were seen dead at one moment, and later, before the
    replacement, the process table held no launcher target of the client there was when the stops began.
   */
  lemma ReloadStopsClient(b: Boot, es: seq<Event>, n: nat) returns (k: nat, i: nat, j: nat, m: nat)
    requires n < |es| && Completes(b, es, n)
    ensures i <= j < m < n && ReliesOn(b, es, At(b, es, n + 1).generation, i, n)
    ensures ManagedTargets(At(b, es, i).servers[At(b, es, n).current]) !! At(b, es, j).alive
    ensures k < n && !Stopping(At(b, es, k)) && forall x :: k < x <= n ==> Stopping(At(b, es, x))
    ensures LauncherTargets(At(b, es, k + 1).client) !! At(b, es, m).alive
  {
    hide Inv, Step, Run, ManagedTargets, LauncherTargets, Held;
    AtNext(b, es, n);
    AtInv(b, es, n);
    var s := At(b, es, n);
    CompletingStep(s, es[n]);
    k := StopsBegan(b, es, n);
    ReplacementRelies(b, es, n);
    i := Held(s).value.since;
    HistoryLength(b, es, n);
    j, m := SeenDead(s);
  }

  lemma ReplacementRelies(b: Boot, es: seq<Event>, n: nat)
    requires n < |es| && At(b, es, n + 1).generation == At(b, es, n).generation + 1
    ensures Held(At(b, es, n)).Some?
    ensures ReliesOn(b, es, At(b, es, n + 1).generation, Held(At(b, es, n)).value.since, n)
  {
    hide Inv, Step, Run, ManagedTargets, Held;
    AtNext(b, es, n);
    AtInv(b, es, n);
    SpawnStep(At(b, es, n), es[n]);
    CurrentIsGeneration(At(b, es, n));
    CountsFromOne(At(b, es, n));
    HeldSince(b, es, n);
    var i := Held(At(b, es, n)).value.since;
    assert Waits(At(b, es, n), ManagedTargets(At(b, es, i).servers[At(b, es, n).current]), i);
  }

  lemma CountsFromOne(s: State)
    requires Inv(s)
    ensures s.generation >= 1
  {
  }

  /** The moments at which the server's targets and then the client's were seen dead. */
  lemma SeenDead(s: State) returns (j: nat, m: nat)
    requires Inv(s) && s.reload.StoppingClient? && s.reload.stop.Dead?
    ensures Held(s).Some? && Held(s).value.since <= j < m < |s.history|
    ensures Held(s).value.targets !! s.history[j].alive && LauncherTargets(s.reload.client) !! s.history[m].alive
  {
    j, m := s.reload.dead.at, s.reload.stop.at;
  }

  /** The Vite process started by the last completed reload before state `n`, or the one of startup. */
  ghost function LastVite(b: Boot, es: seq<Event>, n: nat): Option<Pid>
    requires n <= |es|
  {
    if n == 0 then b.vite
    else if Completes(b, es, n - 1) && es[n-1].ReloadResume? then es[n-1].vite
    else LastVite(b, es, n - 1)
  }

  /** Without a client build the client is the Vite process last started. */
  lemma {:induction false} ClientIsLastVite(b: Boot, es: seq<Event>, n: nat)
    requires n <= |es| && !b.builtClient
    ensures At(b, es, n).client == LastVite(b, es, n) && !At(b, es, n).builtClient
  {
    hide Inv, Step, Run, At;
    AtStart(b, es);
    NothingStops(b);
    InitBuiltClient(b.builtClient, b.launcher, b.vite, b.alive);
    if n > 0 {
      ClientIsLastVite(b, es, n - 1);
      AtNext(b, es, n - 1);
      AtInv(b, es, n - 1);
      BuiltClientStep(At(b, es, n - 1), es[n-1]);
      if Completes(b, es, n - 1) {
        CompletingStep(At(b, es, n - 1), es[n-1]);
      } else {
        OtherStepsKeepClient(At(b, es, n - 1), es[n-1]);
      }
    }
  }

  /** With one, a completed reload leaves no client process behind. */
  lemma BuiltReloadLeavesNoClient(b: Boot, es: seq<Event>, n: nat)
    requires n < |es| && Completes(b, es, n) && At(b, es, n).builtClient
    ensures At(b, es, n + 1).client == None
  {
    hide Inv, Step, Run, At;
    AtNext(b, es, n);
    AtInv(b, es, n);
    CompletingStep(At(b, es, n), es[n]);
    var k := StopsBegan(b, es, n);
  }

  /** A client build that was under way ends in step `n`. */
  ghost predicate EndsBuild(b: Boot, es: seq<Event>, n: nat)
    requires n < |es|
  {
    !At(b, es, n).exited && At(b, es, n).reload.Building? && (es[n].BuildDone? || es[n].BuildFailed?)
  }

  /** The process left by the last client build that ended before state `n`, unless a reload was completed since. */
  ghost function LastLeft(b: Boot, es: seq<Event>, n: nat): Option<Pid>
    requires n <= |es|
  {
    if n == 0 || Completes(b, es, n - 1) then None
    else if EndsBuild(b, es, n - 1) then es[n-1].left
    else LastLeft(b, es, n - 1)
  }

  lemma BuildStep(s: State, e: Event)
    requires Inv(s) && s.builtClient && Step(s, e).tally.reloads <= s.tally.reloads
    ensures Step(s, e).client ==
            if !s.exited && s.reload.Building? && (e.BuildDone? || e.BuildFailed?) then e.left else s.client
  {
    hide LogOk, StopOk, ClientStopOk, CountsOk, PolledReload, Poll, BeginStop, TargetsOf, ManagedTargets, LauncherTargets;
  }

  /** With a client build the client is what the last build left, until a reload is completed. */
  lemma {:induction false} ClientIsLastLeft(b: Boot, es: seq<Event>, n: nat)
    requires n <= |es| && b.builtClient
    ensures At(b, es, n).client == LastLeft(b, es, n) && At(b, es, n).builtClient
  {
    hide Inv, Step, Run, At;
    AtStart(b, es);
    NothingStops(b);
    InitBuiltClient(b.builtClient, b.launcher, b.vite, b.alive);
    if n > 0 {
      ClientIsLastLeft(b, es, n - 1);
      AtNext(b, es, n - 1);
      AtInv(b, es, n - 1);
      BuiltClientStep(At(b, es, n - 1), es[n-1]);
      if Completes(b, es, n - 1) {
        BuiltReloadLeavesNoClient(b, es, n - 1);
      } else {
        BuildStep(At(b, es, n - 1), es[n-1]);
      }
    }
  }

  /** A server that outlives every signal to its deadline ends the reload in a shutdown, after three deadlines. */
  lemma SurvivorEndsReload(s: State, target: int)
    requires !s.exited && s.reload.StoppingServer? && s.reload.stop.Polling? && s.reload.stop.signal == Hup
    requires target in s.alive && target in s.reload.stop.targets && target in TargetsOf(s, s.reload.server)
    ensures var two := Step(Step(s, ReloadPoll(true)), ReloadPoll(true));
            && two.reload.StoppingServer? && two.reload.stop.Polling? && two.reload.stop.signal == Kill
            && two.shutdownStarted == s.shutdownStarted
            && Step(two, ReloadPoll(true)).shutdownStarted && Step(two, ReloadPoll(true)).reload == NoReload
  {
    hide ManagedTargets, LauncherTargets;
    var one := Step(s, ReloadPoll(true));
    assert one.reload == StoppingServer(s.reload.server, s.reload.client, BeginStop(s, TargetsOf(s, s.reload.server)));
    var two := Step(one, ReloadPoll(true));
    assert two.reload.stop == Polling(Kill, one.reload.stop.targets, one.reload.stop.since);
  }
}
