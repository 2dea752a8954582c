/**
  Whole runs of the dev wrapper: which targets each replacement waited for, and what every recovery
  and shutdown came from.
 */
module DevWrapperRuns {
  import opened Wrappers
  import opened DevWrapperModel

  /** How startup ended, with no shutdown begun. */
  datatype Boot = Boot(builtClient: bool, launcher: Option<Pid>, vite: Option<Pid>, alive: set<int>) {
    function Start(): State {
      Init(builtClient, false, launcher, vite, alive)
    }
  }

  /** The state after the first `k` events. */
  ghost function At(b: Boot, es: seq<Event>, k: nat): State
    requires k <= |es|
  {
    Run(b.Start(), es[..k])
  }

  lemma AtNext(b: Boot, es: seq<Event>, k: nat)
    requires k < |es|
    ensures At(b, es, k + 1) == Step(At(b, es, k), es[k])
  {
    assert es[..k+1][..k] == es[..k];
  }

  lemma AtStart(b: Boot, es: seq<Event>)
    ensures At(b, es, 0) == b.Start()
  {
    assert es[..0] == [];
  }

  lemma AtInv(b: Boot, es: seq<Event>, k: nat)
    requires k <= |es|
    ensures Inv(At(b, es, k))
  {
    InitInv(b.builtClient, b.launcher, b.vite, b.alive);
    RunKeepsInv(b.Start(), es[..k]);
  }

  // ---- the stop a replacement relies on ----

  /** The stop of the server that is in flight: of a reload, also while its client is stopped, or of a recovery. */
  ghost function Held(s: State): Option<Stop> {
    match s.reload
    case StoppingServer(_, _, stop) => Some(stop)
    case StoppingClient(_, _, dead, _) => Some(dead)
    case _ => if s.recovery.Recovering? then Some(s.recovery.stop) else None
  }

  /** A stop is in flight that waits for `targets`, recorded by the step from state `since`. */
  ghost predicate Waits(s: State, targets: set<int>, since: nat) {
    Held(s).Some? && Held(s).value.targets == targets && Held(s).value.since == since
  }

  /** The record in flight in `t` is the one of `s`, or a new one of all the targets the server has in `s`. */
  ghost predicate Renews(s: State, t: State) {
    Held(t).Some? ==>
      var now := Held(t).value;
      || (Held(s).Some? && now.targets == Held(s).value.targets && now.since == Held(s).value.since)
      || (now.since == |s.history| && s.current in s.servers && now.targets == ManagedTargets(s.servers[s.current]))
  }

  lemma BuildRenews(s: State, e: Event)
    requires Inv(s) && !s.exited && (e.ReloadRequest? || e.BuildFailed? || e.BuildDone?)
    ensures Renews(s, Step(s, e)) && (Held(Step(s, e)).Some? ==> Step(s, e).current == s.current)
  {
    hide LogOk, StopOk, CountsOk, ManagedTargets, LauncherTargets;
  }

  lemma ReloadPollRenews(s: State, e: Event)
    requires Inv(s) && !s.exited && e.ReloadPoll?
    ensures Renews(s, Step(s, e)) && (Held(Step(s, e)).Some? ==> Step(s, e).current == s.current)
  {
    hide LogOk, StopOk, CountsOk, ManagedTargets, LauncherTargets;
  }

  lemma ReloadRenews(s: State, e: Event)
    requires Inv(s) && !s.exited && (e.ReloadError? || e.ReloadResume?)
    ensures Renews(s, Step(s, e)) && (Held(Step(s, e)).Some? ==> Step(s, e).current == s.current)
  {
    hide LogOk, StopOk, CountsOk, ManagedTargets, LauncherTargets;
  }

  lemma RecoveryRenews(s: State, e: Event)
    requires Inv(s) && !s.exited && (e.RecoveryPoll? || e.RecoveryError? || e.RecoveryResume?)
    ensures Renews(s, Step(s, e)) && (Held(Step(s, e)).Some? ==> Step(s, e).current == s.current)
  {
    hide LogOk, StopOk, CountsOk, ManagedTargets, LauncherTargets;
  }

  lemma OtherRenews(s: State, e: Event)
    requires Inv(s) && !s.exited
    requires e.ServerExit? || e.Register? || e.ShutdownRequest? || e.ShutdownDone? || e.ProcessTable?
    ensures Renews(s, Step(s, e)) && (Held(Step(s, e)).Some? ==> Step(s, e).current == s.current)
  {
    hide LogOk, StopOk, CountsOk, ManagedTargets, LauncherTargets;
  }

  /** One step keeps the record in flight or makes a new one, of all the targets the server has then. */
  lemma HeldStep(s: State, e: Event)
    requires Inv(s) && !s.exited
    ensures Renews(s, Step(s, e)) && (Held(Step(s, e)).Some? ==> Step(s, e).current == s.current)
  {
    hide Inv, Step, Renews, Held;
    match e
    case ReloadRequest => BuildRenews(s, e);
    case BuildFailed(_) => BuildRenews(s, e);
    case BuildDone(_) => BuildRenews(s, e);
    case ReloadPoll(_) => ReloadPollRenews(s, e);
    case ReloadError => ReloadRenews(s, e);
    case ReloadResume(_, _) => ReloadRenews(s, e);
    case RecoveryPoll(_) => RecoveryRenews(s, e);
    case RecoveryError => RecoveryRenews(s, e);
    case RecoveryResume(_) => RecoveryRenews(s, e);
    case _ => OtherRenews(s, e);
  }

  /** A server is started only out of a finished stop of its predecessor. */
  lemma SpawnStep(s: State, e: Event)
    requires Inv(s) && Step(s, e).generation != s.generation
    ensures !s.exited && Step(s, e).generation == s.generation + 1
    ensures Held(s).Some? && Held(s).value.Dead? && StopOk(s.history, s.current, Held(s).value)
  {
    hide LogOk, StopOk, CountsOk, ManagedTargets, LauncherTargets, Poll, BeginStop;
  }

  /**
    Step `n` starts generation `g`, out of a stop that step `i` recorded: of exactly the targets the
    predecessor had then, and in flight from there to the start.
   */
  ghost predicate ReliesOn(b: Boot, es: seq<Event>, g: nat, i: nat, n: nat) {
    && i < n < |es| && g >= 2
    && At(b, es, i).current == At(b, es, n).current == At(b, es, n).generation == g - 1
    && At(b, es, n + 1).generation == g
    && g - 1 in At(b, es, i).servers
    && (Held(At(b, es, i)).Some? ==> Held(At(b, es, i)).value.since != i)
    && forall m :: i < m <= n ==> Waits(At(b, es, m), ManagedTargets(At(b, es, i).servers[g-1]), i)
  }

  lemma HistoryLength(b: Boot, es: seq<Event>, k: nat)
    requires k <= |es|
    ensures |At(b, es, k).history| <= k && (!At(b, es, k).exited ==> |At(b, es, k).history| == k)
    ensures forall i :: 0 <= i < |At(b, es, k).history| ==>
              At(b, es, k).history[i] == Snapshot(At(b, es, i).alive, At(b, es, i).servers)
  {
    FreshHistory(b.builtClient, b.launcher, b.vite, b.alive);
    HistoryIsTheRun(b.Start(), es[..k]);
    forall i | 0 <= i <= k ensures es[..k][..i] == es[..i] {
    }
  }

  /** The record in flight in any state of a run was made by the step it names and has been in flight since. */
  lemma {:induction false} HeldSince(b: Boot, es: seq<Event>, n: nat)
    requires n <= |es| && Held(At(b, es, n)).Some? && !At(b, es, n).exited
    ensures var i := Held(At(b, es, n)).value.since;
            && i < n && At(b, es, i).current in At(b, es, i).servers
            && At(b, es, i).current == At(b, es, n).current
            && (Held(At(b, es, i)).Some? ==> Held(At(b, es, i)).value.since != i)
            && forall m :: i < m <= n ==> Waits(At(b, es, m), ManagedTargets(At(b, es, i).servers[At(b, es, i).current]), i)
    decreases n
  {
    hide Inv, Step, Run, ManagedTargets, Held;
    AtStart(b, es);
    NothingHeld(b);
    if n > 0 {
      AtNext(b, es, n - 1);
      AtInv(b, es, n - 1);
      HistoryLength(b, es, n - 1);
      var s := At(b, es, n - 1);
      NotExited(s, es[n-1]);
      HeldStep(s, es[n-1]);
      if Held(s).Some? { HeldIsOld(s); }
      if Held(s).Some? && Held(At(b, es, n)).value.since == Held(s).value.since {
        HeldSince(b, es, n - 1);
      }
    }
  }

  lemma NothingHeld(b: Boot)
    ensures Held(b.Start()).None?
  {
  }

  lemma NotExited(s: State, e: Event)
    requires !Step(s, e).exited
    ensures !s.exited
  {
  }

  lemma HeldIsOld(s: State)
    requires Inv(s) && Held(s).Some?
    ensures Held(s).value.since < |s.history|
  {
  }

  /** The step that starts generation `g`. */
  lemma {:induction false} StartOf(b: Boot, es: seq<Event>, k: nat, g: nat) returns (n: nat)
    requires k <= |es| && 2 <= g <= At(b, es, k).generation
    ensures n < k && At(b, es, n).generation == g - 1 && At(b, es, n + 1).generation == g
  {
    hide Inv, Step, Run;
    AtStart(b, es);
    StartsWithOne(b);
    if k > 0 {
      AtNext(b, es, k - 1);
      AtInv(b, es, k - 1);
      if At(b, es, k - 1).generation >= g {
        n := StartOf(b, es, k - 1, g);
      } else {
        SpawnStep(At(b, es, k - 1), es[k-1]);
        n := k - 1;
      }
    }
  }

  lemma StartsWithOne(b: Boot)
    ensures b.Start().generation == 1
  {
  }

  /**
    Every later server was started only out of a stop that had recorded all the process targets its
    predecessor had at that step, stayed in flight until the start, and saw all of them dead at one
    moment in between.
   */
  lemma ReplacementIsSafe(b: Boot, es: seq<Event>, g: nat) returns (i: nat, j: nat, n: nat)
    requires 2 <= g <= At(b, es, |es|).generation
    ensures ReliesOn(b, es, g, i, n)
    ensures i <= j < n && ManagedTargets(At(b, es, i).servers[g-1]) !! At(b, es, j).alive
  {
    hide Inv, Step, Run, ManagedTargets, Held;
    n := StartOf(b, es, |es|, g);
    AtNext(b, es, n);
    AtInv(b, es, n);
    var s := At(b, es, n);
    SpawnStep(s, es[n]);
    CurrentIsGeneration(s);
    HeldSince(b, es, n);
    HistoryLength(b, es, n);
    i, j := Held(s).value.since, Held(s).value.at;
    assert Waits(s, ManagedTargets(At(b, es, i).servers[g-1]), i);
  }

  lemma CurrentIsGeneration(s: State)
    requires Inv(s)
    ensures s.current == s.generation
  {
  }

  // ---- targets that came after the record ----

  /** A registration of the current server `g` is accepted. */
  ghost predicate Accepts(s: State, e: Event, g: nat) {
    !s.exited && s.controlOpen && e.Register? && e.generation == g == s.current && e.pid > 1
  }

  /** Server `g` of `s` is in `t`, with its launcher and this backend. */
  ghost predicate KeepsServer(s: State, t: State, g: nat, backend: Option<int>)
    requires g in s.servers
  {
    g in t.servers && t.servers[g].launcher == s.servers[g].launcher && t.servers[g].backend == backend
  }

  lemma ReplacingKeepsServer(s: State, e: Event, g: nat)
    requires Inv(s) && g in s.servers && (e.ReloadResume? || e.RecoveryResume?)
    ensures KeepsServer(s, Step(s, e), g, s.servers[g].backend)
  {
    hide LogOk, StopOk, CountsOk, ManagedTargets, LauncherTargets, Poll, BeginStop;
  }

  lemma HandlersKeepServer(s: State, e: Event, g: nat)
    requires Inv(s) && g in s.servers && (e.ServerExit? || e.Register?)
    ensures KeepsServer(s, Step(s, e), g, if Accepts(s, e, g) then Some(e.pid) else s.servers[g].backend)
  {
    hide LogOk, StopOk, CountsOk, ManagedTargets, LauncherTargets, Poll, BeginStop;
  }

  lemma OthersKeepServers(s: State, e: Event)
    requires !e.ReloadResume? && !e.RecoveryResume? && !e.ServerExit? && !e.Register?
    ensures Step(s, e).servers == s.servers
  {
    hide ManagedTargets, LauncherTargets, Poll, BeginStop, TargetsOf, PolledReload;
  }

  /** A server keeps its launcher, and its backend is that of the last accepted registration. */
  lemma ServerStep(s: State, e: Event, g: nat)
    requires Inv(s) && g in s.servers
    ensures KeepsServer(s, Step(s, e), g, if Accepts(s, e, g) then Some(e.pid) else s.servers[g].backend)
  {
    hide Inv, Step;
    if e.ReloadResume? || e.RecoveryResume? {
      ReplacingKeepsServer(s, e, g);
    } else if e.ServerExit? || e.Register? {
      HandlersKeepServer(s, e, g);
    } else {
      OthersKeepServers(s, e);
    }
  }

  /** The pid of the last registration of `g` accepted in steps `i` to before `n`. */
  ghost function LastRegistered(b: Boot, es: seq<Event>, g: nat, i: nat, n: nat): Option<int>
    requires n <= |es|
    decreases n
  {
    if n <= i then None
    else if Accepts(At(b, es, n - 1), es[n-1], g) then Some(es[n-1].pid)
    else LastRegistered(b, es, g, i, n - 1)
  }

  lemma {:induction false} ServerAt(b: Boot, es: seq<Event>, g: nat, i: nat, n: nat)
    requires i <= n <= |es| && g in At(b, es, i).servers
    ensures g in At(b, es, n).servers && At(b, es, n).servers[g].launcher == At(b, es, i).servers[g].launcher
    ensures var last := LastRegistered(b, es, g, i, n);
            At(b, es, n).servers[g].backend == if last.Some? then last else At(b, es, i).servers[g].backend
    decreases n
  {
    hide Inv, Step, Run;
    if i < n {
      ServerAt(b, es, g, i, n - 1);
      AtNext(b, es, n - 1);
      AtInv(b, es, n - 1);
      ServerStep(At(b, es, n - 1), es[n-1], g);
    }
  }

  lemma {:induction false} RegisteredAreReal(b: Boot, es: seq<Event>, g: nat, i: nat, n: nat)
    requires n <= |es|
    ensures LastRegistered(b, es, g, i, n).Some? ==> LastRegistered(b, es, g, i, n).value > 1
    decreases n
  {
    if i < n && !Accepts(At(b, es, n - 1), es[n-1], g) {
      RegisteredAreReal(b, es, g, i, n - 1);
    }
  }

  lemma SameTargetsIff(s: Server, t: Server)
    requires s.launcher == t.launcher && t.backend.Some? && t.backend.value > 1
    ensures ManagedTargets(s) == ManagedTargets(t) <==> s.backend == t.backend
    ensures ManagedTargets(t) <= ManagedTargets(s) <==> s.backend == t.backend
  {
    if ManagedTargets(t) <= ManagedTargets(s) {
      assert t.backend.value in ManagedTargets(t);
      assert t.backend.value !in LauncherTargets(s.launcher);
    }
  }

  /**
    The targets a replacement waited for are all the targets its predecessor has when it starts exactly
    when no registration was accepted after the record, or the last one carried the backend recorded.
   */
  lemma AllTargetsAwaitedIff(b: Boot, es: seq<Event>, g: nat, i: nat, n: nat)
    requires ReliesOn(b, es, g, i, n)
    ensures g - 1 in At(b, es, n).servers
    ensures var last := LastRegistered(b, es, g - 1, i, n);
            ManagedTargets(At(b, es, n).servers[g-1]) <= ManagedTargets(At(b, es, i).servers[g-1])
            <==> last.None? || last == At(b, es, i).servers[g-1].backend
  {
    hide At, ManagedTargets, LauncherTargets, Held;
    ServerAt(b, es, g - 1, i, n);
    RegisteredAreReal(b, es, g - 1, i, n);
    var s, t := At(b, es, i).servers[g-1], At(b, es, n).servers[g-1];
    if LastRegistered(b, es, g - 1, i, n).Some? {
      SameTargetsIff(s, t);
    } else {
      SameServerSameTargets(s, t);
    }
  }

  lemma SameServerSameTargets(s: Server, t: Server)
    requires s.launcher == t.launcher && s.backend == t.backend
    ensures ManagedTargets(s) == ManagedTargets(t)
  {
  }

  /** Some registration accepted in steps `i` to before `n` carries another backend than that of state `i`. */
  ghost predicate Changed(b: Boot, es: seq<Event>, g: nat, i: nat, n: nat)
    requires i <= n <= |es| && g in At(b, es, i).servers
  {
    exists m :: i <= m < n && Accepts(At(b, es, m), es[m], g) && At(b, es, i).servers[g].backend != Some(es[m].pid)
  }

  /**
    The targets waited for are the predecessor's targets at every moment from the record to the start
    exactly when no registration that changes its backend was accepted in between.
   */
  lemma AlwaysAwaitedIff(b: Boot, es: seq<Event>, g: nat, i: nat, n: nat)
    requires ReliesOn(b, es, g, i, n)
    ensures forall m :: i <= m <= n ==> g - 1 in At(b, es, m).servers
    ensures (forall m :: i <= m <= n ==> ManagedTargets(At(b, es, m).servers[g-1]) == ManagedTargets(At(b, es, i).servers[g-1]))
            <==> !Changed(b, es, g - 1, i, n)
  {
    hide At, ManagedTargets, LauncherTargets, Held;
    var s := At(b, es, i).servers[g-1];
    forall m | i <= m <= n ensures g - 1 in At(b, es, m).servers && At(b, es, m).servers[g-1].launcher == s.launcher {
      ServerAt(b, es, g - 1, i, m);
    }
    if Changed(b, es, g - 1, i, n) {
      var m :| i <= m < n && Accepts(At(b, es, m), es[m], g - 1) && s.backend != Some(es[m].pid);
      ServerAt(b, es, g - 1, i, m + 1);
      SameTargetsIff(s, At(b, es, m + 1).servers[g-1]);
    } else {
      forall m | i <= m <= n ensures ManagedTargets(At(b, es, m).servers[g-1]) == ManagedTargets(s) {
        ServerAt(b, es, g - 1, i, m);
        LastIsUnchanged(b, es, g - 1, i, m, n);
        SameServerSameTargets(s, At(b, es, m).servers[g-1]);
      }
    }
  }

  lemma {:induction false} LastIsUnchanged(b: Boot, es: seq<Event>, g: nat, i: nat, m: nat, n: nat)
    requires i <= m <= n <= |es| && g in At(b, es, i).servers && !Changed(b, es, g, i, n)
    ensures var last := LastRegistered(b, es, g, i, m); last.None? || last == At(b, es, i).servers[g].backend
    decreases m
  {
    hide At, Accepts;
    if i < m && !Accepts(At(b, es, m - 1), es[m-1], g) {
      LastIsUnchanged(b, es, g, i, m - 1, n);
    }
  }

  // ---- a backend that registers too late ----

  /** A reload during which the backend registers after the record; only the launcher is seen dead. */
  function LateRegistration(builtClient: bool, pid: int): seq<Event> {
    [ReloadRequest] + [if builtClient then BuildDone(None) else ProcessTable({})] + [Register(1, pid)] +
    [ProcessTable({pid})] + [ReloadPoll(false)] + [ReloadResume(None, None)] + [ReloadResume(None, None)]
  }

  lemma AskedToStop(b: Boot)
    ensures var s := Step(Step(b.Start(), ReloadRequest), if b.builtClient then BuildDone(None) else ProcessTable({}));
            && s.phase == Reloading && s.generation == 1 == s.current && s.controlOpen && !s.exited
            && s.reload.StoppingServer? && s.reload.stop.Polling? && s.reload.stop.targets == LauncherTargets(b.launcher)
            && s.servers == map[1 := Server(b.launcher, None, false)]
            && s.reload.client == if b.builtClient then None else b.vite
  {
  }

  lemma LateStep(s: State, b: Boot, pid: int)
    requires pid > 1 && s.phase == Reloading && s.generation == 1 == s.current && s.controlOpen && !s.exited
    requires s.reload.StoppingServer? && s.reload.stop.Polling? && s.reload.stop.targets == LauncherTargets(b.launcher)
    requires s.servers == map[1 := Server(b.launcher, None, false)]
    ensures var t := Step(Step(s, Register(1, pid)), ProcessTable({pid}));
            && t.alive == {pid} && t.servers == map[1 := Server(b.launcher, Some(pid), false)]
            && t.phase == s.phase && t.reload == s.reload && t.generation == 1 && !t.exited
  {
  }

  /** Generation 2 is started while the backend that generation 1 registered is alive. */
  lemma ReplacedBackendCanBeAlive(b: Boot, pid: int)
    requires pid > 1
    ensures var s := Run(b.Start(), LateRegistration(b.builtClient, pid));
            s.generation == 2 && 1 in s.servers && s.servers[1].backend == Some(pid) && pid in s.alive
  {
    hide Run, Step;
    var third := if b.builtClient then BuildDone(None) else ProcessTable({});
    var es2 := [ReloadRequest] + [third];
    var es4 := es2 + [Register(1, pid)] + [ProcessTable({pid})];
    RunOne(b.Start(), ReloadRequest);
    RunSnoc(b.Start(), [ReloadRequest], third);
    AskedToStop(b);
    RunSnoc(b.Start(), es2, Register(1, pid));
    RunSnoc(b.Start(), es2 + [Register(1, pid)], ProcessTable({pid}));
    LateStep(Run(b.Start(), es2), b, pid);
    RunSnoc(b.Start(), es4, ReloadPoll(false));
    RunSnoc(b.Start(), es4 + [ReloadPoll(false)], ReloadResume(None, None));
    RunSnoc(b.Start(), es4 + [ReloadPoll(false)] + [ReloadResume(None, None)], ReloadResume(None, None));
    HungUpReloadSpawns(Run(b.Start(), es4));
  }

  // ---- where recovery and shutdown come from ----

  /** The current server exits while the wrapper runs. */
  ghost predicate Crash(s: State, e: Event) {
    && !s.exited && s.phase == Running && e.ServerExit? && e.generation == s.current
    && s.current in s.servers && !s.servers[s.current].exited
  }

  ghost predicate FailedCrash(s: State, e: Event) {
    Crash(s, e) && e.code.Some? && e.code.value != 0
  }

  /** A target outlives SIGKILL to its deadline. */
  ghost predicate GivesUp(s: State, stop: Stop, expired: bool) {
    stop.Polling? && stop.signal == Kill && expired && !(stop.targets !! s.alive)
  }

  /** A stop fails, or the cleanup around it does. */
  ghost predicate StopFails(s: State, e: Event) {
    && !s.exited
    && match e
       case ReloadPoll(expired) => (s.reload.StoppingServer? || s.reload.StoppingClient?) && GivesUp(s, s.reload.stop, expired)
       case ReloadError => s.reload.StoppingServer? || s.reload.StoppingClient?
       case RecoveryPoll(expired) => s.recovery.Recovering? && GivesUp(s, s.recovery.stop, expired)
       case RecoveryError => s.recovery.Recovering?
       case _ => false
  }

  lemma RecoveryStep(s: State, e: Event)
    requires Inv(s)
    ensures Step(s, e).recoveryUsed <==> s.recoveryUsed || FailedCrash(s, e)
  {
    hide LogOk, StopOk, CountsOk, ManagedTargets, LauncherTargets, PolledReload, Poll, BeginStop, TargetsOf;
  }

  lemma FailedStopCause(s: State, e: Event)
    requires Inv(s) && (e.ReloadPoll? || e.ReloadError? || e.RecoveryPoll? || e.RecoveryError?)
    ensures Step(s, e).shutdownStarted <==> s.shutdownStarted || StopFails(s, e)
  {
    hide LogOk, StopOk, CountsOk, ManagedTargets, LauncherTargets, BeginStop, TargetsOf;
  }

  lemma OtherCause(s: State, e: Event)
    requires Inv(s) && !(e.ReloadPoll? || e.ReloadError? || e.RecoveryPoll? || e.RecoveryError?)
    ensures Step(s, e).shutdownStarted <==>
              s.shutdownStarted || (!s.exited && e.ShutdownRequest?) || (Crash(s, e) && (s.recoveryUsed || !FailedCrash(s, e)))
  {
    hide LogOk, StopOk, CountsOk, ManagedTargets, LauncherTargets, BeginStop, TargetsOf;
  }

  lemma ShutdownCause(s: State, e: Event)
    requires Inv(s)
    ensures Step(s, e).shutdownStarted <==>
              || s.shutdownStarted || (!s.exited && e.ShutdownRequest?) || StopFails(s, e)
              || (Crash(s, e) && (s.recoveryUsed || !FailedCrash(s, e)))
  {
    hide Inv, Step;
    if e.ReloadPoll? || e.ReloadError? || e.RecoveryPoll? || e.RecoveryError? {
      FailedStopCause(s, e);
    } else {
      OtherCause(s, e);
    }
  }

  ghost predicate HasFailedCrash(b: Boot, es: seq<Event>, n: nat)
    requires n <= |es|
  {
    exists k :: 0 <= k < n && FailedCrash(At(b, es, k), es[k])
  }

  /** The one recovery has been used exactly when the current server once failed while the wrapper ran. */
  lemma {:induction false} RecoveryIff(b: Boot, es: seq<Event>, n: nat)
    requires n <= |es|
    ensures At(b, es, n).recoveryUsed <==> HasFailedCrash(b, es, n)
  {
    hide Inv, Step, Run, FailedCrash, At;
    if n == 0 {
      AtStart(b, es);
      StartsFresh(b);
    } else {
      RecoveryIff(b, es, n - 1);
      AtNext(b, es, n - 1);
      AtInv(b, es, n - 1);
      RecoveryStep(At(b, es, n - 1), es[n-1]);
    }
  }

  lemma StartsFresh(b: Boot)
    ensures !b.Start().recoveryUsed && !b.Start().shutdownStarted && b.Start().tally.accepted == 0
  {
  }

  /** Step `k` asks for a shutdown, fails a stop, or loses the server with no recovery to answer it. */
  ghost predicate Ends(b: Boot, es: seq<Event>, k: nat)
    requires k < |es|
  {
    || (!At(b, es, k).exited && es[k].ShutdownRequest?)
    || StopFails(At(b, es, k), es[k])
    || (Crash(At(b, es, k), es[k]) && (HasFailedCrash(b, es, k) || !FailedCrash(At(b, es, k), es[k])))
  }

  /**
    A shutdown has begun exactly when it was asked for, a stop failed, or the current server exited
    while the wrapper ran and its exit was clean or not its first failure.
   */
  lemma {:induction false} ShutdownIff(b: Boot, es: seq<Event>, n: nat)
    requires n <= |es|
    ensures At(b, es, n).shutdownStarted <==> exists k :: 0 <= k < n && Ends(b, es, k)
  {
    hide Inv, Step, Run, FailedCrash, Crash, StopFails, HasFailedCrash, At;
    if n == 0 {
      AtStart(b, es);
      StartsFresh(b);
    } else {
      ShutdownIff(b, es, n - 1);
      AtNext(b, es, n - 1);
      AtInv(b, es, n - 1);
      ShutdownCause(At(b, es, n - 1), es[n-1]);
      RecoveryIff(b, es, n - 1);
      assert At(b, es, n).shutdownStarted <==> At(b, es, n - 1).shutdownStarted || Ends(b, es, n - 1);
    }
  }

  // ---- a server lost for good ----

  /** A client build fails while its reload is under way and the current server has exited. */
  ghost predicate LosesServer(s: State, e: Event) {
    && !s.exited && s.phase == Reloading && e.BuildFailed? && s.reload.Building?
    && s.current in s.servers && s.servers[s.current].exited
  }

  lemma StuckAfterReload(s: State, e: Event)
    requires Inv(s) && (e.ReloadRequest? || e.BuildFailed? || e.BuildDone? || e.ReloadPoll? || e.ReloadError? || e.ReloadResume?)
    ensures Stuck(Step(s, e)) <==> Stuck(s) || LosesServer(s, e)
  {
    hide LogOk, StopOk, CountsOk, ManagedTargets, LauncherTargets, BeginStop, TargetsOf, Poll;
  }

  lemma StuckAfterOther(s: State, e: Event)
    requires Inv(s)
    requires !(e.ReloadRequest? || e.BuildFailed? || e.BuildDone? || e.ReloadPoll? || e.ReloadError? || e.ReloadResume?)
    ensures Stuck(Step(s, e)) <==> Stuck(s) && e != ShutdownRequest
  {
    hide LogOk, StopOk, CountsOk, ManagedTargets, LauncherTargets, BeginStop, TargetsOf, Poll;
  }

  lemma StuckStep(s: State, e: Event)
    requires Inv(s)
    ensures Stuck(Step(s, e)) <==> (Stuck(s) && e != ShutdownRequest) || LosesServer(s, e)
  {
    hide Inv, Step, Stuck;
    if e.ReloadRequest? || e.BuildFailed? || e.BuildDone? || e.ReloadPoll? || e.ReloadError? || e.ReloadResume? {
      StuckAfterReload(s, e);
    } else {
      StuckAfterOther(s, e);
    }
  }

  /** Step `k` loses the server for good, and no shutdown is asked for between it and state `n`. */
  ghost predicate LostAt(b: Boot, es: seq<Event>, k: nat, n: nat)
    requires k < n <= |es|
  {
    LosesServer(At(b, es, k), es[k]) && forall m :: k < m < n ==> es[m] != ShutdownRequest
  }

  /**
    The wrapper runs without a server exactly when some client build failed after the current server
    had exited during its reload, and no shutdown was asked for since.
   */
  lemma {:induction false} StuckIff(b: Boot, es: seq<Event>, n: nat)
    requires n <= |es|
    ensures Stuck(At(b, es, n)) <==> exists k :: 0 <= k < n && LostAt(b, es, k, n)
  {
    hide Inv, Step, Run, LosesServer, Stuck, At;
    if n == 0 {
      AtStart(b, es);
      StartsUnstuck(b);
    } else {
      StuckIff(b, es, n - 1);
      AtNext(b, es, n - 1);
      AtInv(b, es, n - 1);
      StuckStep(At(b, es, n - 1), es[n-1]);
      assert LostAt(b, es, n - 1, n) <==> LosesServer(At(b, es, n - 1), es[n-1]);
      forall k | 0 <= k < n - 1 ensures LostAt(b, es, k, n) <==> LostAt(b, es, k, n - 1) && es[n-1] != ShutdownRequest {
      }
      if Stuck(At(b, es, n - 1)) && es[n-1] != ShutdownRequest {
        var k :| 0 <= k < n - 1 && LostAt(b, es, k, n - 1);
        assert LostAt(b, es, k, n);
      }
      forall k | 0 <= k < n && LostAt(b, es, k, n) ensures Stuck(At(b, es, n)) {
        if k < n - 1 { assert LostAt(b, es, k, n - 1); }
      }
    }
  }

  lemma StartsUnstuck(b: Boot)
    ensures !Stuck(b.Start())
  {
  }

  // ---- events that come at the wrong time ----

  /** A request outside the running phase, an exit of a retired server, a registration that is refused. */
  ghost predicate Ignored(s: State, e: Event) {
    match e
    case ReloadRequest => s.phase != Running || s.current !in s.servers || s.servers[s.current].exited
    case ServerExit(g, _) => g != s.current
    case Register(g, pid) => g != s.current || pid <= 1 || !s.controlOpen
    case _ => false
  }

  function Bare(stop: Stop): Stop {
    match stop
    case Polling(signal, targets, _) => Polling(signal, targets, 0)
    case Dead(targets, _, _) => Dead(targets, 0, 0)
  }

  function BareReload(r: Reload): Reload {
    match r
    case StoppingServer(server, client, stop) => StoppingServer(server, client, Bare(stop))
    case StoppingClient(server, client, dead, stop) => StoppingClient(server, client, Bare(dead), Bare(stop))
    case _ => r
  }

  function BareRecovery(r: Recovery): Recovery {
    match r
    case NoRecovery => NoRecovery
    case Recovering(server, stop) => Recovering(server, Bare(stop))
  }

  ghost predicate SameServers(s: map<nat, Server>, t: map<nat, Server>, current: nat) {
    && s.Keys == t.Keys
    && (forall g :: g in s ==> s[g].launcher == t[g].launcher && s[g].backend == t[g].backend)
    && (current in s ==> s[current].exited == t[current].exited)
  }

  /** Two states that differ at most in which retired launchers have exited and in when things were recorded. */
  ghost predicate Alike(s: State, t: State) {
    && s.builtClient == t.builtClient && s.phase == t.phase && s.current == t.current && s.generation == t.generation
    && s.client == t.client && s.recoveryUsed == t.recoveryUsed && s.shutdownStarted == t.shutdownStarted
    && s.controlOpen == t.controlOpen && s.exited == t.exited && s.alive == t.alive && s.tally == t.tally
    && BareReload(s.reload) == BareReload(t.reload) && BareRecovery(s.recovery) == BareRecovery(t.recovery)
    && SameServers(s.servers, t.servers, s.current)
  }

  lemma SameTargets(s: State, t: State, g: nat)
    requires Alike(s, t)
    ensures TargetsOf(s, g) == TargetsOf(t, g)
  {
  }

  lemma PollsAlike(s: State, t: State, x: Stop, y: Stop, expired: bool, renewed: set<int>)
    requires Bare(x) == Bare(y) && s.alive == t.alive
    ensures var p, q := Poll(s, x, expired, renewed), Poll(t, y, expired, renewed);
            p.Some? == q.Some? && (p.Some? ==> Bare(p.value) == Bare(q.value))
  {
  }

  lemma RequestAlike(s: State, t: State)
    requires Alike(s, t)
    ensures Alike(OnReloadRequest(s), OnReloadRequest(t))
  {
    hide TargetsOf, SameServers;
    SameTargets(s, t, s.current);
    SameCurrent(s, t);
  }

  lemma SameCurrent(s: State, t: State)
    requires Alike(s, t)
    ensures s.current in s.servers <==> s.current in t.servers
    ensures s.current in s.servers ==> s.servers[s.current].exited == t.servers[s.current].exited
  {
  }

  lemma AbandonAlike(s: State, t: State)
    requires Alike(s, t)
    ensures Alike(Abandon(s), Abandon(t))
  {
    hide SameServers, BareRecovery;
  }

  lemma BuildFailedAlike(s: State, t: State, left: Option<Pid>)
    requires Alike(s, t)
    ensures Alike(OnBuildFailed(s, left), OnBuildFailed(t, left))
  {
    hide SameServers;
  }

  lemma BuildDoneAlike(s: State, t: State, left: Option<Pid>)
    requires Alike(s, t)
    ensures Alike(OnBuildDone(s, left), OnBuildDone(t, left))
  {
    hide TargetsOf, SameServers, BareRecovery, Abandon;
    if s.reload.Building? {
      SameTargets(s, t, s.reload.server);
      AbandonAlike(s.(client := left), t.(client := left));
    }
  }

  lemma ErrorAlike(s: State, t: State)
    requires Alike(s, t)
    ensures Alike(OnReloadError(s), OnReloadError(t)) && Alike(OnRecoveryError(s), OnRecoveryError(t))
  {
    hide SameServers;
  }

  lemma PolledAlike(s: State, t: State, expired: bool)
    requires Alike(s, t)
    ensures var p, q := PolledReload(s, expired), PolledReload(t, expired);
            p.Some? == q.Some? && (p.Some? ==> BareReload(p.value) == BareReload(q.value))
  {
    hide TargetsOf, Poll, LauncherTargets;
    match s.reload
    case StoppingServer(server, client, stop) =>
      SameTargets(s, t, server);
      PollsAlike(s, t, stop, t.reload.stop, expired, TargetsOf(s, server));
    case StoppingClient(server, client, dead, stop) =>
      PollsAlike(s, t, stop, t.reload.stop, expired, LauncherTargets(client));
    case _ =>
  }

  lemma ReloadPollAlike(s: State, t: State, expired: bool)
    requires Alike(s, t)
    ensures Alike(OnReloadPoll(s, expired), OnReloadPoll(t, expired))
  {
    hide PolledReload, BareRecovery, SameServers;
    PolledAlike(s, t, expired);
  }

  lemma RecoveryPollAlike(s: State, t: State, expired: bool)
    requires Alike(s, t)
    ensures Alike(OnRecoveryPoll(s, expired), OnRecoveryPoll(t, expired))
  {
    hide TargetsOf, Poll, BareReload, SameServers;
    if s.recovery.Recovering? {
      SameTargets(s, t, s.recovery.server);
      PollsAlike(s, t, s.recovery.stop, t.recovery.stop, expired, TargetsOf(s, s.recovery.server));
    }
  }

  lemma ReplaceAlike(s: State, t: State, launcher: Option<Pid>)
    requires SameServers(s.servers, t.servers, s.current) && s.generation == t.generation
    ensures var g := s.generation + 1; var server := Server(launcher, None, false);
            SameServers(s.servers[g := server], t.servers[g := server], g)
  {
  }

  lemma FinishAlike(s: State, t: State, launcher: Option<Pid>, vite: Option<Pid>, stopped: Option<Pid>, x: Stop, y: Stop)
    requires Alike(s, t) && x.Dead? && y.Dead?
    ensures Alike(Finish(s, launcher, vite, stopped, x.targets, x.since, x.at),
                  Finish(t, launcher, vite, stopped, y.targets, y.since, y.at))
  {
    hide SameServers, BareRecovery;
    ReplaceAlike(s, t, launcher);
  }

  lemma StopClientAlike(s: State, t: State, server: nat, client: Option<Pid>, x: Stop, y: Stop)
    requires Alike(s, t) && Bare(x) == Bare(y)
    ensures Alike(s.(reload := StoppingClient(server, client, x, BeginStop(s, LauncherTargets(client)))),
                  t.(reload := StoppingClient(server, client, y, BeginStop(t, LauncherTargets(client)))))
  {
    hide SameServers, BareRecovery, LauncherTargets;
  }

  lemma ReloadResumeAlike(s: State, t: State, launcher: Option<Pid>, vite: Option<Pid>)
    requires Alike(s, t)
    ensures Alike(OnReloadResume(s, launcher, vite), OnReloadResume(t, launcher, vite))
  {
    AbandonAlike(s, t);
    match s.reload
    case StoppingServer(server, client, stop) =>
      StopClientAlike(s, t, server, client, stop, t.reload.stop);
      hide Alike, Abandon, BeginStop;
    case StoppingClient(server, client, dead, stop) =>
      if dead.Dead? {
        FinishAlike(s, t, launcher, vite, client, dead, t.reload.dead);
      }
      hide Alike, Abandon, Finish;
    case _ =>
  }

  lemma RetryAlike(s: State, t: State, launcher: Option<Pid>, x: Stop, y: Stop)
    requires Alike(s, t) && x.Dead? && y.Dead?
    ensures Alike(Retry(s, launcher, x.targets, x.since, x.at).(recovery := NoRecovery),
                  Retry(t, launcher, y.targets, y.since, y.at).(recovery := NoRecovery))
  {
    hide SameServers, BareReload;
    ReplaceAlike(s, t, launcher);
  }

  lemma RecoveryResumeAlike(s: State, t: State, launcher: Option<Pid>)
    requires Alike(s, t)
    ensures Alike(OnRecoveryResume(s, launcher), OnRecoveryResume(t, launcher))
  {
    hide Retry, SameServers, BareReload;
    if s.recovery.Recovering? && s.recovery.stop.Dead? {
      RetryAlike(s, t, launcher, s.recovery.stop, t.recovery.stop);
    }
  }

  lemma MarkedAlike(s: State, t: State, g: nat)
    requires Alike(s, t) && g in s.servers
    ensures g in t.servers && Alike(MarkExited(s, g), MarkExited(t, g))
  {
    hide BareReload, BareRecovery;
  }

  lemma ShutDownAlike(s: State, t: State)
    requires Alike(s, t)
    ensures Alike(ShutDown(s), ShutDown(t))
  {
    hide BareReload, BareRecovery, SameServers;
  }

  lemma RecoveringAlike(s: State, t: State, g: nat, targets: set<int>)
    requires Alike(s, t)
    ensures var x, y := BeginStop(s, targets), BeginStop(t, targets);
            Alike(s.(recoveryUsed := true, recovery := Recovering(g, x)), t.(recoveryUsed := true, recovery := Recovering(g, y)))
  {
    hide BareReload, SameServers;
  }

  /** Marking an exit twice, or only in one of two states, makes no difference to a retired server. */
  lemma RetiredAlike(s: State, t: State, g: nat)
    requires Alike(s, t) && g in s.servers && g in t.servers && g != s.current
    ensures Alike(MarkExited(s, g), t) && Alike(s, MarkExited(t, g))
  {
    hide BareReload, BareRecovery;
  }

  lemma ExitAlike(s: State, t: State, g: nat, code: Option<int>)
    requires Alike(s, t)
    ensures Alike(OnServerExit(s, g, code), OnServerExit(t, g, code))
  {
    hide TargetsOf, BareReload, BareRecovery, BeginStop, MarkExited, ShutDown;
    assert s.servers.Keys == t.servers.Keys && s.current == t.current;
    if g in s.servers {
      MarkedAlike(s, t, g);
      if g != s.current {
        RetiredAlike(s, t, g);
      } else {
        SameCurrent(s, t);
        SameTargets(s, t, g);
        MarkedFields(s, g);
        MarkedFields(t, g);
        ShutDownAlike(MarkExited(s, g), MarkExited(t, g));
        RecoveringAlike(MarkExited(s, g), MarkExited(t, g), g, TargetsOf(s, g));
      }
    }
  }

  lemma MarkedFields(s: State, g: nat)
    requires g in s.servers
    ensures forall targets :: BeginStop(MarkExited(s, g), targets) == BeginStop(s, targets)
  {
  }

  lemma RegisterAlike(s: State, t: State, g: nat, pid: int)
    requires Alike(s, t)
    ensures Alike(OnRegister(s, g, pid), OnRegister(t, g, pid))
  {
  }

  lemma RestAlike(s: State, t: State, e: Event)
    requires Alike(s, t) && (e.ShutdownRequest? || e.ShutdownDone? || e.ProcessTable?)
    ensures Alike(React(s, e), React(t, e))
  {
    hide SameServers;
  }

  lemma TickAlike(s: State, t: State, u: State, v: State)
    requires Alike(u, v)
    ensures Alike(Tick(s, u), Tick(t, v))
  {
    hide SameServers;
  }

  lemma StepAlike(s: State, t: State, e: Event)
    requires Alike(s, t)
    ensures Alike(Step(s, e), Step(t, e))
  {
    if !s.exited {
      ReactAlike(s, t, e);
      TickAlike(s, t, React(s, e), React(t, e));
    }
  }

  lemma ReactAlike(s: State, t: State, e: Event)
    requires Alike(s, t)
    ensures Alike(React(s, e), React(t, e))
  {
    hide Alike;
    match e
    case ReloadRequest => RequestAlike(s, t);
    case BuildFailed(left) => BuildFailedAlike(s, t, left);
    case BuildDone(left) => BuildDoneAlike(s, t, left);
    case ReloadPoll(expired) => ReloadPollAlike(s, t, expired);
    case ReloadError => ErrorAlike(s, t);
    case ReloadResume(launcher, vite) => ReloadResumeAlike(s, t, launcher, vite);
    case RecoveryPoll(expired) => RecoveryPollAlike(s, t, expired);
    case RecoveryError => ErrorAlike(s, t);
    case RecoveryResume(launcher) => RecoveryResumeAlike(s, t, launcher);
    case ServerExit(g, code) => ExitAlike(s, t, g, code);
    case Register(g, pid) => RegisterAlike(s, t, g, pid);
    case ShutdownRequest => RestAlike(s, t, e);
    case ShutdownDone => RestAlike(s, t, e);
    case ProcessTable(_) => RestAlike(s, t, e);
  }

  lemma IgnoredRequest(s: State)
    requires Ignored(s, ReloadRequest)
    ensures Alike(Step(s, ReloadRequest), s)
  {
    hide ManagedTargets, LauncherTargets;
  }

  lemma AlikeItself(s: State)
    ensures Alike(s, s)
  {
    hide BareReload, BareRecovery;
  }

  lemma IgnoredExit(s: State, g: nat, code: Option<int>)
    requires g != s.current
    ensures Alike(Step(s, ServerExit(g, code)), s)
  {
    hide Alike, Tick, MarkExited;
    AlikeItself(s);
    if !s.exited {
      TickedAlike(s);
      if g in s.servers {
        RetiredAlike(s, s, g);
        MarkedTickAlike(s, g);
      }
    }
  }

  lemma TickedAlike(s: State)
    ensures Alike(Tick(s, s), s)
  {
    hide BareReload, BareRecovery;
  }

  lemma MarkedTickAlike(s: State, g: nat)
    requires g in s.servers && Alike(MarkExited(s, g), s)
    ensures Alike(Tick(s, MarkExited(s, g)), s)
  {
    hide BareReload, BareRecovery, SameServers, MarkExited;
  }

  lemma IgnoredStep(s: State, e: Event)
    requires Ignored(s, e)
    ensures Alike(Step(s, e), s)
  {
    match e
    case ReloadRequest => IgnoredRequest(s); hide Alike;
    case ServerExit(g, code) => IgnoredExit(s, g, code); hide Alike;
    case Register(_, _) => hide BareReload, BareRecovery;
  }

  /** Leaving such an event out of a run changes nothing that follows. */
  lemma {:induction false} IgnoredIsErased(s: State, before: seq<Event>, e: Event, after: seq<Event>)
    requires Ignored(Run(s, before), e)
    ensures Alike(Run(s, before + [e] + after), Run(s, before + after))
  {
    hide Alike, Ignored, Step;
    if after == [] {
      RunSnoc(s, before, e);
      IgnoredStep(Run(s, before), e);
      assert before + [e] + after == before + [e] && before + after == before;
    } else {
      var last := after[|after|-1];
      var rest := after[..|after|-1];
      IgnoredIsErased(s, before, e, rest);
      RunSnoc(s, before + [e] + rest, last);
      RunSnoc(s, before + rest, last);
      StepAlike(Run(s, before + [e] + rest), Run(s, before + rest), last);
      assert before + [e] + after == before + [e] + rest + [last] && before + after == before + rest + [last];
    }
  }
}
