/**
  The dev wrapper: one long-lived process that replaces its backend on request, retries a crashed
  backend once, and shuts everything down once.  Every `await` is an interleaving point, so each
  region between two awaits is one atomic step and a run is any sequence of steps.

  Time starts where startup ends.  Processes, signals, sockets and timers are events that may happen
  at any moment.
 */
module DevWrapperModel {
  import opened Wrappers

  type Pid = p: int | p > 0 witness 1

  datatype Phase = Running | Reloading | ShuttingDown

  /** A backend launcher: its own process group, the backend pid it registered, and whether its exit was delivered. */
  datatype Server = Server(launcher: Option<Pid>, backend: Option<int>, exited: bool)

  /** The process targets of a child: its launcher's group and its registered backend. */
  function ManagedTargets(server: Server): set<int> {
    LauncherTargets(server.launcher) +
    if server.backend.Some? && server.backend.value > 1 then {server.backend.value} else {}
  }

  function LauncherTargets(launcher: Option<Pid>): set<int> {
    if launcher.None? then {}
    else
      var pid: int := launcher.value;
      {-pid}
  }

  /** How far a stop has escalated, the targets it recorded and when; then the moment they were seen dead. */
  datatype Stop =
    | Polling(signal: Signal, targets: set<int>, since: nat)
    | Dead(targets: set<int>, since: nat, at: nat)

  datatype Signal = Hup | Term | Kill

  /** The one reload that can be in flight, by the await it is suspended at. */
  datatype Reload =
    | NoReload
    | Building(server: nat)
    | StoppingServer(server: nat, client: Option<Pid>, stop: Stop)
    | StoppingClient(server: nat, client: Option<Pid>, dead: Stop, stop: Stop)

  datatype Recovery = NoRecovery | Recovering(server: nat, stop: Stop)

  /** What the wrapper and the process table looked like before a step. */
  datatype Snapshot = Snapshot(alive: set<int>, servers: map<nat, Server>)

  /** A replacement: the generation started, the one replaced, and how its targets were stopped. */
  datatype Spawn = Spawn(generation: nat, replaced: nat, recorded: set<int>, since: nat, at: nat)

  datatype State = State(
    builtClient: bool,
    phase: Phase,
    servers: map<nat, Server>,
    current: nat,
    generation: nat,
    client: Option<Pid>,
    recoveryUsed: bool,
    shutdownStarted: bool,
    controlOpen: bool,
    exited: bool,
    reload: Reload,
    recovery: Recovery,
    alive: set<int>,
    // history
    history: seq<Snapshot>,
    log: seq<Spawn>,
    tally: Tally)

  /** How many reloads were accepted and how each ended, and how often recovery and shutdown ran. */
  datatype Tally = Tally(accepted: nat, reloads: nat, failedBuilds: nat, abandoned: nat, recoveries: nat, shutdowns: nat)

  datatype Event =
    | ReloadRequest
    | BuildFailed(left: Option<Pid>)
    | BuildDone(left: Option<Pid>)
    | ReloadPoll(expired: bool)
    | ReloadError
    | ReloadResume(launcher: Option<Pid>, vite: Option<Pid>)
    | RecoveryPoll(expired: bool)
    | RecoveryError
    | RecoveryResume(launcher: Option<Pid>)
    | ServerExit(generation: nat, code: Option<int>)
    | Register(generation: nat, pid: int)
    | ShutdownRequest
    | ShutdownDone
    | ProcessTable(alive: set<int>)

  /** Right after startup assigned `running`; `early` says a shutdown had already begun by then. */
  function Init(builtClient: bool, early: bool, launcher: Option<Pid>, vite: Option<Pid>, alive: set<int>): State {
    State(builtClient, Running, map[1 := Server(launcher, None, false)], 1, 1,
          if builtClient then None else vite, false, early, true, false, NoReload, NoRecovery, alive,
          [], [], Tally(0, 0, 0, 0, 0, if early then 1 else 0))
  }

  // ---- the regions between awaits ----

  function TargetsOf(s: State, server: nat): set<int> {
    if server in s.servers then ManagedTargets(s.servers[server]) else {}
  }

  /** stopManagedChild up to its first await: nothing to do when no target is alive. */
  function BeginStop(s: State, targets: set<int>): Stop {
    if targets !! s.alive then Dead(targets, |s.history|, |s.history|) else Polling(Term, targets, |s.history|)
  }

  /**
    One turn of the polling loop: done when no recorded target is alive.  At its deadline, SIGHUP is
    followed by a fresh stop, SIGTERM by SIGKILL, and a target that survives SIGKILL fails the stop.
   */
  function Poll(s: State, stop: Stop, expired: bool, renewed: set<int>): Option<Stop> {
    match stop
    case Dead(_, _, _) => Some(stop)
    case Polling(signal, targets, since) =>
      if targets !! s.alive then Some(Dead(targets, since, |s.history|))
      else if !expired then Some(stop)
      else match signal
        case Hup => Some(BeginStop(s, renewed))
        case Term => Some(Polling(Kill, targets, since))
        case Kill => None
  }

  function ShutDown(s: State): State {
    if s.shutdownStarted then s
    else s.(phase := ShuttingDown, shutdownStarted := true, controlOpen := false, tally := s.tally.(shutdowns := s.tally.shutdowns + 1))
  }

  function Abandon(s: State): State {
    s.(reload := NoReload, tally := s.tally.(abandoned := s.tally.abandoned + 1))
  }

  /** startServer in place of the current server, whose recorded targets were stopped. */
  function Replace(s: State, launcher: Option<Pid>, targets: set<int>, since: nat, at: nat): State {
    var g := s.generation + 1;
    s.(generation := g, current := g, servers := s.servers[g := Server(launcher, None, false)],
       log := s.log + [Spawn(g, s.current, targets, since, at)])
  }

  function HangUp(s: State): Stop {
    Polling(Hup, TargetsOf(s, s.current), |s.history|)
  }

  function OnReloadRequest(s: State): State {
    if s.phase != Running || s.current !in s.servers || s.servers[s.current].exited then s
    else
      s.(phase := Reloading, tally := s.tally.(accepted := s.tally.accepted + 1),
         reload := if s.builtClient then Building(s.current) else StoppingServer(s.current, s.client, HangUp(s)))
  }

  function OnBuildFailed(s: State, left: Option<Pid>): State {
    if !s.reload.Building? then s
    else s.(reload := NoReload, tally := s.tally.(failedBuilds := s.tally.failedBuilds + 1), client := left,
            phase := if s.phase == ShuttingDown then ShuttingDown else Running)
  }

  function OnBuildDone(s: State, left: Option<Pid>): State {
    if !s.reload.Building? then s
    else if s.phase == ShuttingDown then Abandon(s.(client := left))
    else s.(client := left,
            reload := StoppingServer(s.reload.server, left,
                                     Polling(Hup, TargetsOf(s, s.reload.server), |s.history|)))
  }

  /** One poll of the stop that the reload awaits; no answer when that stop fails. */
  function PolledReload(s: State, expired: bool): Option<Reload> {
    match s.reload
    case StoppingServer(server, client, stop) =>
      (match Poll(s, stop, expired, TargetsOf(s, server))
       case Some(next) => Some(StoppingServer(server, client, next))
       case None => None)
    case StoppingClient(server, client, dead, stop) =>
      (match Poll(s, stop, expired, LauncherTargets(client))
       case Some(next) => Some(StoppingClient(server, client, dead, next))
       case None => None)
    case _ => Some(s.reload)
  }

  function OnReloadPoll(s: State, expired: bool): State {
    match PolledReload(s, expired)
    case Some(next) => s.(reload := next)
    case None => ShutDown(Abandon(s))
  }

  function OnReloadError(s: State): State {
    if s.reload.StoppingServer? || s.reload.StoppingClient? then ShutDown(Abandon(s)) else s
  }

  function Finish(s: State, launcher: Option<Pid>, vite: Option<Pid>, stopped: Option<Pid>,
                  targets: set<int>, since: nat, at: nat): State {
    var left := if s.client == stopped then None else s.client;
    Replace(s, launcher, targets, since, at)
    .(client := if s.builtClient then left else vite, phase := Running, reload := NoReload,
      tally := s.tally.(reloads := s.tally.reloads + 1))
  }

  /** The continuation after a finished stop: on to the client, then the replacement. */
  function OnReloadResume(s: State, launcher: Option<Pid>, vite: Option<Pid>): State {
    match s.reload
    case StoppingServer(server, client, Dead(targets, since, at)) =>
      if s.phase != Reloading then Abandon(s)
      else s.(reload := StoppingClient(server, client, Dead(targets, since, at), BeginStop(s, LauncherTargets(client))))
    case StoppingClient(server, client, Dead(targets, since, at), Dead(_, _, _)) =>
      if s.phase != Reloading then Abandon(s) else Finish(s, launcher, vite, client, targets, since, at)
    case _ => s
  }

  function OnRecoveryPoll(s: State, expired: bool): State {
    match s.recovery
    case NoRecovery => s
    case Recovering(server, stop) =>
      match Poll(s, stop, expired, TargetsOf(s, server))
      case Some(next) => s.(recovery := Recovering(server, next))
      case None => ShutDown(s.(recovery := NoRecovery))
  }

  function OnRecoveryError(s: State): State {
    if s.recovery.NoRecovery? then s else ShutDown(s.(recovery := NoRecovery))
  }

  function Retry(s: State, launcher: Option<Pid>, targets: set<int>, since: nat, at: nat): State {
    Replace(s, launcher, targets, since, at).(tally := s.tally.(recoveries := s.tally.recoveries + 1))
  }

  function OnRecoveryResume(s: State, launcher: Option<Pid>): State {
    match s.recovery
    case Recovering(server, Dead(targets, since, at)) =>
      if s.phase != Running || s.current != server then s.(recovery := NoRecovery)
      else Retry(s, launcher, targets, since, at).(recovery := NoRecovery)
    case _ => s
  }

  function MarkExited(s: State, g: nat): State
    requires g in s.servers
  {
    s.(servers := s.servers[g := Server(s.servers[g].launcher, s.servers[g].backend, true)])
  }

  function OnServerExit(s: State, g: nat, code: Option<int>): State {
    if g !in s.servers || s.servers[g].exited then s
    else if s.current != g || s.phase != Running then MarkExited(s, g)
    else if code.Some? && code.value != 0 && !s.recoveryUsed then
      MarkExited(s, g).(recoveryUsed := true, recovery := Recovering(g, BeginStop(s, TargetsOf(s, g))))
    else ShutDown(MarkExited(s, g))
  }

  function OnRegister(s: State, g: nat, pid: int): State {
    if !s.controlOpen || g != s.current || g !in s.servers || pid <= 1 then s
    else s.(servers := s.servers[g := Server(s.servers[g].launcher, Some(pid), s.servers[g].exited)])
  }

  function OnShutdownDone(s: State): State {
    if s.shutdownStarted then s.(exited := true) else s
  }

  function React(s: State, e: Event): State {
    match e
    case ReloadRequest => OnReloadRequest(s)
    case BuildFailed(left) => OnBuildFailed(s, left)
    case BuildDone(left) => OnBuildDone(s, left)
    case ReloadPoll(expired) => OnReloadPoll(s, expired)
    case ReloadError => OnReloadError(s)
    case ReloadResume(launcher, vite) => OnReloadResume(s, launcher, vite)
    case RecoveryPoll(expired) => OnRecoveryPoll(s, expired)
    case RecoveryError => OnRecoveryError(s)
    case RecoveryResume(launcher) => OnRecoveryResume(s, launcher)
    case ServerExit(g, code) => OnServerExit(s, g, code)
    case Register(g, pid) => OnRegister(s, g, pid)
    case ShutdownRequest => ShutDown(s)
    case ShutdownDone => OnShutdownDone(s)
    case ProcessTable(alive) => s.(alive := alive)
  }

  /** Record in `t` what the world looked like in `s`. */
  function Tick(s: State, t: State): State {
    t.(history := s.history + [Snapshot(s.alive, s.servers)])
  }

  /** One step; after process.exit nothing happens any more. */
  function Step(s: State, e: Event): State {
    if s.exited then s else Tick(s, React(s, e))
  }

  function Run(s: State, es: seq<Event>): State {
    if es == [] then s else Step(Run(s, es[..|es|-1]), es[|es|-1])
  }

  // ---- the invariant ----

  /**
    The targets are exactly those the server had at `since`, and none was alive at `at`, when its
    replacement did not exist yet.
   */
  ghost predicate SawDead(history: seq<Snapshot>, server: nat, targets: set<int>, since: nat, at: nat) {
    && since <= at < |history|
    && server in history[since].servers
    && targets == ManagedTargets(history[since].servers[server])
    && targets !! history[at].alive
    && server + 1 !in history[at].servers
  }

  ghost predicate StopOk(history: seq<Snapshot>, server: nat, stop: Stop) {
    match stop
    case Polling(_, targets, since) =>
      && since < |history| && server in history[since].servers
      && targets == ManagedTargets(history[since].servers[server])
    case Dead(targets, since, at) => SawDead(history, server, targets, since, at)
  }

  /** Entry `k` replaced generation `k + 1` by generation `k + 2`, after its recorded targets were seen dead. */
  ghost predicate LogOk(log: seq<Spawn>, generation: nat, history: seq<Snapshot>) {
    && |log| == generation - 1
    && (forall k :: 0 <= k < |log| ==>
          && log[k].generation == k + 2 && log[k].replaced == k + 1
          && SawDead(history, log[k].replaced, log[k].recorded, log[k].since, log[k].at))
  }

  ghost predicate PhaseOk(s: State) {
    && (s.phase == ShuttingDown <==> s.shutdownStarted)
    && (s.exited ==> s.shutdownStarted)
    && s.controlOpen == !s.shutdownStarted
    && (s.phase == Running ==> s.reload == NoReload)
    && (s.phase == Reloading ==> s.reload != NoReload)
  }

  ghost predicate ServersOk(s: State) {
    && s.current == s.generation >= 1
    && (forall g: nat :: g in s.servers <==> 1 <= g <= s.generation)
  }

  /** The stop of the client awaits its launcher's targets, and began after the server was seen dead. */
  ghost predicate ClientStopOk(history: seq<Snapshot>, client: Option<Pid>, dead: Stop, stop: Stop) {
    && dead.Dead? && dead.at < stop.since && stop.targets == LauncherTargets(client)
    && match stop
       case Polling(_, _, since) => since < |history|
       case Dead(targets, since, at) => since <= at < |history| && targets !! history[at].alive
  }

  ghost predicate ReloadOk(s: State) {
    match s.reload
    case NoReload => true
    case Building(server) => server == s.current && s.builtClient
    case StoppingServer(server, _, stop) => server == s.current && StopOk(s.history, server, stop)
    case StoppingClient(server, client, dead, stop) =>
      server == s.current && dead.Dead? && StopOk(s.history, server, dead) && ClientStopOk(s.history, client, dead, stop)
  }

  ghost predicate RecoveryOk(s: State) {
    s.recovery.Recovering? ==>
      && s.recovery.server == s.current && s.reload == NoReload && s.phase != Reloading
      && s.current in s.servers && s.servers[s.current].exited
      && StopOk(s.history, s.current, s.recovery.stop)
  }

  ghost predicate CountsOk(s: State) {
    && s.generation == 1 + s.tally.reloads + s.tally.recoveries
    && s.tally.recoveries + (if s.recovery.Recovering? then 1 else 0) <= (if s.recoveryUsed then 1 else 0)
    && s.tally.shutdowns == (if s.shutdownStarted then 1 else 0)
    && s.tally.accepted == s.tally.reloads + s.tally.failedBuilds + s.tally.abandoned + (if s.reload == NoReload then 0 else 1)
    && (s.tally.abandoned > 0 ==> s.phase == ShuttingDown && s.reload == NoReload)
    && s.tally.abandoned <= 1
  }

  /** The current server exited and nothing in flight will replace it or shut the wrapper down. */
  ghost predicate Stuck(s: State) {
    s.phase == Running && s.current in s.servers && s.servers[s.current].exited && s.recovery == NoRecovery
  }

  ghost predicate Inv(s: State) {
    PhaseOk(s) && ServersOk(s) && LogOk(s.log, s.generation, s.history) && ReloadOk(s) && RecoveryOk(s) && CountsOk(s)
    && (!s.builtClient ==> !Stuck(s))
  }

  lemma StopKept(s: State, server: nat, stop: Stop)
    requires StopOk(s.history, server, stop)
    ensures StopOk(Tick(s, s).history, server, stop)
  {
  }

  lemma StopBegun(s: State, server: nat)
    requires ServersOk(s) && server == s.current
    ensures StopOk(Tick(s, s).history, server, BeginStop(s, TargetsOf(s, server)))
    ensures forall signal :: StopOk(Tick(s, s).history, server, Polling(signal, TargetsOf(s, server), |s.history|))
  {
  }

  lemma StopPolled(s: State, server: nat, stop: Stop, expired: bool)
    requires ServersOk(s) && server == s.current && StopOk(s.history, server, stop)
    ensures var next := Poll(s, stop, expired, TargetsOf(s, server));
            next.Some? ==> StopOk(Tick(s, s).history, server, next.value)
  {
    StopKept(s, server, stop);
    StopBegun(s, server);
  }

  lemma ClientStopBegun(s: State, client: Option<Pid>, dead: Stop)
    requires dead.Dead? && dead.at < |s.history|
    ensures ClientStopOk(Tick(s, s).history, client, dead, BeginStop(s, LauncherTargets(client)))
  {
  }

  lemma ClientStopPolled(s: State, client: Option<Pid>, dead: Stop, stop: Stop, expired: bool)
    requires ClientStopOk(s.history, client, dead, stop)
    ensures ClientStopOk(Tick(s, s).history, client, dead, stop)
    ensures var next := Poll(s, stop, expired, LauncherTargets(client));
            next.Some? ==> ClientStopOk(Tick(s, s).history, client, dead, next.value)
  {
  }

  lemma LogKept(s: State)
    requires LogOk(s.log, s.generation, s.history)
    ensures LogOk(s.log, s.generation, Tick(s, s).history)
  {
  }

  lemma LogExtended(s: State, launcher: Option<Pid>, targets: set<int>, since: nat, at: nat)
    requires LogOk(s.log, s.generation, s.history) && ServersOk(s) && SawDead(s.history, s.current, targets, since, at)
    ensures var t := Replace(s, launcher, targets, since, at);
            LogOk(t.log, t.generation, Tick(s, s).history)
  {
  }

  lemma InitInv(builtClient: bool, launcher: Option<Pid>, vite: Option<Pid>, alive: set<int>)
    ensures Inv(Init(builtClient, false, launcher, vite, alive))
  {
  }

  /** What each handler's proof needs about stops and the log, whatever it does to the rest. */
  lemma Carried(s: State)
    requires Inv(s)
    ensures LogOk(s.log, s.generation, Tick(s, s).history)
    ensures s.recovery.Recovering? ==> StopOk(Tick(s, s).history, s.current, s.recovery.stop)
    ensures s.reload.StoppingServer? ==> StopOk(Tick(s, s).history, s.current, s.reload.stop)
    ensures s.reload.StoppingClient? ==>
              && StopOk(Tick(s, s).history, s.current, s.reload.dead)
              && ClientStopOk(Tick(s, s).history, s.reload.client, s.reload.dead, s.reload.stop)
  {
    LogKept(s);
    if s.recovery.Recovering? { StopKept(s, s.current, s.recovery.stop); }
    if s.reload.StoppingServer? { StopKept(s, s.current, s.reload.stop); }
    if s.reload.StoppingClient? {
      StopKept(s, s.current, s.reload.dead);
      ClientStopPolled(s, s.reload.client, s.reload.dead, s.reload.stop, false);
    }
  }

  lemma RequestKeepsInv(s: State)
    requires Inv(s) && !s.exited
    ensures Inv(Tick(s, OnReloadRequest(s)))
  {
    hide LogOk, StopOk, ClientStopOk;
    Carried(s);
    StopBegun(s, s.current);
  }

  lemma BuildKeepsInv(s: State, left: Option<Pid>)
    requires Inv(s) && !s.exited
    ensures Inv(Tick(s, OnBuildFailed(s, left))) && Inv(Tick(s, OnBuildDone(s, left)))
  {
    hide LogOk, StopOk, ClientStopOk;
    Carried(s);
    StopBegun(s, s.current);
  }

  lemma ShutdownKeepsInv(s: State)
    requires Inv(s) && !s.exited
    ensures Inv(Tick(s, ShutDown(s))) && Inv(Tick(s, OnShutdownDone(s)))
    ensures Inv(Tick(s, OnReloadError(s))) && Inv(Tick(s, OnRecoveryError(s)))
  {
    hide LogOk, StopOk, ClientStopOk;
    Carried(s);
  }

  lemma ReloadPollKeepsInv(s: State, expired: bool)
    requires Inv(s) && !s.exited
    ensures Inv(Tick(s, OnReloadPoll(s, expired)))
  {
    hide LogOk, StopOk, ClientStopOk, Poll;
    Carried(s);
    if s.reload.StoppingServer? { StopPolled(s, s.current, s.reload.stop, expired); }
    if s.reload.StoppingClient? { ClientStopPolled(s, s.reload.client, s.reload.dead, s.reload.stop, expired); }
  }

  lemma RecoveryPollKeepsInv(s: State, expired: bool)
    requires Inv(s) && !s.exited
    ensures Inv(Tick(s, OnRecoveryPoll(s, expired)))
  {
    hide LogOk, StopOk, ClientStopOk, Poll;
    Carried(s);
    if s.recovery.Recovering? { StopPolled(s, s.current, s.recovery.stop, expired); }
  }

  lemma ReloadSawDead(s: State)
    requires Inv(s) && s.reload.StoppingClient?
    ensures s.reload.dead.Dead? && SawDead(s.history, s.current, s.reload.dead.targets, s.reload.dead.since, s.reload.dead.at)
  {
    hide LogOk, SawDead;
  }

  lemma FinishKeepsInv(s: State, launcher: Option<Pid>, vite: Option<Pid>, client: Option<Pid>, dead: Stop)
    requires Inv(s) && !s.exited && s.reload.StoppingClient? && s.phase == Reloading && dead == s.reload.dead
    requires dead.Dead? && SawDead(s.history, s.current, dead.targets, dead.since, dead.at)
    ensures Inv(Tick(s, Finish(s, launcher, vite, client, dead.targets, dead.since, dead.at)))
  {
    hide LogOk, StopOk, SawDead;
    LogExtended(s, launcher, dead.targets, dead.since, dead.at);
  }

  lemma ReplacementKeepsInv(s: State, launcher: Option<Pid>, vite: Option<Pid>)
    requires Inv(s) && !s.exited && s.reload.StoppingClient?
    ensures Inv(Tick(s, OnReloadResume(s, launcher, vite)))
  {
    hide LogOk, StopOk, SawDead, LauncherTargets, ManagedTargets, Finish;
    Carried(s);
    ReloadSawDead(s);
    if s.phase == Reloading {
      FinishKeepsInv(s, launcher, vite, s.reload.client, s.reload.dead);
    }
  }

  lemma ClientStopKeepsInv(s: State, launcher: Option<Pid>, vite: Option<Pid>)
    requires Inv(s) && !s.exited && !s.reload.StoppingClient?
    ensures Inv(Tick(s, OnReloadResume(s, launcher, vite)))
  {
    hide LogOk, SawDead, ClientStopOk, BeginStop, LauncherTargets, ManagedTargets;
    Carried(s);
    if s.reload.StoppingServer? && s.reload.stop.Dead? {
      ServerSeenDead(s);
      ClientStopBegun(s, s.reload.client, s.reload.stop);
    }
  }

  lemma ServerSeenDead(s: State)
    requires Inv(s) && s.reload.StoppingServer? && s.reload.stop.Dead?
    ensures s.reload.stop.at < |s.history|
  {
  }

  lemma ReloadResumeKeepsInv(s: State, launcher: Option<Pid>, vite: Option<Pid>)
    requires Inv(s) && !s.exited
    ensures Inv(Tick(s, OnReloadResume(s, launcher, vite)))
  {
    hide Inv, OnReloadResume;
    if s.reload.StoppingClient? {
      ReplacementKeepsInv(s, launcher, vite);
    } else {
      ClientStopKeepsInv(s, launcher, vite);
    }
  }

  lemma RecoveryResumeKeepsInv(s: State, launcher: Option<Pid>)
    requires Inv(s) && !s.exited
    ensures Inv(Tick(s, OnRecoveryResume(s, launcher)))
  {
    hide LogOk, SawDead;
    Carried(s);
    if s.recovery.Recovering? && s.recovery.stop.Dead? {
      LogExtended(s, launcher, s.recovery.stop.targets, s.recovery.stop.since, s.recovery.stop.at);
    }
  }

  lemma ExitKeepsInv(s: State, g: nat, code: Option<int>)
    requires Inv(s) && !s.exited
    ensures Inv(Tick(s, OnServerExit(s, g, code)))
  {
    hide LogOk, StopOk, ClientStopOk, BeginStop;
    Carried(s);
    StopBegun(s, s.current);
  }

  lemma RegisterKeepsInv(s: State, g: nat, pid: int)
    requires Inv(s) && !s.exited
    ensures Inv(Tick(s, OnRegister(s, g, pid)))
  {
    hide LogOk, StopOk, ClientStopOk;
    Carried(s);
  }

  lemma TableKeepsInv(s: State, alive: set<int>)
    requires Inv(s) && !s.exited
    ensures Inv(Tick(s, s.(alive := alive)))
  {
    hide LogOk, StopOk, ClientStopOk;
    Carried(s);
  }

  lemma StepKeepsInv(s: State, e: Event)
    requires Inv(s)
    ensures Inv(Step(s, e))
  {
    hide Inv;
    if !s.exited {
      match e
      case ReloadRequest => RequestKeepsInv(s);
      case BuildFailed(left) => BuildKeepsInv(s, left);
      case BuildDone(left) => BuildKeepsInv(s, left);
      case ReloadPoll(expired) => ReloadPollKeepsInv(s, expired);
      case ReloadError => ShutdownKeepsInv(s);
      case ReloadResume(launcher, vite) => ReloadResumeKeepsInv(s, launcher, vite);
      case RecoveryPoll(expired) => RecoveryPollKeepsInv(s, expired);
      case RecoveryError => ShutdownKeepsInv(s);
      case RecoveryResume(launcher) => RecoveryResumeKeepsInv(s, launcher);
      case ServerExit(g, code) => ExitKeepsInv(s, g, code);
      case Register(g, pid) => RegisterKeepsInv(s, g, pid);
      case ShutdownRequest => ShutdownKeepsInv(s);
      case ShutdownDone => ShutdownKeepsInv(s);
      case ProcessTable(alive) => TableKeepsInv(s, alive);
    }
  }

  lemma {:induction false} RunKeepsInv(s: State, es: seq<Event>)
    requires Inv(s)
    ensures Inv(Run(s, es))
  {
    hide Inv, Step;
    if es != [] {
      RunKeepsInv(s, es[..|es|-1]);
      StepKeepsInv(Run(s, es[..|es|-1]), es[|es|-1]);
    }
  }

  // ---- what holds over every run ----

  /** A run's history is its own earlier states. */
  lemma {:induction false} HistoryIsTheRun(s: State, es: seq<Event>)
    requires s.history == []
    ensures var t := Run(s, es);
            && |t.history| <= |es| && (!t.exited ==> |t.history| == |es|)
            && (forall i :: 0 <= i < |t.history| ==>
                  t.history[i] == Snapshot(Run(s, es[..i]).alive, Run(s, es[..i]).servers))
  {
    hide Step;
    if es != [] {
      var before := es[..|es|-1];
      HistoryIsTheRun(s, before);
      forall i | 0 <= i <= |before| ensures es[..i] == before[..i] {}
      HistoryOfStep(Run(s, before), es[|es|-1]);
      assert before[..|before|] == before;
    }
  }

  lemma HistoryOfStep(s: State, e: Event)
    ensures Step(s, e).history == if s.exited then s.history else s.history + [Snapshot(s.alive, s.servers)]
    ensures s.exited ==> Step(s, e).exited
  {
  }

  lemma FreshHistory(builtClient: bool, launcher: Option<Pid>, vite: Option<Pid>, alive: set<int>)
    ensures Init(builtClient, false, launcher, vite, alive).history == []
  {
  }

  /** From `s` to `t`: shut down, with no server started, no backend registered and no second shutdown. */
  ghost predicate StaysDown(s: State, t: State) {
    && t.phase == ShuttingDown && t.shutdownStarted && !t.controlOpen
    && t.generation == s.generation && t.log == s.log && t.tally.shutdowns == s.tally.shutdowns
    && t.servers.Keys == s.servers.Keys
    && forall g :: g in s.servers ==> t.servers[g].backend == s.servers[g].backend
  }

  lemma ShutdownStep(s: State, e: Event)
    requires StaysDown(s, s)
    ensures StaysDown(s, Step(s, e))
  {
    hide Poll, BeginStop, TargetsOf, LauncherTargets, ManagedTargets, HangUp, OnReloadPoll, OnReloadResume;
    PollsStayDown(s);
  }

  lemma PollsStayDown(s: State)
    requires StaysDown(s, s)
    ensures forall expired :: StaysDown(s, OnReloadPoll(s, expired))
    ensures forall launcher, vite :: StaysDown(s, OnReloadResume(s, launcher, vite))
  {
    hide Poll, BeginStop, TargetsOf, LauncherTargets;
  }

  /** Once shutdown has begun, no run starts a server, registers a backend or begins it again. */
  lemma {:induction false} ShutdownIsAbsorbing(s: State, es: seq<Event>)
    requires Inv(s) && s.shutdownStarted
    ensures StaysDown(s, Run(s, es)) && Run(s, es).tally.shutdowns == 1
  {
    hide Step;
    if es != [] {
      ShutdownIsAbsorbing(s, es[..|es|-1]);
      ShutdownStep(Run(s, es[..|es|-1]), es[|es|-1]);
    }
  }

  /** Generations, reloads, the one recovery and the one shutdown add up in every reachable state. */
  lemma Accounting(builtClient: bool, launcher: Option<Pid>, vite: Option<Pid>, alive: set<int>, es: seq<Event>)
    ensures var s := Run(Init(builtClient, false, launcher, vite, alive), es);
            && s.current == s.generation == 1 + s.tally.reloads + s.tally.recoveries
            && s.tally.recoveries <= 1 && s.tally.shutdowns <= 1 && s.tally.abandoned <= 1
            && s.tally.accepted == s.tally.reloads + s.tally.failedBuilds + s.tally.abandoned
                                   + (if s.reload == NoReload then 0 else 1)
            && (s.phase == Running ==> s.reload == NoReload && s.tally.abandoned == 0)
            && |s.log| == s.tally.reloads + s.tally.recoveries
  {
    InitInv(builtClient, launcher, vite, alive);
    RunKeepsInv(Init(builtClient, false, launcher, vite, alive), es);
  }

  /** A request is taken up exactly when the wrapper runs a live server; any other leaves it as it was. */
  lemma RequestsCoalesce(s: State)
    requires Inv(s) && !s.exited
    ensures var t := Step(s, ReloadRequest);
            if s.phase == Running && !s.servers[s.current].exited
            then t.tally.accepted == s.tally.accepted + 1 && t.phase == Reloading && t.generation == s.generation
            else t == s.(history := t.history)
  {
  }

  /** No second reload can be accepted, and no recovery begun, before the one in flight has ended. */
  lemma OneReplacementAtATime(s: State, e: Event)
    requires Inv(s)
    ensures var t := Step(s, e);
            && (s.phase == Reloading ==> t.tally.accepted == s.tally.accepted && t.recovery == NoRecovery)
            && (s.recovery.Recovering? ==> t.tally.accepted == s.tally.accepted && t.reload == NoReload)
            && t.generation <= s.generation + 1
            && (t.generation > s.generation ==>
                  t.phase == Running && t.reload == NoReload && t.recovery == NoRecovery)
  {
    hide LogOk, StopOk, Poll, BeginStop;
  }

  /** A backend pid changes only by a registration that carries the current server's own generation. */
  lemma BackendPidOnlyByOwnGeneration(s: State, e: Event, g: nat)
    requires Inv(s) && g in s.servers && g in Step(s, e).servers
    requires Step(s, e).servers[g].backend != s.servers[g].backend
    ensures e.Register? && e.generation == g == s.current && e.pid > 1
    ensures Step(s, e).servers[g].backend == Some(e.pid)
  {
    hide LogOk, StopOk, Poll, BeginStop;
  }

  /** A retired launcher's exit neither recovers nor stops nor replaces anything. */
  lemma StaleExitDoesNothing(s: State, g: nat, code: Option<int>)
    requires Inv(s) && g != s.current
    ensures var t := Step(s, ServerExit(g, code));
            && t == s.(servers := t.servers, history := t.history)
            && t.servers.Keys == s.servers.Keys
            && (forall k :: k in s.servers && k != g ==> t.servers[k] == s.servers[k])
            && (g in s.servers ==> ManagedTargets(t.servers[g]) == ManagedTargets(s.servers[g]))
  {
  }

  /** The exit of the current server always ends in a recovery or a shutdown, unless a reload is under way. */
  lemma CurrentExitIsAnswered(s: State, code: Option<int>)
    requires Inv(s) && !s.exited && s.phase == Running && !s.servers[s.current].exited
    ensures var t := Step(s, ServerExit(s.current, code));
            if code.Some? && code.value != 0 && s.tally.recoveries == 0 && !s.recoveryUsed
            then t.recovery.Recovering? && t.recoveryUsed && t.phase == Running
            else t.phase == ShuttingDown && t.shutdownStarted
  {
  }

  // ---- a server lost while its client was being built ----

  /** Nothing but a shutdown request gets the wrapper out of the stuck state; reload requests do not. */
  lemma StuckStays(s: State, e: Event)
    requires Inv(s) && Stuck(s) && e != ShutdownRequest
    ensures Stuck(Step(s, e)) && Step(s, e).generation == s.generation
  {
  }

  lemma RunSnoc(s: State, es: seq<Event>, e: Event)
    ensures Run(s, es + [e]) == Step(Run(s, es), e)
  {
    assert (es + [e])[..|es|] == es;
  }

  lemma RunOne(s: State, e: Event)
    ensures Run(s, [e]) == Step(s, e)
  {
    assert [e][..0] == [];
  }

  /** The current server exits while the client build runs, and then the build fails. */
  function LostExit(): seq<Event> {
    [ReloadRequest] + [ServerExit(1, Some(1))] + [BuildFailed(None)]
  }

  lemma LostExitSticks(builtClient: bool, launcher: Option<Pid>, vite: Option<Pid>, alive: set<int>)
    requires builtClient
    ensures Stuck(Run(Init(builtClient, false, launcher, vite, alive), LostExit()))
  {
    var s := Init(builtClient, false, launcher, vite, alive);
    RunOne(s, ReloadRequest);
    RunSnoc(s, [ReloadRequest], ServerExit(1, Some(1)));
    RunSnoc(s, [ReloadRequest] + [ServerExit(1, Some(1))], BuildFailed(None));
  }

  ghost predicate EveryCrashAnswered(s: State) {
    forall es :: !Stuck(Run(s, es))
  }

  /** A crashed server is always answered exactly when no client is built before a reload. */
  lemma CrashIsAnsweredIff(builtClient: bool, launcher: Option<Pid>, vite: Option<Pid>, alive: set<int>)
    ensures EveryCrashAnswered(Init(builtClient, false, launcher, vite, alive)) <==> !builtClient
  {
    hide Step, Stuck, Init;
    var s := Init(builtClient, false, launcher, vite, alive);
    if builtClient {
      LostExitSticks(builtClient, launcher, vite, alive);
    } else {
      InitInv(builtClient, launcher, vite, alive);
      InitBuiltClient(builtClient, launcher, vite, alive);
      forall es ensures !Stuck(Run(s, es)) {
        RunKeepsInv(s, es);
        BuiltClientIsFixed(s, es);
      }
    }
  }

  lemma InitBuiltClient(builtClient: bool, launcher: Option<Pid>, vite: Option<Pid>, alive: set<int>)
    ensures Init(builtClient, false, launcher, vite, alive).builtClient == builtClient
  {
  }

  lemma {:induction false} BuiltClientIsFixed(s: State, es: seq<Event>)
    ensures Run(s, es).builtClient == s.builtClient
  {
    hide Step;
    if es != [] {
      BuiltClientIsFixed(s, es[..|es|-1]);
      BuiltClientStep(Run(s, es[..|es|-1]), es[|es|-1]);
    }
  }

  lemma BuiltClientStep(s: State, e: Event)
    ensures Step(s, e).builtClient == s.builtClient
  {
    hide Poll, BeginStop, TargetsOf, LauncherTargets, ManagedTargets, HangUp, OnReloadPoll, OnReloadResume;
    PollsKeepBuiltClient(s);
  }

  lemma PollsKeepBuiltClient(s: State)
    ensures forall expired :: OnReloadPoll(s, expired).builtClient == s.builtClient
    ensures forall launcher, vite :: OnReloadResume(s, launcher, vite).builtClient == s.builtClient
  {
    hide Poll, BeginStop, TargetsOf, LauncherTargets;
  }

  // ---- a shutdown that begins before startup ends ----

  ghost predicate NoSpawnAfterShutdown(s: State) {
    forall es, e :: Run(s, es).shutdownStarted ==> Step(Run(s, es), e).generation == Run(s, es).generation
  }

  /** A reload in which every process is already gone. */
  function QuickReload(builtClient: bool): seq<Event> {
    [ProcessTable({})] + [ReloadRequest] + (if builtClient then [BuildDone(None)] else [ProcessTable({})]) +
    [ReloadPoll(false)] + [ReloadResume(None, None)]
  }

  lemma QuickReloadReachesSpawn(builtClient: bool, launcher: Option<Pid>, vite: Option<Pid>, alive: set<int>)
    ensures var t := Run(Init(builtClient, true, launcher, vite, alive), QuickReload(builtClient));
            t.shutdownStarted && t.generation == 1 && Step(t, ReloadResume(None, None)).generation == 2
  {
    hide Run, ManagedTargets, LauncherTargets;
    var s := Init(builtClient, true, launcher, vite, alive);
    var third := if builtClient then BuildDone(None) else ProcessTable({});
    var es := [ProcessTable({})] + [ReloadRequest] + [third];
    RunOne(s, ProcessTable({}));
    RunSnoc(s, [ProcessTable({})], ReloadRequest);
    RunSnoc(s, [ProcessTable({})] + [ReloadRequest], third);
    RunSnoc(s, es, ReloadPoll(false));
    RunSnoc(s, es + [ReloadPoll(false)], ReloadResume(None, None));
    HungUpReloadSpawns(Run(s, es));
  }

  /** A reload none of whose targets is alive goes through to the replacement. */
  lemma HungUpReloadSpawns(s: State)
    requires s.phase == Reloading && s.reload.StoppingServer? && s.reload.stop.Polling? && !s.exited
    requires s.reload.stop.targets !! s.alive && LauncherTargets(s.reload.client) !! s.alive
    ensures var t := Step(Step(s, ReloadPoll(false)), ReloadResume(None, None));
            && t.shutdownStarted == s.shutdownStarted && t.generation == s.generation
            && t.servers == s.servers && t.alive == s.alive
            && Step(t, ReloadResume(None, None)).generation == s.generation + 1
            && Step(t, ReloadResume(None, None)).alive == s.alive
            && Step(t, ReloadResume(None, None)).servers == s.servers[s.generation + 1 := Server(None, None, false)]
  {
    hide ManagedTargets, LauncherTargets;
  }

  /**
    The end of startup assigns `running` unconditionally: no server is started after shutdown has begun,
    on any run, exactly when shutdown had not begun by then.
   */
  lemma NoSpawnAfterShutdownIff(builtClient: bool, early: bool, launcher: Option<Pid>, vite: Option<Pid>, alive: set<int>)
    ensures NoSpawnAfterShutdown(Init(builtClient, early, launcher, vite, alive)) <==> !early
  {
    var s := Init(builtClient, early, launcher, vite, alive);
    if early {
      QuickReloadReachesSpawn(builtClient, launcher, vite, alive);
    } else {
      InitInv(builtClient, launcher, vite, alive);
      forall es, e | Run(s, es).shutdownStarted
        ensures Step(Run(s, es), e).generation == Run(s, es).generation
      {
        RunKeepsInv(s, es);
        ShutdownStep(Run(s, es), e);
      }
    }
  }

  lemma OwnServers(s: State)
    requires Inv(s)
    ensures s.current in s.servers
    ensures s.reload != NoReload ==> s.reload.server == s.current
    ensures s.reload.StoppingClient? ==> s.reload.dead.Dead?
    ensures s.recovery.Recovering? ==> s.recovery.server == s.current
  {
  }

  lemma MarkedStops(s: State, g: nat)
    requires g in s.servers
    ensures forall targets :: BeginStop(MarkExited(s, g), targets) == BeginStop(s, targets)
  {
  }

  // ---- the wrapper's handlers ----

  /** The part of the state that only records the run. */
  datatype Trace = Trace(history: seq<Snapshot>, log: seq<Spawn>, tally: Tally) {
    function Ticked(alive: set<int>, servers: map<nat, Server>): Trace {
      this.(history := history + [Snapshot(alive, servers)])
    }
  }

  /**
    The wrapper's variables, with one method per region.  `reload` and `recovery` are the suspended
    calls, `alive` is the process table, and `trace` only records the run.
   */
  class DevWrapper {
    const builtClient: bool
    var wrapperState: Phase
    var servers: map<nat, Server>
    var serverChild: nat
    var serverGeneration: nat
    var clientChild: Option<Pid>
    var unexpectedRecoveryUsed: bool
    var shutdownPromise: bool
    var controlOpen: bool
    var exited: bool
    var reload: Reload
    var recovery: Recovery
    var alive: set<int>

    var trace: Trace

    ghost function View(): State
      reads this
    {
      State(builtClient, wrapperState, servers, serverChild, serverGeneration, clientChild, unexpectedRecoveryUsed,
            shutdownPromise, controlOpen, exited, reload, recovery, alive,
            trace.history, trace.log, trace.tally)
    }

    constructor (built: bool, launcher: Option<Pid>, vite: Option<Pid>, processes: set<int>)
      ensures View() == Init(built, false, launcher, vite, processes)
      ensures Inv(View())
    {
      builtClient, wrapperState, alive := built, Running, processes;
      servers, serverChild, serverGeneration := map[1 := Server(launcher, None, false)], 1, 1;
      clientChild := if built then None else vite;
      unexpectedRecoveryUsed, shutdownPromise, controlOpen, exited := false, false, true, false;
      reload, recovery, trace := NoReload, NoRecovery, Trace([], [], Tally(0, 0, 0, 0, 0, 0));
      new;
      InitInv(built, launcher, vite, processes);
    }

    method StopManagedChild(targets: set<int>) returns (stop: Stop)
      ensures stop == BeginStop(View(), targets)
    {
      if targets !! alive {
        stop := Dead(targets, |trace.history|, |trace.history|);
      } else {
        stop := Polling(Term, targets, |trace.history|);
      }
    }

    method WaitForProcessTargetsExit(stop: Stop, expired: bool, renewed: set<int>) returns (next: Option<Stop>)
      ensures next == Poll(View(), stop, expired, renewed)
    {
      next := Some(stop);
      if stop.Polling? {
        if stop.targets !! alive {
          next := Some(Dead(stop.targets, stop.since, |trace.history|));
        } else if expired {
          match stop.signal {
            case Hup =>
              var again := StopManagedChild(renewed);
              next := Some(again);
            case Term => next := Some(Polling(Kill, stop.targets, stop.since));
            case Kill => next := None;
          }
        }
      }
    }

    method BeginShutdown()
      modifies this`wrapperState, this`shutdownPromise, this`controlOpen, this`trace
      ensures View() == ShutDown(old(View()))
      ensures shutdownPromise && (old(shutdownPromise) ==>
                wrapperState == old(wrapperState) && controlOpen == old(controlOpen) && trace == old(trace))
      ensures !old(shutdownPromise) ==>
                wrapperState == ShuttingDown && !controlOpen && trace == old(trace).(tally := old(trace).tally.(shutdowns := old(trace).tally.shutdowns + 1))
    {
      if shutdownPromise { return; }
      wrapperState := ShuttingDown;
      shutdownPromise := true;
      controlOpen := false;
      trace := trace.(tally := trace.tally.(shutdowns := trace.tally.shutdowns + 1));
    }

    method ShutdownWrapper()
      requires !exited
      modifies this
      ensures View() == Step(old(View()), ShutdownRequest)
    {
      BeginShutdown();
      trace := trace.Ticked(alive, servers);
    }

    function NextSpawn(stop: Stop): Spawn
      requires stop.Dead?
      reads this
    {
      Spawn(serverGeneration + 1, serverChild, stop.targets, stop.since, stop.at)
    }

    method StartServer(launcher: Option<Pid>)
      modifies this`serverGeneration, this`servers, this`serverChild
      ensures serverGeneration == old(serverGeneration) + 1 && serverChild == serverGeneration
      ensures servers == old(servers)[serverGeneration := Server(launcher, None, false)]
    {
      serverGeneration := serverGeneration + 1;
      servers := servers[serverGeneration := Server(launcher, None, false)];
      serverChild := serverGeneration;
    }

    method RequestServerReload()
      requires Inv(View()) && !exited
      modifies this
      ensures View() == Tick(old(View()), OnReloadRequest(old(View()))) && Inv(View())
    {
      hide Inv, Poll, BeginStop, ManagedTargets, LauncherTargets;
      RequestKeepsInv(View());
      OwnServers(View());
      if wrapperState == Running && !servers[serverChild].exited {
        wrapperState := Reloading;
        trace := trace.(tally := trace.tally.(accepted := trace.tally.accepted + 1));
        if builtClient {
          reload := Building(serverChild);
        } else {
          reload := StoppingServer(serverChild, clientChild,
                                   Polling(Hup, ManagedTargets(servers[serverChild]), |trace.history|));
        }
      }
      trace := trace.Ticked(alive, servers);
    }

    method EndBuild(left: Option<Pid>)
      requires reload.Building?
      modifies this`reload, this`clientChild, this`trace, this`wrapperState
      ensures View() == OnBuildFailed(old(View()), left) && trace.history == old(trace.history)
    {
      reload, clientChild := NoReload, left;
      trace := trace.(tally := trace.tally.(failedBuilds := trace.tally.failedBuilds + 1));
      if wrapperState != ShuttingDown { wrapperState := Running; }
    }

    method ClientBuildFailed(left: Option<Pid>)
      requires Inv(View()) && !exited && reload.Building?
      modifies this
      ensures View() == Tick(old(View()), OnBuildFailed(old(View()), left)) && Inv(View())
    {
      hide Inv, OnBuildFailed;
      BuildKeepsInv(View(), left);
      EndBuild(left);
      trace := trace.Ticked(alive, servers);
    }

    method ClientBuilt(left: Option<Pid>)
      requires Inv(View()) && !exited && reload.Building?
      modifies this
      ensures View() == Tick(old(View()), OnBuildDone(old(View()), left)) && Inv(View())
    {
      hide Inv, Poll, BeginStop, ManagedTargets, LauncherTargets;
      BuildKeepsInv(View(), left);
      OwnServers(View());
      clientChild := left;
      if wrapperState == ShuttingDown {
        reload, trace := NoReload, trace.(tally := trace.tally.(abandoned := trace.tally.abandoned + 1));
      } else {
        reload := StoppingServer(reload.server, left, Polling(Hup, ManagedTargets(servers[reload.server]), |trace.history|));
      }
      trace := trace.Ticked(alive, servers);
    }

    method PollServerStop(expired: bool)
      requires Inv(View()) && !exited && reload.StoppingServer?
      modifies this
      ensures View() == Tick(old(View()), OnReloadPoll(old(View()), expired)) && Inv(View())
    {
      hide Inv, Poll, BeginStop, ManagedTargets, LauncherTargets;
      ReloadPollKeepsInv(View(), expired);
      OwnServers(View());
      var next := WaitForProcessTargetsExit(reload.stop, expired, ManagedTargets(servers[reload.server]));
      if next.Some? {
        reload := StoppingServer(reload.server, reload.client, next.value);
      } else {
        AbandonReload();
        BeginShutdown();
      }
      trace := trace.Ticked(alive, servers);
    }

    method PollClientStop(expired: bool)
      requires Inv(View()) && !exited && reload.StoppingClient?
      modifies this
      ensures View() == Tick(old(View()), OnReloadPoll(old(View()), expired)) && Inv(View())
    {
      hide Inv, Poll, BeginStop, ManagedTargets, LauncherTargets;
      ReloadPollKeepsInv(View(), expired);
      OwnServers(View());
      var next := WaitForProcessTargetsExit(reload.stop, expired, LauncherTargets(reload.client));
      if next.Some? {
        reload := StoppingClient(reload.server, reload.client, reload.dead, next.value);
      } else {
        AbandonReload();
        BeginShutdown();
      }
      trace := trace.Ticked(alive, servers);
    }

    method FailReload()
      requires Inv(View()) && !exited && (reload.StoppingServer? || reload.StoppingClient?)
      modifies this
      ensures View() == Tick(old(View()), OnReloadError(old(View()))) && Inv(View())
    {
      hide Inv, Poll, BeginStop, ManagedTargets, LauncherTargets;
      ShutdownKeepsInv(View());
      OwnServers(View());
      reload, trace := NoReload, trace.(tally := trace.tally.(abandoned := trace.tally.abandoned + 1));
      BeginShutdown();
      trace := trace.Ticked(alive, servers);
    }

    /** After the server's stop: on to its client. */
    method BeginClientStop(launcher: Option<Pid>, vite: Option<Pid>)
      requires Inv(View()) && !exited && reload.StoppingServer? && reload.stop.Dead?
      modifies this`reload, this`trace
      ensures View() == Tick(old(View()), OnReloadResume(old(View()), launcher, vite)) && Inv(View())
    {
      hide Inv, Poll, BeginStop, ManagedTargets, LauncherTargets;
      ReloadResumeKeepsInv(View(), launcher, vite);
      if wrapperState != Reloading {
        reload, trace := NoReload, trace.(tally := trace.tally.(abandoned := trace.tally.abandoned + 1));
      } else {
        var stop := StopManagedChild(LauncherTargets(reload.client));
        reload := StoppingClient(reload.server, reload.client, reload.stop, stop);
      }
      trace := trace.Ticked(alive, servers);
    }

    /** After the client's stop: the replacement, unless a shutdown has begun. */
    method CompleteServerReload(launcher: Option<Pid>, vite: Option<Pid>)
      requires Inv(View()) && !exited && reload.StoppingClient? && reload.stop.Dead?
      modifies this
      ensures View() == Tick(old(View()), OnReloadResume(old(View()), launcher, vite)) && Inv(View())
    {
      hide Inv, Poll, BeginStop, ManagedTargets, LauncherTargets, Abandon, Finish;
      ReloadResumeKeepsInv(View(), launcher, vite);
      OwnServers(View());
      var before := servers;
      if wrapperState != Reloading {
        AbandonReload();
      } else {
        StartReplacement(launcher, vite, reload.client, reload.dead);
      }
      trace := trace.Ticked(alive, before);
    }

    method AbandonReload()
      modifies this`reload, this`trace
      ensures View() == Abandon(old(View()))
      ensures trace.history == old(trace.history)
    {
      reload, trace := NoReload, trace.(tally := trace.tally.(abandoned := trace.tally.abandoned + 1));
    }

    method RestartClient(stopped: Option<Pid>, vite: Option<Pid>)
      modifies this`clientChild
      ensures clientChild == if !builtClient then vite else if old(clientChild) == stopped then None else old(clientChild)
    {
      if clientChild == stopped { clientChild := None; }
      if !builtClient { clientChild := vite; }
    }

    /** startServer, after the stop of the server it replaces. */
    method ReplaceServer(launcher: Option<Pid>, stop: Stop)
      requires stop.Dead?
      modifies this`serverGeneration, this`servers, this`serverChild, this`trace
      ensures View() == Replace(old(View()), launcher, stop.targets, stop.since, stop.at)
      ensures trace.history == old(trace.history) && trace.tally == old(trace.tally)
    {
      trace := trace.(log := trace.log + [NextSpawn(stop)]);
      StartServer(launcher);
    }

    method StartReplacement(launcher: Option<Pid>, vite: Option<Pid>, stopped: Option<Pid>, stop: Stop)
      requires stop.Dead?
      modifies this
      ensures View() == Finish(old(View()), launcher, vite, stopped, stop.targets, stop.since, stop.at)
      ensures alive == old(alive) && trace.history == old(trace.history)
    {
      RestartClient(stopped, vite);
      ReplaceServer(launcher, stop);
      trace := trace.(tally := trace.tally.(reloads := trace.tally.reloads + 1));
      wrapperState, reload := Running, NoReload;
    }

    method PollRecovery(expired: bool)
      requires Inv(View()) && !exited && recovery.Recovering?
      modifies this
      ensures View() == Tick(old(View()), OnRecoveryPoll(old(View()), expired)) && Inv(View())
    {
      hide Inv, Poll, BeginStop, ManagedTargets, LauncherTargets;
      RecoveryPollKeepsInv(View(), expired);
      OwnServers(View());
      var next := WaitForProcessTargetsExit(recovery.stop, expired, ManagedTargets(servers[recovery.server]));
      if next.Some? {
        recovery := Recovering(recovery.server, next.value);
      } else {
        recovery := NoRecovery;
        BeginShutdown();
      }
      trace := trace.Ticked(alive, servers);
    }

    method FailRecovery()
      requires Inv(View()) && !exited && recovery.Recovering?
      modifies this
      ensures View() == Tick(old(View()), OnRecoveryError(old(View()))) && Inv(View())
    {
      hide Inv, Poll, BeginStop, ManagedTargets, LauncherTargets;
      ShutdownKeepsInv(View());
      OwnServers(View());
      recovery := NoRecovery;
      BeginShutdown();
      trace := trace.Ticked(alive, servers);
    }

    method RecoverUnexpectedServer(launcher: Option<Pid>)
      requires Inv(View()) && !exited && recovery.Recovering? && recovery.stop.Dead?
      modifies this
      ensures View() == Tick(old(View()), OnRecoveryResume(old(View()), launcher)) && Inv(View())
    {
      hide Inv, Poll, BeginStop, ManagedTargets, LauncherTargets, Retry;
      RecoveryResumeKeepsInv(View(), launcher);
      OwnServers(View());
      var processes, before := alive, servers;
      if wrapperState == Running && serverChild == recovery.server {
        RetryOnce(launcher, recovery.stop);
      }
      recovery, trace := NoRecovery, trace.Ticked(processes, before);
    }

    method RetryOnce(launcher: Option<Pid>, stop: Stop)
      requires stop.Dead?
      modifies this`serverGeneration, this`servers, this`serverChild, this`trace
      ensures View() == Retry(old(View()), launcher, stop.targets, stop.since, stop.at)
      ensures trace.history == old(trace.history)
    {
      ReplaceServer(launcher, stop);
      trace := trace.(tally := trace.tally.(recoveries := trace.tally.recoveries + 1));
    }

    method MarkChildExited(g: nat)
      requires g in servers
      modifies this`servers
      ensures View() == MarkExited(old(View()), g)
    {
      servers := servers[g := Server(servers[g].launcher, servers[g].backend, true)];
    }

    method BeginRecovery(g: nat, targets: set<int>)
      modifies this`unexpectedRecoveryUsed, this`recovery
      ensures View() == old(View()).(recoveryUsed := true, recovery := Recovering(g, BeginStop(old(View()), targets)))
    {
      var stop := StopManagedChild(targets);
      unexpectedRecoveryUsed, recovery := true, Recovering(g, stop);
    }

    method ServerExited(g: nat, code: Option<int>)
      requires Inv(View()) && !exited && g in servers && !servers[g].exited
      modifies this
      ensures View() == Tick(old(View()), OnServerExit(old(View()), g, code)) && Inv(View())
    {
      hide Inv, Poll, ManagedTargets, LauncherTargets, MarkExited;
      ExitKeepsInv(View(), g, code);
      OwnServers(View());
      MarkedStops(View(), g);
      var processes, before := alive, servers;
      MarkChildExited(g);
      if serverChild == g && wrapperState == Running {
        if code.Some? && code.value != 0 && !unexpectedRecoveryUsed {
          BeginRecovery(g, ManagedTargets(before[g]));
        } else {
          BeginShutdown();
        }
      }
      trace := trace.Ticked(processes, before);
    }

    method RegisterBackend(g: nat, pid: int) returns (ok: bool)
      requires Inv(View()) && !exited && controlOpen
      modifies this
      ensures View() == Tick(old(View()), OnRegister(old(View()), g, pid)) && Inv(View())
      ensures ok <==> g == serverChild && pid > 1
    {
      hide Inv, Poll, BeginStop, ManagedTargets, LauncherTargets;
      RegisterKeepsInv(View(), g, pid);
      OwnServers(View());
      var before := servers;
      ok := g == serverChild && pid > 1;
      if ok {
        servers := servers[g := Server(servers[g].launcher, Some(pid), servers[g].exited)];
      }
      trace := trace.Ticked(alive, before);
    }
  }
}
