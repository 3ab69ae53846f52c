/** The supervision of the gateway child process (src/server.js, lines 234-285, 459-594,
    1873-1880 and 2029-2067). The module-level variables `gatewayProc`, `gatewayStarting`, `gatewayHealthy`,
    `gatewayRecovery`, `lastGatewayRecoveryAt` and `shuttingDown` become the fields of
    `Supervisor`; every await the code passes through becomes an event that the environment
    delivers later (the end of a grace sleep after a kill, the spawn after the config has been
    enforced, the health probe's verdict, a process exiting, the auto-restart timer firing).
    `isConfigured()` is read from the file system at each use, so every event that consults it
    carries its value. */
module Supervisor {
  import opened Text
  import opened Timing

  /** `GATEWAY_RECOVERY_COOLDOWN_MS`. */
  const RecoveryCooldownMs: int := 5000

  /** A spawned gateway process: its identity and its `_manualRestart` mark. */
  datatype Proc = Proc(pid: nat, manualRestart: bool)

  /** Where the start promise `gatewayStarting` is: none, awaiting the config enforcement that
      precedes the spawn, or awaiting the readiness probe. */
  datatype StartPhase = Idle | Configuring | Probing

  /** A sleep that follows a SIGTERM and ends by clearing `gatewayProc`: the one in
      `ensureGatewayRunning` (500 ms), in `restartGateway` (750 ms), in a recovery (500 ms). */
  datatype Grace = AfterUnhealthyKill | AfterRestartKill | AfterRecoveryKill

  datatype Supervisor = Supervisor(
    proc: Option<Proc>,
    starting: StartPhase,
    healthy: bool,
    recovering: bool,
    lastRecoveryAt: int,
    shuttingDown: bool,
    /** auto-restart timers scheduled and not yet fired */
    timers: nat,
    /** grace sleeps in progress */
    sleeping: multiset<Grace>,
    /** spawned processes that have not exited */
    alive: set<nat>,
    /** the identity the next spawned process gets */
    nextPid: nat)

  /** The handle, when there is one, refers to a live process; identities are fresh; and
      while a start is in progress (enforcing the config or probing), the gateway is not
      healthy. */
  ghost predicate Inv(st: Supervisor) {
    (st.proc.Some? ==> st.proc.value.pid in st.alive)
    && (forall p :: p in st.alive ==> p < st.nextPid)
    && (st.starting != Idle ==> !st.healthy)
  }

  function Initial(): (st: Supervisor)
    ensures Inv(st) && !IsReady(st)
  {
    Supervisor(None, Idle, false, false, 0, false, 0, multiset{}, {}, 0)
  }

  /** `isGatewayReady`. */
  predicate IsReady(st: Supervisor) {
    st.proc.Some? && st.starting == Idle && st.healthy
  }

  /** The handle with its `_manualRestart` mark set. */
  function Marked(p: Option<Proc>): (r: Option<Proc>)
    ensures r.Some? <==> p.Some?
    ensures p.Some? ==> r.value.pid == p.value.pid && r.value.manualRestart
  {
    if p.Some? then Some(p.value.(manualRestart := true)) else None
  }

  /** `if (!gatewayStarting) gatewayStarting = ...startGateway()...`, up to the first await:
      a start in progress is joined; otherwise `startGateway` returns at once when there is a
      handle (and the probe starts), throws when unconfigured (and the start is over), or
      clears the healthy flag and awaits the config enforcement. It touches no process.
      `ensureGatewayRunning` never gets here with a ready gateway, which would be probed
      while healthy. */
  function StartOrJoin(st: Supervisor, configured: bool): (r: Supervisor)
    ensures r == st.(starting := r.starting, healthy := r.healthy)
    ensures st.starting != Idle ==> r == st
    ensures st.starting == Idle ==> (r.starting == Configuring <==> st.proc.None? && configured)
    ensures st.starting == Idle && r.starting == Configuring ==> !r.healthy
    ensures IsReady(st) ==> r == st.(starting := Probing)
    ensures Inv(st) && !IsReady(st) ==> Inv(r)
  {
    if st.starting != Idle then st
    else if st.proc.Some? then st.(starting := Probing)
    else if !configured then st
    else st.(starting := Configuring, healthy := false)
  }

  /** `ensureGatewayRunning`, up to its first await. A ready gateway is left alone; a handle
      that is neither starting nor healthy is marked and killed, and the call sleeps before it
      drops the handle; anything else starts the gateway or joins the start in progress. */
  function EnsureRunning(st: Supervisor, configured: bool): (r: Supervisor)
    ensures !configured || IsReady(st) ==> r == st
    ensures r == st.(proc := r.proc, starting := r.starting, healthy := r.healthy, sleeping := r.sleeping)
    ensures r.proc == st.proc || r.proc == Marked(st.proc)
    ensures r.sleeping == st.sleeping || r.sleeping == st.sleeping + multiset{AfterUnhealthyKill}
    ensures r.sleeping != st.sleeping <==> st.proc.Some? && st.starting == Idle && !st.healthy && configured
    ensures r.sleeping != st.sleeping ==> r.proc == Marked(st.proc) && r.starting == Idle
    ensures configured && st.proc.None? && st.starting == Idle ==>
      r == st.(starting := Configuring, healthy := false)
    ensures st.starting != Idle ==> r == st
    ensures Inv(st) ==> Inv(r)
  {
    if !configured then st
    else if st.proc.Some? && st.starting == Idle && st.healthy then st
    else if st.proc.Some? && st.starting == Idle then
      st.(proc := Marked(st.proc), sleeping := st.sleeping + multiset{AfterUnhealthyKill})
    else StartOrJoin(st, configured)
  }

  /** `restartGateway`, up to its first await: the gateway is marked unhealthy; a handle is
      marked and killed and the call sleeps; without one the gateway is (re)started at once. */
  function Restart(st: Supervisor, configured: bool): (r: Supervisor)
    ensures !r.healthy && !IsReady(r)
    ensures st.proc.Some? ==>
      (r.proc == Marked(st.proc) && r.starting == st.starting
       && r.sleeping == st.sleeping + multiset{AfterRestartKill})
    ensures st.proc.None? ==> r.proc.None? && r.sleeping == st.sleeping
    ensures st.proc.None? && configured && st.starting == Idle ==>
      r == st.(starting := Configuring, healthy := false)
    ensures st.proc.None? && !(configured && st.starting == Idle) ==> r == st.(healthy := false)
    ensures r.alive == st.alive && r.nextPid == st.nextPid && r.timers == st.timers
      && r.shuttingDown == st.shuttingDown && r.recovering == st.recovering
      && r.lastRecoveryAt == st.lastRecoveryAt
    ensures Inv(st) ==> Inv(r)
  {
    var s := st.(healthy := false);
    if s.proc.Some? then s.(proc := Marked(s.proc), sleeping := s.sleeping + multiset{AfterRestartKill})
    else EnsureRunning(s, configured)
  }

  /** A grace sleep ends: `gatewayProc = null`, whichever process it holds by then, and the
      sleeping call carries on (the unhealthy-path of `ensureGatewayRunning` goes on to start
      the gateway; a restart and a recovery call `ensureGatewayRunning` afresh). */
  function GraceElapsed(st: Supervisor, g: Grace, configured: bool): (r: Supervisor)
    ensures g !in st.sleeping ==> r == st
    ensures g in st.sleeping ==> r.proc.None? && r.sleeping == st.sleeping - multiset{g}
    ensures g in st.sleeping && st.starting == Idle ==> (r.starting == Configuring <==> configured)
    ensures r.alive == st.alive && r.nextPid == st.nextPid && r.timers == st.timers
      && r.shuttingDown == st.shuttingDown && r.recovering == st.recovering
    ensures Inv(st) ==> Inv(r)
  {
    if g !in st.sleeping then st
    else
      var s := st.(sleeping := st.sleeping - multiset{g}, proc := None);
      if g == AfterUnhealthyKill then StartOrJoin(s, configured) else EnsureRunning(s, configured)
  }

  /** The config enforcement of a start has finished and the process is spawned: a fresh,
      unmarked process becomes the handle and the readiness probe starts. */
  function SpawnDone(st: Supervisor): (r: Supervisor)
    ensures st.starting != Configuring ==> r == st
    ensures st.starting == Configuring ==>
      r.proc == Some(Proc(st.nextPid, false)) && r.alive == st.alive + {st.nextPid}
      && r.starting == Probing
    ensures Inv(st) && st.starting == Configuring ==> r.proc.value.pid !in st.alive
    ensures Inv(st) ==> Inv(r)
  {
    if st.starting != Configuring then st
    else st.(proc := Some(Proc(st.nextPid, false)), alive := st.alive + {st.nextPid},
             nextPid := st.nextPid + 1, starting := Probing)
  }

  /** A start whose config enforcement throws before the spawn (`fs.mkdirSync`, the config
      commands): the `finally` of the start promise clears `gatewayStarting`, and no handle
      is created. */
  function StartFailed(st: Supervisor): (r: Supervisor)
    ensures st.starting == Configuring ==> r.starting == Idle
    ensures Inv(st) && st.starting == Configuring ==> !IsReady(r)
    ensures st.starting != Configuring ==> r == st
    ensures r == st.(starting := r.starting)
    ensures Inv(st) ==> Inv(r)
  {
    if st.starting == Configuring then st.(starting := Idle) else st
  }

  /** `waitForGatewayReady` has answered: the healthy flag takes its verdict and the start is
      over (a timeout makes the start throw; the promise is cleared either way). */
  function ProbeDone(st: Supervisor, ready: bool): (r: Supervisor)
    ensures st.starting != Probing ==> r == st
    ensures st.starting == Probing ==> r.starting == Idle && (IsReady(r) <==> ready && st.proc.Some?)
    ensures r.proc == st.proc && r.alive == st.alive
    ensures Inv(st) ==> Inv(r)
  {
    if st.starting != Probing then st else st.(healthy := ready, starting := Idle)
  }

  /** The `error` listener of process `pid`: unhealthy, and the handle is dropped. */
  function ProcError(st: Supervisor, pid: nat): (r: Supervisor)
    ensures pid !in st.alive ==> r == st
    ensures pid in st.alive ==> r.proc.None? && !r.healthy && r.timers == st.timers
    ensures r.alive == st.alive && r.nextPid == st.nextPid
    ensures Inv(st) ==> Inv(r)
  {
    if pid !in st.alive then st else st.(healthy := false, proc := None)
  }

  /** The `exit` listener of process `pid`. It consults the mark of the CURRENT handle, not of
      the process that exited, and clears the current handle; it schedules an auto-restart
      unless shutting down, unless that handle is marked, and only if configured. */
  function ProcExit(st: Supervisor, pid: nat, configured: bool): (r: Supervisor)
    ensures pid !in st.alive ==> r == st
    ensures pid in st.alive ==> r.proc.None? && !r.healthy && r.alive == st.alive - {pid}
    ensures pid in st.alive ==>
      (r.timers == st.timers + 1 <==>
        !st.shuttingDown && !(st.proc.Some? && st.proc.value.manualRestart) && configured)
    ensures r.timers == st.timers || r.timers == st.timers + 1
    ensures r.starting == st.starting && r.sleeping == st.sleeping && r.recovering == st.recovering
      && r.shuttingDown == st.shuttingDown && r.nextPid == st.nextPid
    ensures Inv(st) ==> Inv(r)
  {
    if pid !in st.alive then st
    else
      var wasManualRestart := st.proc.Some? && st.proc.value.manualRestart;
      var schedule := !st.shuttingDown && !wasManualRestart && configured;
      st.(alive := st.alive - {pid}, healthy := false, proc := None,
          timers := if schedule then st.timers + 1 else st.timers)
  }

  /** The `exit` listener as its FIX #3 comment intends it: the listener acts only when the
      process that exited is still the current handle. The exit of a process the handle no
      longer refers to only removes it from the live ones; it neither drops the handle nor
      schedules an auto-restart. It is the `ExitedOwn` event of `Step`. */
  function ProcExitOwn(st: Supervisor, pid: nat, configured: bool): (r: Supervisor)
    ensures st.proc.Some? && st.proc.value.pid == pid ==> r == ProcExit(st, pid, configured)
    ensures !(st.proc.Some? && st.proc.value.pid == pid) ==>
      r.proc == st.proc && r.timers == st.timers && r.healthy == st.healthy
      && r.alive == st.alive - {pid}
    ensures r.starting == st.starting && r.sleeping == st.sleeping && r.recovering == st.recovering
      && r.shuttingDown == st.shuttingDown && r.nextPid == st.nextPid
      && r.lastRecoveryAt == st.lastRecoveryAt
    ensures Inv(st) ==> Inv(r)
  {
    if st.proc.Some? && st.proc.value.pid == pid then ProcExit(st, pid, configured)
    else st.(alive := st.alive - {pid})
  }

  /** An auto-restart timer fires: it calls `ensureGatewayRunning` only if not shutting down,
      there is still no handle and the gateway is configured. */
  function TimerFire(st: Supervisor, configured: bool): (r: Supervisor)
    ensures st.timers == 0 ==> r == st
    ensures st.timers > 0 ==> r.timers == st.timers - 1
    ensures r.proc == st.proc && r.alive == st.alive && r.sleeping == st.sleeping
    ensures r.starting != st.starting ==> !st.shuttingDown && st.proc.None? && configured
    ensures st.timers > 0 && !st.shuttingDown && st.proc.None? && configured && st.starting == Idle ==>
      r.starting == Configuring
    ensures Inv(st) ==> Inv(r)
  {
    if st.timers == 0 then st
    else
      var s := st.(timers := st.timers - 1);
      if !s.shuttingDown && s.proc.None? && configured then EnsureRunning(s, configured) else s
  }

  /** Whether `requestGatewayRecovery` at time `now` goes ahead. */
  predicate RecoveryAccepted(st: Supervisor, now: int, configured: bool) {
    !st.shuttingDown && configured && !st.recovering && now - st.lastRecoveryAt >= RecoveryCooldownMs
  }

  /** `requestGatewayRecovery` at time `now`, up to its first await: refused when shutting
      down, unconfigured, already recovering or within the cool-down; otherwise the time is
      recorded, the gateway marked unhealthy, and a handle is killed WITHOUT the manual mark
      (the call then sleeps), or, with no handle, the gateway is started at once. */
  function RequestRecovery(st: Supervisor, now: int, configured: bool): (r: Supervisor)
    ensures !RecoveryAccepted(st, now, configured) ==> r == st
    ensures RecoveryAccepted(st, now, configured) ==>
      r.recovering && r.lastRecoveryAt == now && !r.healthy && r.proc == st.proc
    ensures RecoveryAccepted(st, now, configured) && st.proc.Some? ==>
      r.sleeping == st.sleeping + multiset{AfterRecoveryKill} && r.starting == st.starting
    ensures RecoveryAccepted(st, now, configured) && st.proc.None? ==>
      r == st.(lastRecoveryAt := now, recovering := true, healthy := false,
               starting := if st.starting == Idle then Configuring else st.starting)
    ensures r.alive == st.alive && r.nextPid == st.nextPid && r.timers == st.timers
      && r.shuttingDown == st.shuttingDown
    ensures Inv(st) ==> Inv(r)
  {
    if !RecoveryAccepted(st, now, configured) then st
    else
      var s := st.(lastRecoveryAt := now, recovering := true, healthy := false);
      if s.proc.Some? then s.(sleeping := s.sleeping + multiset{AfterRecoveryKill})
      else EnsureRunning(s, configured)
  }

  /** The recovery's promise has settled (`gatewayRecovery = null` in its `finally`). */
  function RecoveryDone(st: Supervisor): (r: Supervisor)
    ensures !r.recovering && r == st.(recovering := r.recovering)
    ensures Inv(st) ==> Inv(r)
  {
    st.(recovering := false)
  }

  /** The proxy's error handler on a refused connection: `gatewayHealthy = false`, then
      `requestGatewayRecovery`. The health flag is cleared even when the request is refused;
      when it is accepted, the outcome is that of the request alone. */
  function ProxyRefused(st: Supervisor, now: int, configured: bool): (r: Supervisor)
    ensures !r.healthy && !IsReady(r)
    ensures !RecoveryAccepted(st, now, configured) ==> r == st.(healthy := false)
    ensures RecoveryAccepted(st, now, configured) ==> r == RequestRecovery(st, now, configured)
    ensures Inv(st) ==> Inv(r)
  {
    RequestRecovery(st.(healthy := false), now, configured)
  }

  /** A refused connection during the cool-down does not start a recovery, but it still
      costs a ready gateway its health: the next `ensureGatewayRunning` (the next proxied
      request) marks and kills the process and sleeps before starting a new one. */
  lemma RefusedDuringCooldownKills(st: Supervisor, now: int)
    requires IsReady(st) && !st.shuttingDown && !st.recovering
    requires now - st.lastRecoveryAt < RecoveryCooldownMs
    ensures var r := EnsureRunning(ProxyRefused(st, now, true), true);
      && r.proc == Marked(st.proc)
      && r.sleeping == st.sleeping + multiset{AfterUnhealthyKill}
      && r.lastRecoveryAt == st.lastRecoveryAt && !r.recovering
  {
  }

  /** `gracefulShutdown`, up to its first await: the shutdown flag is set and the handle, if
      any, is marked before it is sent SIGTERM. */
  function Shutdown(st: Supervisor): (r: Supervisor)
    ensures r.shuttingDown && r.proc == Marked(st.proc)
    ensures r == st.(shuttingDown := r.shuttingDown, proc := r.proc)
    ensures Inv(st) ==> Inv(r)
  {
    st.(shuttingDown := true, proc := Marked(st.proc))
  }

  /** The events the supervisor reacts to. */
  datatype Event =
    | EnsureCall(configured: bool)
    | RestartCall(configured: bool)
    | GraceEnd(g: Grace, configured: bool)
    | Spawned
    | StartThrew
    | Probed(ready: bool)
    | Errored(pid: nat)
    /** process `pid` exits and the listener as written runs */
    | Exited(pid: nat, configured: bool)
    /** process `pid` exits and the corrected listener runs */
    | ExitedOwn(pid: nat, configured: bool)
    | TimerFired(configured: bool)
    | RecoveryCall(now: int, configured: bool)
    | ProxyConnRefused(now: int, configured: bool)
    | RecoverySettled
    | ShutdownCall

  /** One event. It keeps the invariant. A process exit is delivered either to the listener
      as written (`Exited`) or to the corrected one (`ExitedOwn`); the results below about
      runs quantify over every event sequence, so they hold for the program as written (runs
      without `ExitedOwn`) as well as for the corrected one (runs without `Exited`). */
  function Step(st: Supervisor, e: Event): (r: Supervisor)
    ensures Inv(st) ==> Inv(r)
  {
    match e
    case EnsureCall(c) => EnsureRunning(st, c)
    case RestartCall(c) => Restart(st, c)
    case GraceEnd(g, c) => GraceElapsed(st, g, c)
    case Spawned => SpawnDone(st)
    case StartThrew => StartFailed(st)
    case Probed(ready) => ProbeDone(st, ready)
    case Errored(pid) => ProcError(st, pid)
    case Exited(pid, c) => ProcExit(st, pid, c)
    case ExitedOwn(pid, c) => ProcExitOwn(st, pid, c)
    case TimerFired(c) => TimerFire(st, c)
    case RecoveryCall(now, c) => RequestRecovery(st, now, c)
    case ProxyConnRefused(now, c) => ProxyRefused(st, now, c)
    case RecoverySettled => RecoveryDone(st)
    case ShutdownCall => Shutdown(st)
  }

  /** Once shutting down, an event leaves the flag set, schedules no auto-restart and starts
      no recovery. */
  lemma StepAfterShutdown(st: Supervisor, e: Event)
    requires st.shuttingDown
    ensures var r := Step(st, e);
      r.shuttingDown && r.timers <= st.timers && (r.recovering ==> st.recovering)
  {
  }

  /** The event is a recovery request, from the proxy or not, that goes ahead. */
  predicate StartsRecovery(st: Supervisor, e: Event) {
    (e.RecoveryCall? || e.ProxyConnRefused?) && RecoveryAccepted(st, e.now, e.configured)
  }

  /** Only an accepted recovery request moves the time of the last recovery, to its own time. */
  lemma StepStampsRecovery(st: Supervisor, e: Event)
    ensures StartsRecovery(st, e) ==> Step(st, e).lastRecoveryAt == e.now
    ensures !StartsRecovery(st, e) ==> Step(st, e).lastRecoveryAt == st.lastRecoveryAt
  {
  }

  /** A sequence of events, with the times of the recovery requests that were accepted. */
  function Run(st: Supervisor, events: seq<Event>): (res: (Supervisor, seq<int>))
    ensures Inv(st) ==> Inv(res.0)
    decreases |events|
  {
    if events == [] then (st, [])
    else
      var e := events[0];
      var next := Step(st, e);
      var stamp := if StartsRecovery(st, e) then Some(e.now) else None;
      var rest := Run(next, events[1..]);
      (rest.0, Stamped(stamp) + rest.1)
  }

  /** The exit listener does not look at which process exited: any two live processes exiting
      leave the same handle, health and timers behind. */
  lemma ExitIgnoresExitingProcess(st: Supervisor, p: nat, q: nat, configured: bool)
    requires p in st.alive && q in st.alive
    ensures ProcExit(st, p, configured).(alive := st.alive) == ProcExit(st, q, configured).(alive := st.alive)
  {
  }

  /** A restart followed by the old process exiting while the restart still sleeps: the
      handle is the marked old one, so no auto-restart is scheduled. */
  lemma PromptExitAfterRestart(st: Supervisor, a: nat, configured: bool)
    requires st.proc.Some? && st.proc.value.pid == a && a in st.alive
    ensures ProcExit(Restart(st, configured), a, configured).timers == st.timers
    ensures ProcExit(Restart(st, configured), a, configured).proc.None?
  {
  }

  /** A restart whose old process exits only after the grace sleep, once the new process has
      been spawned: the exit listener finds the new, unmarked handle, drops it although that
      process is still running, and schedules an auto-restart. */
  lemma {:induction false} LateExitAfterRestart(st: Supervisor, a: nat)
    requires Inv(st) && st.proc.Some? && st.proc.value.pid == a
    requires st.starting == Idle && !st.shuttingDown
    ensures var s1 := Restart(st, true);
            var s2 := GraceElapsed(s1, AfterRestartKill, true);
            var s3 := SpawnDone(s2);
            var s4 := ProcExit(s3, a, true);
            && s3.proc == Some(Proc(st.nextPid, false)) && st.nextPid != a
            && s4.proc.None? && st.nextPid in s4.alive && s4.timers == st.timers + 1
  {
    var s1 := Restart(st, true);
    assert AfterRestartKill in s1.sleeping;
    var s2 := GraceElapsed(s1, AfterRestartKill, true);
    assert s2.starting == Configuring;
    var s3 := SpawnDone(s2);
    assert a in s3.alive && a != st.nextPid;
  }

  /** Process `a` is on its way out on purpose: its identity is used up, and while the
      handle still refers to it, the handle carries the manual mark. */
  ghost predicate Retired(st: Supervisor, a: nat) {
    a < st.nextPid && (st.proc.Some? && st.proc.value.pid == a ==> st.proc.value.manualRestart)
  }

  /** A restart retires the process it kills. */
  lemma RestartRetires(st: Supervisor, a: nat, configured: bool)
    requires Inv(st) && st.proc.Some? && st.proc.value.pid == a
    ensures Retired(Restart(st, configured), a)
  {
  }

  /** No event brings a retired process back: a spawn takes a fresh identity, and the mark
      of a handle is never cleared. */
  lemma StepKeepsRetired(st: Supervisor, e: Event, a: nat)
    requires Retired(st, a)
    ensures Retired(Step(st, e), a)
  {
  }

  lemma {:induction false} RunKeepsRetired(st: Supervisor, events: seq<Event>, a: nat)
    requires Retired(st, a)
    ensures Retired(Run(st, events).0, a)
    decreases |events|
  {
    if events != [] {
      StepKeepsRetired(st, events[0], a);
      RunKeepsRetired(Step(st, events[0]), events[1..], a);
    }
  }

  /** With the corrected listener, a restart is never answered by a competing auto-restart:
      whatever happens between the restart and the old process's exit (the grace sleep
      ending, the new process being spawned and probed, other calls), that exit schedules no
      auto-restart and leaves the handle of any other process in place. */
  lemma {:induction false} RestartedExitNeverRestarts(st: Supervisor, a: nat, configured: bool,
                                                     events: seq<Event>, c: bool)
    requires Inv(st) && st.proc.Some? && st.proc.value.pid == a
    ensures var s := Run(Restart(st, configured), events).0;
      && Step(s, ExitedOwn(a, c)).timers == s.timers
      && (s.proc.Some? && s.proc.value.pid != a ==> Step(s, ExitedOwn(a, c)).proc == s.proc)
  {
    RestartRetires(st, a, configured);
    RunKeepsRetired(Restart(st, configured), events, a);
  }

  /** A crash of the running, unmarked gateway schedules exactly one auto-restart, and that
      timer starts the gateway again. */
  lemma {:induction false} CrashRestartsOnce(st: Supervisor, a: nat)
    requires Inv(st) && st.proc == Some(Proc(a, false)) && st.starting == Idle && !st.shuttingDown
    ensures ProcExitOwn(st, a, true).timers == st.timers + 1
    ensures TimerFire(ProcExitOwn(st, a, true), true).starting == Configuring
  {
    assert a in st.alive;
  }

  /** `ensureGatewayRunning` called several times in a row, each with its own view of the
      configuration. */
  function EnsureAll(st: Supervisor, configured: seq<bool>): (r: Supervisor)
    decreases |configured|
  {
    if configured == [] then st else EnsureAll(EnsureRunning(st, configured[0]), configured[1..])
  }

  /** Calls made while a start is in progress all join it. */
  lemma {:induction false} EnsuresJoin(st: Supervisor, configured: seq<bool>)
    requires st.starting != Idle
    ensures EnsureAll(st, configured) == st
    decreases |configured|
  {
    if configured != [] {
      EnsuresJoin(st, configured[1..]);
    }
  }

  /** However many calls arrive while there is no gateway, exactly one start begins when one
      of them sees the gateway configured, and none otherwise. */
  lemma {:induction false} ConcurrentEnsuresStartOnce(st: Supervisor, configured: seq<bool>)
    requires st.proc.None? && st.starting == Idle
    ensures (exists i :: 0 <= i < |configured| && configured[i]) ==>
      EnsureAll(st, configured) == st.(starting := Configuring, healthy := false)
    ensures (forall i :: 0 <= i < |configured| ==> !configured[i]) ==>
      EnsureAll(st, configured) == st
    decreases |configured|
  {
    if configured != [] {
      if configured[0] {
        EnsuresJoin(st.(starting := Configuring, healthy := false), configured[1..]);
      } else {
        ConcurrentEnsuresStartOnce(st, configured[1..]);
      }
    }
  }

  /** The recovery cool-down: whatever happens in between, accepted recovery requests are at
      least 5000 ms apart, and the last one is what `lastGatewayRecoveryAt` holds. */
  lemma {:induction false} RecoveryCooldown(st: Supervisor, events: seq<Event>)
    ensures Spaced(st.lastRecoveryAt, RecoveryCooldownMs, Run(st, events).1)
    ensures Run(st, events).0.lastRecoveryAt ==
      (if Run(st, events).1 == [] then st.lastRecoveryAt else Last(Run(st, events).1))
    decreases |events|
  {
    if events != [] {
      var e := events[0];
      var next := Step(st, e);
      var stamp := if StartsRecovery(st, e) then Some(e.now) else None;
      StepStampsRecovery(st, e);
      RecoveryCooldown(next, events[1..]);
      ConsSpaced(st.lastRecoveryAt, RecoveryCooldownMs, stamp, next.lastRecoveryAt, Run(next, events[1..]).1);
    }
  }

  /** Once shutting down, whatever follows: the flag stays, no auto-restart is scheduled and
      no recovery is accepted. */
  lemma {:induction false} ShutdownIsFinal(st: Supervisor, events: seq<Event>)
    requires st.shuttingDown
    ensures Run(st, events).0.shuttingDown
    ensures Run(st, events).0.timers <= st.timers
    ensures Run(st, events).1 == []
    decreases |events|
  {
    if events != [] {
      StepAfterShutdown(st, events[0]);
      ShutdownIsFinal(Step(st, events[0]), events[1..]);
    }
  }

  /** The supervisor's module-level variables. */
  class GatewaySupervisor {
    var proc: Option<Proc>
    var starting: StartPhase
    var healthy: bool
    var recovering: bool
    var lastRecoveryAt: int
    var shuttingDown: bool
    var timers: nat
    var sleeping: multiset<Grace>
    var alive: set<nat>
    var nextPid: nat

    function State(): Supervisor
      reads this
    {
      Supervisor(proc, starting, healthy, recovering, lastRecoveryAt, shuttingDown, timers, sleeping, alive, nextPid)
    }

    constructor ()
      ensures State() == Initial()
    {
      proc := None;
      starting := Idle;
      healthy := false;
      recovering := false;
      lastRecoveryAt := 0;
      shuttingDown := false;
      timers := 0;
      sleeping := multiset{};
      alive := {};
      nextPid := 0;
    }

    /** `isGatewayReady`. */
    function IsGatewayReady(): (ready: bool)
      reads this
      ensures ready == IsReady(State())
    {
      proc != None && starting == Idle && healthy
    }

    method StartOrJoinGateway(configured: bool)
      modifies this
      ensures State() == StartOrJoin(old(State()), configured)
    {
      if starting != Idle {
        return;
      }
      if proc.Some? {
        starting := Probing;
        return;
      }
      if !configured {
        return;
      }
      healthy := false;
      starting := Configuring;
    }

    /** `ensureGatewayRunning`. */
    method EnsureGatewayRunning(configured: bool)
      modifies this
      ensures State() == EnsureRunning(old(State()), configured)
    {
      if !configured {
        return;
      }
      if proc.Some? && starting == Idle && healthy {
        return;
      }
      if proc.Some? && starting == Idle && !healthy {
        proc := Some(proc.value.(manualRestart := true));
        sleeping := sleeping + multiset{AfterUnhealthyKill};
        return;
      }
      StartOrJoinGateway(configured);
    }

    /** `restartGateway`. */
    method RestartGateway(configured: bool)
      modifies this
      ensures State() == Restart(old(State()), configured)
    {
      healthy := false;
      if proc.Some? {
        proc := Some(proc.value.(manualRestart := true));
        sleeping := sleeping + multiset{AfterRestartKill};
        return;
      }
      EnsureGatewayRunning(configured);
    }

    method OnGraceElapsed(g: Grace, configured: bool)
      modifies this
      ensures State() == GraceElapsed(old(State()), g, configured)
    {
      if g !in sleeping {
        return;
      }
      sleeping := sleeping - multiset{g};
      proc := None;
      assert State() == old(State()).(sleeping := old(sleeping) - multiset{g}, proc := None);
      if g == AfterUnhealthyKill {
        StartOrJoinGateway(configured);
      } else {
        EnsureGatewayRunning(configured);
      }
    }

    method OnSpawned()
      modifies this
      ensures State() == SpawnDone(old(State()))
    {
      if starting != Configuring {
        return;
      }
      proc := Some(Proc(nextPid, false));
      alive := alive + {nextPid};
      nextPid := nextPid + 1;
      starting := Probing;
    }

    method OnProbed(ready: bool)
      modifies this
      ensures State() == ProbeDone(old(State()), ready)
    {
      if starting == Probing {
        healthy := ready;
        starting := Idle;
      }
    }

    method OnError(pid: nat)
      modifies this
      ensures State() == ProcError(old(State()), pid)
    {
      if pid in alive {
        healthy := false;
        proc := None;
      }
    }

    /** A start that throws before its spawn. */
    method OnStartFailed()
      modifies this
      ensures State() == StartFailed(old(State()))
    {
      if starting == Configuring {
        starting := Idle;
      }
    }

    /** The `exit` listener of process `pid` as written: it reads the mark of, and clears,
        the current handle, whichever process exited. */
    method OnExit(pid: nat, configured: bool)
      modifies this
      ensures State() == ProcExit(old(State()), pid, configured)
    {
      if pid !in alive {
        return;
      }
      alive := alive - {pid};
      healthy := false;
      var wasManualRestart := proc.Some? && proc.value.manualRestart;
      proc := None;
      if !shuttingDown && !wasManualRestart && configured {
        timers := timers + 1;
      }
    }

    /** The corrected `exit` listener of process `pid`, acting only when `pid` is the
        current handle. */
    method OnExitOwn(pid: nat, configured: bool)
      modifies this
      ensures State() == ProcExitOwn(old(State()), pid, configured)
    {
      if proc.None? || proc.value.pid != pid {
        alive := alive - {pid};
        return;
      }
      if pid !in alive {
        return;
      }
      alive := alive - {pid};
      healthy := false;
      var wasManualRestart := proc.Some? && proc.value.manualRestart;
      proc := None;
      if !shuttingDown && !wasManualRestart && configured {
        timers := timers + 1;
      }
    }

    /** The auto-restart timer. */
    method OnTimer(configured: bool)
      modifies this
      ensures State() == TimerFire(old(State()), configured)
    {
      if timers == 0 {
        return;
      }
      timers := timers - 1;
      if !shuttingDown && proc.None? && configured {
        EnsureGatewayRunning(configured);
      }
    }

    /** `requestGatewayRecovery`. */
    method RequestGatewayRecovery(now: int, configured: bool)
      modifies this
      ensures State() == RequestRecovery(old(State()), now, configured)
    {
      if shuttingDown || !configured {
        return;
      }
      if recovering {
        return;
      }
      if now - lastRecoveryAt < RecoveryCooldownMs {
        return;
      }
      lastRecoveryAt := now;
      recovering := true;
      healthy := false;
      if proc.Some? {
        sleeping := sleeping + multiset{AfterRecoveryKill};
      } else {
        EnsureGatewayRunning(configured);
      }
    }

    /** The proxy's `error` listener on a refused connection. */
    method OnProxyConnRefused(now: int, configured: bool)
      modifies this
      ensures State() == ProxyRefused(old(State()), now, configured)
    {
      healthy := false;
      RequestGatewayRecovery(now, configured);
    }

    method OnRecoverySettled()
      modifies this
      ensures State() == RecoveryDone(old(State()))
    {
      recovering := false;
    }

    /** `gracefulShutdown`. */
    method GracefulShutdown()
      modifies this
      ensures State() == Shutdown(old(State()))
    {
      shuttingDown := true;
      if proc.Some? {
        proc := Some(proc.value.(manualRestart := true));
      }
    }
  }
}
