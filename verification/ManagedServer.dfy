/**
 The managed server's lifecycle, one bruv process at a time. Between any two looks at the
 system the environment moves: managed servers may die, other processes come and go, and a
 freed process id may be taken again by a stranger.
 */
module ManagedServer {
  import opened Wrappers
  import opened Text

  const STARTUP_TIMEOUT: nat := 600_000 // milliseconds
  const STOP_GRACE: nat := 10_000
  const LOCK_STALE_AFTER: nat := 180_000

  /** What one call looked at and did, in order. */
  datatype Event =
    | SawAlive(pid: nat)
    | SawDead(pid: nat)
    | SawLine(pid: nat, line: Option<string>)
    | SawHealth(answer: bool)
    | SawPort(taken: bool)
    | SawLockAge(age: Option<int>)
    | TookLock
    | GaveLock
    | Spawned(pid: nat)
    | Wrote(pid: nat)
    | Cleared(pid: nat)
    | Terminated(pid: nat)
    | Killed(pid: nat)

  datatype Failure =
    | NotInstalled
    | BadRecord // the pid file is malformed
    | NotHealthy
    | NotOurs
    | PortBusy
    | LockHeld
    | NotLaunched
    | NotRunning
    | Unidentified
    | StillAlive

  /** The startup lock: its holder's process id, if it can be read, and when it was made. */
  datatype Lock = Lock(holder: Option<nat>, made: int)

  datatype Command = StartIt | StopIt | EnsureIt | RepairIt

  datatype After = After(record: Option<nat>, alive: set<nat>, trace: seq<Event>)

  datatype StartOutcome = Running(pid: nat, reused: bool) | StartFailed(why: Failure)

  datatype StopOutcome = Stopped(pid: nat) | Stale(pid: nat) | StopFailed(why: Failure)

  /** The command line is that of the managed Python running the server script. */
  predicate Matches(line: string, venvPython: string) {
    Contains(line, venvPython) && Contains(line, "hf_server")
  }

  /** The process was identified by its command line earlier in the call. */
  predicate Identified(t: seq<Event>, pid: nat, venvPython: string) {
    exists e | e in t :: Identifies(e, pid, venvPython)
  }

  predicate Identifies(e: Event, pid: nat, venvPython: string) {
    && e.SawLine? && e.pid == pid && e.line.Some?
    && Contains(e.line.value, venvPython) && Contains(e.line.value, "hf_server")
  }

  /**
   Signals go only to a process identified before in the same call, and a kill only to one terminated
   before and just seen alive; a record is deleted only right after its process was seen dead; a server
   is spawned only when the port has just been seen free under the startup lock, and recorded at once.
   */
  predicate Safe(t: seq<Event>, venvPython: string) {
    forall i :: 0 <= i < |t| ==> SafeAt(t, i, venvPython)
  }

  predicate SafeAt(t: seq<Event>, i: nat, venvPython: string)
    requires i < |t|
  {
    match t[i]
    case Terminated(pid) => Identified(t[..i], pid, venvPython)
    case Killed(pid) =>
      Identified(t[..i], pid, venvPython) && i > 0 && t[i - 1] == SawAlive(pid) && Terminated(pid) in t[..i]
    case Cleared(pid) => i > 0 && t[i - 1] == SawDead(pid)
    case Spawned(pid) =>
      && i >= 2 && t[i - 2] == TookLock && t[i - 1] == SawPort(false)
      && i + 1 < |t| && t[i + 1] == Wrote(pid)
    case _ => true
  }

  /** What the probes of a trace said last, and whether it spawned a server. */
  datatype Findings = Findings(health: Option<bool>, port: Option<bool>, spawned: bool)

  function Found(t: seq<Event>): Findings {
    if t == [] then Findings(None, None, false)
    else
      var before := Found(t[..|t| - 1]);
      match t[|t| - 1]
      case SawHealth(answer) => before.(health := Some(answer))
      case SawPort(taken) => before.(port := Some(taken))
      case Spawned(_) => before.(spawned := true)
      case _ => before
  }

  lemma FoundMore(t: seq<Event>, e: Event)
    ensures
      var before := Found(t);
      Found(t + [e]) ==
      match e
      case SawHealth(answer) => before.(health := Some(answer))
      case SawPort(taken) => before.(port := Some(taken))
      case Spawned(_) => before.(spawned := true)
      case _ => before
  {
    assert (t + [e])[..|t|] == t;
  }

  /** Every signal of the trace went to one of `pids`. */
  predicate SignalsIn(t: seq<Event>, pids: set<nat>) {
    forall i :: 0 <= i < |t| && (t[i].Terminated? || t[i].Killed?) ==> t[i].pid in pids
  }

  lemma SafeAppend(t: seq<Event>, e: Event, venvPython: string)
    requires Safe(t, venvPython) && !e.Spawned?
    requires e.Terminated? || e.Killed? ==> Identified(t, e.pid, venvPython)
    requires e.Killed? ==> t != [] && t[|t| - 1] == SawAlive(e.pid) && Terminated(e.pid) in t
    requires e.Cleared? ==> t != [] && t[|t| - 1] == SawDead(e.pid)
    ensures Safe(t + [e], venvPython)
  {
    var u := t + [e];
    SafePrefix(t, u, venvPython);
    assert u[..|t|] == t;
    assert SafeAt(u, |t|, venvPython);
  }

  lemma SafePrefix(t: seq<Event>, u: seq<Event>, venvPython: string)
    requires Safe(t, venvPython) && t <= u
    ensures forall i :: 0 <= i < |t| ==> SafeAt(u, i, venvPython)
  {
    forall i | 0 <= i < |t| ensures SafeAt(u, i, venvPython) {
      assert SafeAt(t, i, venvPython);
      assert u[..i] == t[..i];
    }
  }

  lemma SafeSpawn(t: seq<Event>, pid: nat, venvPython: string)
    requires Safe(t, venvPython) && |t| >= 2 && t[|t| - 2] == TookLock && t[|t| - 1] == SawPort(false)
    ensures Safe(t + [Spawned(pid), Wrote(pid)], venvPython)
  {
    var u := t + [Spawned(pid), Wrote(pid)];
    SafePrefix(t, u, venvPython);
    assert SafeAt(u, |t|, venvPython) && SafeAt(u, |t| + 1, venvPython);
  }

  lemma IdentifiedStays(t: seq<Event>, u: seq<Event>, pid: nat, venvPython: string)
    requires Identified(t, pid, venvPython) && t <= u
    ensures Identified(u, pid, venvPython)
  {
    var e :| e in t && Identifies(e, pid, venvPython);
    assert e in u;
  }

  class ManagedRuntime {
    const venvPython: string
    var record: Option<nat> // what the pid file names
    var malformed: bool // the pid file names nothing readable
    var lock: Option<Lock> // the startup lock directory
    var managed: set<nat> // live servers that bruv started
    var foreign: set<nat> // live processes that it did not
    var now: int // monotonic clock in milliseconds
    ghost var trace: seq<Event> // of the current call
    ghost var signalled: set<nat> // the processes the current call sent a signal to

    constructor (venvPython: string)
      ensures this.venvPython == venvPython && record == None && !malformed && lock == None && Valid()
    {
      this.venvPython := venvPython;
      record, malformed, lock := None, false, None;
      managed, foreign, now, trace, signalled := {}, {}, 0, [], {};
    }

    /** At most one managed server is alive, and it is the recorded one. */
    ghost predicate Recorded()
      reads this
    {
      managed !! foreign && (malformed ==> record.None?) && forall pid | pid in managed :: record == Some(pid)
    }

    ghost predicate Valid()
      reads this
    {
      Recorded() && Safe(trace, venvPython) && SignalsIn(trace, signalled)
    }

    // ---- The system ------------------------------------------------------------------------

    /** One more event of the call, other than a signal, a deletion or a start. */
    ghost method Note(e: Event)
      requires Valid() && !e.Terminated? && !e.Killed? && !e.Cleared? && !e.Spawned?
      modifies `trace
      ensures Valid() && trace == old(trace) + [e]
      ensures
        var before := Found(old(trace));
        Found(trace) ==
        match e
        case SawHealth(answer) => before.(health := Some(answer))
        case SawPort(taken) => before.(port := Some(taken))
        case _ => before
    {
      SafeAppend(trace, e, venvPython);
      FoundMore(trace, e);
      trace := trace + [e];
    }

    /** Anything may happen to other processes, and time passes. */
    method Environment()
      modifies `managed, `foreign, `now
      ensures managed <= old(managed) && managed !! foreign && now >= old(now)
    {
      var dead: set<nat>, others: set<nat>, elapsed: nat := *, *, *;
      managed := managed - dead;
      foreign := others - managed;
      now := now + elapsed;
    }

    method ProcessAlive(pid: nat) returns (alive: bool)
      requires Valid()
      modifies `managed, `foreign, `now, `trace
      ensures Valid() && managed <= old(managed) && now >= old(now)
      ensures trace == old(trace) + [if alive then SawAlive(pid) else SawDead(pid)]
      ensures Found(trace) == Found(old(trace)) && (!alive ==> pid !in managed)
    {
      Environment();
      alive := pid in managed || pid in foreign;
      Note(if alive then SawAlive(pid) else SawDead(pid));
    }

    /** None where the command line cannot be read. */
    method CommandLine(pid: nat) returns (line: Option<string>)
      requires Valid()
      modifies `managed, `foreign, `now, `trace
      ensures Valid() && managed <= old(managed) && now >= old(now) && trace == old(trace) + [SawLine(pid, line)]
      ensures Found(trace) == Found(old(trace))
      ensures line.Some? && Matches(line.value, venvPython) ==> Identified(trace, pid, venvPython)
    {
      Environment();
      line := *;
      Note(SawLine(pid, line));
      assert trace[|trace| - 1] in trace;
      if line.Some? && Matches(line.value, venvPython) { assert Identifies(SawLine(pid, line), pid, venvPython); }
    }

    /** A health probe: any answer. */
    method ProbeHealth() returns (answer: bool)
      requires Valid()
      modifies `managed, `foreign, `now, `trace
      ensures Valid() && managed <= old(managed) && now >= old(now) && trace == old(trace) + [SawHealth(answer)]
      ensures Found(trace) == Found(old(trace)).(health := Some(answer))
    {
      Environment();
      answer := *;
      Note(SawHealth(answer));
    }

    /** A look at the port: any answer. */
    method ProbePort() returns (taken: bool)
      requires Valid()
      modifies `managed, `foreign, `now, `trace
      ensures Valid() && managed <= old(managed) && now >= old(now) && trace == old(trace) + [SawPort(taken)]
      ensures Found(trace) == Found(old(trace)).(port := Some(taken))
    {
      Environment();
      taken := *;
      Note(SawPort(taken));
    }

    method Sleep(ms: nat)
      requires Valid()
      modifies `managed, `foreign, `now
      ensures Valid() && managed <= old(managed) && now >= old(now) + ms
    {
      Environment();
      now := now + ms;
    }

    // ---- The pid record ------------------------------------------------------------------------

    /**
     Unlinks the pid file, whatever it holds; a missing one is no error. Where it names a process,
     that was seen dead right before.
     */
    method ClearPid()
      requires Valid()
      requires record.Some? ==>
                 record.value !in managed && trace != [] && trace[|trace| - 1] == SawDead(record.value)
      modifies `record, `malformed, `trace
      ensures Valid() && record == None && !malformed
      ensures trace == old(trace) + if old(record).Some? then [Cleared(old(record).value)] else []
      ensures Found(trace) == Found(old(trace))
    {
      if record.Some? {
        SafeAppend(trace, Cleared(record.value), venvPython);
        FoundMore(trace, Cleared(record.value));
        trace := trace + [Cleared(record.value)];
      }
      record, malformed := None, false;
    }

    method PidIsOurs(pid: nat) returns (ours: bool)
      requires Valid()
      modifies `managed, `foreign, `now, `trace
      ensures Valid() && managed <= old(managed) && old(trace) < trace && Found(trace) == Found(old(trace))
      ensures ours ==> Identified(trace, pid, venvPython)
      ensures !ours ==> trace[|trace| - 1] == SawDead(pid) || Unrecognised(trace[|trace| - 1], pid)
    {
      var alive := ProcessAlive(pid);
      if !alive { return false; }
      var line := CommandLine(pid);
      ours := line.Some? && Matches(line.value, venvPython);
    }

    /** Its command line could not be read, or does not name both the managed Python and the server. */
    predicate Unrecognised(e: Event, pid: nat) {
      && e.SawLine? && e.pid == pid
      && (e.line.Some? ==> !Contains(e.line.value, venvPython) || !Contains(e.line.value, "hf_server"))
    }

    // ---- Starting ---------------------------------------------------------------------------------

    /** Polls until healthy or out of time, and tells how long that took. */
    method WaitUntilHealthy(timeout: nat) returns (waited: nat, healthy: bool)
      requires Valid()
      modifies `managed, `foreign, `now, `trace
      ensures Valid() && managed <= old(managed) && old(trace) <= trace
      ensures Found(trace) == Found(old(trace)).(health := Some(healthy))
      ensures !healthy ==> waited >= timeout
    {
      var started := now;
      var deadline := now + timeout;
      while true
        invariant Valid() && managed <= old(managed) && now >= started && old(trace) <= trace
        invariant Found(trace) == Found(old(trace)) || Found(trace) == Found(old(trace)).(health := Some(false))
        decreases deadline - now
      {
        healthy := ProbeHealth();
        if healthy { return now - started, true; }
        var remaining := deadline - now;
        if remaining <= 0 { return now - started, false; }
        Sleep(if remaining < 1000 then remaining else 1000);
      }
    }

    /** Adopts a responding server exactly on a healthy probe and the evidence of its record and command line. */
    method ReuseHealthyManaged() returns (r: Option<StartOutcome>)
      requires Valid()
      modifies `managed, `foreign, `now, `trace
      ensures Valid() && managed <= old(managed) && old(trace) < trace
      ensures exists healthy :: Found(trace) == Found(old(trace)).(health := Some(healthy))
      ensures r.Some? ==> record.Some? && r.value == Running(record.value, true) &&
                          Found(trace).health == Some(true) && Identified(trace, record.value, venvPython)
      ensures r.None? ==>
                || Found(trace).health == Some(false) || record.None?
                || trace[|trace| - 1] == SawDead(record.value) || Unrecognised(trace[|trace| - 1], record.value)
    {
      r := None;
      var healthy := ProbeHealth();
      if !healthy || record.None? { return; }
      var ours := PidIsOurs(record.value);
      if ours { r := Some(Running(record.value, true)); }
    }

    /** The port answers: what is behind it is adopted, or the port is busy. */
    method PortTaken() returns (r: Option<StartOutcome>)
      requires Valid() && !Found(trace).spawned
      modifies `managed, `foreign, `now, `trace
      ensures Valid() && managed <= old(managed) && old(trace) <= trace
      ensures r.None? ==> trace == old(trace) + [SawPort(false)]
      ensures r.None? ==> Found(trace) == Found(old(trace)).(port := Some(false))
      ensures r.Some? ==> Answers(r.value) && Found(trace).port == Some(true)
      ensures r.Some? ==> r.value == StartFailed(PortBusy) || (r.value.Running? && r.value.reused)
    {
      r := None;
      var responding := ProbePort();
      if !responding { return; }
      var reused := ReuseHealthyManaged();
      r := if reused.Some? then reused else Some(StartFailed(PortBusy));
    }

    /** Spawns the server and records it. No managed server is alive when this is called. */
    method Launch() returns (pid: nat)
      requires Valid() && record.None?
      requires |trace| >= 2 && trace[|trace| - 2] == TookLock && trace[|trace| - 1] == SawPort(false)
      modifies `record, `malformed, `managed, `foreign, `now, `trace
      ensures Valid() && record == Some(pid) && managed <= {pid}
      ensures trace == old(trace) + [Spawned(pid), Wrote(pid)]
      ensures Found(trace) == Found(old(trace)).(spawned := true)
    {
      Environment();
      pid := *;
      assert managed == {};
      foreign := foreign - {pid};
      managed := managed + {pid};
      SafeSpawn(trace, pid, venvPython);
      FoundMore(trace, Spawned(pid));
      FoundMore(trace + [Spawned(pid)], Wrote(pid));
      assert trace + [Spawned(pid), Wrote(pid)] == (trace + [Spawned(pid)]) + [Wrote(pid)];
      trace := trace + [Spawned(pid), Wrote(pid)];
      record, malformed := Some(pid), false;
      Environment();
    }

    // ---- The startup lock -------------------------------------------------------------------------

    /** Its age where that can be told; a clock set back makes it zero. */
    method LockAge(held: Lock) returns (age: Option<int>)
      requires Valid()
      modifies `managed, `foreign, `now, `trace
      ensures Valid() && managed <= old(managed) && now >= old(now) && trace == old(trace) + [SawLockAge(age)]
      ensures Found(trace) == Found(old(trace)) && (age.Some? ==> age.value >= old(now) - held.made)
    {
      Environment();
      var statFails: bool := *;
      age := if statFails then None else Some(if now < held.made then 0 else now - held.made);
      Note(SawLockAge(age));
    }

    /** This look shows that the lock is stale: no age can be told, it is old, or its holder is dead. */
    predicate ShowsStale(e: Event, held: Lock) {
      || (e.SawLockAge? && (e.age.None? || e.age.value > 180_000))
      || (held.holder.Some? && e == SawDead(held.holder.value))
    }

    /** Stale exactly when one of the looks shows it. */
    method LockIsStale(held: Lock) returns (stale: bool)
      requires Valid()
      modifies `managed, `foreign, `now, `trace
      ensures Valid() && managed <= old(managed) && old(trace) <= trace && now >= old(now)
      ensures Found(trace) == Found(old(trace))
      ensures stale <==> exists i :: |old(trace)| <= i < |trace| && ShowsStale(trace[i], held)
      ensures !stale ==> old(now) - held.made <= LOCK_STALE_AFTER
      ensures !stale && held.holder.Some? ==> SawAlive(held.holder.value) in trace
    {
      var age := LockAge(held);
      var holderDead := false;
      if held.holder.Some? {
        var alive := ProcessAlive(held.holder.value);
        holderDead := !alive;
        assert trace[|trace| - 1] in trace;
      }
      stale := holderDead || age.None? || age.value > LOCK_STALE_AFTER;
      assert trace[|old(trace)|] == SawLockAge(age);
      assert stale ==> ShowsStale(trace[|old(trace)|], held) || ShowsStale(trace[|trace| - 1], held);
    }

    /** Takes the lock, or the place of one seen to be stale, or gives up in the end and leaves it to its holder. */
    method AcquireLock(own: nat) returns (taken: bool)
      requires Valid()
      modifies `lock, `managed, `foreign, `now, `trace
      ensures Valid() && managed <= old(managed) && old(trace) <= trace && Found(trace) == Found(old(trace))
      ensures taken ==> lock.Some? && lock.value.holder == Some(own) && trace != [] && trace[|trace| - 1] == TookLock
      ensures taken && old(lock).Some? ==> exists e | e in trace :: ShowsStale(e, old(lock).value)
      ensures !taken ==> lock == old(lock) && lock.Some? && now >= old(now) + STARTUP_TIMEOUT
    {
      var deadline := now + STARTUP_TIMEOUT;
      while lock.Some?
        invariant Valid() && managed <= old(managed) && old(trace) <= trace && now >= old(now)
        invariant Found(trace) == Found(old(trace)) && (lock == None || lock == old(lock))
        invariant lock == None && old(lock).Some? ==> exists e | e in trace :: ShowsStale(e, old(lock).value)
        decreases if lock.Some? then 1 else 0, deadline - now
      {
        ghost var before := trace;
        var stale := LockIsStale(lock.value);
        if stale {
          ghost var i :| |before| <= i < |trace| && ShowsStale(trace[i], lock.value);
          assert trace[i] in trace;
          lock := None;
          continue;
        }
        if now >= deadline { return false; }
        Sleep(200);
      }
      ghost var seen := trace;
      Note(TookLock);
      lock := Some(Lock(Some(own), now));
      taken := true;
      assert forall e | e in seen :: e in trace;
    }

    /**
     What a result says: running means the recorded process, spawned by or identified in this call, and
     healthy at the last probe; each failure means what was last seen, and all but an unhealthy one that
     nothing was spawned.
     */
    ghost predicate Answers(r: StartOutcome)
      reads this
    {
      var found := Found(trace);
      match r
      case Running(pid, reused) =>
        && record == Some(pid) && found.health == Some(true) && found.spawned == !reused
        && if reused then Identified(trace, pid, venvPython) else Spawned(pid) in trace
      case StartFailed(why) =>
        && (why != NotHealthy ==> !found.spawned)
        && match why
           case NotHealthy => found.health == Some(false) && trace != [] && RecordLeft(trace[|trace| - 1])
           case PortBusy => found.port == Some(true)
           case LockHeld => found.port == Some(false)
           case NotLaunched => found.port == Some(false)
           case NotOurs => record.Some? && trace != [] && trace[|trace| - 1] == SawAlive(record.value)
           case _ => true
    }

    /** After an unhealthy start a record is left exactly where its process was not seen dead. */
    predicate RecordLeft(last: Event)
      reads this
    {
      if record.None? then last.Cleared? else last == SawAlive(record.value) || last == SawHealth(false)
    }

    method StartExisting(existing: nat) returns (r: Option<StartOutcome>)
      requires Valid() && record == Some(existing) && !Found(trace).spawned
      modifies `record, `malformed, `managed, `foreign, `now, `trace
      ensures Valid() && !Found(trace).spawned && (r.None? ==> record == None)
      ensures r.Some? ==> record == old(record) && Answers(r.value) && r.value != StartFailed(LockHeld)
    {
      var ours := PidIsOurs(existing);
      if ours {
        ghost var seen := trace;
        var waited, _ := WaitUntilHealthy(STARTUP_TIMEOUT);
        var healthy := ProbeHealth();
        IdentifiedStays(seen, trace, existing, venvPython);
        return Some(if healthy then Running(existing, true) else StartFailed(NotHealthy));
      }
      var alive := ProcessAlive(existing);
      if alive { return Some(StartFailed(NotOurs)); }
      ClearPid();
      r := None;
    }

    /** Takes the startup lock and gives it back on every way out. */
    method LaunchLocked(own: nat) returns (r: StartOutcome)
      requires Valid() && record == None && !Found(trace).spawned && Found(trace).port == Some(false)
      modifies `record, `malformed, `lock, `managed, `foreign, `now, `trace
      ensures Valid() && Answers(r)
      ensures lock == if r == StartFailed(LockHeld) then old(lock) else None
      ensures r != StartFailed(LockHeld) && old(lock).Some? ==>
                exists e | e in trace :: ShowsStale(e, old(lock).value)
    {
      var taken := AcquireLock(own);
      if !taken { return StartFailed(LockHeld); }
      ghost var locked := trace;
      var done, pid := LaunchHeld();
      ghost var held := trace;
      Note(GaveLock);
      lock := None;
      StaleStays(old(lock), locked, trace);
      if done.Some? { return done.value; }
      r := LaunchResult(pid);
      StaleStays(old(lock), locked, trace);
      assert forall e | e in held :: e in trace;
    }

    lemma StaleStays(held: Option<Lock>, t: seq<Event>, u: seq<Event>)
      requires t <= u
      ensures held.Some? && (exists e | e in t :: ShowsStale(e, held.value)) ==>
                exists e | e in u :: ShowsStale(e, held.value)
    {
      if held.Some? && exists e | e in t :: ShowsStale(e, held.value) {
        var e :| e in t && ShowsStale(e, held.value);
        assert e in u;
      }
    }

    /** Under the startup lock: check the port again, then launch and wait. */
    method LaunchHeld() returns (done: Option<StartOutcome>, pid: nat)
      requires Valid() && record == None && !Found(trace).spawned && trace != [] && trace[|trace| - 1] == TookLock
      modifies `record, `malformed, `managed, `foreign, `now, `trace
      ensures Valid() && old(trace) <= trace
      ensures done.Some? ==> Answers(done.value) && done.value in {StartFailed(PortBusy), StartFailed(NotLaunched)}
      ensures done.None? ==> record == Some(pid) && Spawned(pid) in trace && Found(trace).spawned
    {
      done, pid := None, 0;
      done := PortTaken();
      if done.Some? { return; }
      var launchable: bool := *;
      if !launchable {
        done := Some(StartFailed(NotLaunched));
        return;
      }
      pid := Launch();
      assert trace[|trace| - 2] in trace;
      ghost var launched := trace;
      var waited, _ := WaitUntilHealthy(STARTUP_TIMEOUT);
      assert forall e | e in launched :: e in trace;
    }

    /** After the lock is given back: one more probe decides, and a dead server's record goes. */
    method LaunchResult(pid: nat) returns (r: StartOutcome)
      requires Valid() && record == Some(pid) && Spawned(pid) in trace && Found(trace).spawned
      modifies `record, `malformed, `managed, `foreign, `now, `trace
      ensures Valid() && Answers(r) && old(trace) <= trace && (r == Running(pid, false) || r == StartFailed(NotHealthy))
    {
      ghost var before := trace;
      var healthy := ProbeHealth();
      assert forall e | e in before :: e in trace;
      if healthy { return Running(pid, false); }
      var alive := ProcessAlive(pid);
      if !alive { ClearPid(); }
      r := StartFailed(NotHealthy);
    }

    /** Starting never signals, and a record it cannot vouch for is left alone, as is one it cannot read. */
    method Start(own: nat) returns (r: StartOutcome)
      requires Valid()
      modifies `record, `malformed, `lock, `managed, `foreign, `now, `trace, `signalled
      ensures Valid() && signalled == {} && Answers(r)
      ensures lock == old(lock) || lock == None
      ensures old(malformed) ==> malformed && trace == [] && r.StartFailed?
      ensures Found(trace).spawned && old(lock).Some? ==> exists e | e in trace :: ShowsStale(e, old(lock).value)
    {
      trace, signalled := [], {};
      r := StartHere(own);
    }

    method StartHere(own: nat) returns (r: StartOutcome)
      requires Valid() && !Found(trace).spawned
      modifies `record, `malformed, `lock, `managed, `foreign, `now, `trace
      ensures Valid() && Answers(r) && (lock == old(lock) || lock == None)
      ensures old(malformed) ==> malformed && trace == old(trace) && r.StartFailed?
      ensures Found(trace).spawned && old(lock).Some? ==> exists e | e in trace :: ShowsStale(e, old(lock).value)
    {
      var installed: bool := *;
      if !installed { return StartFailed(NotInstalled); }
      if malformed { return StartFailed(BadRecord); }
      if record.Some? {
        var done := StartExisting(record.value);
        if done.Some? { return done.value; }
      }
      var taken := PortTaken();
      if taken.Some? { return taken.value; }
      r := LaunchLocked(own);
    }

    // ---- Stopping -------------------------------------------------------------------------------------

    /** Waits for the process to die, no longer than the grace period. */
    method AwaitDeath(pid: nat)
      requires Valid()
      modifies `managed, `foreign, `now, `trace
      ensures Valid() && managed <= old(managed) && old(trace) < trace && now >= old(now)
      ensures trace[|trace| - 1] == SawDead(pid) ||
              (trace[|trace| - 1] == SawAlive(pid) && now >= old(now) + STOP_GRACE)
    {
      var deadline := now + STOP_GRACE;
      var alive := ProcessAlive(pid);
      while alive && now < deadline
        invariant Valid() && managed <= old(managed) && old(trace) < trace && now >= old(now)
        invariant trace[|trace| - 1] == if alive then SawAlive(pid) else SawDead(pid)
        decreases deadline - now
      {
        Sleep(200);
        alive := ProcessAlive(pid);
      }
    }

    method Signal(pid: nat, kill: bool)
      requires Valid() && Identified(trace, pid, venvPython)
      requires kill ==> trace != [] && trace[|trace| - 1] == SawAlive(pid) && Terminated(pid) in trace
      modifies `managed, `foreign, `now, `trace, `signalled
      ensures Valid() && managed <= old(managed) && signalled == old(signalled) + {pid} && now >= old(now)
      ensures trace == old(trace) + [if kill then Killed(pid) else Terminated(pid)]
    {
      SafeAppend(trace, if kill then Killed(pid) else Terminated(pid), venvPython);
      trace := trace + [if kill then Killed(pid) else Terminated(pid)];
      signalled := signalled + {pid};
      Environment();
    }

    /** The stop protocol's own story: what its outcome says about what it saw and did. */
    method Stop() returns (r: StopOutcome)
      requires Valid()
      modifies `record, `malformed, `managed, `foreign, `now, `trace, `signalled
      ensures Valid()
      ensures r.StopFailed? ==> record == old(record) && malformed == old(malformed)
      ensures r == StopFailed(BadRecord) <==> old(malformed)
      ensures r == StopFailed(NotRunning) <==> old(record) == None && !old(malformed)
      ensures r.Stopped? || r.Stale? ==> old(record) == Some(r.pid) && record == None && managed == {}
      ensures r.Stale? ==> trace == [SawDead(r.pid), Cleared(r.pid)]
      ensures r == StopFailed(Unidentified) ==>
                && old(record).Some? && |trace| == 2 && trace[0] == SawAlive(old(record).value)
                && Unrecognised(trace[1], old(record).value)
      ensures if r.Stopped? || r == StopFailed(StillAlive)
              then old(record).Some? && signalled == {old(record).value}
              else signalled == {}
    {
      trace, signalled := [], {};
      if malformed { return StopFailed(BadRecord); }
      if record.None? { return StopFailed(NotRunning); }
      var pid := record.value;
      var alive := ProcessAlive(pid);
      if !alive {
        ClearPid();
        return Stale(pid);
      }
      var line := CommandLine(pid);
      if line.None? || !Matches(line.value, venvPython) { return StopFailed(Unidentified); }
      r := StopIdentified(pid);
    }

    /** One signal and the wait after it; the trace opens with the signal. */
    method SignalAndWait(pid: nat, kill: bool)
      requires Valid() && Identified(trace, pid, venvPython)
      requires kill ==> trace != [] && trace[|trace| - 1] == SawAlive(pid) && Terminated(pid) in trace
      modifies `managed, `foreign, `now, `trace, `signalled
      ensures Valid() && signalled == old(signalled) + {pid}
      ensures old(trace) + [if kill then Killed(pid) else Terminated(pid)] <= trace
      ensures trace[|trace| - 1] == SawDead(pid) || now >= old(now) + STOP_GRACE
    {
      Signal(pid, kill);
      AwaitDeath(pid);
    }

    /**
     Terminate, wait, and only then kill and wait again; the record goes only with the process.
     A stranger taking the freed pid in time makes it look alive still, which fails the stop.
     */
    method StopIdentified(pid: nat) returns (r: StopOutcome)
      requires Valid() && record == Some(pid) && Identified(trace, pid, venvPython) && signalled == {}
      modifies `record, `malformed, `managed, `foreign, `now, `trace, `signalled
      ensures Valid() && signalled == {pid} && old(trace) + [Terminated(pid)] <= trace
      ensures r == Stopped(pid) || r == StopFailed(StillAlive)
      ensures r.Stopped? ==> record == None && managed == {} && trace[|trace| - 1] == Cleared(pid)
      ensures r.StopFailed? ==>
                record == old(record) && malformed == old(malformed) && trace[|trace| - 1] == SawAlive(pid)
    {
      ghost var identified := trace;
      SignalAndWait(pid, false);
      var alive := ProcessAlive(pid);
      if alive {
        IdentifiedStays(identified, trace, pid, venvPython);
        assert trace[|identified|] == Terminated(pid);
        SignalAndWait(pid, true);
      }
      r := ConfirmDeath(pid);
    }

    method ConfirmDeath(pid: nat) returns (r: StopOutcome)
      requires Valid() && record == Some(pid)
      modifies `record, `malformed, `managed, `foreign, `now, `trace
      ensures Valid() && old(trace) < trace
      ensures r == Stopped(pid) || r == StopFailed(StillAlive)
      ensures r.Stopped? ==> record == None && managed == {} && trace[|trace| - 1] == Cleared(pid)
      ensures r.StopFailed? ==>
                record == old(record) && malformed == old(malformed) && trace[|trace| - 1] == SawAlive(pid)
    {
      var alive := ProcessAlive(pid);
      if alive { return StopFailed(StillAlive); }
      ClearPid();
      r := Stopped(pid);
    }

    // ---- Repair and the idempotent entry ----------------------------------------------------------------

    /** Clears the pid file of a dead process and one that cannot be read; a live process is never touched. */
    method RepairPid()
      requires Valid() && trace == []
      modifies `record, `malformed, `managed, `foreign, `now, `trace
      ensures Valid() && !malformed && now >= old(now)
      ensures match old(record)
              case None => record == None && trace == []
              case Some(pid) =>
                || (record == old(record) && trace == [SawAlive(pid)])
                || (record == None && trace == [SawDead(pid), Cleared(pid)])
    {
      if malformed {
        ClearPid();
      } else if record.Some? {
        var alive := ProcessAlive(record.value);
        if !alive { ClearPid(); }
      }
    }

    /** Removes a startup lock exactly when a look shows it to be stale. */
    method RepairLock()
      requires Valid()
      modifies `lock, `managed, `foreign, `now, `trace
      ensures Valid() && managed <= old(managed) && old(trace) <= trace
      ensures old(lock).None? ==> lock == None && trace == old(trace)
      ensures old(lock).Some? ==>
                lock == if exists i :: |old(trace)| <= i < |trace| && ShowsStale(trace[i], old(lock).value)
                        then None else old(lock)
      ensures lock.Some? ==> old(now) - lock.value.made <= LOCK_STALE_AFTER
      ensures lock.Some? && lock.value.holder.Some? ==> SawAlive(lock.value.holder.value) in trace
    {
      if lock.Some? {
        var stale := LockIsStale(lock.value);
        if stale { lock := None; }
      }
    }

    /** What is left is a readable record of a process seen alive, and a lock that is not stale. */
    method RepairClearBrokenState()
      requires Valid()
      modifies `record, `malformed, `lock, `managed, `foreign, `now, `trace, `signalled
      ensures Valid() && signalled == {} && !malformed && (lock == old(lock) || lock == None)
      ensures match old(record)
              case None => record == None
              case Some(pid) =>
                || (record == old(record) && [SawAlive(pid)] <= trace)
                || (record == None && [SawDead(pid), Cleared(pid)] <= trace)
      ensures lock == None && old(lock).Some? ==> exists e | e in trace :: ShowsStale(e, old(lock).value)
      ensures lock.Some? ==> old(now) - lock.value.made <= LOCK_STALE_AFTER
      ensures lock.Some? && lock.value.holder.Some? ==> SawAlive(lock.value.holder.value) in trace
    {
      trace, signalled := [], {};
      RepairPid();
      RepairLock();
    }

    /** Running means recorded and identified, healthy that the last probe was. */
    method Status() returns (running: bool, healthy: bool)
      requires Valid()
      modifies `managed, `foreign, `now, `trace
      ensures record.None? ==> trace == old(trace) && !running && !healthy
      ensures Valid() && managed <= old(managed) && old(trace) <= trace
      ensures running ==> record.Some? && Identified(trace, record.value, venvPython)
      ensures healthy ==> Found(trace) == Found(old(trace)).(health := Some(true))
      ensures !healthy ==> Found(trace) in {Found(old(trace)), Found(old(trace)).(health := Some(false))}
    {
      running, healthy := false, false;
      if record.None? { return; }
      running := PidIsOurs(record.value);
      ghost var seen := trace;
      var alive := false;
      if !running { alive := ProcessAlive(record.value); }
      if !running && alive { return; }
      alive := ProcessAlive(record.value);
      if alive { healthy := ProbeHealth(); }
      if running { IdentifiedStays(seen, trace, record.value, venvPython); }
    }

    /** Reuses what is running and healthy, and otherwise starts. */
    method EnsureRunning(own: nat) returns (r: StartOutcome)
      requires Valid()
      modifies `record, `malformed, `lock, `managed, `foreign, `now, `trace, `signalled
      ensures Valid() && signalled == {} && Answers(r) && (lock == old(lock) || lock == None)
      ensures old(malformed) ==> malformed && trace == [] && r.StartFailed?
      ensures Found(trace).spawned && old(lock).Some? ==> exists e | e in trace :: ShowsStale(e, old(lock).value)
    {
      trace, signalled := [], {};
      var installed: bool := *;
      if !installed { return StartFailed(NotInstalled); }
      var running, healthy := Status();
      if running && healthy { return Running(record.value, true); }
      r := StartHere(own);
    }

    // ---- Any number of commands ----------------------------------------------------------------------------

    /** What one command leaves: the record, the managed servers alive, and the trace of what it did. */
    ghost predicate Leaves(c: Command, after: After) {
      && Safe(after.trace, venvPython)
      && |after.alive| <= 1
      && (forall pid | pid in after.alive :: after.record == Some(pid))
      && (c != StopIt ==> SignalsIn(after.trace, {}))
    }

    /** Between commands: a crashed bruv leaves its lock, and a pid file may be spoiled while no server is up. */
    method Meddle()
      requires Valid()
      modifies `record, `malformed, `lock, `managed, `foreign, `now
      ensures Valid() && managed <= old(managed)
    {
      Environment();
      var spoil: bool := *;
      if spoil && managed == {} { record, malformed := None, true; }
      lock := *;
    }

    /**
     Commands in any order, the environment moving between and during them: after each one at
     most one managed server is alive and it is the recorded one, and each one's trace was safe.
     */
    method Serve(commands: seq<Command>, own: nat) returns (ghost afters: seq<After>)
      requires Valid()
      modifies this
      ensures Valid() && |afters| == |commands|
      ensures forall i :: 0 <= i < |commands| ==> Leaves(commands[i], afters[i])
    {
      afters := [];
      for n := 0 to |commands|
        invariant Valid() && |afters| == n
        invariant forall i :: 0 <= i < n ==> Leaves(commands[i], afters[i])
      {
        Meddle();
        match commands[n] {
          case StartIt => var _ := Start(own);
          case StopIt => var _ := Stop();
          case EnsureIt => var _ := EnsureRunning(own);
          case RepairIt => RepairClearBrokenState();
        }
        AtMostOne();
        afters := afters + [After(record, managed, trace)];
      }
    }

    lemma AtMostOne()
      requires Recorded()
      ensures |managed| <= 1
    {
      if managed != {} {
        var pid :| pid in managed;
        assert managed == {pid};
      }
    }
  }
}
