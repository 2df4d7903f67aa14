/** solarbeam.Manager in ModeInteractive: the engine and bridge processes it starts and stops, and the
    engine update that must not run under a live engine. Every method runs under the manager's mutex. */
module EngineManager {
  import opened Wrappers
  import opened FileSystem
  import opened Extract
  import opened EngineUpdate
  import Download
  import Verify

  type Pid = nat

  datatype Kind = Engine | Bridge

  /** A process the agent started; name is its image name, in lower case. */
  datatype Proc = Proc(kind: Kind, name: string, live: bool)

  datatype Event = Spawned(pid: Pid, kind: Kind) | Listening

  /** after is before with some processes gone. */
  predicate SomeExited(before: seq<Proc>, after: seq<Proc>) {
    && |before| == |after|
    && forall i :: 0 <= i < |before| ==>
         && after[i].kind == before[i].kind && after[i].name == before[i].name
         && (after[i].live ==> before[i].live)
  }

  /** The states since h0 are before with some processes gone. */
  ghost predicate Dwindles(h0: seq<seq<Proc>>, h1: seq<seq<Proc>>, before: seq<Proc>) {
    h0 <= h1 && forall k :: |h0| <= k < |h1| ==> SomeExited(before, h1[k])
  }

  /** after is before with some processes gone and one more. */
  predicate Joined(before: seq<Proc>, kind: Kind, name: string, after: seq<Proc>) {
    && |after| == |before| + 1 && SomeExited(before, after[..|before|])
    && after[|before|] == Proc(kind, name, true)
  }

  lemma DwindlesOn(h0: seq<seq<Proc>>, h1: seq<seq<Proc>>, h2: seq<seq<Proc>>, before: seq<Proc>, middle: seq<Proc>)
    requires Dwindles(h0, h1, before) && Dwindles(h1, h2, middle) && SomeExited(before, middle)
    ensures Dwindles(h0, h2, before)
  {
    assert h0 == h1[..|h0|] == h2[..|h1|][..|h0|] == h2[..|h0|];
    forall k | |h0| <= k < |h2| ensures SomeExited(before, h2[k]) {
      if k < |h1| {
        assert h2[k] == h2[..|h1|][k] == h1[k];
      }
    }
  }

  /** The operating system's processes. Any of them may exit at any time. */
  class Machine {
    // nothing outside the code goes wrong: processes start, kills work and probes are right
    const smooth: bool
    // a process keeps its number: the agent holds handles to its children
    var procs: seq<Proc>
    // every state of procs, and the last one at the end
    ghost var history: seq<seq<Proc>>
    ghost var log: seq<Event>
    // how many kills of a live process (or snapshots to find them) were refused
    ghost var refusedKills: nat
    // how many probes were wrong
    ghost var wrongProbes: nat

    constructor (smooth: bool)
      ensures this.smooth == smooth
      ensures procs == [] && history == [[]] && log == [] && refusedKills == 0 && wrongProbes == 0
    {
      this.smooth := smooth;
      procs, history, log, refusedKills, wrongProbes := [], [[]], [], 0, 0;
    }

    method Trouble() returns (b: bool)
      ensures smooth ==> !b
    {
      b := *;
      if smooth {
        b := false;
      }
    }

    method Settle()
      modifies this`procs, this`history
      ensures SomeExited(old(procs), procs) && Dwindles(old(history), history, old(procs))
    {
      var i := 0;
      while i < |procs|
        invariant 0 <= i <= |procs| && SomeExited(old(procs), procs)
        invariant Dwindles(old(history), history, old(procs))
      {
        var exits: bool := *;
        if exits {
          procs := procs[i := procs[i].(live := false)];
          history := history + [procs];
        }
        i := i + 1;
      }
    }

    method Spawn(kind: Kind, name: string) returns (pid: Option<Pid>)
      modifies this`procs, this`history, this`log
      ensures smooth ==> pid.Some?
      ensures pid.None? ==>
                && SomeExited(old(procs), procs) && Dwindles(old(history), history, old(procs))
                && log == old(log)
      ensures pid.Some? ==>
                && pid.value == |old(procs)| && Joined(old(procs), kind, name, procs)
                && history != [] && history[|history| - 1] == procs
                && Dwindles(old(history), history[..|history| - 1], old(procs))
                && log == old(log) + [Spawned(pid.value, kind)]
    {
      Settle();
      var refused := Trouble();
      if refused {
        return None;
      }
      ghost var settled := history;
      pid := Some(|procs|);
      log := log + [Spawned(|procs|, kind)];
      procs := procs + [Proc(kind, name, true)];
      history := history + [procs];
      assert history[..|history| - 1] == settled;
    }

    method Kill(pid: Pid)
      requires pid < |procs|
      modifies this`procs, this`history, this`refusedKills
      ensures SomeExited(old(procs), procs) && Dwindles(old(history), history, old(procs))
      ensures refusedKills >= old(refusedKills)
      ensures refusedKills == old(refusedKills) ==> !procs[pid].live
      ensures smooth ==> refusedKills == old(refusedKills)
    {
      Settle();
      var refused := Trouble();
      if refused && procs[pid].live {
        refusedKills := refusedKills + 1;
      } else {
        procs := procs[pid := procs[pid].(live := false)];
        history := history + [procs];
      }
    }

    method TerminateByName(name: string)
      modifies this`procs, this`history, this`refusedKills
      ensures SomeExited(old(procs), procs) && Dwindles(old(history), history, old(procs))
      ensures refusedKills >= old(refusedKills)
      ensures refusedKills == old(refusedKills) ==>
                forall i :: 0 <= i < |procs| && procs[i].name == name ==> !procs[i].live
      ensures smooth ==> refusedKills == old(refusedKills)
    {
      var noSnapshot := Trouble();
      if noSnapshot {
        refusedKills := refusedKills + 1;
        return;
      }
      var i := 0;
      while i < |procs|
        invariant 0 <= i <= |procs| && SomeExited(old(procs), procs)
        invariant Dwindles(old(history), history, old(procs))
        invariant refusedKills >= old(refusedKills) && (smooth ==> refusedKills == old(refusedKills))
        invariant refusedKills == old(refusedKills) ==>
                    forall j :: 0 <= j < i && procs[j].name == name ==> !procs[j].live
      {
        if procs[i].name == name {
          ghost var h, middle := history, procs;
          Kill(i);
          DwindlesOn(old(history), h, history, old(procs), middle);
        }
        i := i + 1;
      }
    }

    /** processAlive. It is wrong when the process cannot be queried, or exited with code 259. */
    method Probe(pid: Pid) returns (alive: bool)
      requires pid < |procs|
      modifies this`procs, this`history, this`wrongProbes
      ensures SomeExited(old(procs), procs) && Dwindles(old(history), history, old(procs))
      ensures wrongProbes >= old(wrongProbes)
      ensures wrongProbes == old(wrongProbes) ==> alive == procs[pid].live
      ensures smooth ==> wrongProbes == old(wrongProbes)
    {
      Settle();
      alive := *;
      if smooth {
        alive := procs[pid].live;
      }
      if alive != procs[pid].live {
        wrongProbes := wrongProbes + 1;
      }
    }

    /** answers tells whether somebody listens in time. */
    method WaitForListener(answers: bool) returns (ok: bool)
      modifies this`procs, this`history, this`log
      ensures SomeExited(old(procs), procs) && Dwindles(old(history), history, old(procs))
      ensures ok == answers && log == if ok then old(log) + [Listening] else old(log)
    {
      Settle();
      ok := answers;
      if ok {
        log := log + [Listening];
      }
    }
  }

  // ---- invariants of the processes ----------------------------------------------

  /** The only live engine is the tracked one. */
  predicate OneEngine(procs: seq<Proc>, tracked: Option<Pid>) {
    forall i :: 0 <= i < |procs| && procs[i].kind.Engine? && procs[i].live ==> tracked == Some(i)
  }

  predicate LiveOf(procs: seq<Proc>, kind: Kind, i: nat) {
    i < |procs| && procs[i].kind == kind && procs[i].live
  }

  predicate NoLive(procs: seq<Proc>, kind: Kind) {
    forall i | 0 <= i < |procs| :: !LiveOf(procs, kind, i)
  }

  predicate OneLive(procs: seq<Proc>, kind: Kind) {
    forall i, j | 0 <= i < |procs| && 0 <= j < |procs| ::
      LiveOf(procs, kind, i) && LiveOf(procs, kind, j) ==> i == j
  }

  /** At most one engine and at most one bridge are alive. */
  predicate Single(procs: seq<Proc>) {
    OneLive(procs, Engine) && OneLive(procs, Bridge)
  }

  ghost predicate AllSingle(history: seq<seq<Proc>>) {
    forall k :: 0 <= k < |history| ==> Single(history[k])
  }

  /** Processes that exit break no invariant. */
  lemma ExitsKeep(before: seq<Proc>, after: seq<Proc>, kind: Kind)
    requires SomeExited(before, after)
    ensures OneLive(before, kind) ==> OneLive(after, kind)
    ensures NoLive(before, kind) ==> NoLive(after, kind)
  {
    assert forall i: nat :: LiveOf(after, kind, i) ==> LiveOf(before, kind, i);
  }

  lemma JoinKeeps(before: seq<Proc>, kind: Kind, name: string, after: seq<Proc>, other: Kind)
    requires Joined(before, kind, name, after)
    ensures NoLive(before, kind) ==> OneLive(after, kind)
    ensures other != kind && OneLive(before, other) ==> OneLive(after, other)
  {
    var front := after[..|before|];
    assert forall i :: 0 <= i < |before| ==> front[i] == after[i];
    assert forall i: nat :: LiveOf(after, other, i) && other != kind ==> LiveOf(before, other, i);
    assert forall i: nat :: LiveOf(after, kind, i) ==> i == |before| || LiveOf(before, kind, i);
  }

  /** Nothing but exits since h0. */
  lemma HistoryDwindles(h0: seq<seq<Proc>>, h1: seq<seq<Proc>>, before: seq<Proc>)
    requires AllSingle(h0) && Single(before) && Dwindles(h0, h1, before)
    ensures AllSingle(h1)
  {
    forall k | 0 <= k < |h1| ensures Single(h1[k]) {
      if k < |h0| {
        assert h1[k] == h1[..|h0|][k] == h0[k];
      } else {
        ExitsKeep(before, h1[k], Engine);
        ExitsKeep(before, h1[k], Bridge);
      }
    }
  }

  /** Exits, and then a process of a kind of which none was alive. */
  lemma HistoryJoins(h0: seq<seq<Proc>>, h1: seq<seq<Proc>>, before: seq<Proc>, kind: Kind, name: string)
    requires AllSingle(h0) && Single(before) && NoLive(before, kind)
    requires h1 != [] && Dwindles(h0, h1[..|h1| - 1], before) && Joined(before, kind, name, h1[|h1| - 1])
    ensures AllSingle(h1)
  {
    var m := |h1| - 1;
    HistoryDwindles(h0, h1[..m], before);
    JoinKeeps(before, kind, name, h1[m], Engine);
    JoinKeeps(before, kind, name, h1[m], Bridge);
    forall k | 0 <= k < |h1| ensures Single(h1[k]) {
      if k < m {
        assert h1[k] == h1[..m][k];
      }
    }
  }

  /** The only live engine is the tracked one, at most one bridge is alive, and no state so far had more. */
  ghost predicate Sound(procs: seq<Proc>, history: seq<seq<Proc>>, tracked: Option<Pid>) {
    OneEngine(procs, tracked) && OneLive(procs, Bridge) && AllSingle(history)
  }

  lemma TrackedIsSingle(procs: seq<Proc>, tracked: Option<Pid>)
    requires OneEngine(procs, tracked)
    ensures OneLive(procs, Engine) && (tracked.None? ==> NoLive(procs, Engine))
  {
    assert forall i: nat :: LiveOf(procs, Engine, i) ==> tracked == Some(i);
  }

  lemma SoundExits(procs: seq<Proc>, history: seq<seq<Proc>>, tracked: Option<Pid>,
                   procs': seq<Proc>, history': seq<seq<Proc>>)
    requires Sound(procs, history, tracked)
    requires SomeExited(procs, procs') && Dwindles(history, history', procs)
    ensures Sound(procs', history', tracked)
    ensures tracked.Some? && tracked.value < |procs'| && !procs'[tracked.value].live ==> Sound(procs', history', None)
    ensures NoLive(procs, Bridge) ==> NoLive(procs', Bridge)
    ensures NoLive(procs, Engine) ==> NoLive(procs', Engine)
  {
    TrackedIsSingle(procs, tracked);
    HistoryDwindles(history, history', procs);
    ExitsKeep(procs, procs', Bridge);
    ExitsKeep(procs, procs', Engine);
  }

  lemma SoundBridge(procs: seq<Proc>, history: seq<seq<Proc>>, tracked: Option<Pid>, name: string,
                    procs': seq<Proc>, history': seq<seq<Proc>>)
    requires Sound(procs, history, tracked) && NoLive(procs, Bridge) && Joined(procs, Bridge, name, procs')
    requires history' != [] && history'[|history'| - 1] == procs'
    requires Dwindles(history, history'[..|history'| - 1], procs)
    ensures Sound(procs', history', tracked)
  {
    TrackedIsSingle(procs, tracked);
    HistoryJoins(history, history', procs, Bridge, name);
    assert forall i :: 0 <= i < |procs| ==> procs'[..|procs|][i] == procs'[i];
  }

  lemma SoundEngine(procs: seq<Proc>, history: seq<seq<Proc>>, name: string,
                    procs': seq<Proc>, history': seq<seq<Proc>>)
    requires Sound(procs, history, None) && Joined(procs, Engine, name, procs')
    requires history' != [] && history'[|history'| - 1] == procs'
    requires Dwindles(history, history'[..|history'| - 1], procs)
    ensures Sound(procs', history', Some(|procs|))
  {
    TrackedIsSingle(procs, None);
    HistoryJoins(history, history', procs, Engine, name);
    assert forall i :: 0 <= i < |procs| ==> procs'[..|procs|][i] == procs'[i];
  }

  /** Every engine start follows the start of a bridge that then reported a listener. */
  predicate EnginesHeard(log: seq<Event>) {
    forall i :: 0 <= i < |log| && log[i].Spawned? && log[i].kind.Engine? ==> HeardAt(log, i)
  }

  predicate HeardAt(log: seq<Event>, i: nat) {
    2 <= i < |log| && log[i - 1].Listening? && log[i - 2].Spawned? && log[i - 2].kind.Bridge?
  }

  lemma HeardAppends(before: seq<Event>, after: seq<Event>)
    requires EnginesHeard(before)
    requires || after == before
             || (exists b :: after == before + [Spawned(b, Bridge)])
             || (exists b :: after == before + [Spawned(b, Bridge), Listening])
             || (exists b, e :: after == before + [Spawned(b, Bridge), Listening, Spawned(e, Engine)])
    ensures EnginesHeard(after)
  {
    forall i | 0 <= i < |after| && after[i].Spawned? && after[i].kind.Engine?
      ensures HeardAt(after, i)
    {
      if i < |before| {
        assert HeardAt(before, i);
      }
    }
  }

  // ---- the manager ----------------------------------------------------------------

  datatype StartError = Prepare | BridgeLaunch | EngineLaunch

  /** What Start added to the log. */
  predicate StartLog(before: seq<Event>, n: nat, after: seq<Event>, r: Result<(), StartError>) {
    match r
    case Ok(_) => after == before + [Spawned(n, Bridge), Listening, Spawned(n + 1, Engine)]
    case Err(Prepare) => after == before
    case Err(BridgeLaunch) => after == before || after == before + [Spawned(n, Bridge)]
    case Err(EngineLaunch) => after == before + [Spawned(n, Bridge), Listening]
  }

  datatype Status = Status(running: bool, engineVersion: string)

  class Manager {
    const machine: Machine
    // where the package goes and where the engine is; None when not configured
    const root: Option<Dest>
    const engine: Option<Dest>
    // the directory of temporary files
    const tempDir: Path
    // image names; the bridge's is "" when its path is not configured
    const engineName: string
    const bridgeName: string
    var interactiveEngineProc: Option<Pid>
    var lastUpdatedVersion: string

    ghost predicate Valid()
      reads this, machine
    {
      && (interactiveEngineProc.Some? ==>
            && interactiveEngineProc.value < |machine.procs|
            && machine.procs[interactiveEngineProc.value].kind.Engine?)
      && (forall i :: 0 <= i < |machine.procs| && machine.procs[i].kind.Bridge? ==> machine.procs[i].name == bridgeName)
      && (machine.refusedKills == 0 ==> Sound(machine.procs, machine.history, interactiveEngineProc))
    }

    constructor (root: Option<Dest>, engine: Option<Dest>, tempDir: Path, engineName: string, bridgeName: string,
                 smooth: bool)
      ensures Valid() && fresh(machine) && machine.procs == [] && machine.log == [] && machine.refusedKills == 0
      ensures this.root == root && this.engine == engine && this.tempDir == tempDir
      ensures this.engineName == engineName && this.bridgeName == bridgeName
      ensures interactiveEngineProc.None? && lastUpdatedVersion == ""
    {
      this.root, this.engine, this.tempDir := root, engine, tempDir;
      this.engineName, this.bridgeName := engineName, bridgeName;
      machine := new Machine(smooth);
      interactiveEngineProc, lastUpdatedVersion := None, "";
    }

    method LaunchBridge(listening: bool) returns (ok: bool)
      requires Valid()
      modifies machine
      ensures ok ==> bridgeName != "" && listening
      ensures machine.smooth ==> (ok <==> bridgeName != "" && listening)
      ensures ok ==>
                |machine.procs| > |old(machine.procs)|
                && machine.procs[|old(machine.procs)|].kind.Bridge?
                && machine.procs[|old(machine.procs)|].name == bridgeName
      ensures Valid() && machine.refusedKills >= old(machine.refusedKills)
      ensures ok ==> |machine.procs| == |old(machine.procs)| + 1
      ensures ok ==> machine.log == old(machine.log) + [Spawned(|old(machine.procs)|, Bridge), Listening]
      ensures !ok ==> || machine.log == old(machine.log)
                      || machine.log == old(machine.log) + [Spawned(|old(machine.procs)|, Bridge)]
    {
      if bridgeName == "" {
        return false;
      }
      ghost var p0, h0 := machine.procs, machine.history;
      machine.TerminateByName(bridgeName);
      ghost var p1, h1, clean := machine.procs, machine.history, machine.refusedKills == 0;
      if clean {
        SoundExits(p0, h0, interactiveEngineProc, p1, h1);
      }
      var pid := machine.Spawn(Bridge, bridgeName);
      if pid.None? {
        if clean {
          SoundExits(p1, h1, interactiveEngineProc, machine.procs, machine.history);
        }
        return false;
      }
      ghost var p2, h2 := machine.procs, machine.history;
      assert forall i :: 0 <= i < |p1| ==> p2[..|p1|][i] == p2[i];
      if clean {
        SoundBridge(p1, h1, interactiveEngineProc, bridgeName, p2, h2);
      }
      ok := machine.WaitForListener(listening);
      if clean {
        SoundExits(p2, h2, interactiveEngineProc, machine.procs, machine.history);
      }
    }

    method StartEngineInteractive() returns (ok: bool)
      requires Valid()
      modifies this`interactiveEngineProc, machine
      ensures Valid() && machine.refusedKills >= old(machine.refusedKills)
      ensures ok ==>
                && machine.log == old(machine.log) + [Spawned(|old(machine.procs)|, Engine)]
                && interactiveEngineProc == Some(|old(machine.procs)|)
      ensures !ok ==> machine.log == old(machine.log) && interactiveEngineProc.None?
      ensures ok ==>
                && |machine.procs| == |old(machine.procs)| + 1
                && machine.procs[|old(machine.procs)|].kind.Engine?
                && machine.procs[|old(machine.procs)|].name == engineName
      ensures forall i :: 0 <= i < |old(machine.procs)| && i < |machine.procs| ==>
                machine.procs[i].name == old(machine.procs)[i].name
      ensures machine.smooth ==> ok
    {
      KillTracked();
      ghost var p1, h1, clean := machine.procs, machine.history, machine.refusedKills == 0;
      var pid := machine.Spawn(Engine, engineName);
      if pid.None? {
        if clean {
          SoundExits(p1, h1, None, machine.procs, machine.history);
        }
        return false;
      }
      assert forall i :: 0 <= i < |p1| ==> machine.procs[..|p1|][i] == machine.procs[i];
      if clean {
        SoundEngine(p1, h1, engineName, machine.procs, machine.history);
      }
      interactiveEngineProc := pid;
      ok := true;
    }

    /** The tracked engine, if any, is killed and no longer tracked. */
    method KillTracked()
      requires Valid()
      modifies this`interactiveEngineProc, machine
      ensures Valid() && interactiveEngineProc.None? && machine.log == old(machine.log)
      ensures machine.refusedKills >= old(machine.refusedKills)
      ensures SomeExited(old(machine.procs), machine.procs)
    {
      if interactiveEngineProc.Some? {
        machine.Kill(interactiveEngineProc.value);
        if machine.refusedKills == 0 {
          SoundExits(old(machine.procs), old(machine.history), interactiveEngineProc, machine.procs, machine.history);
        }
        interactiveEngineProc := None;
      }
    }

    /** installed tells whether the engine's file is there, listening whether the bridge comes to listen. */
    method Start(installed: bool, listening: bool) returns (r: Result<(), StartError>)
      requires Valid()
      modifies this`interactiveEngineProc, machine
      ensures Valid()
      // an engine is started only after this call's own bridge was started and reported a listener
      ensures StartLog(old(machine.log), |old(machine.procs)|, machine.log, r)
      ensures r.Ok? ==> interactiveEngineProc == Some(|old(machine.procs)| + 1)
      ensures r == Err(EngineLaunch) ==> interactiveEngineProc.None?
      ensures r == Err(Prepare) || r == Err(BridgeLaunch) ==> interactiveEngineProc == old(interactiveEngineProc)
      ensures r == Err(Prepare) <==> engine.None? || !installed
      // the processes are the configured ones
      ensures r.Ok? ==>
                var n := |old(machine.procs)|;
                && |machine.procs| == n + 2
                && machine.procs[n].name == bridgeName && machine.procs[n + 1].name == engineName
      // it fails only for these reasons, unless something outside the code goes wrong
      ensures r.Ok? ==> bridgeName != "" && listening
      ensures machine.smooth ==> (r.Ok? <==> engine.Some? && installed && bridgeName != "" && listening)
    {
      if engine.None? || !installed {
        return Err(Prepare);
      }
      var ok := LaunchBridge(listening);
      if !ok {
        return Err(BridgeLaunch);
      }
      ok := StartEngineInteractive();
      if !ok {
        return Err(EngineLaunch);
      }
      return Ok(());
    }

    method Stop()
      requires Valid()
      modifies this`interactiveEngineProc, machine
      ensures Valid() && interactiveEngineProc.None? && machine.log == old(machine.log)
      ensures machine.refusedKills == 0 ==> NoLive(machine.procs, Engine)
      ensures machine.refusedKills == 0 && bridgeName != "" ==> NoLive(machine.procs, Bridge)
    {
      KillTracked();
      ghost var p1, h1 := machine.procs, machine.history;
      if bridgeName != "" {
        machine.TerminateByName(bridgeName);
        if machine.refusedKills == 0 {
          SoundExits(p1, h1, None, machine.procs, machine.history);
        }
      }
      if machine.refusedKills == 0 {
        TrackedIsSingle(machine.procs, None);
      }
    }

    /** The tracked engine is alive. */
    ghost predicate TrackedAlive(procs: seq<Proc>)
      reads this
    {
      interactiveEngineProc.Some? && interactiveEngineProc.value < |procs| && procs[interactiveEngineProc.value].live
    }

    /** statusFn. When it says no, no engine of this manager is alive. */
    method EngineProcessRunning() returns (running: bool)
      requires Valid()
      modifies machine
      ensures Valid() && machine.log == old(machine.log) && SomeExited(old(machine.procs), machine.procs)
      ensures machine.refusedKills == old(machine.refusedKills) && machine.wrongProbes >= old(machine.wrongProbes)
      ensures interactiveEngineProc.None? ==> !running && machine.procs == old(machine.procs)
      ensures machine.wrongProbes == old(machine.wrongProbes) ==> (running <==> TrackedAlive(machine.procs))
      ensures !running && machine.refusedKills == 0 && machine.wrongProbes == old(machine.wrongProbes) ==>
                NoLive(machine.procs, Engine)
    {
      if interactiveEngineProc.None? {
        if machine.refusedKills == 0 {
          TrackedIsSingle(machine.procs, None);
        }
        return false;
      }
      running := machine.Probe(interactiveEngineProc.value);
      if machine.refusedKills == 0 {
        SoundExits(old(machine.procs), old(machine.history), interactiveEngineProc, machine.procs, machine.history);
        if !machine.procs[interactiveEngineProc.value].live {
          TrackedIsSingle(machine.procs, None);
        }
      }
    }

    /** fileVersion is what the engine's own version resource says, if it can be read. */
    method GetStatus(fileVersion: Option<string>) returns (s: Status)
      requires Valid()
      modifies machine
      ensures Valid() && machine.log == old(machine.log) && SomeExited(old(machine.procs), machine.procs)
      ensures s.engineVersion == if fileVersion.Some? && fileVersion.value != "" then fileVersion.value
                                 else lastUpdatedVersion
      ensures machine.wrongProbes == old(machine.wrongProbes) ==> (s.running <==> TrackedAlive(machine.procs))
      ensures !s.running && machine.refusedKills == 0 && machine.wrongProbes == old(machine.wrongProbes) ==>
                NoLive(machine.procs, Engine)
    {
      var version := lastUpdatedVersion;
      if fileVersion.Some? && fileVersion.value != "" {
        version := fileVersion.value;
      }
      var running := EngineProcessRunning();
      return Status(running, version);
    }

    /** solarbeam.Manager.Update. ran tells whether the update body was reached, and probed are the
        processes at that moment. */
    method Update(disk: Disk, sha: Bytes -> Verify.Digest, unzip: Unzip, signers: Signers,
                  response: Download.Response, args: Args)
        returns (r: Result<(), Error>, ghost staged: Option<Path>, ghost ran: bool, ghost probed: seq<Proc>)
      requires Valid() && disk.Valid()
      modifies this`lastUpdatedVersion, machine, disk
      ensures Valid() && disk.Valid()
      ensures lastUpdatedVersion == if r.Ok? then args.version else old(lastUpdatedVersion)
      ensures r == Err(BadArgs) <==> !Addressed(args)
      ensures Addressed(args) && machine.wrongProbes == old(machine.wrongProbes) ==>
                (r == Err(EngineRunning) <==> TrackedAlive(probed))
      ensures ran <==> r.Ok? || (!r.error.BadArgs? && !r.error.EngineRunning?)
      ensures !ran ==> disk.files == old(disk.files) && disk.trace == old(disk.trace)
      // no engine is alive when the update body begins, none while it runs, and nothing is started
      ensures machine.log == old(machine.log)
      ensures SomeExited(old(machine.procs), probed) && SomeExited(probed, machine.procs)
      ensures ran && machine.refusedKills == 0 && machine.wrongProbes == old(machine.wrongProbes) ==>
                NoLive(probed, Engine) && NoLive(machine.procs, Engine)
      ensures r.Ok? ==>
                && Addressed(args) && staged.Some?
                && Authentic(old(disk.files), sha, response, args, staged.value)
                && Installed(old(disk.files), root, engine, unzip, Download.Body(response), staged.value, disk.files,
                             disk.refusedRemovals > old(disk.refusedRemovals))
      ensures ran ==>
                Explained(old(disk.files), old(disk.dirs), sha, unzip, signers, root, engine, tempDir, response, args,
                          r, staged, disk.smooth)
      ensures Traced(root, engine, unzip, StagedPlan(tempDir, Download.Body(response)), old(disk.files), disk.trace,
                     |old(disk.trace)|)
    {
      staged, ran, probed := None, false, machine.procs;
      AcceptedIffAddressed(args);
      if !ValidArgs(args) {
        return Err(BadArgs), None, false, machine.procs;
      }
      var running := EngineProcessRunning();
      if running {
        return Err(EngineRunning), None, false, machine.procs;
      }
      ran, probed := true, machine.procs;
      r, staged := ApplyEngineUpdate(disk, sha, unzip, signers, root, engine, tempDir, response, args);
      Drift();
      if r.Err? {
        return;
      }
      lastUpdatedVersion := args.version;
    }

    /** Processes exit; the mutex keeps Start out. */
    method Drift()
      requires Valid()
      modifies machine`procs, machine`history
      ensures Valid() && SomeExited(old(machine.procs), machine.procs)
      ensures NoLive(old(machine.procs), Engine) ==> NoLive(machine.procs, Engine)
    {
      machine.Settle();
      if machine.refusedKills == 0 {
        SoundExits(old(machine.procs), old(machine.history), interactiveEngineProc, machine.procs, machine.history);
      }
      ExitsKeep(old(machine.procs), machine.procs, Engine);
    }

    /** Any calls one after the other, each going as well or badly as it may. */
    method Serve(calls: seq<Call>, disk: Disk, sha: Bytes -> Verify.Digest, unzip: Unzip,
                 signers: Signers)
      requires Valid() && disk.Valid() && EnginesHeard(machine.log)
      modifies this, machine, disk
      ensures Valid() && disk.Valid()
      ensures machine.refusedKills == 0 ==>
                && OneEngine(machine.procs, interactiveEngineProc) && OneLive(machine.procs, Bridge)
                // in every state on the way, inside the calls too
                && AllSingle(machine.history)
      ensures EnginesHeard(machine.log)
    {
      for i := 0 to |calls|
        invariant Valid() && disk.Valid() && EnginesHeard(machine.log)
      {
        ghost var log := machine.log;
        match calls[i] {
          case StartCall(installed, listening) =>
            var _ := Start(installed, listening);
            HeardAppends(log, machine.log);
          case StopCall =>
            Stop();
          case StatusCall(fileVersion) =>
            var _ := GetStatus(fileVersion);
          case UpdateCall(response, args) =>
            var _, _, _, _ := Update(disk, sha, unzip, signers, response, args);
        }
      }
    }
  }

  datatype Call =
    | StartCall(installed: bool, listening: bool)
    | StopCall
    | StatusCall(fileVersion: Option<string>)
    | UpdateCall(response: Download.Response, args: Args)
}
