/** The reconnect loop of transport.Client and its pause toggle, as interleaved steps of any number
    of callers of Run and SetPaused. A step is one critical section, one channel operation or one
    test of a context. */
module Reconnect {
  import opened Wrappers
  import Backoff

  type RunId = nat
  type Attempt = nat
  // wake channels are numbered in the order they are made
  type Wake = nat

  datatype Cause = Canceled | DeadlineExceeded

  /** Errors up to errors.Is: a context's error, errPausedMidConnection, or anything else. */
  datatype Error = Ctx(cause: Cause) | PausedMidConnection | Failure(what: string)

  /** since is 0 for the zero time. */
  datatype Stats = Stats(connected: bool, since: int, count: nat, lastError: Option<Error>)

  /** The fields of Client, and what happened to the channels and contexts it handed out. */
  datatype Shared = Shared(
    running: bool,
    stats: Stats,
    paused: bool,
    pauseWake: Wake,
    cancelCurrent: Option<Attempt>,
    // the wake channels closed so far, in order
    closes: seq<Wake>,
    // attempts whose cancel function was called
    cancelled: set<Attempt>,
    // attempts whose persistentConn.Close was called
    closedConns: set<Attempt>,
    // connectAndServe calls begun
    begun: nat,
    // attempts whose hello was enqueued, in order
    greeted: seq<Attempt>,
    // the Run call that holds the loop
    owner: Option<RunId>)

  const INITIAL := Shared(false, Stats(false, 0, 0, None), false, 0, None, [], {}, {}, 0, [], None)

  // ---- critical sections of Client.mu ---------------------------------------

  function AfterSetPaused(sh: Shared, paused: bool): Shared {
    sh.(paused := paused,
        cancelled := if paused && sh.cancelCurrent.Some? then sh.cancelled + {sh.cancelCurrent.value} else sh.cancelled,
        closes := sh.closes + [sh.pauseWake],
        pauseWake := sh.pauseWake + 1)
  }

  function AfterStart(sh: Shared, id: RunId): Shared {
    if sh.running then sh else sh.(running := true, owner := Some(id))
  }

  function AfterFinish(sh: Shared): Shared {
    sh.(running := false, owner := None)
  }

  function AfterRegister(sh: Shared, a: Attempt): Shared {
    sh.(cancelCurrent := Some(a))
  }

  function AfterClear(sh: Shared): Shared {
    sh.(cancelCurrent := None)
  }

  function AfterMark(sh: Shared, now: int): Shared {
    sh.(stats := sh.stats.(connected := true, since := now, count := sh.stats.count + 1))
  }

  function AfterRecord(sh: Shared, ret: Option<Error>): Shared {
    sh.(stats := sh.stats.(connected := false, since := 0,
                           lastError := if ret.Some? then ret else sh.stats.lastError))
  }

  // ---- the loop -------------------------------------------------------------

  datatype RunResult = Nil | AlreadyRunning

  /** Where a caller of Run is. An attempt's return value travels through the deferred function. */
  datatype Pc =
    | Start
    | LoopTop
    | ReadPause
    | WaitWake(wake: Wake)
    | Enter
    | Register(a: Attempt)
    | Configuring(a: Attempt)
    | Dialing(a: Attempt)
    | Greeting(a: Attempt)
    | Mark(a: Attempt)
    | Serving(a: Attempt)
    | Clear(a: Attempt, ret: Option<Error>)
    | CallCancel(a: Attempt, ret: Option<Error>)
    | TestCause(a: Attempt, ret: Option<Error>)
    | Record(ret: Option<Error>)
    | Decide(ret: Option<Error>)
    | Sleep(delay: int)
    | Exiting
    | Returned(result: RunResult)

  /** One call of Run: its position, its context's error, whether it marked the current attempt
      connected, and its local Backoff with the number of delays drawn from it. */
  datatype Runner = Runner(pc: Pc, ctx: Option<Cause>, up: bool, cur: int, draws: nat)

  datatype Pump = ReadPump | WritePump | PingPump | TelemetryPump

  /** ret is the error of the attempt's context. */
  predicate IsAttemptError(sh: Shared, r: Runner, a: Attempt, ret: Option<Error>) {
    || (a in sh.cancelled && ret == Some(Ctx(Canceled)))
    || (r.ctx.Some? && ret == Some(Ctx(r.ctx.value)))
  }

  /** What a pump can return: the read pump its read error, the others the context's error, an error
      of their own, or (all but telemetry) nil once the connection was closed with Close. */
  predicate PumpReturns(p: Pump, sh: Shared, r: Runner, a: Attempt, ret: Option<Error>) {
    match p
    case ReadPump => ret.Some?
    case TelemetryPump => ret.Some? && (ret.value.Failure? || IsAttemptError(sh, r, a, ret))
    case _ =>
      || IsAttemptError(sh, r, a, ret)
      || (ret.Some? && ret.value.Failure?)
      || (ret.None? && a in sh.closedConns)
  }

  ghost predicate ServeReturns(sh: Shared, r: Runner, a: Attempt, ret: Option<Error>) {
    || (exists p :: PumpReturns(p, sh, r, a, ret))
    || (r.ctx.Some? && ret == Some(Ctx(r.ctx.value)))
  }

  /** The test at the end of the deferred function, after cancel() was called. */
  function Reinterpret(sh: Shared, r: Runner, a: Attempt, ret: Option<Error>): Option<Error> {
    if ret.Some? && r.ctx.None? && AttemptDone(sh, r, a) then Some(PausedMidConnection) else ret
  }

  /** The attempt's context is done. */
  predicate AttemptDone(sh: Shared, r: Runner, a: Attempt) {
    a in sh.cancelled || r.ctx.Some?
  }

  /** The attempt ends with some error, of any kind. */
  predicate FailsWithSome(r: Runner, a: Attempt, r': Runner) {
    r'.pc.Clear? && r'.pc.ret.Some? && r' == r.(pc := Clear(a, r'.pc.ret))
  }

  function Decided(r: Runner, ret: Option<Error>): Runner {
    if ret == None || ret == Some(Ctx(Canceled)) then r.(pc := Exiting)
    else if ret == Some(PausedMidConnection) then r.(pc := LoopTop)
    else
      var next := Backoff.NextCur(Backoff.SECOND, 60 * Backoff.SECOND, r.cur);
      r.(pc := Sleep(next), cur := next, draws := r.draws + 1)
  }

  ghost predicate RunnerStep(id: RunId, sh: Shared, r: Runner, sh': Shared, r': Runner) {
    match r.pc
    case Start =>
      sh' == AfterStart(sh, id) && r' == r.(pc := if sh.running then Returned(AlreadyRunning) else LoopTop)
    case LoopTop =>
      sh' == sh && r' == r.(pc := if r.ctx.Some? then Exiting else ReadPause)
    case ReadPause =>
      sh' == sh && r' == r.(pc := if sh.paused then WaitWake(sh.pauseWake) else Enter)
    case WaitWake(wake) =>
      sh' == sh && ((r.ctx.Some? && r' == r.(pc := Exiting)) || (wake in sh.closes && r' == r.(pc := LoopTop)))
    case Enter =>
      sh' == sh.(begun := sh.begun + 1) && r' == r.(pc := Register(sh.begun))
    case Register(a) =>
      sh' == AfterRegister(sh, a) && r' == r.(pc := Configuring(a))
    case Configuring(a) =>
      // TLS files and URL; a dial under a context that is done already fails
      || (sh' == sh && FailsWithSome(r, a, r'))
      || (!AttemptDone(sh, r, a) && sh' == sh && r' == r.(pc := Dialing(a)))
    case Dialing(a) =>
      // the context may end too late to stop the dial
      sh' == sh && (FailsWithSome(r, a, r') || r' == r.(pc := Greeting(a)))
    case Greeting(a) =>
      // Send may take the free queue even if the context is done
      || (sh' == sh && FailsWithSome(r, a, r'))
      || (sh' == sh.(greeted := sh.greeted + [a]) && r' == r.(pc := Mark(a)))
    case Mark(a) =>
      sh'.stats.since != 0 && sh' == AfterMark(sh, sh'.stats.since) && r' == r.(pc := Serving(a), up := true)
    case Serving(a) =>
      sh' == sh && r'.pc.Clear? && ServeReturns(sh, r, a, r'.pc.ret) && r' == r.(pc := Clear(a, r'.pc.ret))
    case Clear(a, ret) =>
      sh' == AfterClear(sh) && r' == r.(pc := CallCancel(a, ret))
    case CallCancel(a, ret) =>
      sh' == sh.(cancelled := sh.cancelled + {a}) && r' == r.(pc := TestCause(a, ret))
    case TestCause(a, ret) =>
      sh' == sh && r' == r.(pc := Record(Reinterpret(sh, r, a, ret)))
    case Record(ret) =>
      sh' == AfterRecord(sh, ret) && r' == r.(pc := Decide(ret), up := false)
    case Decide(ret) =>
      sh' == sh && r' == Decided(r, ret)
    case Sleep(_) =>
      sh' == sh && ((r.ctx.Some? && r' == r.(pc := Exiting)) || r' == r.(pc := LoopTop))
    case Exiting =>
      sh' == AfterFinish(sh) && r' == r.(pc := Returned(Nil))
    case Returned(_) => false
  }

  datatype State = State(sh: Shared, runs: map<RunId, Runner>)

  datatype Label =
    | Call(id: RunId)
    | Move(id: RunId)
    | CtxEnds(id: RunId, cause: Cause)
    | Pause(paused: bool)
    | CloseConn(a: Attempt)

  const FRESH := Runner(Start, None, false, 0, 0)

  ghost predicate Step(s: State, l: Label, s': State) {
    match l
    case Call(id) =>
      id !in s.runs && s' == s.(runs := s.runs[id := FRESH])
    case Move(id) =>
      && id in s.runs && id in s'.runs && s'.runs == s.runs[id := s'.runs[id]]
      && RunnerStep(id, s.sh, s.runs[id], s'.sh, s'.runs[id])
    case CtxEnds(id, cause) =>
      id in s.runs && s.runs[id].ctx.None? && s' == s.(runs := s.runs[id := s.runs[id].(ctx := Some(cause))])
    case Pause(paused) =>
      s' == s.(sh := AfterSetPaused(s.sh, paused))
    case CloseConn(a) =>
      s' == s.(sh := s.sh.(closedConns := s.sh.closedConns + {a}))
  }

  /** A run of the whole system: labels[i] leads from states[i] to states[i + 1]. */
  ghost predicate Execution(states: seq<State>, labels: seq<Label>) {
    && |states| == |labels| + 1
    && forall i :: 0 <= i < |labels| ==> Step(states[i], labels[i], states[i + 1])
  }

  ghost predicate FromStart(states: seq<State>, labels: seq<Label>) {
    Execution(states, labels) && states[0] == State(INITIAL, map[])
  }

  // ---- invariants -----------------------------------------------------------

  predicate Active(pc: Pc) {
    !pc.Start? && !pc.Returned?
  }

  /** The attempt is registered with SetPaused. */
  predicate Registered(pc: Pc) {
    pc.Configuring? || pc.Dialing? || pc.Greeting? || pc.Mark? || pc.Serving? || pc.Clear?
  }

  predicate InAttempt(pc: Pc) {
    pc.Register? || Registered(pc) || pc.CallCancel? || pc.TestCause?
  }

  predicate CarriesResult(pc: Pc) {
    pc.Clear? || pc.CallCancel? || pc.TestCause? || pc.Record? || pc.Decide?
  }

  /** The wake channels closed so far are all those before the current one. */
  ghost predicate WakeInv(sh: Shared) {
    |sh.closes| == sh.pauseWake && forall i :: 0 <= i < |sh.closes| ==> sh.closes[i] == i
  }

  /** Attempts are greeted in the order they begin, and only begun ones are greeted or cancelled. */
  ghost predicate AttemptsInv(sh: Shared) {
    && (forall i, j :: 0 <= i < j < |sh.greeted| ==> sh.greeted[i] < sh.greeted[j])
    && (forall i :: 0 <= i < |sh.greeted| ==> sh.greeted[i] < sh.begun)
    && (forall a :: a in sh.cancelled ==> a < sh.begun)
  }

  predicate IdleInv(sh: Shared) {
    && (sh.running <==> sh.owner.Some?)
    && (sh.stats.connected <==> sh.stats.since != 0)
    && (sh.owner.None? ==> sh.cancelCurrent.None? && !sh.stats.connected && sh.stats.count == |sh.greeted|)
  }

  ghost predicate SharedInv(sh: Shared) {
    WakeInv(sh) && AttemptsInv(sh) && IdleInv(sh)
  }

  /** What holds of the one active caller: its attempt and its cancel function. */
  predicate CancelInv(sh: Shared, r: Runner) {
    sh.cancelCurrent == (if Registered(r.pc) then Some(r.pc.a) else None)
  }

  predicate AttemptInv(sh: Shared, r: Runner) {
    && (InAttempt(r.pc) ==> r.pc.a + 1 == sh.begun)
    && (r.pc.TestCause? ==> r.pc.a in sh.cancelled)
    && (r.pc.Register? ==> r.pc.a !in sh.cancelled)
  }

  /** Its place in the pause protocol. */
  predicate WaitInv(sh: Shared, r: Runner) {
    r.pc.WaitWake? ==> r.pc.wake in sh.closes || (r.pc.wake == sh.pauseWake && sh.paused)
  }

  /** A place after the connection was reported and before the attempt's end is recorded. */
  predicate Reporting(pc: Pc) {
    pc.Serving? || pc.Clear? || pc.CallCancel? || pc.TestCause? || pc.Record?
  }

  /** Whether it is reported as connected. */
  predicate UpInv(sh: Shared, r: Runner) {
    && sh.stats.connected == r.up
    && (r.up ==> Reporting(r.pc) && sh.greeted != [] && sh.greeted[|sh.greeted| - 1] + 1 == sh.begun)
    && (r.pc.Serving? ==> r.up)
  }

  /** How many connections are counted. */
  ghost predicate CountInv(sh: Shared, r: Runner) {
    && (r.pc.Mark? ==> sh.greeted != [] && sh.greeted[|sh.greeted| - 1] == r.pc.a)
    && sh.stats.count + (if r.pc.Mark? then 1 else 0) == |sh.greeted|
    && (r.pc.Register? || r.pc.Configuring? || r.pc.Dialing? || r.pc.Greeting? ==>
          forall i :: 0 <= i < |sh.greeted| ==> sh.greeted[i] < r.pc.a)
  }

  ghost predicate LoopInv(sh: Shared, r: Runner) {
    CancelInv(sh, r) && AttemptInv(sh, r) && WaitInv(sh, r) && UpInv(sh, r) && CountInv(sh, r)
  }

  /** What holds of every caller while nobody calls persistentConn.Close. */
  predicate RunnerInv(r: Runner) {
    && (CarriesResult(r.pc) ==> r.pc.ret.Some?)
    && ((r.pc.Record? || r.pc.Decide?) && r.ctx.None? ==> r.pc.ret == Some(PausedMidConnection))
    && (r.pc.Sleep? || r.pc.Exiting? || r.pc == Returned(Nil) || r.draws > 0 ==> r.ctx.Some?)
    && r.draws <= 1
    && (r.draws == 1 ==> r.pc.Sleep? || r.pc.LoopTop? || r.pc.Exiting? || r.pc.Returned?)
  }

  /** One active caller at most, and what holds of the fields and of that caller. */
  ghost predicate Core(s: State) {
    && SharedInv(s.sh)
    && (forall id :: id in s.runs ==> (Active(s.runs[id].pc) <==> s.sh.owner == Some(id)))
    && (s.sh.owner.Some? ==> s.sh.owner.value in s.runs && LoopInv(s.sh, s.runs[s.sh.owner.value]))
    && (forall id :: id in s.runs && s.runs[id].up ==> Active(s.runs[id].pc))
  }

  ghost predicate Inv(s: State) {
    Core(s) && (s.sh.closedConns == {} ==> forall id :: id in s.runs ==> RunnerInv(s.runs[id]))
  }

  lemma StepKeepsOwner(id: RunId, sh: Shared, r: Runner, sh': Shared, r': Runner)
    requires IdleInv(sh) && RunnerStep(id, sh, r, sh', r')
    requires Active(r.pc) <==> sh.owner == Some(id)
    ensures sh'.closedConns == sh.closedConns
    ensures sh'.owner == (if Active(r'.pc) then Some(id) else if Active(r.pc) then None else sh.owner)
    ensures !Active(r.pc) && !Active(r'.pc) ==> sh' == sh
    ensures !Active(r.pc) && Active(r'.pc) ==> sh.owner.None? && sh' == AfterStart(sh, id)
  {
  }

  lemma StepKeepsIdle(id: RunId, sh: Shared, r: Runner, sh': Shared, r': Runner)
    requires IdleInv(sh) && RunnerStep(id, sh, r, sh', r')
    requires Active(r.pc) <==> sh.owner == Some(id)
    requires Active(r.pc) ==> CancelInv(sh, r) && UpInv(sh, r) && CountInv(sh, r)
    ensures IdleInv(sh')
  {
  }

  lemma StepKeepsAttempts(id: RunId, sh: Shared, r: Runner, sh': Shared, r': Runner)
    requires AttemptsInv(sh) && RunnerStep(id, sh, r, sh', r')
    requires Active(r.pc) ==> AttemptInv(sh, r) && CountInv(sh, r)
    ensures AttemptsInv(sh')
  {
  }

  lemma StepKeepsWakes(id: RunId, sh: Shared, r: Runner, sh': Shared, r': Runner)
    requires WakeInv(sh) && RunnerStep(id, sh, r, sh', r')
    requires WaitInv(sh, r)
    ensures WakeInv(sh') && WaitInv(sh', r')
  {
  }

  lemma StepKeepsCancel(id: RunId, sh: Shared, r: Runner, sh': Shared, r': Runner)
    requires IdleInv(sh) && RunnerStep(id, sh, r, sh', r')
    requires Active(r.pc) ==> CancelInv(sh, r)
    ensures Active(r'.pc) ==> CancelInv(sh', r')
  {
  }

  lemma StepKeepsAttempt(id: RunId, sh: Shared, r: Runner, sh': Shared, r': Runner)
    requires AttemptsInv(sh) && RunnerStep(id, sh, r, sh', r')
    requires AttemptInv(sh, r)
    ensures AttemptInv(sh', r')
  {
  }

  lemma StepKeepsUp(id: RunId, sh: Shared, r: Runner, sh': Shared, r': Runner)
    requires IdleInv(sh) && RunnerStep(id, sh, r, sh', r')
    requires Active(r.pc) ==> AttemptInv(sh, r) && UpInv(sh, r) && CountInv(sh, r)
    requires r.up ==> Active(r.pc)
    ensures Active(r'.pc) ==> UpInv(sh', r')
    ensures r'.up ==> Active(r'.pc)
  {
  }

  lemma StepKeepsCount(id: RunId, sh: Shared, r: Runner, sh': Shared, r': Runner)
    requires IdleInv(sh) && AttemptsInv(sh) && RunnerStep(id, sh, r, sh', r')
    requires Active(r.pc) ==> CountInv(sh, r)
    ensures Active(r'.pc) ==> CountInv(sh', r')
  {
  }

  lemma StepKeepsRunner(id: RunId, sh: Shared, r: Runner, sh': Shared, r': Runner)
    requires RunnerStep(id, sh, r, sh', r') && RunnerInv(r) && sh.closedConns == {}
    requires r.pc.TestCause? ==> r.pc.a in sh.cancelled
    ensures RunnerInv(r')
  {
  }

  lemma Assemble(s: State, id: RunId, s': State)
    requires Core(s) && id in s.runs && id in s'.runs && s'.runs == s.runs[id := s'.runs[id]]
    requires SharedInv(s'.sh)
    requires s'.sh.owner == (if Active(s'.runs[id].pc) then Some(id)
                             else if Active(s.runs[id].pc) then None else s.sh.owner)
    requires !Active(s.runs[id].pc) && !Active(s'.runs[id].pc) ==> s'.sh == s.sh
    requires !Active(s.runs[id].pc) && Active(s'.runs[id].pc) ==> s.sh.owner.None?
    requires Active(s'.runs[id].pc) ==> LoopInv(s'.sh, s'.runs[id])
    requires s'.runs[id].up ==> Active(s'.runs[id].pc)
    ensures Core(s')
  {
  }

  lemma MoveCore(s: State, id: RunId, s': State)
    requires Core(s) && Step(s, Move(id), s')
    ensures Core(s') && s'.sh.closedConns == s.sh.closedConns
  {
    var sh, r, sh', r' := s.sh, s.runs[id], s'.sh, s'.runs[id];
    StepKeepsOwner(id, sh, r, sh', r');
    StepKeepsIdle(id, sh, r, sh', r');
    StepKeepsAttempts(id, sh, r, sh', r');
    StepKeepsWakes(id, sh, r, sh', r');
    StepKeepsCancel(id, sh, r, sh', r');
    StepKeepsAttempt(id, sh, r, sh', r');
    StepKeepsUp(id, sh, r, sh', r');
    StepKeepsCount(id, sh, r, sh', r');
    Assemble(s, id, s');
  }

  lemma MoveInv(s: State, id: RunId, s': State)
    requires Inv(s) && Step(s, Move(id), s')
    ensures Inv(s')
  {
    MoveCore(s, id, s');
    if s.sh.closedConns == {} {
      StepKeepsRunner(id, s.sh, s.runs[id], s'.sh, s'.runs[id]);
    }
  }

  lemma PauseCore(s: State, paused: bool, s': State)
    requires Core(s) && Step(s, Pause(paused), s')
    ensures Core(s')
  {
    var sh, sh' := s.sh, s'.sh;
    assert WakeInv(sh') && sh.pauseWake in sh'.closes by {
      assert sh'.closes[sh.pauseWake] == sh.pauseWake;
    }
    if sh.owner.Some? {
      var r := s.runs[sh.owner.value];
      assert r.pc.WaitWake? && r.pc.wake in sh.closes ==> r.pc.wake in sh'.closes;
    }
  }

  lemma CtxEndsCore(s: State, id: RunId, cause: Cause, s': State)
    requires Core(s) && Step(s, CtxEnds(id, cause), s')
    ensures Core(s')
  {
  }

  lemma StepCore(s: State, l: Label, s': State)
    requires Core(s) && Step(s, l, s')
    ensures Core(s')
  {
    match l {
      case Move(id) => MoveCore(s, id, s');
      case CtxEnds(id, cause) => CtxEndsCore(s, id, cause, s');
      case Pause(paused) => PauseCore(s, paused, s');
      case _ =>
    }
  }

  lemma StepInv(s: State, l: Label, s': State)
    requires Inv(s) && Step(s, l, s')
    ensures Inv(s')
  {
    StepCore(s, l, s');
    match l {
      case Move(id) => MoveInv(s, id, s');
      case _ =>
    }
  }

  lemma {:induction false} Reachable(states: seq<State>, labels: seq<Label>, i: nat)
    requires FromStart(states, labels) && i < |states|
    ensures Inv(states[i])
  {
    if i > 0 {
      Reachable(states, labels, i - 1);
      StepInv(states[i - 1], labels[i - 1], states[i]);
    }
  }

  /** Some run of the whole system leads to s. */
  ghost predicate Reached(s: State) {
    exists states: seq<State>, labels: seq<Label> :: FromStart(states, labels) && states[|labels|] == s
  }

  lemma ReachedStep(s: State, l: Label, s': State)
    requires Reached(s) && Step(s, l, s')
    ensures Reached(s')
  {
    var states: seq<State>, labels: seq<Label> :| FromStart(states, labels) && states[|labels|] == s;
    var states1, labels1 := states + [s'], labels + [l];
    forall i | 0 <= i < |labels1| ensures Step(states1[i], labels1[i], states1[i + 1]) {
      if i < |labels| {
        assert Step(states[i], labels[i], states[i + 1]);
      }
    }
    assert FromStart(states1, labels1) && states1[|labels1|] == s';
  }

  lemma ReachedMove(s: State, id: RunId, sh': Shared, r': Runner)
    requires Reached(s) && id in s.runs && RunnerStep(id, s.sh, s.runs[id], sh', r')
    ensures Reached(State(sh', s.runs[id := r']))
  {
    ReachedStep(s, Move(id), State(sh', s.runs[id := r']));
  }

  lemma ReachedInv(s: State)
    requires Reached(s)
    ensures Inv(s)
  {
    var states: seq<State>, labels: seq<Label> :| FromStart(states, labels) && states[|labels|] == s;
    Reachable(states, labels, |labels|);
  }
}
