/** What the reconnect loop guarantees over whole runs, under every interleaving. */
module ReconnectTheorems {
  import opened Wrappers
  import opened Reconnect

  /** Nobody calls persistentConn.Close; nothing in the agent does. */
  ghost predicate NoClose(labels: seq<Label>) {
    forall i :: 0 <= i < |labels| ==> !labels[i].CloseConn?
  }

  ghost predicate PausedThroughout(states: seq<State>) {
    forall i :: 0 <= i < |states| ==> states[i].sh.paused
  }

  lemma {:induction false} InvAlong(states: seq<State>, labels: seq<Label>, i: nat)
    requires Execution(states, labels) && Inv(states[0]) && i < |states|
    ensures Inv(states[i])
  {
    if i > 0 {
      InvAlong(states, labels, i - 1);
      StepInv(states[i - 1], labels[i - 1], states[i]);
    }
  }

  // ---- wake-ups -------------------------------------------------------------

  /** No lost wake-up: a caller that waits on a wake channel either finds it closed, or waits on the
      channel the next SetPaused will close while the client is still paused. */
  lemma NoLostWakeup(states: seq<State>, labels: seq<Label>, i: nat, id: RunId)
    requires FromStart(states, labels) && i < |states|
    requires id in states[i].runs && states[i].runs[id].pc.WaitWake?
    ensures var sh, wake := states[i].sh, states[i].runs[id].pc.wake;
            || wake in sh.closes
            || (wake == sh.pauseWake && sh.paused)
  {
    Reachable(states, labels, i);
  }

  function PauseCalls(labels: seq<Label>): nat {
    if labels == [] then 0
    else PauseCalls(labels[..|labels| - 1]) + (if labels[|labels| - 1].Pause? then 1 else 0)
  }

  /** Every SetPaused closes one channel, and no channel is closed twice. */
  lemma {:induction false} WakesClosedOnce(states: seq<State>, labels: seq<Label>)
    requires FromStart(states, labels)
    ensures var sh := states[|labels|].sh;
            && |sh.closes| == PauseCalls(labels)
            && sh.pauseWake !in sh.closes
            && forall i, j :: 0 <= i < j < |sh.closes| ==> sh.closes[i] != sh.closes[j]
  {
    Reachable(states, labels, |labels|);
    if labels != [] {
      var k := |labels| - 1;
      WakesClosedOnce(states[..k + 1], labels[..k]);
      assert Step(states[k], labels[k], states[k + 1]);
    }
  }

  // ---- how Run ends ---------------------------------------------------------

  lemma {:induction false} StaysOpen(states: seq<State>, labels: seq<Label>, i: nat)
    requires Execution(states, labels) && NoClose(labels) && i < |states|
    requires Inv(states[0]) && states[0].sh.closedConns == {}
    ensures Inv(states[i]) && states[i].sh.closedConns == {}
  {
    if i > 0 {
      StaysOpen(states, labels, i - 1);
      StepInv(states[i - 1], labels[i - 1], states[i]);
      assert Step(states[i - 1], labels[i - 1], states[i]);
      if labels[i - 1].Move? {
        var id := labels[i - 1].id;
        StepKeepsOwner(id, states[i - 1].sh, states[i - 1].runs[id], states[i].sh, states[i].runs[id]);
      }
    }
  }

  /** Run returns nil only once its own context is done, and draws a delay from its backoff only once
      its context is done, so at most one delay in all. */
  lemma NilOnlyWhenDone(states: seq<State>, labels: seq<Label>, i: nat, id: RunId)
    requires FromStart(states, labels) && NoClose(labels) && i < |states|
    requires id in states[i].runs
    ensures var r := states[i].runs[id];
            && (r.pc == Returned(Nil) ==> r.ctx.Some?)
            && (r.draws > 0 ==> r.ctx.Some?)
            && r.draws <= 1
  {
    StaysOpen(states, labels, i);
  }

  /** The caller is on its way from the deferred function's test to the end of its decision. */
  predicate Recording(r: Runner, draws: nat) {
    (r.pc == Record(Some(PausedMidConnection)) || r.pc == Decide(Some(PausedMidConnection))) && r.draws == draws
  }

  lemma TestedStep(s: State, l: Label, s': State, id: RunId)
    requires Inv(s) && s.sh.closedConns == {} && Step(s, l, s')
    requires id in s.runs && s.runs[id].pc.TestCause? && s.runs[id].ctx.None? && l == Move(id)
    ensures id in s'.runs && Recording(s'.runs[id], s.runs[id].draws)
  {
  }

  lemma RecordingStep(s: State, l: Label, s': State, id: RunId, draws: nat)
    requires Step(s, l, s') && id in s.runs && Recording(s.runs[id], draws)
    requires l == Move(id) ==> !s.runs[id].pc.Decide?
    ensures id in s'.runs && Recording(s'.runs[id], draws)
  {
  }

  /** Between the test at i and its decision the caller records a pause, whatever happens elsewhere. */
  lemma {:induction false} RecordsPause(states: seq<State>, labels: seq<Label>, i: nat, j: nat, id: RunId)
    requires FromStart(states, labels) && NoClose(labels) && i < j < |states|
    requires labels[i] == Move(id) && id in states[i].runs
    requires states[i].runs[id].pc.TestCause? && states[i].runs[id].ctx.None?
    requires forall k :: i < k < j && labels[k] == Move(id) ==> id in states[k].runs && !states[k].runs[id].pc.Decide?
    ensures id in states[j].runs && Recording(states[j].runs[id], states[i].runs[id].draws)
    decreases j
  {
    assert Step(states[j - 1], labels[j - 1], states[j]);
    if j == i + 1 {
      StaysOpen(states, labels, i);
      TestedStep(states[i], labels[i], states[j], id);
    } else {
      RecordsPause(states, labels, i, j - 1, id);
      RecordingStep(states[j - 1], labels[j - 1], states[j], id, states[i].runs[id].draws);
    }
  }

  /** As the code stands, every attempt whose outer context is alive at the deferred function's test counts
      as a pause: whatever the dial or the pumps returned, and whatever happens until the decision, the loop
      then goes round at once and no delay is drawn. */
  lemma FailureSkipsBackoff(states: seq<State>, labels: seq<Label>, i: nat, j: nat, id: RunId)
    requires FromStart(states, labels) && NoClose(labels) && i < j < |labels|
    requires labels[i] == Move(id) && labels[j] == Move(id) && id in states[i].runs && id in states[j].runs
    requires states[i].runs[id].pc.TestCause? && states[i].runs[id].ctx.None?
    requires states[j].runs[id].pc.Decide?
    requires forall k :: i < k < j && labels[k] == Move(id) ==> id in states[k].runs && !states[k].runs[id].pc.Decide?
    ensures states[j].runs[id].pc.ret == Some(PausedMidConnection)
    ensures id in states[j + 1].runs && states[j + 1].runs[id] == states[j].runs[id].(pc := LoopTop)
    ensures states[j + 1].runs[id].draws == states[i].runs[id].draws
  {
    RecordsPause(states, labels, i, j, id);
    assert Step(states[j], labels[j], states[j + 1]);
  }

  /** The same seen from the decision: under a live context it never waits. */
  lemma LiveDecisionSkipsBackoff(states: seq<State>, labels: seq<Label>, i: nat, id: RunId)
    requires FromStart(states, labels) && NoClose(labels) && i < |labels|
    requires labels[i] == Move(id) && id in states[i].runs && id in states[i + 1].runs
    requires states[i].runs[id].pc.Decide? && states[i].runs[id].ctx.None?
    ensures states[i].runs[id].pc.ret == Some(PausedMidConnection)
    ensures states[i + 1].runs[id] == states[i].runs[id].(pc := LoopTop)
  {
    StaysOpen(states, labels, i);
    assert Step(states[i], labels[i], states[i + 1]);
  }

  ghost predicate CanReturnNilLive(s: State, id: RunId) {
    exists states: seq<State>, labels: seq<Label> ::
      && Execution(states, labels) && states[0] == s
      && id in states[|labels|].runs
      && states[|labels|].runs[id].pc == Returned(Nil) && states[|labels|].runs[id].ctx.None?
  }

  lemma PrependNil(s: State, l: Label, s': State, id: RunId)
    requires Step(s, l, s') && CanReturnNilLive(s', id)
    ensures CanReturnNilLive(s, id)
  {
    var states: seq<State>, labels: seq<Label> :|
      && Execution(states, labels) && states[0] == s'
      && id in states[|labels|].runs
      && states[|labels|].runs[id].pc == Returned(Nil) && states[|labels|].runs[id].ctx.None?;
    var states1, labels1 := [s] + states, [l] + labels;
    forall i | 0 <= i < |labels1| ensures Step(states1[i], labels1[i], states1[i + 1]) {
      if i > 0 {
        assert Step(states[i - 1], labels[i - 1], states[i]);
      }
    }
    assert Execution(states1, labels1);
  }

  /** A nil result ends the loop: a live caller that is about to record it can return nil. */
  lemma NilRecordReturns(s: State, id: RunId)
    requires id in s.runs && s.runs[id].pc == Record(None) && s.runs[id].ctx.None?
    ensures CanReturnNilLive(s, id)
  {
    var r := s.runs[id].(pc := Decide(None), up := false);
    var s1 := Put(s, AfterRecord(s.sh, None), id, r);
    var s2 := Put(s1, s1.sh, id, r.(pc := Exiting));
    var s3 := Put(s2, AfterFinish(s2.sh), id, r.(pc := Returned(Nil)));
    var states, labels: seq<Label> := [s3], [];
    assert Execution(states, labels) && states[|labels|] == s3;
    PrependNil(s2, Move(id), s3, id);
    PrependNil(s1, Move(id), s2, id);
    PrependNil(s, Move(id), s1, id);
  }

  lemma NilResultReturns(s: State, id: RunId, a: Attempt)
    requires id in s.runs && s.runs[id].pc == Clear(a, None) && s.runs[id].ctx.None?
    ensures CanReturnNilLive(s, id)
  {
    var r := s.runs[id];
    var s1 := Put(s, AfterClear(s.sh), id, r.(pc := CallCancel(a, None)));
    var s2 := Put(s1, s1.sh.(cancelled := s1.sh.cancelled + {a}), id, r.(pc := TestCause(a, None)));
    var s3 := Put(s2, s2.sh, id, r.(pc := Record(None)));
    NilRecordReturns(s3, id);
    PrependNil(s2, Move(id), s3, id);
    PrependNil(s1, Move(id), s2, id);
    PrependNil(s, Move(id), s1, id);
  }

  /** The guarantee does rest on nobody calling Close: one call on the connection being served, and Run
      can return nil under a live context. */
  lemma CloseEndsRun(s: State, id: RunId, a: Attempt)
    requires id in s.runs && s.runs[id].pc == Serving(a) && s.runs[id].ctx.None?
    ensures CanReturnNilLive(s, id)
  {
    var r := s.runs[id];
    var s1 := s.(sh := s.sh.(closedConns := s.sh.closedConns + {a}));
    assert PumpReturns(WritePump, s1.sh, r, a, None);
    var s2 := Put(s1, s1.sh, id, r.(pc := Clear(a, None)));
    NilResultReturns(s2, id, a);
    PrependNil(s1, Move(id), s2, id);
    PrependNil(s, CloseConn(a), s1, id);
  }

  function Put(s: State, sh: Shared, id: RunId, r: Runner): State {
    State(sh, s.runs[id := r])
  }

  // ---- pausing --------------------------------------------------------------

  /** The loop has seen "not paused" and has not yet begun the attempt. */
  predicate EntryPending(s: State) {
    s.sh.owner.Some? && s.sh.owner.value in s.runs && s.runs[s.sh.owner.value].pc.Enter?
  }

  /** An attempt is under way, or about to begin, that has not been counted as connected and whose dial has
      not been ruled out by a context that is done. */
  predicate CountPending(s: State) {
    s.sh.owner.Some? && s.sh.owner.value in s.runs && Pending(s.sh, s.runs[s.sh.owner.value])
  }

  predicate Pending(sh: Shared, r: Runner) {
    || ((r.pc.Enter? || r.pc.Register?) && r.ctx.None?)
    || (r.pc.Configuring? && !AttemptDone(sh, r, r.pc.a))
    || r.pc.Dialing? || r.pc.Greeting? || r.pc.Mark?
  }

  function One(b: bool): nat {
    if b then 1 else 0
  }

  lemma PausedStepBegins(s: State, l: Label, s': State)
    requires Inv(s) && Step(s, l, s') && s.sh.paused
    ensures s'.sh.begun + One(EntryPending(s')) <= s.sh.begun + One(EntryPending(s))
  {
  }

  lemma PausedMoveCounts(id: RunId, sh: Shared, r: Runner, sh': Shared, r': Runner)
    requires RunnerStep(id, sh, r, sh', r') && sh.paused
    ensures sh'.stats.count + One(Pending(sh', r')) <= sh.stats.count + One(Pending(sh, r))
  {
  }

  lemma PausedStepCounts(s: State, l: Label, s': State)
    requires Inv(s) && Step(s, l, s') && s.sh.paused
    ensures s'.sh.stats.count + One(CountPending(s')) <= s.sh.stats.count + One(CountPending(s))
  {
    match l {
      case Move(id) =>
        StepKeepsOwner(id, s.sh, s.runs[id], s'.sh, s'.runs[id]);
        PausedMoveCounts(id, s.sh, s.runs[id], s'.sh, s'.runs[id]);
      case _ =>
    }
  }

  /** Bounded leakage: while the client stays paused, at most the one attempt that was already past the
      pause test can begin, and at most one connection can still be counted. */
  lemma {:induction false} PauseLeak(states: seq<State>, labels: seq<Label>)
    requires Execution(states, labels) && Inv(states[0]) && PausedThroughout(states)
    ensures var s, t := states[0], states[|labels|];
            && t.sh.begun + One(EntryPending(t)) <= s.sh.begun + One(EntryPending(s))
            && t.sh.stats.count + One(CountPending(t)) <= s.sh.stats.count + One(CountPending(s))
  {
    if labels != [] {
      var k := |labels| - 1;
      PauseLeak(states[..k + 1], labels[..k]);
      InvAlong(states, labels, k);
      InvAlong(states, labels, k + 1);
      assert Step(states[k], labels[k], states[k + 1]);
      PausedStepBegins(states[k], labels[k], states[k + 1]);
      PausedStepCounts(states[k], labels[k], states[k + 1]);
    }
  }

  ghost predicate CanStillConnect(s: State) {
    exists states: seq<State>, labels: seq<Label> ::
      && Execution(states, labels) && states[0] == s && PausedThroughout(states)
      && states[|labels|].sh.stats.count > s.sh.stats.count
      && states[|labels|].sh.stats.connected
  }

  lemma Prepend(s: State, l: Label, s': State)
    requires Step(s, l, s') && s.sh.paused && CanStillConnect(s') && s'.sh.stats.count >= s.sh.stats.count
    ensures CanStillConnect(s)
  {
    var states: seq<State>, labels: seq<Label> :|
      && Execution(states, labels) && states[0] == s' && PausedThroughout(states)
      && states[|labels|].sh.stats.count > s'.sh.stats.count
      && states[|labels|].sh.stats.connected;
    var states1, labels1 := [s] + states, [l] + labels;
    forall i | 0 <= i < |labels1| ensures Step(states1[i], labels1[i], states1[i + 1]) {
      if i > 0 {
        assert Step(states[i - 1], labels[i - 1], states[i]);
      }
    }
    assert Execution(states1, labels1) && PausedThroughout(states1);
  }

  lemma MarkConnects(s: State, id: RunId, a: Attempt)
    requires s.sh.paused && id in s.runs && s.runs[id].pc == Mark(a)
    ensures CanStillConnect(s)
  {
    var t := Put(s, AfterMark(s.sh, 1), id, s.runs[id].(pc := Serving(a), up := true));
    assert Step(s, Move(id), t);
    assert Execution([s, t], [Move(id)]) && PausedThroughout([s, t]);
    assert [s, t][|[Move(id)]|] == t;
  }

  lemma GreetingConnects(s: State, id: RunId, a: Attempt)
    requires s.sh.paused && id in s.runs && s.runs[id].pc == Greeting(a)
    ensures CanStillConnect(s)
  {
    var t := Put(s, s.sh.(greeted := s.sh.greeted + [a]), id, s.runs[id].(pc := Mark(a)));
    assert Step(s, Move(id), t);
    MarkConnects(t, id, a);
    Prepend(s, Move(id), t);
  }

  lemma DialingConnects(s: State, id: RunId, a: Attempt)
    requires s.sh.paused && id in s.runs && s.runs[id].pc == Dialing(a)
    ensures CanStillConnect(s)
  {
    var t := Put(s, s.sh, id, s.runs[id].(pc := Greeting(a)));
    assert Step(s, Move(id), t);
    GreetingConnects(t, id, a);
    Prepend(s, Move(id), t);
  }

  lemma ConfiguringConnects(s: State, id: RunId, a: Attempt)
    requires s.sh.paused && id in s.runs && s.runs[id].pc == Configuring(a)
    requires !AttemptDone(s.sh, s.runs[id], a)
    ensures CanStillConnect(s)
  {
    var t := Put(s, s.sh, id, s.runs[id].(pc := Dialing(a)));
    assert Step(s, Move(id), t);
    DialingConnects(t, id, a);
    Prepend(s, Move(id), t);
  }

  lemma RegisterConnects(s: State, id: RunId, a: Attempt)
    requires s.sh.paused && id in s.runs && s.runs[id].pc == Register(a)
    requires !AttemptDone(s.sh, s.runs[id], a)
    ensures CanStillConnect(s)
  {
    var t := Put(s, AfterRegister(s.sh, a), id, s.runs[id].(pc := Configuring(a)));
    assert Step(s, Move(id), t);
    ConfiguringConnects(t, id, a);
    Prepend(s, Move(id), t);
  }

  lemma EnterConnects(s: State, id: RunId)
    requires s.sh.paused && id in s.runs && s.runs[id].pc == Enter
    requires s.runs[id].ctx.None? && s.sh.begun !in s.sh.cancelled
    ensures CanStillConnect(s)
  {
    var t := Put(s, s.sh.(begun := s.sh.begun + 1), id, s.runs[id].(pc := Register(s.sh.begun)));
    assert Step(s, Move(id), t);
    RegisterConnects(t, id, s.sh.begun);
    Prepend(s, Move(id), t);
  }

  /** Exactly when a paused client can still come to report a connection without being resumed: when an
      attempt not yet counted was past the pause test, and its dial had begun or its context is not done.
      So "paused implies not connected" is false. */
  lemma PausedConnectsIff(s: State)
    requires Inv(s) && s.sh.paused
    ensures CanStillConnect(s) <==> CountPending(s)
  {
    if CountPending(s) {
      var id := s.sh.owner.value;
      match s.runs[id].pc {
        case Enter => EnterConnects(s, id);
        case Register(a) => RegisterConnects(s, id, a);
        case Configuring(a) => ConfiguringConnects(s, id, a);
        case Dialing(a) => DialingConnects(s, id, a);
        case Greeting(a) => GreetingConnects(s, id, a);
        case Mark(a) => MarkConnects(s, id, a);
        case _ =>
      }
    }
    if CanStillConnect(s) {
      var states: seq<State>, labels: seq<Label> :|
        && Execution(states, labels) && states[0] == s && PausedThroughout(states)
        && states[|labels|].sh.stats.count > s.sh.stats.count
        && states[|labels|].sh.stats.connected;
      PauseLeak(states, labels);
    }
  }

  /** Configuration that takes until the pause has cancelled the attempt cannot connect any more. */
  lemma CancelledWhileConfiguring(s: State, id: RunId)
    requires Inv(s) && s.sh.paused && s.sh.owner == Some(id)
    requires s.runs[id].pc.Configuring? && s.runs[id].pc.a in s.sh.cancelled
    ensures !CanStillConnect(s)
  {
    PausedConnectsIff(s);
  }

  /** The false claim has a run: SetPaused(true) arrives between the pause test and the registration of
      the cancel function, and the client ends up paused and connected. */
  lemma PausedYetConnected() returns (states: seq<State>, labels: seq<Label>)
    ensures FromStart(states, labels)
    ensures states[|labels|].sh.paused && CanStillConnect(states[|labels|])
  {
    var s0 := State(INITIAL, map[]);
    var s1 := State(INITIAL, map[0 := FRESH]);
    var s2 := State(AfterStart(INITIAL, 0), map[0 := FRESH.(pc := LoopTop)]);
    var s3 := State(s2.sh, map[0 := FRESH.(pc := ReadPause)]);
    var s4 := State(s2.sh, map[0 := FRESH.(pc := Enter)]);
    var s5 := s4.(sh := AfterSetPaused(s4.sh, true));
    states := [s0, s1, s2, s3, s4, s5];
    labels := [Call(0), Move(0), Move(0), Move(0), Pause(true)];
    EnterConnects(s5, 0);
  }

  /** An attempt that has ended, or that has not been entered. */
  predicate Quiet(s: State) {
    s.sh.owner.Some? && s.sh.owner.value in s.runs ==>
      var pc := s.runs[s.sh.owner.value].pc;
      !pc.Enter? && !InAttempt(pc)
  }

  lemma QuietStep(s: State, l: Label, s': State)
    requires Inv(s) && Step(s, l, s') && s.sh.paused && Quiet(s)
    ensures Quiet(s') && s'.sh.begun == s.sh.begun
  {
  }

  /** Once the leaked attempt has ended, no other begins while the client stays paused. */
  lemma {:induction false} QuietWhilePaused(states: seq<State>, labels: seq<Label>)
    requires Execution(states, labels) && Inv(states[0]) && PausedThroughout(states) && Quiet(states[0])
    ensures Quiet(states[|labels|]) && states[|labels|].sh.begun == states[0].sh.begun
  {
    if labels != [] {
      var k := |labels| - 1;
      QuietWhilePaused(states[..k + 1], labels[..k]);
      InvAlong(states, labels, k);
      InvAlong(states, labels, k + 1);
      assert Step(states[k], labels[k], states[k + 1]);
      QuietStep(states[k], labels[k], states[k + 1]);
    }
  }

  /** A caller in the pause wait stays there until SetPaused is called or its own context ends. */
  lemma {:induction false} WaitsForSetPaused(states: seq<State>, labels: seq<Label>, id: RunId)
    requires Execution(states, labels) && Inv(states[0])
    requires id in states[0].runs && states[0].runs[id].pc == WaitWake(states[0].sh.pauseWake)
    requires states[0].runs[id].ctx.None?
    requires forall i :: 0 <= i < |labels| ==> !labels[i].Pause? && !(labels[i].CtxEnds? && labels[i].id == id)
    ensures var t := states[|labels|];
            id in t.runs && t.runs[id] == states[0].runs[id] && t.sh.pauseWake == states[0].sh.pauseWake
  {
    if labels != [] {
      var k := |labels| - 1;
      WaitsForSetPaused(states[..k + 1], labels[..k], id);
      InvAlong(states, labels, k);
      assert Step(states[k], labels[k], states[k + 1]);
    }
  }

  lemma {:induction false} CancelledStays(states: seq<State>, labels: seq<Label>, a: Attempt)
    requires Execution(states, labels) && a in states[0].sh.cancelled
    ensures a in states[|labels|].sh.cancelled
  {
    if labels != [] {
      var k := |labels| - 1;
      CancelledStays(states[..k + 1], labels[..k], a);
      assert Step(states[k], labels[k], states[k + 1]);
    }
  }

  /** SetPaused(true) cancels the attempt of whichever caller has registered one, for good. */
  lemma PauseCancels(states: seq<State>, labels: seq<Label>, id: RunId)
    requires Execution(states, labels) && Inv(states[0])
    requires |labels| > 0 && labels[0] == Pause(true)
    requires id in states[0].runs && Registered(states[0].runs[id].pc)
    ensures states[0].runs[id].pc.a in states[|labels|].sh.cancelled
  {
    var a := states[0].runs[id].pc.a;
    assert Step(states[0], labels[0], states[1]);
    assert a in states[1].sh.cancelled;
    assert Execution(states[1..], labels[1..]) by {
      forall i | 0 <= i < |labels| - 1 ensures Step(states[1..][i], labels[1..][i], states[1..][i + 1]) {
        assert Step(states[i + 1], labels[i + 1], states[i + 2]);
      }
    }
    CancelledStays(states[1..], labels[1..], a);
  }

  // ---- what SetPaused does to later states ----------------------------------

  /** In every reached state the client is paused exactly if the last SetPaused asked for it. */
  lemma {:induction false} PausedIffLastAsked(states: seq<State>, labels: seq<Label>, i: nat)
    requires FromStart(states, labels) && i < |states|
    ensures states[i].sh.paused <==>
              exists k :: 0 <= k < i && labels[k] == Pause(true) && forall j :: k < j < i ==> !labels[j].Pause?
  {
    if i > 0 {
      PausedIffLastAsked(states, labels, i - 1);
      assert Step(states[i - 1], labels[i - 1], states[i]);
      if !labels[i - 1].Pause? {
        PauseKept(states[i - 1], labels[i - 1], states[i]);
      }
    }
  }

  lemma PauseKept(s: State, l: Label, s': State)
    requires Step(s, l, s') && !l.Pause?
    ensures s'.sh.paused == s.sh.paused
  {
  }

  /** After SetPaused(false), and until somebody calls SetPaused(true): the client is not paused, a caller in
      the pause wait finds its channel closed and can go on, and one at the pause test goes on to connect. */
  lemma ResumeWakes(states: seq<State>, labels: seq<Label>, k: nat, i: nat)
    requires FromStart(states, labels) && k < i <= |labels| && labels[k] == Pause(false)
    requires forall j :: k < j < i ==> labels[j] != Pause(true)
    ensures !states[i].sh.paused
    ensures forall id :: id in states[i].runs && states[i].runs[id].pc.WaitWake? ==>
              && states[i].runs[id].pc.wake in states[i].sh.closes
              && Step(states[i], Move(id), Put(states[i], states[i].sh, id, states[i].runs[id].(pc := LoopTop)))
    ensures forall id, s' ::
              id in states[i].runs && states[i].runs[id].pc.ReadPause? && Step(states[i], Move(id), s') ==>
                s'.runs[id].pc == Enter
  {
    PausedIffLastAsked(states, labels, i);
    Reachable(states, labels, i);
  }

  /** From the pause wait to the beginning of the next attempt. */
  function Restart(s: State, id: RunId): seq<State>
    requires id in s.runs
  {
    var r := s.runs[id];
    [s, Put(s, s.sh, id, r.(pc := LoopTop)), Put(s, s.sh, id, r.(pc := ReadPause)), Put(s, s.sh, id, r.(pc := Enter)),
     Put(s, s.sh.(begun := s.sh.begun + 1), id, r.(pc := Register(s.sh.begun)))]
  }

  /** The caller waits on a closed channel under a live context, and the client is not paused. */
  predicate Woken(s: State, id: RunId) {
    && id in s.runs && s.runs[id].pc.WaitWake? && s.runs[id].ctx.None?
    && s.runs[id].pc.wake in s.sh.closes && !s.sh.paused
  }

  lemma OnlyRestart(s: State, id: RunId, next: seq<State>)
    requires Woken(s, id)
    requires Execution(next, [Move(id), Move(id), Move(id), Move(id)]) && next[0] == s
    ensures next == Restart(s, id)
  {
    var moves, e := [Move(id), Move(id), Move(id), Move(id)], Restart(s, id);
    forall j | 0 <= j < 4 ensures Step(next[j], Move(id), next[j + 1]) {
      assert Step(next[j], moves[j], next[j + 1]);
    }
    assert next[1] == e[1];
    assert next[2] == e[2] by { assert next[2].runs == s.runs[id := e[2].runs[id]]; }
    assert next[3] == e[3] by { assert next[3].runs == s.runs[id := e[3].runs[id]]; }
    assert next[4] == e[4] by { assert next[4].runs == s.runs[id := e[4].runs[id]]; }
  }

  lemma RestartRuns(s: State, id: RunId)
    requires Woken(s, id)
    ensures Execution(Restart(s, id), [Move(id), Move(id), Move(id), Move(id)])
  {
  }

  /** So the next four steps of a resumed caller, if its own context stays alive, begin a new attempt; and
      nothing keeps it from taking them. */
  lemma ResumeReconnects(states: seq<State>, labels: seq<Label>, k: nat, i: nat, id: RunId, next: seq<State>)
    requires FromStart(states, labels) && k < i <= |labels| && labels[k] == Pause(false)
    requires forall j :: k < j < i ==> labels[j] != Pause(true)
    requires id in states[i].runs && states[i].runs[id].pc.WaitWake? && states[i].runs[id].ctx.None?
    ensures next == Restart(states[i], id)
            <==> Execution(next, [Move(id), Move(id), Move(id), Move(id)]) && next[0] == states[i]
  {
    ResumeWakes(states, labels, k, i);
    RestartRuns(states[i], id);
    if Execution(next, [Move(id), Move(id), Move(id), Move(id)]) && next[0] == states[i] {
      OnlyRestart(states[i], id, next);
    }
  }

  /** Label k is a SetPaused(true) that finds attempt a registered. */
  predicate Hits(states: seq<State>, labels: seq<Label>, k: nat, a: Attempt)
    requires |states| == |labels| + 1
  {
    k < |labels| && labels[k] == Pause(true) && states[k].sh.cancelCurrent == Some(a)
  }

  /** The caller in the loop is inside attempt a and has not yet cancelled it itself. */
  predicate Under(s: State, a: Attempt) {
    && s.sh.owner.Some? && s.sh.owner.value in s.runs
    && var pc := s.runs[s.sh.owner.value].pc;
       InAttempt(pc) && !pc.TestCause? && pc.a == a
  }

  lemma {:induction false} HitsAreOld(states: seq<State>, labels: seq<Label>, k: nat, m: nat, a: Attempt)
    requires FromStart(states, labels) && k < m < |states| && Hits(states, labels, k, a)
    ensures a < states[m].sh.begun
    decreases m
  {
    assert Step(states[m - 1], labels[m - 1], states[m]);
    if k == m - 1 {
      Reachable(states, labels, k);
    } else {
      HitsAreOld(states, labels, k, m - 1, a);
    }
  }

  /** One step inside attempt a changes whether a is cancelled only if it is such a SetPaused. */
  lemma UnderStep(s: State, l: Label, s': State, a: Attempt)
    requires Core(s) && Step(s, l, s') && Under(s', a)
    ensures Under(s, a) || a == s.sh.begun
    ensures Under(s, a) ==>
              (a in s'.sh.cancelled <==> a in s.sh.cancelled || (l == Pause(true) && s.sh.cancelCurrent == Some(a)))
    ensures !Under(s, a) ==> a !in s'.sh.cancelled && !l.Pause?
  {
    if l.Move? {
      StepKeepsOwner(l.id, s.sh, s.runs[l.id], s'.sh, s'.runs[l.id]);
    }
  }

  /** Until the deferred function cancels it, an attempt is cancelled exactly if a SetPaused(true) found it
      registered: neither another attempt nor SetPaused(false) ever does it. */
  lemma {:induction false} CancelledIffHit(states: seq<State>, labels: seq<Label>, m: nat, a: Attempt)
    requires FromStart(states, labels) && m < |states| && Under(states[m], a)
    ensures a in states[m].sh.cancelled <==> exists k :: 0 <= k < m && Hits(states, labels, k, a)
  {
    var n := m - 1;
    Reachable(states, labels, n);
    assert Step(states[n], labels[n], states[m]);
    UnderStep(states[n], labels[n], states[m], a);
    if Under(states[n], a) {
      CancelledIffHit(states, labels, n, a);
      assert labels[n] == Pause(true) && states[n].sh.cancelCurrent == Some(a) <==> Hits(states, labels, n, a);
    } else {
      forall k | 0 <= k < m ensures !Hits(states, labels, k, a) {
        if k < n && Hits(states, labels, k, a) {
          HitsAreOld(states, labels, k, n, a);
        }
      }
    }
  }

  // ---- who owns the cancel function and the statistics ----------------------

  /** At most one caller of Run is in the loop, and cancelCurrent is nil or cancels that caller's current
      attempt, which is the last one begun. */
  lemma CancelOwnership(states: seq<State>, labels: seq<Label>, i: nat)
    requires FromStart(states, labels) && i < |states|
    ensures forall id, id' | id in states[i].runs && id' in states[i].runs ::
              Active(states[i].runs[id].pc) && Active(states[i].runs[id'].pc) ==> id == id'
    ensures forall id :: id in states[i].runs && Registered(states[i].runs[id].pc) ==>
              && states[i].sh.cancelCurrent == Some(states[i].runs[id].pc.a)
              && states[i].runs[id].pc.a + 1 == states[i].sh.begun
    ensures states[i].sh.cancelCurrent.Some? ==>
              exists id :: id in states[i].runs && Registered(states[i].runs[id].pc)
                           && states[i].runs[id].pc.a == states[i].sh.cancelCurrent.value
  {
    Reachable(states, labels, i);
  }

  /** Connected is reported exactly with a connection time; only while the caller in the loop is between
      reporting it and recording the end of that attempt, whose hello was enqueued and which is the last one
      begun; and never while no caller is in the loop. The count is the number of attempts with an enqueued
      hello, but for the one not yet marked. */
  lemma StatsOwnership(states: seq<State>, labels: seq<Label>, i: nat)
    requires FromStart(states, labels) && i < |states|
    ensures var s := states[i];
            && (s.sh.stats.connected <==> s.sh.stats.since != 0)
            && (s.sh.stats.connected ==>
                  && s.sh.greeted != [] && s.sh.greeted[|s.sh.greeted| - 1] + 1 == s.sh.begun
                  && exists id :: id in s.runs && Reporting(s.runs[id].pc) && s.sh.owner == Some(id)
                                  && (InAttempt(s.runs[id].pc) ==> s.runs[id].pc.a == s.sh.greeted[|s.sh.greeted| - 1]))
            && (s.sh.stats.count == |s.sh.greeted|
                || (s.sh.stats.count + 1 == |s.sh.greeted| && exists id :: id in s.runs && s.runs[id].pc.Mark?))
            && (forall j, k :: 0 <= j < k < |s.sh.greeted| ==> s.sh.greeted[j] != s.sh.greeted[k])
            && ((forall id :: id in s.runs ==> !Active(s.runs[id].pc)) ==> !s.sh.stats.connected)
  {
    Reachable(states, labels, i);
  }
}
