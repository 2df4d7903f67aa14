/** The code of transport.Client: Run, connectAndServe and SetPaused as methods on its fields. What they do
    are steps of the protocol in Reconnect, so every state they pass through is one the protocol reaches. */
module RunLoop {
  import opened Wrappers
  import opened Reconnect
  import Backoff

  class Client {
    var running: bool
    var stats: Stats
    var paused: bool
    var pauseWake: Wake
    var cancelCurrent: Option<Attempt>
    // where the callers of Run are, and their contexts
    var runs: map<RunId, Runner>
    var closes: seq<Wake>
    var cancelled: set<Attempt>
    var begun: nat
    ghost var closedConns: set<Attempt>
    ghost var greeted: seq<Attempt>
    ghost var owner: Option<RunId>
    // rounds of Run's loop so far
    ghost var rounds: nat

    ghost function Sh(): Shared
      reads this
    {
      Shared(running, stats, paused, pauseWake, cancelCurrent, closes, cancelled, closedConns, begun, greeted, owner)
    }

    ghost function View(): State
      reads this
    {
      State(Sh(), runs)
    }

    /** Nothing in the agent calls persistentConn.Close. */
    ghost predicate Valid()
      reads this
    {
      Reached(View()) && closedConns == {}
    }

    constructor ()
      ensures Valid() && View() == State(INITIAL, map[])
    {
      running, stats, paused, pauseWake, cancelCurrent := false, Stats(false, 0, 0, None), false, 0, None;
      runs, closes, cancelled, closedConns, begun, greeted, owner := map[], [], {}, {}, 0, [], None;
      rounds := 0;
      new;
      assert FromStart([State(INITIAL, map[])], []);
    }

    method SetPaused(paused: bool)
      requires Valid()
      modifies this`paused, this`cancelled, this`closes, this`pauseWake
      ensures Valid() && Sh() == AfterSetPaused(old(Sh()), paused)
      ensures this.paused == paused
      ensures cancelled == old(cancelled) + (if paused && cancelCurrent.Some? then {cancelCurrent.value} else {})
      ensures closes == old(closes) + [old(pauseWake)] && pauseWake != old(pauseWake)
      // close is never called on a channel that is closed already
      ensures old(pauseWake) !in old(closes) && pauseWake !in closes
    {
      ghost var s := View();
      this.paused := paused;
      if paused && cancelCurrent.Some? {
        cancelled := cancelled + {cancelCurrent.value};
      }
      closes := closes + [pauseWake];
      pauseWake := pauseWake + 1;
      ReachedStep(s, Pause(paused), View());
      CurrentWakeOpen(s);
      CurrentWakeOpen(View());
    }

    /** The caller's own position and backoff are untouched; its context may have ended. */
    ghost predicate SameCaller(before: Runner, after: Runner) {
      after == before.(ctx := after.ctx) && (before.ctx.Some? ==> after.ctx == before.ctx)
    }

    /** Any number of things happen elsewhere. */
    method Others(id: RunId)
      requires Valid() && id in runs
      modifies this
      ensures Valid() && id in runs && SameCaller(old(runs)[id], runs[id])
      ensures begun == old(begun) && old(cancelled) <= cancelled && stats == old(stats) && rounds == old(rounds)
      ensures forall w :: w in old(closes) ==> w in closes
    {
      var steps: int := *;
      for i := 0 to if steps < 0 then 0 else steps
        invariant Valid() && id in runs && SameCaller(old(runs)[id], runs[id])
        invariant begun == old(begun) && old(cancelled) <= cancelled && stats == old(stats) && rounds == old(rounds)
        invariant forall w :: w in old(closes) ==> w in closes
      {
        Other(id);
      }
    }

    /** Something else happens: somebody calls SetPaused or Run, or the caller's context ends. */
    method Other(id: RunId)
      requires Valid() && id in runs
      modifies this
      ensures Valid() && id in runs && SameCaller(old(runs)[id], runs[id])
      ensures begun == old(begun) && old(cancelled) <= cancelled && stats == old(stats) && rounds == old(rounds)
      ensures forall w :: w in old(closes) ==> w in closes
    {
      var which: int, toggle: bool, other: RunId := *, *, *;
      var cause: Cause := *;
      if which == 0 {
        SetPaused(toggle);
      } else if which == 1 && runs[id].ctx.None? {
        ReachedStep(View(), CtxEnds(id, cause), State(Sh(), runs[id := runs[id].(ctx := Some(cause))]));
        runs := runs[id := runs[id].(ctx := Some(cause))];
      } else if which == 2 && other !in runs && running {
        var _ := Begin(other);
      }
    }

    /** Run up to its loop; starts tells whether this caller gets the loop. */
    method Begin(id: RunId) returns (starts: bool)
      requires Valid() && id !in runs
      modifies this`running, this`owner, this`runs
      ensures Valid() && starts == !old(running)
      ensures runs == old(runs)[id := FRESH.(pc := if starts then LoopTop else Returned(AlreadyRunning))]
      ensures running && (!starts ==> owner == old(owner))
    {
      ghost var s := View();
      ReachedStep(s, Call(id), State(Sh(), runs[id := FRESH]));
      runs := runs[id := FRESH];
      starts := !running;
      ReachedMove(View(), id, AfterStart(Sh(), id), FRESH.(pc := if starts then LoopTop else Returned(AlreadyRunning)));
      runs := runs[id := FRESH.(pc := if starts then LoopTop else Returned(AlreadyRunning))];
      if starts {
        running, owner := true, Some(id);
      }
    }

    /** A step that touches none of the shared fields. */
    method Go(id: RunId, r: Runner)
      requires Valid() && id in runs && RunnerStep(id, Sh(), runs[id], Sh(), r)
      modifies this`runs
      ensures Valid() && runs == old(runs)[id := r]
    {
      ReachedMove(View(), id, Sh(), r);
      runs := runs[id := r];
    }

    /** The deferred function of Run. */
    method Finish(id: RunId)
      requires Valid() && id in runs && runs[id].pc.Exiting?
      modifies this`running, this`owner, this`runs
      ensures Valid() && runs == old(runs)[id := old(runs)[id].(pc := Returned(Nil))]
      ensures !running && runs[id].ctx.Some?
    {
      ReachedMove(View(), id, AfterFinish(Sh()), runs[id].(pc := Returned(Nil)));
      running, owner := false, None;
      runs := runs[id := runs[id].(pc := Returned(Nil))];
      NilIsDone(View(), id);
    }

    method RegisterCancel(id: RunId)
      requires Valid() && id in runs && runs[id].pc.Register?
      modifies this`cancelCurrent, this`runs
      ensures Valid() && runs == old(runs)[id := old(runs)[id].(pc := Configuring(old(runs)[id].pc.a))]
      ensures cancelCurrent == Some(old(runs)[id].pc.a)
    {
      var a := runs[id].pc.a;
      ReachedMove(View(), id, AfterRegister(Sh(), a), runs[id].(pc := Configuring(a)));
      cancelCurrent := Some(a);
      runs := runs[id := runs[id].(pc := Configuring(a))];
    }

    method MarkConnected(id: RunId, now: int)
      requires Valid() && id in runs && runs[id].pc.Mark? && now != 0
      modifies this`stats, this`runs
      ensures Valid() && runs == old(runs)[id := old(runs)[id].(pc := Serving(old(runs)[id].pc.a), up := true)]
      ensures stats.connected && stats.since == now && stats.count == old(stats).count + 1
      ensures stats.count == |greeted|
    {
      var r := runs[id].(pc := Serving(runs[id].pc.a), up := true);
      ReachedMove(View(), id, AfterMark(Sh(), now), r);
      stats := stats.(connected := true, since := now, count := stats.count + 1);
      runs := runs[id := r];
      ServingCounted(View(), id);
    }

    method ClearCancel(id: RunId)
      requires Valid() && id in runs && runs[id].pc.Clear?
      modifies this`cancelCurrent, this`runs
      ensures Valid() && cancelCurrent.None?
      ensures runs == old(runs)[id := old(runs)[id].(pc := CallCancel(old(runs)[id].pc.a, old(runs)[id].pc.ret))]
    {
      var a, ret := runs[id].pc.a, runs[id].pc.ret;
      ReachedMove(View(), id, AfterClear(Sh()), runs[id].(pc := CallCancel(a, ret)));
      cancelCurrent := None;
      runs := runs[id := runs[id].(pc := CallCancel(a, ret))];
    }

    /** The deferred function of connectAndServe. */
    method EndAttempt(id: RunId) returns (ret: Option<Error>)
      requires Valid() && id in runs && runs[id].pc.Clear?
      modifies this
      ensures Valid() && id in runs && runs[id].pc == Record(ret)
      // as written: whatever failed, it is a pause unless the outer context is done
      ensures runs[id].ctx.None? ==> ret == Some(PausedMidConnection)
      ensures ret == Some(PausedMidConnection) || ret == old(runs)[id].pc.ret
      ensures old(runs)[id].ctx.Some? ==> ret == old(runs)[id].pc.ret && runs[id].ctx.Some?
      ensures begun == old(begun) && old(runs)[id].pc.a in cancelled && rounds == old(rounds)
    {
      ClearCancel(id);
      Others(id);
      Cancel(id);
      Others(id);
      var a, err := runs[id].pc.a, runs[id].pc.ret;
      var attemptDone := runs[id].ctx.Some? || a in cancelled;
      ret := if err.Some? && runs[id].ctx.None? && attemptDone then Some(PausedMidConnection) else err;
      Go(id, runs[id].(pc := Record(ret)));
      RecordIsPause(View(), id);
    }

    method Cancel(id: RunId)
      requires Valid() && id in runs && runs[id].pc.CallCancel?
      modifies this`cancelled, this`runs
      ensures Valid() && cancelled == old(cancelled) + {old(runs)[id].pc.a}
      ensures runs == old(runs)[id := old(runs)[id].(pc := TestCause(old(runs)[id].pc.a, old(runs)[id].pc.ret))]
    {
      var a, ret := runs[id].pc.a, runs[id].pc.ret;
      ReachedMove(View(), id, Sh().(cancelled := cancelled + {a}), runs[id].(pc := TestCause(a, ret)));
      cancelled := cancelled + {a};
      runs := runs[id := runs[id].(pc := TestCause(a, ret))];
    }

    /** connectAndServe, from its first statement to what its deferred function returns. */
    method ConnectAndServe(id: RunId) returns (ret: Option<Error>)
      requires Valid() && id in runs && runs[id].pc.Enter?
      modifies this
      ensures Valid() && id in runs && runs[id].pc == Record(ret)
      ensures runs[id].ctx.None? ==> ret == Some(PausedMidConnection)
      ensures begun == old(begun) + 1 && rounds == old(rounds)
    {
      BeginAttempt(id);
      Others(id);
      RegisterCancel(id);
      Others(id);
      DialAndServe(id);
      Others(id);
      ret := EndAttempt(id);
    }

    /** Dial, report the connection and serve it. */
    method DialAndServe(id: RunId)
      requires Valid() && id in runs && runs[id].pc.Configuring?
      modifies this
      ensures Valid() && id in runs && runs[id].pc.Clear?
      ensures begun == old(begun) && rounds == old(rounds)
    {
      var fails: int := *;
      var up := Connect(id, fails);
      if up {
        Others(id);
        var now: int, pumpFails: bool := *, *;
        MarkConnected(id, if now == 0 then 1 else now);
        Serve(id, pumpFails);
      }
    }

    method BeginAttempt(id: RunId)
      requires Valid() && id in runs && runs[id].pc.Enter?
      modifies this`begun, this`runs
      ensures Valid() && begun == old(begun) + 1
      ensures runs == old(runs)[id := old(runs)[id].(pc := Register(old(begun)))]
    {
      ReachedMove(View(), id, Sh().(begun := begun + 1), runs[id].(pc := Register(begun)));
      runs := runs[id := runs[id].(pc := Register(begun))];
      begun := begun + 1;
    }

    /** Configuration, dial and hello; fails tells which of them does, if any. A dial under a context that is
        done does, too. */
    method Connect(id: RunId, fails: int) returns (up: bool)
      requires Valid() && id in runs && runs[id].pc.Configuring?
      modifies this
      ensures Valid() && id in runs && (if up then runs[id].pc.Mark? else runs[id].pc.Clear?)
      ensures begun == old(begun) && rounds == old(rounds)
      // a counted connection needs a dial that began under a live context, and nothing else
      ensures up <==> !(0 <= fails <= 2) && old(runs)[id].pc.a !in old(cancelled) && old(runs)[id].ctx.None?
    {
      var a := runs[id].pc.a;
      var err: Error := *;
      if fails == 0 || a in cancelled || runs[id].ctx.Some? {
        Go(id, runs[id].(pc := Clear(a, Some(err))));
        return false;
      }
      Go(id, runs[id].(pc := Dialing(a)));
      Others(id);
      if fails == 1 {
        Go(id, runs[id].(pc := Clear(a, Some(err))));
        return false;
      }
      Go(id, runs[id].(pc := Greeting(a)));
      Others(id);
      if fails == 2 {
        Go(id, runs[id].(pc := Clear(a, Some(err))));
        return false;
      }
      Greet(id);
      return true;
    }

    /** The hello is in the send queue. */
    method Greet(id: RunId)
      requires Valid() && id in runs && runs[id].pc.Greeting?
      modifies this`greeted, this`runs
      ensures Valid() && greeted == old(greeted) + [old(runs)[id].pc.a]
      ensures runs == old(runs)[id := old(runs)[id].(pc := Mark(old(runs)[id].pc.a))]
    {
      var a := runs[id].pc.a;
      ReachedMove(View(), id, Sh().(greeted := greeted + [a]), runs[id].(pc := Mark(a)));
      greeted := greeted + [a];
      runs := runs[id := runs[id].(pc := Mark(a))];
    }

    /** The select over the pumps: the attempt lasts until a context is done or a pump fails. */
    method Serve(id: RunId, fails: bool)
      requires Valid() && id in runs && runs[id].pc.Serving?
      modifies this
      ensures Valid() && id in runs && runs[id].pc.Clear? && runs[id].pc.ret.Some?
      ensures begun == old(begun) && rounds == old(rounds)
      // without a pump that fails the context's own error is returned
      ensures var a, ret := old(runs)[id].pc.a, runs[id].pc.ret;
              !fails ==>
                && (a in cancelled && runs[id].ctx.None? ==> ret == Some(Ctx(Canceled)))
                && (a !in cancelled && runs[id].ctx.Some? ==> ret == Some(Ctx(runs[id].ctx.value)))
    {
      Others(id);
      var a := runs[id].pc.a;
      var what: string, cancelFirst: bool := *, *;
      var ret := if a in cancelled && !fails && (cancelFirst || runs[id].ctx.None?) then Some(Ctx(Canceled))
                 else if runs[id].ctx.Some? && !fails then Some(Ctx(runs[id].ctx.value))
                 else Some(Failure(what));
      assert PumpReturns(WritePump, Sh(), runs[id], a, ret);
      Go(id, runs[id].(pc := Clear(a, ret)));
    }

    /** Run for at most so many rounds of its loop; None if it is still in its loop then. */
    method Run(id: RunId, rounds: nat) returns (r: Option<RunResult>)
      requires Valid() && id !in runs
      modifies this
      ensures Valid() && id in runs
      ensures r == Some(AlreadyRunning) <==> old(running)
      ensures r.Some? ==> runs[id].pc == Returned(r.value)
      // nil means that the outer context is done and that nothing of the loop is left behind
      ensures r == Some(Nil) ==>
                && runs[id].ctx.Some? && !running && cancelCurrent.None? && !stats.connected
                && stats.count == |greeted|
      ensures r.None? ==> runs[id].pc.LoopTop? && this.rounds == old(this.rounds) + rounds
    {
      var starts := Begin(id);
      if !starts {
        return Some(AlreadyRunning);
      }
      for n := 0 to rounds
        invariant Valid() && id in runs && runs[id].pc.LoopTop? && this.rounds == old(this.rounds) + n
      {
        Others(id);
        var goesOn := Round(id);
        if !goesOn {
          Finish(id);
          LeftBehind(View());
          return Some(Nil);
        }
      }
      return None;
    }

    /** One round of Run's loop. What others do between the context test and the pause test is as good as
        done before the one or after the other. */
    method Round(id: RunId) returns (goesOn: bool)
      requires Valid() && id in runs && runs[id].pc.LoopTop?
      modifies this
      ensures Valid() && id in runs && (if goesOn then runs[id].pc.LoopTop? else runs[id].pc.Exiting?)
      ensures rounds == old(rounds) + 1
      // a finished context ends the loop, a pause holds it, and otherwise one attempt begins
      ensures old(runs)[id].ctx.Some? ==> !goesOn && begun == old(begun)
      ensures old(runs)[id].ctx.None? ==> begun == old(begun) + (if old(paused) then 0 else 1)
      ensures runs[id].ctx.None? ==> goesOn
    {
      rounds := rounds + 1;
      if runs[id].ctx.Some? {
        Go(id, runs[id].(pc := Exiting));
        return false;
      }
      Go(id, runs[id].(pc := ReadPause));
      if paused {
        Go(id, runs[id].(pc := WaitWake(pauseWake)));
        goesOn := AwaitWake(id);
        return;
      }
      Go(id, runs[id].(pc := Enter));
      Others(id);
      var err := ConnectAndServe(id);
      Others(id);
      RecordAttempt(id);
      Others(id);
      goesOn := Next(id);
    }

    /** The pause wait. In the end either the context is done or somebody calls SetPaused. */
    method AwaitWake(id: RunId) returns (goesOn: bool)
      requires Valid() && id in runs && runs[id].pc.WaitWake?
      modifies this
      ensures Valid() && id in runs && (if goesOn then runs[id].pc.LoopTop? else runs[id].pc.Exiting?)
      ensures goesOn <==> runs[id].ctx.None?
      ensures begun == old(begun) && rounds == old(rounds)
      // it does not go on before its channel is closed
      ensures goesOn ==> old(runs)[id].pc.wake in closes
    {
      Others(id);
      WakeKept(View(), id);
      if runs[id].pc.wake !in closes && runs[id].ctx.None? {
        SetPaused(false);
      }
      goesOn := runs[id].ctx.None?;
      Go(id, runs[id].(pc := if goesOn then LoopTop else Exiting));
    }

    /** What Run makes of the attempt's result. */
    method Next(id: RunId) returns (goesOn: bool)
      requires Valid() && id in runs && runs[id].pc.Decide?
      modifies this
      ensures Valid() && id in runs && (if goesOn then runs[id].pc.LoopTop? else runs[id].pc.Exiting?)
      // under a live context no delay is drawn
      ensures old(runs)[id].ctx.None? ==> goesOn && runs[id].draws == old(runs)[id].draws
      ensures runs[id].ctx.None? ==> goesOn
      ensures begun == old(begun) && rounds == old(rounds)
      // nil and a cancelled context end the loop, a pause goes round at once, and anything else waits out the
      // next delay of the backoff
      ensures var err := old(runs)[id].pc.ret;
              if err == None || err == Some(Ctx(Canceled)) then !goesOn && runs[id].draws == old(runs)[id].draws
              else if err == Some(PausedMidConnection) then goesOn && runs[id].draws == old(runs)[id].draws
              else
                && runs[id].draws == old(runs)[id].draws + 1
                && runs[id].cur == Backoff.NextCur(1_000_000_000, 60_000_000_000, old(runs)[id].cur)
                && (goesOn <==> runs[id].ctx.None?)
    {
      DecideIsPause(View(), id);
      var err := runs[id].pc.ret;
      if err == None || err == Some(Ctx(Canceled)) {
        Go(id, runs[id].(pc := Exiting));
        return false;
      }
      if err == Some(PausedMidConnection) {
        Go(id, runs[id].(pc := LoopTop));
        return true;
      }
      var delay := Backoff.NextCur(Backoff.SECOND, 60 * Backoff.SECOND, runs[id].cur);
      Go(id, runs[id].(pc := Sleep(delay), cur := delay, draws := runs[id].draws + 1));
      Others(id);
      goesOn := runs[id].ctx.None?;
      Go(id, runs[id].(pc := if goesOn then LoopTop else Exiting));
    }

    method RecordAttempt(id: RunId)
      requires Valid() && id in runs && runs[id].pc.Record?
      modifies this`stats, this`runs
      ensures Valid() && runs == old(runs)[id := old(runs)[id].(pc := Decide(old(runs)[id].pc.ret), up := false)]
      ensures !stats.connected && stats.since == 0 && stats.count == old(stats).count
      ensures stats.lastError == if old(runs)[id].pc.ret.Some? then old(runs)[id].pc.ret else old(stats).lastError
    {
      var err := runs[id].pc.ret;
      ReachedMove(View(), id, AfterRecord(Sh(), err), runs[id].(pc := Decide(err), up := false));
      stats := stats.(connected := false, since := 0);
      if err.Some? {
        stats := stats.(lastError := err);
      }
      runs := runs[id := runs[id].(pc := Decide(err), up := false)];
    }
  }

  lemma CurrentWakeOpen(s: State)
    requires Reached(s)
    ensures s.sh.pauseWake !in s.sh.closes
  {
    ReachedInv(s);
  }

  lemma WakeKept(s: State, id: RunId)
    requires Reached(s) && id in s.runs && s.runs[id].pc.WaitWake?
    ensures s.runs[id].pc.wake in s.sh.closes || s.runs[id].pc.wake == s.sh.pauseWake
  {
    ReachedInv(s);
  }

  lemma LeftBehind(s: State)
    requires Reached(s) && !s.sh.running
    ensures s.sh.cancelCurrent.None? && !s.sh.stats.connected && s.sh.stats.count == |s.sh.greeted|
  {
    ReachedInv(s);
  }

  lemma DecideIsPause(s: State, id: RunId)
    requires Reached(s) && s.sh.closedConns == {} && id in s.runs && s.runs[id].pc.Decide?
    ensures s.runs[id].ctx.None? ==> s.runs[id].pc.ret == Some(PausedMidConnection)
  {
    ReachedInv(s);
  }

  lemma NilIsDone(s: State, id: RunId)
    requires Reached(s) && s.sh.closedConns == {} && id in s.runs && s.runs[id].pc == Returned(Nil)
    ensures s.runs[id].ctx.Some?
  {
    ReachedInv(s);
  }

  lemma ServingCounted(s: State, id: RunId)
    requires Reached(s) && id in s.runs && s.runs[id].pc.Serving?
    ensures s.sh.stats.count == |s.sh.greeted|
  {
    ReachedInv(s);
  }

  lemma RecordIsPause(s: State, id: RunId)
    requires Reached(s) && s.sh.closedConns == {} && id in s.runs && s.runs[id].pc.Record?
    ensures s.runs[id].ctx.None? ==> s.runs[id].pc.ret == Some(PausedMidConnection)
  {
    ReachedInv(s);
  }
}
