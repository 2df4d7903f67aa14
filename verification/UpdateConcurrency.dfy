/** Concurrent callers of update.Manager.Update around its single-flight slot, while sessions come and
    go. SelfUpdate has the work one caller does; here are the interleavings. */
module UpdateConcurrency {
  import opened Wrappers

  type CallerId = nat

  /** Where a call of Update is; everything from Validating to Leaving is between TryBegin and End. */
  datatype Pc =
    | Outside
    | Validating
    | FirstCheck
    | Downloading
    | SecondCheck
    | Applying
    | Leaving
    | Left
    | Refused

  /** lastCheck is what SessionActiveFn last told this caller. */
  datatype Caller = Caller(pc: Pc, lastCheck: Option<bool>)

  datatype State = State(inFlight: bool, session: bool, callers: map<CallerId, Caller>, owner: Option<CallerId>)

  const INITIAL := State(false, false, map[], None)

  datatype Label = Call(id: CallerId) | Move(id: CallerId, ok: bool) | SessionChanges(active: bool)

  predicate Inside(pc: Pc) {
    !pc.Outside? && !pc.Left? && !pc.Refused?
  }

  function Put(s: State, id: CallerId, c: Caller): State {
    s.(callers := s.callers[id := c])
  }

  function Next(s: State, id: CallerId, ok: bool): State
    requires id in s.callers && !s.callers[id].pc.Left? && !s.callers[id].pc.Refused?
  {
    var c := s.callers[id];
    match c.pc
    case Outside =>
      if s.inFlight then Put(s, id, c.(pc := Refused))
      else Put(s, id, c.(pc := Validating)).(inFlight := true, owner := Some(id))
    case Validating => Put(s, id, c.(pc := if ok then FirstCheck else Leaving))
    case FirstCheck => Put(s, id, Caller(if s.session then Leaving else Downloading, Some(s.session)))
    case Downloading => Put(s, id, c.(pc := if ok then SecondCheck else Leaving))
    case SecondCheck => Put(s, id, Caller(if s.session then Leaving else Applying, Some(s.session)))
    case Applying => Put(s, id, c.(pc := Leaving))
    case Leaving => Put(s, id, c.(pc := Left)).(inFlight := false, owner := None)
    case _ => s
  }

  predicate Step(s: State, l: Label, s': State) {
    match l
    case Call(id) => id !in s.callers && s' == Put(s, id, Caller(Outside, None))
    case Move(id, ok) =>
      id in s.callers && !s.callers[id].pc.Left? && !s.callers[id].pc.Refused? && s' == Next(s, id, ok)
    case SessionChanges(active) => s' == s.(session := active)
  }

  ghost predicate Execution(states: seq<State>, labels: seq<Label>) {
    && |states| == |labels| + 1 && states[0] == INITIAL
    && forall i :: 0 <= i < |labels| ==> Step(states[i], labels[i], states[i + 1])
  }

  ghost predicate Inv(s: State) {
    && (s.inFlight <==> s.owner.Some?)
    && (s.owner.Some? ==> s.owner.value in s.callers)
    && (forall id :: id in s.callers ==> (Inside(s.callers[id].pc) <==> s.owner == Some(id)))
    && (forall id :: id in s.callers && s.callers[id].pc.Applying? ==> s.callers[id].lastCheck == Some(false))
  }

  lemma StepInv(s: State, l: Label, s': State)
    requires Inv(s) && Step(s, l, s')
    ensures Inv(s')
  {
    if l.Move? {
      var id := l.id;
      forall x | x in s'.callers && x != id ensures s'.callers[x] == s.callers[x] {
      }
    }
  }

  lemma {:induction false} Reachable(states: seq<State>, labels: seq<Label>, i: nat)
    requires Execution(states, labels) && i < |states|
    ensures Inv(states[i])
  {
    if i > 0 {
      Reachable(states, labels, i - 1);
      assert Step(states[i - 1], labels[i - 1], states[i]);
      StepInv(states[i - 1], labels[i - 1], states[i]);
    }
  }

  /** At most one caller is between TryBegin and End, and the one that applies was last told that no
      session is active. */
  lemma OneUpdateAtATime(states: seq<State>, labels: seq<Label>, i: nat)
    requires Execution(states, labels) && i < |states|
    ensures forall id, id' | id in states[i].callers && id' in states[i].callers ::
              Inside(states[i].callers[id].pc) && Inside(states[i].callers[id'].pc) ==> id == id'
    ensures forall id :: id in states[i].callers && states[i].callers[id].pc.Applying? ==>
              states[i].callers[id].lastCheck == Some(false)
  {
    Reachable(states, labels, i);
  }

  /** That no session is active while ApplyFn runs does not follow: one can start after the last check. */
  lemma SessionCanStartBeforeApply() returns (states: seq<State>, labels: seq<Label>)
    ensures Execution(states, labels)
    ensures var s := states[|labels|]; 0 in s.callers && s.callers[0].pc.Applying? && s.session
  {
    var s0 := INITIAL;
    var s1 := Put(s0, 0, Caller(Outside, None));
    var s2 := Next(s1, 0, true);
    var s3 := Next(s2, 0, true);
    var s4 := Next(s3, 0, true);
    var s5 := Next(s4, 0, true);
    var s6 := Next(s5, 0, true);
    var s7 := s6.(session := true);
    states := [s0, s1, s2, s3, s4, s5, s6, s7];
    labels := [Call(0), Move(0, true), Move(0, true), Move(0, true), Move(0, true), Move(0, true),
               SessionChanges(true)];
  }

  // ---- when a session is active while ApplyFn runs -----------------------------------

  /** Label j is the caller's last step: the session check that let it apply. */
  predicate LetsApply(states: seq<State>, labels: seq<Label>, j: nat, id: CallerId)
    requires |states| == |labels| + 1
  {
    && j < |labels| && labels[j].Move? && labels[j].id == id
    && id in states[j].callers && states[j].callers[id].pc.SecondCheck? && !states[j].session
  }

  predicate NoMove(labels: seq<Label>, from: nat, until: nat, id: CallerId)
    requires from <= until <= |labels|
  {
    forall k :: from <= k < until && labels[k].Move? ==> labels[k].id != id
  }

  lemma {:induction false} ApplyingSince(states: seq<State>, labels: seq<Label>, i: nat, id: CallerId)
      returns (j: nat)
    requires Execution(states, labels) && i < |states|
    requires id in states[i].callers && states[i].callers[id].pc.Applying?
    ensures j < i && LetsApply(states, labels, j, id) && NoMove(labels, j + 1, i, id)
  {
    assert Step(states[i - 1], labels[i - 1], states[i]);
    if labels[i - 1].Move? && labels[i - 1].id == id {
      j := i - 1;
    } else {
      j := ApplyingSince(states, labels, i - 1, id);
    }
  }

  /** Label k starts a session that no label before i ends. */
  predicate StartsAndLasts(labels: seq<Label>, k: nat, i: nat)
    requires i <= |labels|
  {
    && k < i && labels[k] == SessionChanges(true)
    && forall m :: k < m < i ==> labels[m] != SessionChanges(false)
  }

  lemma {:induction false} SessionSince(states: seq<State>, labels: seq<Label>, j: nat, i: nat)
    requires Execution(states, labels) && j <= i < |states| && !states[j].session
    ensures states[i].session <==> exists k :: j <= k < i && StartsAndLasts(labels, k, i)
    decreases i
  {
    if j < i {
      SessionSince(states, labels, j, i - 1);
      assert Step(states[i - 1], labels[i - 1], states[i]);
      if labels[i - 1] == SessionChanges(true) {
        assert StartsAndLasts(labels, i - 1, i);
      } else if labels[i - 1] != SessionChanges(false) {
        if states[i].session {
          var k :| j <= k < i - 1 && StartsAndLasts(labels, k, i - 1);
          assert StartsAndLasts(labels, k, i);
        } else {
          forall k | j <= k < i ensures !StartsAndLasts(labels, k, i) {
            assert k < i - 1 ==> !StartsAndLasts(labels, k, i - 1);
          }
        }
      } else {
        forall k | j <= k < i ensures !StartsAndLasts(labels, k, i) {
          assert labels[i - 1] == SessionChanges(false);
        }
      }
    }
  }

  /** Exactly when a session is active while a caller applies its update: when one started after the
      caller's second session check, which had said no, and has not ended since. */
  lemma SessionDuringApplyIff(states: seq<State>, labels: seq<Label>, i: nat, id: CallerId) returns (j: nat)
    requires Execution(states, labels) && i < |states|
    requires id in states[i].callers && states[i].callers[id].pc.Applying?
    ensures j < i && LetsApply(states, labels, j, id) && NoMove(labels, j + 1, i, id)
    ensures states[i].session <==> exists k :: j < k < i && StartsAndLasts(labels, k, i)
  {
    j := ApplyingSince(states, labels, i, id);
    SessionSince(states, labels, j, i);
    assert !StartsAndLasts(labels, j, i);
  }
}
