/** VARIANT, not the code. What the comment in connectAndServe describes: the deferred function asks whether
    the attempt's context is done before it calls cancel() itself, and not after. */
module BackoffVariant {
  import opened Wrappers
  import opened Reconnect
  import opened ReconnectTheorems

  function ReinterpretFirst(cancelledBefore: bool, r: Runner, ret: Option<Error>): Option<Error> {
    if ret.Some? && r.ctx.None? && cancelledBefore then Some(PausedMidConnection) else ret
  }

  /** The caller is about to call cancel() in the deferred function. */
  predicate Cancelling(s: State, l: Label) {
    l.Move? && l.id in s.runs && s.runs[l.id].pc.CallCancel?
  }

  function AfterCancelling(s: State, l: Label): State
    requires Cancelling(s, l)
  {
    var r := s.runs[l.id];
    State(s.sh.(cancelled := s.sh.cancelled + {r.pc.a}),
          s.runs[l.id := r.(pc := Record(ReinterpretFirst(r.pc.a in s.sh.cancelled, r, r.pc.ret)))])
  }

  ghost predicate VariantStep(s: State, l: Label, s': State) {
    if Cancelling(s, l) then s' == AfterCancelling(s, l) else Step(s, l, s')
  }

  ghost predicate VariantRun(states: seq<State>, labels: seq<Label>) {
    && |states| == |labels| + 1 && states[0] == State(INITIAL, map[])
    && forall i :: 0 <= i < |labels| ==> VariantStep(states[i], labels[i], states[i + 1])
  }

  lemma CancellingCore(s: State, l: Label)
    requires Core(s) && Cancelling(s, l)
    ensures Core(AfterCancelling(s, l))
  {
    var r := s.runs[l.id];
    var s1 := State(s.sh.(cancelled := s.sh.cancelled + {r.pc.a}),
                    s.runs[l.id := r.(pc := TestCause(r.pc.a, r.pc.ret))]);
    assert Step(s, l, s1);
    MoveCore(s, l.id, s1);
    var t := AfterCancelling(s, l);
    assert t.runs == s1.runs[l.id := t.runs[l.id]];
  }

  lemma {:induction false} VariantCore(states: seq<State>, labels: seq<Label>, i: nat)
    requires VariantRun(states, labels) && i < |states|
    ensures Core(states[i])
  {
    if i > 0 {
      VariantCore(states, labels, i - 1);
      assert VariantStep(states[i - 1], labels[i - 1], states[i]);
      if Cancelling(states[i - 1], labels[i - 1]) {
        CancellingCore(states[i - 1], labels[i - 1]);
      } else {
        StepCore(states[i - 1], labels[i - 1], states[i]);
      }
    }
  }

  /** The caller in the loop is inside attempt a. */
  predicate Current(s: State, a: Attempt) {
    && s.sh.owner.Some? && s.sh.owner.value in s.runs
    && InAttempt(s.runs[s.sh.owner.value].pc) && s.runs[s.sh.owner.value].pc.a == a
  }

  lemma {:induction false} VariantHitsAreOld(states: seq<State>, labels: seq<Label>, k: nat, m: nat, a: Attempt)
    requires VariantRun(states, labels) && k < m < |states| && Hits(states, labels, k, a)
    ensures a < states[m].sh.begun
    decreases m
  {
    assert VariantStep(states[m - 1], labels[m - 1], states[m]);
    if k == m - 1 {
      VariantCore(states, labels, k);
    } else {
      VariantHitsAreOld(states, labels, k, m - 1, a);
    }
  }

  /** One step inside attempt a changes whether a is cancelled only if it is such a SetPaused. */
  lemma CurrentStep(s: State, l: Label, s': State, a: Attempt)
    requires Core(s) && VariantStep(s, l, s') && Current(s', a)
    ensures Current(s, a) || a == s.sh.begun
    ensures Current(s, a) ==>
              (a in s'.sh.cancelled <==> a in s.sh.cancelled || (l == Pause(true) && s.sh.cancelCurrent == Some(a)))
    ensures !Current(s, a) ==> a !in s'.sh.cancelled && !l.Pause?
  {
    if l.Move? && !Cancelling(s, l) {
      StepKeepsOwner(l.id, s.sh, s.runs[l.id], s'.sh, s'.runs[l.id]);
    }
  }

  /** Inside an attempt it is cancelled exactly if a SetPaused(true) found it registered. */
  lemma {:induction false} VariantCancelledIffHit(states: seq<State>, labels: seq<Label>, m: nat, a: Attempt)
    requires VariantRun(states, labels) && m < |states| && Current(states[m], a)
    ensures a in states[m].sh.cancelled <==> exists k :: 0 <= k < m && Hits(states, labels, k, a)
  {
    var n := m - 1;
    VariantCore(states, labels, n);
    assert VariantStep(states[n], labels[n], states[m]);
    CurrentStep(states[n], labels[n], states[m], a);
    if Current(states[n], a) {
      VariantCancelledIffHit(states, labels, n, a);
      assert labels[n] == Pause(true) && states[n].sh.cancelCurrent == Some(a) <==> Hits(states, labels, n, a);
    } else {
      forall k | 0 <= k < m ensures !Hits(states, labels, k, a) {
        if k < n && Hits(states, labels, k, a) {
          VariantHitsAreOld(states, labels, k, n, a);
        }
      }
    }
  }

  /** Over every run of the variant: an attempt that fails under a live outer context waits out a backoff
      delay exactly if no SetPaused(true) found it registered. */
  lemma VariantBacksOffIff(states: seq<State>, labels: seq<Label>, i: nat, id: RunId, what: string)
    requires VariantRun(states, labels) && i < |labels| && labels[i] == Move(id) && id in states[i].runs
    requires states[i].runs[id].pc.CallCancel? && states[i].runs[id].pc.ret == Some(Failure(what))
    requires states[i].runs[id].ctx.None?
    ensures id in states[i + 1].runs && states[i + 1].runs[id].pc.Record?
    ensures Decided(states[i + 1].runs[id], states[i + 1].runs[id].pc.ret).pc.Sleep?
            <==> !exists k :: 0 <= k < i && Hits(states, labels, k, states[i].runs[id].pc.a)
  {
    VariantCore(states, labels, i);
    assert VariantStep(states[i], labels[i], states[i + 1]);
    VariantCancelledIffHit(states, labels, i, states[i].runs[id].pc.a);
  }
}
