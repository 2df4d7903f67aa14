/** The read deadline and the control pings that keep an idle link alive. Time is an integer in any
    unit; control frames as in sections 5.5.2 and 5.5.3 of RFC 6455. */
module Liveness {

  /** readDeadline and pingInterval in seconds. */
  const READ_DEADLINE: int := 75
  const PING_INTERVAL: int := 25

  datatype Timing = Timing(readDeadline: int, pingInterval: int)

  predicate Sane(t: Timing) {
    t.readDeadline > 0 && t.pingInterval > 0
  }

  /** The read pump is in ReadMessage: nothing it dispatches blocks. */
  datatype Link = Link(
    now: int,
    deadline: int,
    nextPing: int,
    // when the pings that have no pong yet were sent, oldest first
    outstanding: seq<int>,
    // ReadMessage has returned a timeout
    timedOut: bool,
    // history: the last sign of life
    lastLife: int)

  datatype Label = Tick | Message | Pong | PingSent | TimeOut

  function Armed(t: Timing, start: int): Link {
    Link(start, start + t.readDeadline, start + t.pingInterval, [], false, start)
  }

  /** What may happen next. Time does not pass the read deadline while the pump is in ReadMessage, which
      then returns a timeout, nor a due ping. */
  predicate Enabled(s: Link, l: Label) {
    && !s.timedOut
    && match l
       case Tick => s.now < s.deadline && s.now < s.nextPing
       case Message => true
       case Pong => s.outstanding != []
       case PingSent => s.now == s.nextPing
       case TimeOut => s.now >= s.deadline
  }

  function Next(t: Timing, s: Link, l: Label): Link
    requires Enabled(s, l)
  {
    match l
    case Tick => s.(now := s.now + 1)
    case Message => s.(deadline := s.now + t.readDeadline, lastLife := s.now)
    case Pong => s.(deadline := s.now + t.readDeadline, lastLife := s.now, outstanding := s.outstanding[1..])
    case PingSent => s.(nextPing := s.nextPing + t.pingInterval, outstanding := s.outstanding + [s.now])
    case TimeOut => s.(timedOut := true)
  }

  predicate Step(t: Timing, s: Link, l: Label, s': Link) {
    Enabled(s, l) && s' == Next(t, s, l)
  }

  ghost predicate Execution(t: Timing, states: seq<Link>, labels: seq<Label>) {
    && |states| == |labels| + 1
    && states[0] == Armed(t, states[0].now)
    && forall i :: 0 <= i < |labels| ==> Step(t, states[i], labels[i], states[i + 1])
  }

  /** No ping has waited longer than d for its pong. */
  predicate Prompt(d: int, s: Link) {
    s.outstanding != [] ==> s.now - s.outstanding[0] <= d
  }

  ghost predicate AllPrompt(d: int, states: seq<Link>) {
    forall i :: 0 <= i < |states| ==> Prompt(d, states[i])
  }

  // ---- the deadline ----------------------------------------------------------

  /** The deadline is always the last sign of life plus readDeadline; time never passes it, and a link
      that has timed out did so exactly then. */
  lemma {:induction false} DeadlineSlides(t: Timing, states: seq<Link>, labels: seq<Label>, i: nat)
    requires Sane(t) && Execution(t, states, labels) && i < |states|
    ensures states[i].deadline == states[i].lastLife + t.readDeadline
    ensures states[i].lastLife <= states[i].now <= states[i].deadline && states[i].now <= states[i].nextPing
    ensures states[i].timedOut ==> states[i].now == states[i].lastLife + t.readDeadline
  {
    if i > 0 {
      DeadlineSlides(t, states, labels, i - 1);
      assert Step(t, states[i - 1], labels[i - 1], states[i]);
    }
  }

  /** Nothing arrives between the labels k and i. */
  ghost predicate SilentBetween(labels: seq<Label>, k: int, i: nat)
    requires -1 <= k && i <= |labels|
  {
    forall j :: k < j < i ==> !labels[j].Message? && !labels[j].Pong?
  }

  /** Any inbound message slides the deadline, and so does a pong: it is readDeadline after the last of them,
      or after the start if there was none. */
  lemma {:induction false} LastArrivalSetsDeadline(t: Timing, states: seq<Link>, labels: seq<Label>, k: int, i: nat)
    requires Execution(t, states, labels) && -1 <= k < i <= |labels| && SilentBetween(labels, k, i)
    requires k >= 0 ==> labels[k].Message? || labels[k].Pong?
    ensures states[i].deadline == (if k < 0 then states[0].now else states[k].now) + t.readDeadline
    decreases i
  {
    if i > 0 {
      assert Step(t, states[i - 1], labels[i - 1], states[i]);
      if k < i - 1 {
        LastArrivalSetsDeadline(t, states, labels, k, i - 1);
      }
    }
  }

  /** From i on nothing arrives. */
  ghost predicate SilentFrom(labels: seq<Label>, i: nat) {
    forall k :: i <= k < |labels| ==> !labels[k].Message? && !labels[k].Pong?
  }

  /** How many steps a silent link has left. */
  function Left(s: Link): int {
    2 * (s.deadline - s.now) + (if s.now == s.nextPing then 1 else 0) + (if s.timedOut then 0 else 1)
  }

  lemma {:induction false} SilentRunsDown(t: Timing, states: seq<Link>, labels: seq<Label>, i: nat, k: nat)
    requires Sane(t) && Execution(t, states, labels) && i <= k < |states| && SilentFrom(labels, i)
    ensures states[k].lastLife == states[i].lastLife
    ensures 0 <= Left(states[k]) <= Left(states[i]) - (k - i)
    decreases k
  {
    DeadlineSlides(t, states, labels, k);
    if i < k {
      SilentRunsDown(t, states, labels, i, k - 1);
      DeadlineSlides(t, states, labels, k - 1);
      assert Step(t, states[k - 1], labels[k - 1], states[k]);
    }
  }

  /** A silent link times out, exactly readDeadline after its last sign of life: it cannot do so earlier,
      time cannot go on past that moment, a run of it can only be so long, and a run that cannot be
      continued without something arriving has timed out. */
  lemma SilentLinkTimesOut(t: Timing, states: seq<Link>, labels: seq<Label>, i: nat)
    requires Sane(t) && Execution(t, states, labels) && i < |states| && SilentFrom(labels, i)
    ensures var s := states[|labels|];
            && s.now <= states[i].lastLife + t.readDeadline
            && (s.timedOut ==> s.now == states[i].lastLife + t.readDeadline)
            && |labels| - i <= Left(states[i])
            && (!Enabled(s, Tick) && !Enabled(s, PingSent) && !Enabled(s, TimeOut) ==> s.timedOut)
  {
    SilentRunsDown(t, states, labels, i, |labels|);
    DeadlineSlides(t, states, labels, |labels|);
  }

  // ---- the idle link ---------------------------------------------------------

  /** Unanswered pings are one interval apart up to the next one, and the one before the oldest of them
      was answered (or was the start). */
  predicate PingInv(t: Timing, s: Link) {
    && s.nextPing - t.pingInterval <= s.now <= s.nextPing
    && s.deadline == s.lastLife + t.readDeadline
    && Spaced(s.outstanding, s.nextPing, t.pingInterval)
    && s.lastLife >= s.nextPing - (|s.outstanding| + 1) * t.pingInterval
    && s.lastLife <= s.now
  }

  /** One interval apart, up to the next one. */
  predicate Spaced(sentAt: seq<int>, next: int, interval: int) {
    forall i :: 0 <= i < |sentAt| ==> sentAt[i] == next - (|sentAt| - i) * interval
  }

  lemma SpacedOneMore(sentAt: seq<int>, next: int, interval: int)
    requires Spaced(sentAt, next, interval)
    ensures Spaced(sentAt + [next], next + interval, interval)
  {
    var sentAt', n := sentAt + [next], |sentAt|;
    forall i | 0 <= i < n + 1 ensures sentAt'[i] == next + interval - (n + 1 - i) * interval {
      Spread(n - i, interval);
      assert n + 1 - i == n - i + 1;
    }
  }

  lemma SpacedOneLess(sentAt: seq<int>, next: int, interval: int)
    requires sentAt != [] && Spaced(sentAt, next, interval)
    ensures Spaced(sentAt[1..], next, interval)
  {
    forall i | 0 <= i < |sentAt| - 1 ensures sentAt[1..][i] == next - (|sentAt| - 1 - i) * interval {
      assert sentAt[1..][i] == sentAt[i + 1];
    }
  }

  lemma Spread(n: int, p: int)
    ensures (n + 1) * p == n * p + p
    ensures (n - 1) * p == n * p - p
  {
  }

  lemma PongStep(t: Timing, s: Link, s': Link)
    requires Sane(t) && PingInv(t, s) && Step(t, s, Pong, s')
    ensures PingInv(t, s')
  {
    SpacedOneLess(s.outstanding, s.nextPing, t.pingInterval);
    Spread(|s.outstanding|, t.pingInterval);
    assert |s.outstanding| * t.pingInterval >= t.pingInterval;
  }

  lemma PingSentStep(t: Timing, s: Link, s': Link)
    requires Sane(t) && PingInv(t, s) && Step(t, s, PingSent, s')
    ensures PingInv(t, s')
  {
    SpacedOneMore(s.outstanding, s.nextPing, t.pingInterval);
    Spread(|s.outstanding| + 1, t.pingInterval);
  }

  lemma PingStep(t: Timing, s: Link, l: Label, s': Link)
    requires Sane(t) && PingInv(t, s) && Step(t, s, l, s')
    ensures PingInv(t, s')
  {
    match l {
      case Tick =>
      case TimeOut =>
      case Message => assert (|s.outstanding| + 1) * t.pingInterval >= t.pingInterval;
      case Pong => PongStep(t, s, s');
      case PingSent => PingSentStep(t, s, s');
    }
  }

  lemma {:induction false} PingsAlong(t: Timing, states: seq<Link>, labels: seq<Label>, i: nat)
    requires Sane(t) && Execution(t, states, labels) && i < |states|
    ensures PingInv(t, states[i])
  {
    if i > 0 {
      PingsAlong(t, states, labels, i - 1);
      assert Step(t, states[i - 1], labels[i - 1], states[i]);
      PingStep(t, states[i - 1], labels[i - 1], states[i]);
    }
  }

  /** With prompt pongs the last sign of life is never older than one interval and one pong delay. */
  lemma LifeIsRecent(t: Timing, d: int, s: Link)
    requires Sane(t) && d >= 0 && PingInv(t, s) && Prompt(d, s)
    ensures s.now - s.lastLife <= t.pingInterval + d
  {
    var n, p := |s.outstanding|, t.pingInterval;
    Spread(n, p);
    if n > 0 {
      assert s.outstanding[0] == s.nextPing - n * p;
    }
  }

  ghost predicate SomeRunTimesOut(t: Timing, d: int) {
    exists states: seq<Link>, labels: seq<Label> ::
      Execution(t, states, labels) && AllPrompt(d, states) && states[|labels|].timedOut
  }

  /** An otherwise idle link with pong delays up to d survives every run, of any length, exactly when
      the ping interval and the delay together stay below the read deadline. */
  lemma IdleLinkSurvivesIff(t: Timing, d: int)
    requires Sane(t) && d >= 0
    ensures !SomeRunTimesOut(t, d) <==> t.pingInterval + d < t.readDeadline
  {
    if SomeRunTimesOut(t, d) {
      var states: seq<Link>, labels: seq<Label> :|
        Execution(t, states, labels) && AllPrompt(d, states) && states[|labels|].timedOut;
      PingsAlong(t, states, labels, |labels|);
      DeadlineSlides(t, states, labels, |labels|);
      LifeIsRecent(t, d, states[|labels|]);
    }
    if t.pingInterval + d >= t.readDeadline {
      var states, labels := SilentRun(t, d, t.readDeadline);
      var s := states[|labels|];
      states, labels := Extend(t, d, states, labels, TimeOut, s.(timedOut := true));
      assert states[|labels|].timedOut;
    }
  }

  /** The agent's constants: pongs within 49 seconds are always soon enough, within 50 they are not. */
  lemma FiftySecondsIsTheBound()
    ensures READ_DEADLINE == 75 && PING_INTERVAL == 25
    ensures !SomeRunTimesOut(Timing(READ_DEADLINE, PING_INTERVAL), 49)
    ensures SomeRunTimesOut(Timing(READ_DEADLINE, PING_INTERVAL), 50)
  {
    IdleLinkSurvivesIff(Timing(READ_DEADLINE, PING_INTERVAL), 49);
    IdleLinkSurvivesIff(Timing(READ_DEADLINE, PING_INTERVAL), 50);
  }

  /** A run up to time n in which no pong arrives. */
  lemma {:induction false} SilentRun(t: Timing, d: int, n: nat) returns (states: seq<Link>, labels: seq<Label>)
    requires Sane(t) && d >= 0 && n <= t.readDeadline <= t.pingInterval + d
    ensures Execution(t, states, labels) && AllPrompt(d, states)
    ensures var s := states[|labels|];
            && !s.timedOut && s.now == n && s.lastLife == 0 && s.deadline == t.readDeadline && s.now < s.nextPing
            && (s.outstanding != [] ==> s.outstanding[0] >= t.pingInterval)
            && (s.outstanding == [] ==> s.nextPing == t.pingInterval)
    decreases n
  {
    if n == 0 {
      states, labels := [Armed(t, 0)], [];
    } else {
      states, labels := SilentRun(t, d, n - 1);
      var s := states[|labels|];
      var s1 := s.(now := s.now + 1);
      states, labels := Extend(t, d, states, labels, Tick, s1);
      if s1.now == s1.nextPing {
        var s2 := s1.(nextPing := s1.nextPing + t.pingInterval, outstanding := s1.outstanding + [s1.now]);
        states, labels := Extend(t, d, states, labels, PingSent, s2);
      }
    }
  }

  lemma Extend(t: Timing, d: int, states: seq<Link>, labels: seq<Label>, l: Label, s: Link)
      returns (states': seq<Link>, labels': seq<Label>)
    requires Execution(t, states, labels) && AllPrompt(d, states)
    requires Step(t, states[|labels|], l, s) && Prompt(d, s)
    ensures Execution(t, states', labels') && AllPrompt(d, states')
    ensures |labels'| == |labels| + 1 && states'[|labels'|] == s
  {
    states', labels' := states + [s], labels + [l];
    forall i | 0 <= i < |labels'| ensures Step(t, states'[i], labels'[i], states'[i + 1]) {
      if i < |labels| {
        assert Step(t, states[i], labels[i], states[i + 1]);
      }
    }
  }
}
