/** One connection of package transport: the bounded send queue with its single writer, the read pump
    that answers pings through it, and everyone else who sends. */
module Connection {
  import opened Wrappers

  const CAPACITY: nat := 32

  /** Outbound envelopes, up to what the protocol below tells apart. */
  datatype Frame = Hello | Pong(ping: nat) | Other(tag: nat)

  datatype Inbound = Ping(id: nat) | Malformed | Message(tag: nat)

  datatype Writer = Idle | Writing(b: Frame) | WriterDone

  datatype Reader = NotStarted | Reading | Answering(id: nat) | ReaderDone

  datatype Answer = Answer(id: nat, enqueued: bool)

  datatype Conn = Conn(
    queue: seq<Frame>,
    writer: Writer,
    reader: Reader,
    // the attempt's context is done, or persistentConn.Close was called
    over: bool,
    // history: successful Sends, frames on the wire, the frame of a failed write
    sent: seq<Frame>,
    written: seq<Frame>,
    lost: seq<Frame>,
    received: seq<Inbound>,
    answers: seq<Answer>)

  const OPENED := Conn([], Idle, NotStarted, false, [], [], [], [], [])

  // ---- the operations on the queue -------------------------------------------

  function Enqueued(c: Conn, f: Frame): Conn {
    c.(queue := c.queue + [f], sent := c.sent + [f])
  }

  function Dequeued(c: Conn): Conn
    requires c.queue != []
  {
    c.(queue := c.queue[1..], writer := Writing(c.queue[0]))
  }

  function Wrote(c: Conn, ok: bool): Conn
    requires c.writer.Writing?
  {
    if ok then c.(written := c.written + [c.writer.b], writer := Idle)
    else c.(lost := c.lost + [c.writer.b], writer := WriterDone)
  }

  function Answered(c: Conn, enqueued: bool): Conn
    requires c.reader.Answering?
  {
    var d := if enqueued then Enqueued(c, Pong(c.reader.id)) else c;
    d.(reader := Reading, answers := c.answers + [Answer(c.reader.id, enqueued)])
  }

  function Arrived(c: Conn, m: Inbound): Conn {
    c.(received := c.received + [m], reader := if m.Ping? then Answering(m.id) else Reading)
  }

  // ---- the protocol ----------------------------------------------------------

  datatype Label =
    | SendHello
    | StartPumps
    | Receive(m: Inbound)
    | ReadFails
    | AnswerPing(enqueued: bool)
    | SendOther(tag: nat)
    | Take
    | WriteEnds(ok: bool)
    | WriterStops
    | Ends

  ghost predicate Step(c: Conn, l: Label, c': Conn) {
    match l
    case SendHello => c.sent == [] && |c.queue| < CAPACITY && c' == Enqueued(c, Hello)
    case StartPumps => c.reader.NotStarted? && c.sent != [] && c' == c.(reader := Reading)
    case Receive(m) =>
      c.reader.Reading? && c' == Arrived(c, m)
    case ReadFails => c.reader.Reading? && c' == c.(reader := ReaderDone)
    case AnswerPing(enqueued) =>
      && c.reader.Answering? && (if enqueued then |c.queue| < CAPACITY else c.over)
      && c' == Answered(c, enqueued)
    // handlers, inventory and telemetry: all are started after the hello was sent
    case SendOther(tag) => !c.reader.NotStarted? && |c.queue| < CAPACITY && c' == Enqueued(c, Other(tag))
    case Take => !c.reader.NotStarted? && c.writer.Idle? && c.queue != [] && c' == Dequeued(c)
    case WriteEnds(ok) => c.writer.Writing? && c' == Wrote(c, ok)
    case WriterStops => c.writer.Idle? && c.over && c' == c.(writer := WriterDone)
    case Ends => c' == c.(over := true)
  }

  ghost predicate Execution(states: seq<Conn>, labels: seq<Label>) {
    && |states| == |labels| + 1 && states[0] == OPENED
    && forall i :: 0 <= i < |labels| ==> Step(states[i], labels[i], states[i + 1])
  }

  function Pings(received: seq<Inbound>): seq<nat> {
    if received == [] then []
    else
      var m := received[|received| - 1];
      Pings(received[..|received| - 1]) + (if m.Ping? then [m.id] else [])
  }

  function Pongs(frames: seq<Frame>): seq<nat> {
    if frames == [] then []
    else
      var f := frames[|frames| - 1];
      Pongs(frames[..|frames| - 1]) + (if f.Pong? then [f.ping] else [])
  }

  function Ids(answers: seq<Answer>): seq<nat> {
    seq(|answers|, i requires 0 <= i < |answers| => answers[i].id)
  }

  function EnqueuedIds(answers: seq<Answer>): seq<nat> {
    if answers == [] then []
    else
      var a := answers[|answers| - 1];
      EnqueuedIds(answers[..|answers| - 1]) + (if a.enqueued then [a.id] else [])
  }

  function InFlight(c: Conn): seq<Frame> {
    if c.writer.Writing? then [c.writer.b] else []
  }

  ghost predicate Conserved(c: Conn) {
    && c.sent == c.written + (InFlight(c) + c.lost) + c.queue
    && |InFlight(c) + c.lost| <= 1 && (c.lost != [] ==> c.writer.WriterDone?)
  }

  ghost predicate HelloFirst(c: Conn) {
    && |c.queue| <= CAPACITY
    && (!c.reader.NotStarted? ==> c.sent != [])
    && (c.sent != [] ==> c.sent[0] == Hello)
    && (forall i :: 1 <= i < |c.sent| ==> !c.sent[i].Hello?)
    && (c.reader.NotStarted? ==> |c.sent| <= 1)
  }

  /** The read pump's answers are to the pings received, in order, but for the one it is busy with. */
  ghost predicate PingsTaken(c: Conn) {
    Ids(c.answers) + (if c.reader.Answering? then [c.reader.id] else []) == Pings(c.received)
  }

  /** The pongs accepted are the answers that Send accepted. */
  ghost predicate PongsSent(c: Conn) {
    Pongs(c.sent) == EnqueuedIds(c.answers)
  }

  /** Send refused an answer only when the connection was over. */
  ghost predicate RefusedWhenOver(c: Conn) {
    !c.over ==> forall i :: 0 <= i < |c.answers| ==> c.answers[i].enqueued
  }

  ghost predicate Inv(c: Conn) {
    Conserved(c) && HelloFirst(c) && PingsTaken(c) && PongsSent(c) && RefusedWhenOver(c)
  }

  // ---- conservation ------------------------------------------------------------

  lemma EnqueueConserves(c: Conn, f: Frame)
    requires Conserved(c)
    ensures Conserved(Enqueued(c, f))
  {
    var front := c.written + (InFlight(c) + c.lost);
    assert front + c.queue + [f] == front + (c.queue + [f]);
  }

  lemma TakeConserves(c: Conn)
    requires Conserved(c) && c.writer.Idle? && c.queue != []
    ensures Conserved(Dequeued(c))
  {
    var b, rest := c.queue[0], c.queue[1..];
    assert c.queue == [b] + rest;
    assert c.written + ([] + []) + ([b] + rest) == c.written + ([b] + []) + rest;
  }

  lemma WriteConserves(c: Conn, ok: bool)
    requires Conserved(c) && c.writer.Writing?
    ensures Conserved(Wrote(c, ok))
  {
    var b := c.writer.b;
    assert c.written + ([b] + []) + c.queue == c.written + [b] + ([] + []) + c.queue;
    assert [b] + [] == [] + ([] + [b]);
  }

  lemma ConservedStep(c: Conn, l: Label, c': Conn)
    requires Conserved(c) && Step(c, l, c')
    ensures Conserved(c')
  {
    match l {
      case SendHello => EnqueueConserves(c, Hello);
      case SendOther(tag) => EnqueueConserves(c, Other(tag));
      case AnswerPing(enqueued) =>
        EnqueueConserves(c, Pong(c.reader.id));
        assert InFlight(c') == InFlight(c);
      case Take => TakeConserves(c);
      case WriteEnds(ok) => WriteConserves(c, ok);
      case _ => assert InFlight(c') == InFlight(c);
    }
  }

  lemma EnqueueKeepsHello(c: Conn, f: Frame)
    requires HelloFirst(c) && |c.queue| < CAPACITY
    requires if f.Hello? then c.sent == [] else !c.reader.NotStarted?
    ensures HelloFirst(Enqueued(c, f))
  {
  }

  lemma HelloStep(c: Conn, l: Label, c': Conn)
    requires HelloFirst(c) && Step(c, l, c')
    ensures HelloFirst(c')
  {
    match l {
      case SendHello => EnqueueKeepsHello(c, Hello);
      case SendOther(tag) => EnqueueKeepsHello(c, Other(tag));
      case AnswerPing(enqueued) =>
        if enqueued {
          EnqueueKeepsHello(c, Pong(c.reader.id));
        }
      case _ =>
    }
  }

  // ---- pings and pongs -----------------------------------------------------------

  lemma SentOne(frames: seq<Frame>, f: Frame)
    ensures Pongs(frames + [f]) == Pongs(frames) + (if f.Pong? then [f.ping] else [])
  {
    assert (frames + [f])[..|frames|] == frames;
  }

  lemma ReceivedOne(received: seq<Inbound>, m: Inbound)
    ensures Pings(received + [m]) == Pings(received) + (if m.Ping? then [m.id] else [])
  {
    assert (received + [m])[..|received|] == received;
  }

  lemma AnsweredOne(answers: seq<Answer>, a: Answer)
    ensures Ids(answers + [a]) == Ids(answers) + [a.id]
    ensures EnqueuedIds(answers + [a]) == EnqueuedIds(answers) + (if a.enqueued then [a.id] else [])
  {
    assert (answers + [a])[..|answers|] == answers;
  }

  lemma PingsTakenStep(c: Conn, l: Label, c': Conn)
    requires PingsTaken(c) && Step(c, l, c')
    ensures PingsTaken(c')
  {
    match l {
      case Receive(m) => ReceivedOne(c.received, m);
      case AnswerPing(enqueued) => AnsweredOne(c.answers, Answer(c.reader.id, enqueued));
      case _ =>
    }
  }

  lemma PongsSentStep(c: Conn, l: Label, c': Conn)
    requires PongsSent(c) && Step(c, l, c')
    ensures PongsSent(c')
  {
    match l {
      case SendHello => SentOne(c.sent, Hello);
      case SendOther(tag) => SentOne(c.sent, Other(tag));
      case AnswerPing(enqueued) =>
        SentOne(c.sent, Pong(c.reader.id));
        AnsweredOne(c.answers, Answer(c.reader.id, enqueued));
      case _ =>
    }
  }

  lemma RefusedStep(c: Conn, l: Label, c': Conn)
    requires RefusedWhenOver(c) && Step(c, l, c')
    ensures RefusedWhenOver(c')
  {
    match l {
      case AnswerPing(enqueued) =>
      case _ => assert c'.answers == c.answers;
    }
  }

  lemma StepInv(c: Conn, l: Label, c': Conn)
    requires Inv(c) && Step(c, l, c')
    ensures Inv(c')
  {
    ConservedStep(c, l, c');
    HelloStep(c, l, c');
    PingsTakenStep(c, l, c');
    PongsSentStep(c, l, c');
    RefusedStep(c, l, c');
  }

  lemma {:induction false} Reachable(states: seq<Conn>, labels: seq<Label>, i: nat)
    requires Execution(states, labels) && i < |states|
    ensures Inv(states[i])
  {
    if i > 0 {
      Reachable(states, labels, i - 1);
      assert Step(states[i - 1], labels[i - 1], states[i]);
      StepInv(states[i - 1], labels[i - 1], states[i]);
    }
  }

  /** Some run leads to c. */
  ghost predicate Reached(c: Conn) {
    exists states: seq<Conn>, labels: seq<Label> :: Execution(states, labels) && states[|labels|] == c
  }

  lemma ReachedStep(c: Conn, l: Label, c': Conn)
    requires Reached(c) && Step(c, l, c')
    ensures Reached(c')
  {
    var states: seq<Conn>, labels: seq<Label> :| Execution(states, labels) && states[|labels|] == c;
    var states1, labels1 := states + [c'], labels + [l];
    forall i | 0 <= i < |labels1| ensures Step(states1[i], labels1[i], states1[i + 1]) {
      if i < |labels| {
        assert Step(states[i], labels[i], states[i + 1]);
      }
    }
    assert Execution(states1, labels1) && states1[|labels1|] == c';
  }

  lemma ReachedInv(c: Conn)
    requires Reached(c)
    ensures Inv(c)
  {
    var states: seq<Conn>, labels: seq<Label> :| Execution(states, labels) && states[|labels|] == c;
    Reachable(states, labels, |labels|);
  }

  lemma ReachedBounded(c: Conn)
    requires Reached(c)
    ensures |c.queue| <= CAPACITY
  {
    ReachedInv(c);
  }

  // ---- the code --------------------------------------------------------------------

  datatype SendResult = Sent | Refused | WouldBlock

  /** persistentConn. What its methods do to it are steps of the protocol, so every state they leave is
      one the protocol reaches. */
  class PersistentConn {
    var queue: seq<Frame>
    var over: bool
    var writer: Writer
    var reader: Reader
    ghost var sent: seq<Frame>
    ghost var written: seq<Frame>
    ghost var lost: seq<Frame>
    ghost var received: seq<Inbound>
    ghost var answers: seq<Answer>

    ghost function View(): Conn
      reads this
    {
      Conn(queue, writer, reader, over, sent, written, lost, received, answers)
    }

    constructor ()
      ensures View() == OPENED && Reached(View())
    {
      queue, over, writer, reader := [], false, Idle, NotStarted;
      sent, written, lost, received, answers := [], [], [], [], [];
      new;
      assert Execution([OPENED], []);
    }

    /** The select of Send: any ready case may be taken, and none while the queue is full. */
    method Send(f: Frame) returns (r: SendResult)
      requires Reached(View())
      modifies this`queue, this`sent
      ensures |queue| <= 32
      // behind what is in the queue, if there is room; what is refused or waits changes nothing
      ensures r.Sent? ==> old(|queue|) < 32 && queue == old(queue) + [f] && sent == old(sent) + [f]
      ensures !r.Sent? ==> queue == old(queue) && sent == old(sent)
      ensures r.Refused? ==> over
      ensures r.WouldBlock? ==> !over && |queue| == 32
    {
      ReachedBounded(View());
      var takeDone: bool := *;
      if over && (takeDone || |queue| == CAPACITY) {
        return Refused;
      }
      if |queue| == CAPACITY {
        return WouldBlock;
      }
      queue, sent := queue + [f], sent + [f];
      return Sent;
    }

    /** One round of writeLoop from its select to the end of the write; goOn is false when it returns. */
    method WriteOnce(fails: bool) returns (goOn: bool)
      requires Reached(View()) && !reader.NotStarted? && writer.Idle? && (over || queue != [])
      modifies this`queue, this`writer, this`written, this`lost
      ensures Reached(View())
      ensures goOn ==> !fails && old(queue) != [] && writer.Idle?
      ensures !goOn ==> (over || fails) && writer.WriterDone?
      // it leaves the queue alone, or takes the oldest frame and writes it, or loses it in a failed write
      ensures || (!goOn && over && queue == old(queue) && written == old(written) && lost == old(lost))
              || (&& old(queue) != [] && queue == old(queue)[1..]
                  && written == old(written) + (if fails then [] else [old(queue)[0]])
                  && lost == old(lost) + (if fails then [old(queue)[0]] else []))
    {
      ghost var c := View();
      var takeDone: bool := *;
      if over && (takeDone || queue == []) {
        writer := WriterDone;
        ReachedStep(c, WriterStops, View());
        return false;
      }
      var b := queue[0];
      queue := queue[1..];
      if fails {
        lost, writer := lost + [b], WriterDone;
      } else {
        written := written + [b];
      }
      ReachedStep(c, Take, Dequeued(c));
      ReachedStep(Dequeued(c), WriteEnds(!fails), View());
      return !fails;
    }

    /** Any number of steps of the others. */
    method Others()
      requires Reached(View()) && !reader.NotStarted?
      modifies this
      ensures Reached(View())
      ensures reader == old(reader) && received == old(received) && answers == old(answers)
    {
      var steps: int := *;
      for i := 0 to if steps < 0 then 0 else steps
        invariant Reached(View())
        invariant reader == old(reader) && received == old(received) && answers == old(answers)
      {
        OtherStep();
      }
    }

    /** What the others may do while the read pump is not looking: a round of the writer, a frame from a
        handler, the end of the attempt. */
    method OtherStep()
      requires Reached(View()) && !reader.NotStarted?
      modifies this
      ensures Reached(View())
      ensures reader == old(reader) && received == old(received) && answers == old(answers)
    {
      ghost var c := View();
      var tag: nat := *;
      var which: int, fails: bool := *, *;
      if which == 0 && writer.Idle? && queue != [] {
        var _ := WriteOnce(fails);
      } else if which == 1 && |queue| < CAPACITY {
        queue, sent := queue + [Other(tag)], sent + [Other(tag)];
        ReachedStep(c, SendOther(tag), View());
      } else if which == 2 {
        over := true;
        ReachedStep(c, Ends, View());
      }
    }

    /** Send's wait: in the end the writer makes room, or the attempt is over. */
    method Wait()
      requires Reached(View()) && !reader.NotStarted?
      modifies this
      ensures Reached(View()) && (over || |queue| < CAPACITY)
      ensures reader == old(reader) && received == old(received) && answers == old(answers)
    {
      Others();
      ReachedBounded(View());
      if !over && |queue| == CAPACITY && writer.Idle? {
        var fails: bool := *;
        var _ := WriteOnce(fails);
      }
      if |queue| == CAPACITY {
        ghost var c := View();
        over := true;
        ReachedStep(c, Ends, View());
      }
    }

    /** dispatch of a ping, whose Send waits for room. Its error is only logged. */
    method AnswerPing()
      requires Reached(View()) && reader.Answering?
      modifies this
      ensures Reached(View()) && reader.Reading? && received == old(received)
      ensures exists enqueued ::
                answers == old(answers) + [Answer(old(reader).id, enqueued)] && (!enqueued ==> over)
    {
      ghost var id, c := reader.id, View();
      var r := Send(Pong(reader.id));
      if r.WouldBlock? {
        Wait();
        c := View();
        r := Send(Pong(reader.id));
      }
      answers, reader := answers + [Answer(id, r.Sent?)], Reading;
      ReachedStep(c, Label.AnswerPing(r.Sent?), View());
    }

    /** One round of readLoop: a message read and dispatched. */
    method ReadOnce(m: Inbound)
      requires Reached(View()) && reader.Reading?
      modifies this
      ensures Reached(View()) && reader.Reading? && received == old(received) + [m]
    {
      ghost var c := View();
      received := received + [m];
      reader := if m.Ping? then Answering(m.id) else Reading;
      ReachedStep(c, Receive(m), View());
      if reader.Answering? {
        AnswerPing();
      }
    }

    /** readLoop: what ReadMessage yields until it fails, each message dispatched before the next read. */
    method ReadLoop(inbound: seq<Inbound>)
      requires Reached(View()) && reader.Reading?
      modifies this
      ensures Reached(View()) && reader.ReaderDone?
      // what came in was all taken, in order, and while the connection lasts every ping among it has its
      // pong in the queue or on the wire, once and in order
      ensures received == old(received) + inbound
      ensures !over ==> Pongs(sent) == Pings(old(received) + inbound)
    {
      var i := 0;
      while i < |inbound|
        invariant 0 <= i <= |inbound|
        invariant Reached(View()) && reader.Reading? && received == old(received) + inbound[..i]
      {
        Others();
        ReadOnce(inbound[i]);
        OneMore(old(received), inbound, i);
        i := i + 1;
      }
      assert inbound[..i] == inbound;
      Others();
      ReadFailure();
      if !over {
        ReachedInv(View());
        AllAnswered(View());
      }
    }

    method ReadFailure()
      requires Reached(View()) && reader.Reading?
      modifies this`reader
      ensures Reached(View()) && reader.ReaderDone?
    {
      ghost var c := View();
      reader := ReaderDone;
      ReachedStep(c, ReadFails, View());
    }
  }

  lemma OneMore(before: seq<Inbound>, inbound: seq<Inbound>, i: nat)
    requires i < |inbound|
    ensures before + inbound[..i] + [inbound[i]] == before + inbound[..i + 1]
  {
  }

  lemma FrontOf(front: seq<Frame>, middle: seq<Frame>, back: seq<Frame>)
    ensures forall k :: 0 <= k < |front| ==> front[k] == (front + middle + back)[k]
  {
  }

  /** Conservation: what Send accepted is, in order, what is on the wire, then at most one frame that is
      being written or was lost in a failed write, then the queue of at most 32; the first frame and no
      other is the hello. */
  lemma WireConservation(states: seq<Conn>, labels: seq<Label>, i: nat)
    requires Execution(states, labels) && i < |states|
    ensures var c := states[i];
            && (exists middle :: |middle| <= 1 && c.sent == c.written + middle + c.queue)
            && |c.queue| <= 32
            && (c.writer.Idle? && c.lost == [] ==> c.sent == c.written + c.queue)
            && (c.written != [] ==> c.written[0] == Hello)
            && (forall k :: 1 <= k < |c.written| ==> c.written[k] != Hello)
  {
    Reachable(states, labels, i);
    var c := states[i];
    var middle := InFlight(c) + c.lost;
    FrontOf(c.written, middle, c.queue);
  }

  /** Pings: whenever the read pump is back at ReadMessage and the connection is not over, the pongs
      accepted for sending are the pings received, each once and in order. */
  lemma EveryPingAnswered(states: seq<Conn>, labels: seq<Label>, i: nat)
    requires Execution(states, labels) && i < |states|
    requires states[i].reader.Reading? && !states[i].over
    ensures Pongs(states[i].sent) == Pings(states[i].received)
  {
    Reachable(states, labels, i);
    AllAnswered(states[i]);
  }

  lemma AllAnswered(c: Conn)
    requires PingsTaken(c) && PongsSent(c) && RefusedWhenOver(c)
    requires !c.reader.Answering? && !c.over
    ensures Pongs(c.sent) == Pings(c.received)
  {
    AllEnqueued(c.answers);
    assert Ids(c.answers) + [] == Ids(c.answers);
  }

  /** No inbound message is taken before the previous ping's pong is accepted, or the connection over. */
  lemma PongBeforeNextRead(states: seq<Conn>, labels: seq<Label>, i: nat)
    requires Execution(states, labels) && i < |labels|
    requires labels[i].Receive? && !states[i].over
    ensures Pongs(states[i].sent) == Pings(states[i].received)
  {
    assert Step(states[i], labels[i], states[i + 1]);
    EveryPingAnswered(states, labels, i);
  }

  lemma {:induction false} AllEnqueued(answers: seq<Answer>)
    requires forall i :: 0 <= i < |answers| ==> answers[i].enqueued
    ensures EnqueuedIds(answers) == Ids(answers)
  {
    if answers != [] {
      AllEnqueued(answers[..|answers| - 1]);
      assert Ids(answers) == Ids(answers[..|answers| - 1]) + [answers[|answers| - 1].id];
    }
  }
}
