/** Commands from the controller: Dispatch, the six handlers of the light agent, and the results they
    send back while running concurrently. */
module Commands {
  import opened Wrappers

  type Id = nat

  datatype Kind =
    | InventoryRefresh
    | StartSolarbeam
    | StopSolarbeam
    | EngineUpdate
    | SelfUpdate
    | ShowNotification
    | Unsupported(wire: string)

  /** args is None when absent or not decodable. */
  datatype CommandData = CommandData(kind: Kind, args: Option<map<string, string>>)

  /** An MsgCommand envelope; command is None when its data does not decode. */
  datatype Envelope = Envelope(id: Id, command: Option<CommandData>)

  /** One call of the send function, whether or not it succeeds. */
  datatype Attempt = Result(inReplyTo: Id, exitCode: int) | Inventory(inReplyTo: Id)

  /** What the managers, the collector and the tray come to, and whether the connection takes an inventory. */
  datatype Outcomes = Outcomes(
    collected: bool, inventorySent: bool, started: bool, stopped: bool, engineUpdated: bool, selfUpdated: bool,
    notified: bool, hasPrompt: bool)

  const CONNECTION_REQUEST := "connection_request"

  function Arg(args: map<string, string>, name: string): string {
    if name in args then args[name] else ""
  }

  function DecodeArgs(env: Envelope, want: Kind): Option<map<string, string>> {
    if env.command.None? || env.command.value.kind != want then None else env.command.value.args
  }

  // ---- the handlers ----------------------------------------------------------------

  class Outbox {
    var attempts: seq<Attempt>

    constructor ()
      ensures attempts == []
    {
      attempts := [];
    }

    method Send(a: Attempt, accepted: bool) returns (ok: bool)
      modifies this
      ensures attempts == old(attempts) + [a] && ok == accepted
    {
      attempts := attempts + [a];
      ok := accepted;
    }

    /** A result that cannot be sent is dropped. */
    method EmitResult(parent: Id, exitCode: int)
      modifies this
      ensures attempts == old(attempts) + [Result(parent, exitCode)]
    {
      var accepted: bool := *;
      var _ := Send(Result(parent, exitCode), accepted);
    }

    method RunInventoryRefresh(env: Envelope, collected: bool, accepted: bool)
      modifies this
      ensures attempts == old(attempts) + if !collected then [Result(env.id, -1)]
                                          else [Inventory(env.id), Result(env.id, if accepted then 0 else -1)]
    {
      if !collected {
        EmitResult(env.id, -1);
        return;
      }
      var sent := Send(Inventory(env.id), accepted);
      if !sent {
        EmitResult(env.id, -1);
        return;
      }
      EmitResult(env.id, 0);
    }

    /** The shape of runStartSolarbeam, runStopSolarbeam, runSolarbeamEngineUpdate and runSelfUpdate. */
    method RunManaged(env: Envelope, want: Kind, required: seq<string>, succeeded: bool)
      modifies this
      ensures var complete := && env.command.Some? && env.command.value.kind == want && env.command.value.args.Some?
                              && forall i :: 0 <= i < |required| ==>
                                   required[i] in env.command.value.args.value
                                   && env.command.value.args.value[required[i]] != "";
              attempts == old(attempts) + [Result(env.id, if complete && succeeded then 0 else -1)]
    {
      var args := DecodeArgs(env, want);
      if args.None? {
        EmitResult(env.id, -1);
        return;
      }
      var i := 0;
      while i < |required|
        invariant 0 <= i <= |required| && attempts == old(attempts)
        invariant forall j :: 0 <= j < i ==> required[j] in args.value && args.value[required[j]] != ""
      {
        if Arg(args.value, required[i]) == "" {
          EmitResult(env.id, -1);
          return;
        }
        i := i + 1;
      }
      if !succeeded {
        EmitResult(env.id, -1);
        return;
      }
      EmitResult(env.id, 0);
    }

    method RunStartSolarbeam(env: Envelope, started: bool)
      modifies this
      ensures var complete := && env.command.Some? && env.command.value.kind.StartSolarbeam?
                              && env.command.value.args.Some?
                              && var args := env.command.value.args.value;
                              && "session_id" in args && args["session_id"] != ""
                              && "machine_id" in args && args["machine_id"] != ""
                              && "bundle_token" in args && args["bundle_token"] != "";
              attempts == old(attempts) + [Result(env.id, if complete && started then 0 else -1)]
    {
      var required := ["session_id", "machine_id", "bundle_token"];
      assert required[0] == "session_id" && required[1] == "machine_id" && required[2] == "bundle_token";
      RunManaged(env, StartSolarbeam, required, started);
    }

    method RunStopSolarbeam(env: Envelope, stopped: bool)
      modifies this
      ensures var complete := && env.command.Some? && env.command.value.kind.StopSolarbeam?
                              && env.command.value.args.Some?
                              && var args := env.command.value.args.value;
                              "session_id" in args && args["session_id"] != "";
              attempts == old(attempts) + [Result(env.id, if complete && stopped then 0 else -1)]
    {
      var required := ["session_id"];
      assert required[0] == "session_id";
      RunManaged(env, StopSolarbeam, required, stopped);
    }

    method RunShowNotification(env: Envelope, notified: bool, hasPrompt: bool)
      modifies this
      ensures var complete := && env.command.Some? && env.command.value.kind.ShowNotification?
                              && env.command.value.args.Some?
                              && var args := env.command.value.args.value;
                              && "kind" in args && args["kind"] != ""
                              && "title" in args && args["title"] != ""
                              && "body" in args && args["body"] != ""
                              && (notified || (hasPrompt && args["kind"] == "connection_request"));
              attempts == old(attempts) + [Result(env.id, if complete then 0 else -1)]
    {
      var args := DecodeArgs(env, ShowNotification);
      if args.None? {
        EmitResult(env.id, -1);
        return;
      }
      if Arg(args.value, "kind") == "" || Arg(args.value, "title") == "" || Arg(args.value, "body") == "" {
        EmitResult(env.id, -1);
        return;
      }
      if Arg(args.value, "kind") == CONNECTION_REQUEST && hasPrompt {
        // the dialog waits on a goroutine of its own
        EmitResult(env.id, 0);
        return;
      }
      if !notified {
        EmitResult(env.id, -1);
        return;
      }
      EmitResult(env.id, 0);
    }

    /** Each kind's handler, which sends its result last: 0 exactly if the arguments decode and name what that
        kind needs, and the kind's own manager succeeds. */
    method Dispatch(env: Envelope, o: Outcomes) returns (ghost sends: seq<Attempt>)
      modifies this
      ensures attempts == old(attempts) + sends
      ensures env.command.None? ==> sends == []
      ensures env.command.Some? ==> CompleteReply(env.id, sends)
      ensures env.command.Some? ==>
                var c, exit := env.command.value, sends[|sends| - 1].exitCode;
                && sends[|sends| - 1] == Result(env.id, exit) && (exit == 0 || exit == -1)
                && (c.kind.InventoryRefresh? ==> (exit == 0 <==> o.collected && o.inventorySent))
                && (c.kind.StartSolarbeam? ==>
                      (exit == 0 <==>
                       && o.started && c.args.Some?
                       && "session_id" in c.args.value && c.args.value["session_id"] != ""
                       && "machine_id" in c.args.value && c.args.value["machine_id"] != ""
                       && "bundle_token" in c.args.value && c.args.value["bundle_token"] != ""))
                && (c.kind.StopSolarbeam? ==>
                      (exit == 0 <==>
                       && o.stopped && c.args.Some?
                       && "session_id" in c.args.value && c.args.value["session_id"] != ""))
                && (c.kind.EngineUpdate? ==> (exit == 0 <==> c.args.Some? && o.engineUpdated))
                && (c.kind.SelfUpdate? ==> (exit == 0 <==> c.args.Some? && o.selfUpdated))
                && (c.kind.ShowNotification? ==>
                      (exit == 0 <==>
                       && c.args.Some?
                       && "kind" in c.args.value && c.args.value["kind"] != ""
                       && "title" in c.args.value && c.args.value["title"] != ""
                       && "body" in c.args.value && c.args.value["body"] != ""
                       && (o.notified || (o.hasPrompt && c.args.value["kind"] == "connection_request"))))
                && (c.kind.Unsupported? ==> exit == -1)
      // only a collected inventory goes before the result
      ensures env.command.Some? ==>
                sends[..|sends| - 1] == if env.command.value.kind.InventoryRefresh? && o.collected
                                        then [Inventory(env.id)] else []
    {
      ghost var before := attempts;
      if env.command.None? {
        sends := [];
        assert attempts == before + sends;
        return;
      }
      match env.command.value.kind {
        case InventoryRefresh => RunInventoryRefresh(env, o.collected, o.inventorySent);
        case StartSolarbeam => RunStartSolarbeam(env, o.started);
        case StopSolarbeam => RunStopSolarbeam(env, o.stopped);
        case EngineUpdate => RunManaged(env, EngineUpdate, [], o.engineUpdated);
        case SelfUpdate => RunManaged(env, SelfUpdate, [], o.selfUpdated);
        case ShowNotification => RunShowNotification(env, o.notified, o.hasPrompt);
        case Unsupported(_) => EmitResult(env.id, -1);
      }
      sends := attempts[|before|..];
    }
  }

  /** A handler's sends: its one result, for its own command, comes last. */
  predicate CompleteReply(id: Id, sends: seq<Attempt>) {
    && sends != []
    && sends[|sends| - 1].Result? && sends[|sends| - 1].inReplyTo == id
    && forall i :: 0 <= i < |sends| - 1 ==> !sends[i].Result?
  }

  // ---- handlers running concurrently -------------------------------------------------

  /** A handler started for command id, with the sends it still has to make. */
  datatype Handler = Handler(id: Id, remaining: seq<Attempt>)

  datatype State = State(
    handlers: seq<Handler>,
    attempts: seq<Attempt>,
    // ids of the decodable commands received, in order
    commands: seq<Id>)

  const INITIAL := State([], [], [])

  datatype Label = Receive(env: Envelope, sends: seq<Attempt>) | Send(h: nat)

  /** Receiving starts a handler; what it will send depends on the managers and on which of its sends
      succeed, but is a complete reply. Any handler may make its next send at any time. */
  predicate Step(s: State, l: Label, s': State) {
    match l
    case Receive(env, sends) =>
      if env.command.None? then s' == s
      else
        && CompleteReply(env.id, sends)
        && s' == s.(handlers := s.handlers + [Handler(env.id, sends)], commands := s.commands + [env.id])
    case Send(h) =>
      && h < |s.handlers| && s.handlers[h].remaining != []
      && s' == s.(handlers := s.handlers[h := s.handlers[h].(remaining := s.handlers[h].remaining[1..])],
                  attempts := s.attempts + [s.handlers[h].remaining[0]])
  }

  ghost predicate Execution(states: seq<State>, labels: seq<Label>) {
    && |states| == |labels| + 1 && states[0] == INITIAL
    && forall i :: 0 <= i < |labels| ==> Step(states[i], labels[i], states[i + 1])
  }

  function One(b: bool): nat {
    if b then 1 else 0
  }

  function Results(attempts: seq<Attempt>, id: Id): nat {
    if attempts == [] then 0
    else
      var a := attempts[|attempts| - 1];
      Results(attempts[..|attempts| - 1], id) + One(a.Result? && a.inReplyTo == id)
  }

  function Received(commands: seq<Id>, id: Id): nat {
    if commands == [] then 0
    else Received(commands[..|commands| - 1], id) + One(commands[|commands| - 1] == id)
  }

  /** Handlers for id that have not sent their result. */
  function Unfinished(handlers: seq<Handler>, id: Id): nat {
    if handlers == [] then 0
    else
      var h := handlers[|handlers| - 1];
      Unfinished(handlers[..|handlers| - 1], id) + One(h.id == id && h.remaining != [])
  }

  ghost predicate HandlersInv(s: State) {
    forall h :: 0 <= h < |s.handlers| && s.handlers[h].remaining != [] ==>
      CompleteReply(s.handlers[h].id, s.handlers[h].remaining)
  }

  ghost predicate CountInv(s: State) {
    forall id :: Results(s.attempts, id) + Unfinished(s.handlers, id) == Received(s.commands, id)
  }

  lemma {:induction false} UnfinishedUpdate(handlers: seq<Handler>, h: nat, x: Handler, id: Id)
    requires h < |handlers|
    ensures Unfinished(handlers[h := x], id) + One(handlers[h].id == id && handlers[h].remaining != [])
            == Unfinished(handlers, id) + One(x.id == id && x.remaining != [])
  {
    var m := |handlers| - 1;
    if h < m {
      assert handlers[h := x][..m] == handlers[..m][h := x];
      UnfinishedUpdate(handlers[..m], h, x, id);
    } else {
      assert handlers[h := x][..m] == handlers[..m];
    }
  }

  lemma SendStep(s: State, h: nat, s': State)
    requires HandlersInv(s) && CountInv(s) && Step(s, Send(h), s')
    ensures HandlersInv(s') && CountInv(s')
  {
    var handler := s.handlers[h];
    var a, rest := handler.remaining[0], handler.remaining[1..];
    assert CompleteReply(handler.id, handler.remaining);
    assert rest != [] ==> rest[|rest| - 1] == handler.remaining[|handler.remaining| - 1];
    forall id ensures Results(s'.attempts, id) + Unfinished(s'.handlers, id) == Received(s'.commands, id) {
      UnfinishedUpdate(s.handlers, h, handler.(remaining := rest), id);
      assert s'.attempts[..|s.attempts|] == s.attempts;
    }
  }

  lemma ReceiveStep(s: State, env: Envelope, sends: seq<Attempt>, s': State)
    requires HandlersInv(s) && CountInv(s) && Step(s, Receive(env, sends), s')
    ensures HandlersInv(s') && CountInv(s')
  {
    if env.command.Some? {
      assert s'.handlers[..|s.handlers|] == s.handlers && s'.commands[..|s.commands|] == s.commands;
    }
  }

  lemma {:induction false} Reachable(states: seq<State>, labels: seq<Label>, i: nat)
    requires Execution(states, labels) && i < |states|
    ensures HandlersInv(states[i]) && CountInv(states[i])
  {
    if i > 0 {
      Reachable(states, labels, i - 1);
      assert Step(states[i - 1], labels[i - 1], states[i]);
      match labels[i - 1] {
        case Receive(env, sends) => ReceiveStep(states[i - 1], env, sends, states[i]);
        case Send(h) => SendStep(states[i - 1], h, states[i]);
      }
    }
  }

  lemma {:induction false} NoneUnfinished(handlers: seq<Handler>, id: Id)
    requires forall h :: 0 <= h < |handlers| && handlers[h].id == id ==> handlers[h].remaining == []
    ensures Unfinished(handlers, id) == 0
  {
    if handlers != [] {
      NoneUnfinished(handlers[..|handlers| - 1], id);
    }
  }

  /** Correlation: the results attempted for an id never outnumber the decodable commands received with
      it, and are as many once the handlers for it have finished. */
  lemma ResultsMatchCommands(states: seq<State>, labels: seq<Label>, i: nat, id: Id)
    requires Execution(states, labels) && i < |states|
    ensures Results(states[i].attempts, id) <= Received(states[i].commands, id)
    ensures (forall h :: 0 <= h < |states[i].handlers| && states[i].handlers[h].id == id ==>
               states[i].handlers[h].remaining == [])
            ==> Results(states[i].attempts, id) == Received(states[i].commands, id)
  {
    Reachable(states, labels, i);
    if forall h :: 0 <= h < |states[i].handlers| && states[i].handlers[h].id == id ==>
         states[i].handlers[h].remaining == [] {
      NoneUnfinished(states[i].handlers, id);
    }
  }
}
