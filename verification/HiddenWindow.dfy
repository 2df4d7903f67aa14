/** hiddenbrowser.Launcher: any number of Open calls, each window on a goroutine of its own, and one
    mutex. Creation is assumed never to return a nil window without an error. */
module HiddenWindow {
  import opened Wrappers

  type OpenId = nat
  // a window is named after the goroutine that creates it
  type Window = nat

  datatype Holder = OpenCall(o: OpenId) | Goroutine(w: Window)

  /** Where a call of Open is. */
  datatype OpenPc =
    | Called
    | Check
    | Refocus(w: Window)
    | AwaitResult(w: Window)
    | Track(w: Window)
    | Unlock
    | Done

  /** Where a window's goroutine is. The window exists from Pumping to Destroying. */
  datatype WindowPc =
    | Creating
    | Failed
    | Pumping
    | WantsClear
    | Clearing
    | ClearUnlock
    | Destroying
    | Destroyed

  datatype State = State(
    holder: Option<Holder>,
    wv: Option<Window>,
    opens: map<OpenId, OpenPc>,
    windows: map<Window, WindowPc>,
    // history: windows on which Open called Window or foreground after they were destroyed, and
    // clears that did not clear the goroutine's own window
    usedDestroyed: set<Window>,
    foreignClears: set<Window>)

  const INITIAL := State(None, None, map[], map[], {}, {})

  datatype Label =
    | Call(o: OpenId)
    | OpenMoves(o: OpenId, g: Window)
    | WindowMoves(w: Window, created: bool)

  function Use(s: State, w: Window): State
    requires w in s.windows
  {
    if s.windows[w].Destroyed? then s.(usedDestroyed := s.usedDestroyed + {w}) else s
  }

  function MoveOpen(s: State, o: OpenId, pc: OpenPc): State {
    s.(opens := s.opens[o := pc])
  }

  function MoveWindow(s: State, w: Window, pc: WindowPc): State {
    s.(windows := s.windows[w := pc])
  }

  ghost predicate OpenStep(s: State, o: OpenId, g: Window, s': State)
    requires o in s.opens
  {
    match s.opens[o]
    case Called =>
      s.holder.None? && s' == MoveOpen(s, o, Check).(holder := Some(OpenCall(o)))
    case Check =>
      if s.wv.Some? then s' == MoveOpen(s, o, Refocus(s.wv.value))
      else g !in s.windows && s' == MoveWindow(MoveOpen(s, o, AwaitResult(g)), g, Creating)
    case Refocus(w) =>
      w in s.windows && s' == MoveOpen(Use(s, w), o, Unlock)
    case AwaitResult(w) =>
      && w in s.windows && !s.windows[w].Creating?
      && s' == MoveOpen(s, o, if s.windows[w].Failed? then Unlock else Track(w))
    case Track(w) =>
      // excluded from capture or not, the window is tracked and brought to the foreground
      w in s.windows && s' == MoveOpen(Use(s, w), o, Unlock).(wv := Some(w))
    case Unlock =>
      s' == MoveOpen(s, o, Done).(holder := None)
    case Done => false
  }

  ghost predicate WindowStep(s: State, w: Window, created: bool, s': State)
    requires w in s.windows
  {
    match s.windows[w]
    case Creating => s' == MoveWindow(s, w, if created then Pumping else Failed)
    case Pumping => s' == MoveWindow(s, w, WantsClear)
    case WantsClear => s.holder.None? && s' == MoveWindow(s, w, Clearing).(holder := Some(Goroutine(w)))
    case Clearing =>
      s' == MoveWindow(s, w, ClearUnlock).(
        wv := None,
        foreignClears := if s.wv == Some(w) then s.foreignClears else s.foreignClears + {w})
    case ClearUnlock => s' == MoveWindow(s, w, Destroying).(holder := None)
    case Destroying => s' == MoveWindow(s, w, Destroyed)
    case _ => false
  }

  ghost predicate Step(s: State, l: Label, s': State) {
    match l
    case Call(o) => o !in s.opens && s' == MoveOpen(s, o, Called)
    case OpenMoves(o, g) => o in s.opens && OpenStep(s, o, g, s')
    case WindowMoves(w, created) => w in s.windows && WindowStep(s, w, created, s')
  }

  ghost predicate Execution(states: seq<State>, labels: seq<Label>) {
    && |states| == |labels| + 1 && states[0] == INITIAL
    && forall i :: 0 <= i < |labels| ==> Step(states[i], labels[i], states[i + 1])
  }

  /** Created, and not yet at the end of its clear step. */
  predicate Live(pc: WindowPc) {
    pc.Pumping? || pc.WantsClear? || pc.Clearing?
  }

  predicate HasMutex(pc: OpenPc) {
    !pc.Called? && !pc.Done?
  }

  /** The window an Open call is creating or about to track. */
  predicate Expects(pc: OpenPc, w: Window) {
    pc == AwaitResult(w) || pc == Track(w)
  }

  ghost predicate MutexInv(s: State) {
    && (forall o :: o in s.opens ==> (HasMutex(s.opens[o]) <==> s.holder == Some(OpenCall(o))))
    && (s.holder.Some? && s.holder.value.OpenCall? ==> s.holder.value.o in s.opens)
  }

  /** What the Open call inside the mutex knows of the window it deals with. */
  ghost predicate RefocusInv(s: State) {
    && (forall o :: o in s.opens && s.opens[o].Refocus? ==> s.wv == Some(s.opens[o].w))
    && (forall o :: o in s.opens && (s.opens[o].AwaitResult? || s.opens[o].Track?) ==>
          s.wv.None? && s.opens[o].w in s.windows)
  }

  ghost predicate AwaitInv(s: State) {
    && (forall o :: o in s.opens && s.opens[o].AwaitResult? && s.opens[o].w in s.windows ==>
          var pc := s.windows[s.opens[o].w];
          pc.Creating? || pc.Failed? || pc.Pumping? || pc.WantsClear?)
    && (forall o :: o in s.opens && s.opens[o].Track? && s.opens[o].w in s.windows ==>
          var pc := s.windows[s.opens[o].w];
          pc.Pumping? || pc.WantsClear?)
  }

  /** A goroutine that clears holds the mutex, and what it clears is its own. */
  ghost predicate ClearInv(s: State) {
    && (forall w :: w in s.windows ==>
          ((s.windows[w].Clearing? || s.windows[w].ClearUnlock?) <==> s.holder == Some(Goroutine(w))))
    && (s.holder.Some? && s.holder.value.Goroutine? ==> s.holder.value.w in s.windows)
  }

  ghost predicate TrackedInv(s: State) {
    && (s.wv.Some? ==> s.wv.value in s.windows && Live(s.windows[s.wv.value]))
    && (forall w :: w in s.windows && s.windows[w].Clearing? ==> s.wv == Some(w))
  }

  /** A window is created or awaited only while its Open holds the mutex; from then on it is tracked. */
  ghost predicate ExpectedInv(s: State) {
    && (forall w :: w in s.windows && s.windows[w].Creating? ==> ExpectedByHolder(s, w))
    && (forall w :: w in s.windows && Live(s.windows[w]) ==> s.wv == Some(w) || ExpectedByHolder(s, w))
  }

  ghost predicate ExpectedByHolder(s: State, w: Window) {
    s.holder.Some? && s.holder.value.OpenCall? && s.holder.value.o in s.opens && Expects(s.opens[s.holder.value.o], w)
  }

  ghost predicate HistoryInv(s: State) {
    s.usedDestroyed == {} && s.foreignClears == {}
  }

  ghost predicate Inv(s: State) {
    MutexInv(s) && RefocusInv(s) && AwaitInv(s) && ClearInv(s) && TrackedInv(s) && ExpectedInv(s) && HistoryInv(s)
  }

  lemma OpenKeepsMutex(s: State, o: OpenId, g: Window, s': State)
    requires MutexInv(s) && ClearInv(s) && o in s.opens && OpenStep(s, o, g, s')
    ensures MutexInv(s') && ClearInv(s')
  {
  }

  lemma OpenKeepsRefocus(s: State, o: OpenId, g: Window, s': State)
    requires MutexInv(s) && RefocusInv(s) && o in s.opens && OpenStep(s, o, g, s')
    ensures RefocusInv(s')
  {
  }

  lemma OpenKeepsAwait(s: State, o: OpenId, g: Window, s': State)
    requires MutexInv(s) && RefocusInv(s) && AwaitInv(s) && o in s.opens && OpenStep(s, o, g, s')
    ensures AwaitInv(s')
  {
  }

  lemma OpenKeepsTracked(s: State, o: OpenId, g: Window, s': State)
    requires MutexInv(s) && RefocusInv(s) && AwaitInv(s) && ClearInv(s) && TrackedInv(s) && HistoryInv(s)
    requires o in s.opens && OpenStep(s, o, g, s')
    ensures TrackedInv(s') && HistoryInv(s')
  {
  }

  lemma OpenKeepsExpected(s: State, o: OpenId, g: Window, s': State)
    requires MutexInv(s) && RefocusInv(s) && AwaitInv(s) && ExpectedInv(s) && o in s.opens && OpenStep(s, o, g, s')
    ensures ExpectedInv(s')
  {
    match s.opens[o] {
      case Check =>
      case AwaitResult(w) =>
      case _ =>
    }
  }

  lemma WindowKeepsMutex(s: State, w: Window, created: bool, s': State)
    requires MutexInv(s) && ClearInv(s) && w in s.windows && WindowStep(s, w, created, s')
    ensures MutexInv(s') && ClearInv(s')
  {
  }

  lemma WindowKeepsOpens(s: State, w: Window, created: bool, s': State)
    requires MutexInv(s) && RefocusInv(s) && AwaitInv(s) && ClearInv(s)
    requires w in s.windows && WindowStep(s, w, created, s')
    ensures RefocusInv(s') && AwaitInv(s')
  {
  }

  lemma WindowKeepsTracked(s: State, w: Window, created: bool, s': State)
    requires ClearInv(s) && TrackedInv(s) && ExpectedInv(s) && MutexInv(s) && RefocusInv(s) && HistoryInv(s)
    requires w in s.windows && WindowStep(s, w, created, s')
    ensures TrackedInv(s') && HistoryInv(s')
  {
  }

  lemma WindowKeepsExpected(s: State, w: Window, created: bool, s': State)
    requires ClearInv(s) && TrackedInv(s) && ExpectedInv(s) && w in s.windows && WindowStep(s, w, created, s')
    ensures ExpectedInv(s')
  {
  }

  lemma StepInv(s: State, l: Label, s': State)
    requires Inv(s) && Step(s, l, s')
    ensures Inv(s')
  {
    match l {
      case Call(o) =>
      case OpenMoves(o, g) =>
        OpenKeepsMutex(s, o, g, s');
        OpenKeepsRefocus(s, o, g, s');
        OpenKeepsAwait(s, o, g, s');
        OpenKeepsTracked(s, o, g, s');
        OpenKeepsExpected(s, o, g, s');
      case WindowMoves(w, created) =>
        WindowKeepsMutex(s, w, created, s');
        WindowKeepsOpens(s, w, created, s');
        WindowKeepsTracked(s, w, created, s');
        WindowKeepsExpected(s, w, created, s');
    }
  }

  lemma {:induction false} Reachable(states: seq<State>, labels: seq<Label>, i: nat)
    requires Execution(states, labels) && i < |states|
    ensures Inv(states[i])
  {
    if i > 0 {
      Reachable(states, labels, i - 1);
      StepInv(states[i - 1], labels[i - 1], states[i]);
    }
  }

  /** Some run leads to s. */
  ghost predicate Reached(s: State) {
    exists states: seq<State>, labels: seq<Label> :: Execution(states, labels) && states[|labels|] == s
  }

  lemma ReachedStep(s: State, l: Label, s': State)
    requires Reached(s) && Step(s, l, s')
    ensures Reached(s')
  {
    var states: seq<State>, labels: seq<Label> :| Execution(states, labels) && states[|labels|] == s;
    var states1, labels1 := states + [s'], labels + [l];
    forall i | 0 <= i < |labels1| ensures Step(states1[i], labels1[i], states1[i + 1]) {
      if i < |labels| {
        assert Step(states[i], labels[i], states[i + 1]);
      }
    }
    assert Execution(states1, labels1) && states1[|labels1|] == s';
  }

  lemma ReachedInv(s: State)
    requires Reached(s)
    ensures Inv(s)
  {
    var states: seq<State>, labels: seq<Label> :| Execution(states, labels) && states[|labels|] == s;
    Reachable(states, labels, |labels|);
  }

  // ---- the code of Open and of a window's goroutine -----------------------------------

  datatype OpenError = CreateFailed | NotHidden

  predicate Drifted(before: WindowPc, after: WindowPc) {
    after == before || (before.Pumping? && after.WantsClear?) || (before.Destroying? && after.Destroyed?)
  }

  /** Launcher. Open holds the mutex from its first statement to its last, so only the goroutines' steps
      outside the mutex come in between. */
  class Launcher {
    var wv: Option<Window>
    ghost var holder: Option<Holder>
    ghost var opens: map<OpenId, OpenPc>
    // where the goroutines are, as far as anyone can tell
    var windows: map<Window, WindowPc>
    ghost var usedDestroyed: set<Window>
    ghost var foreignClears: set<Window>
    // the windows brought to the foreground, in order
    ghost var shown: seq<Window>

    ghost function View(): State
      reads this
    {
      State(holder, wv, opens, windows, usedDestroyed, foreignClears)
    }

    constructor ()
      ensures Reached(View()) && View() == INITIAL
    {
      wv, holder, opens, windows, usedDestroyed, foreignClears := None, None, map[], map[], {}, {};
      shown := [];
      new;
      assert Execution([INITIAL], []);
    }

    /** A user may close any windows at any time, and their goroutines go on to wait for the mutex. */
    method Drift()
      requires Reached(View()) && holder.Some? && holder.value.OpenCall?
      modifies this`windows
      ensures Reached(View()) && windows.Keys == old(windows).Keys
      ensures forall w :: w in windows ==> Drifted(old(windows)[w], windows[w])
    {
      var steps: int := *;
      for i := 0 to if steps < 0 then 0 else steps
        invariant Reached(View()) && windows.Keys == old(windows).Keys
        invariant forall w :: w in windows ==> Drifted(old(windows)[w], windows[w])
      {
        DriftOne();
      }
    }

    method DriftOne()
      requires Reached(View()) && holder.Some? && holder.value.OpenCall?
      modifies this`windows
      ensures Reached(View()) && windows.Keys == old(windows).Keys
      ensures forall w :: w in windows ==> Drifted(old(windows)[w], windows[w])
    {
      var w: Window := *;
      if w in windows && (windows[w].Pumping? || windows[w].Destroying?) {
        ghost var s := View();
        windows := windows[w := if windows[w].Pumping? then WantsClear else Destroyed];
        ReachedStep(s, WindowMoves(w, true), View());
      }
    }

    /** The Window and foreground calls on a tracked or new window. */
    method Foreground(w: Window)
      requires w in windows
      modifies this`usedDestroyed, this`shown
      ensures View() == Use(old(View()), w) && shown == old(shown) + [w]
    {
      shown := shown + [w];
      if windows[w].Destroyed? {
        usedDestroyed := usedDestroyed + {w};
      }
    }

    method Lock(o: OpenId)
      requires Reached(View()) && holder.None? && o !in opens
      modifies this`opens, this`holder
      ensures Reached(View()) && holder == Some(OpenCall(o)) && opens == old(opens)[o := Check]
    {
      ghost var s := View();
      opens, holder := opens[o := Check], Some(OpenCall(o));
      Locked(s, o, View());
    }

    /** The new goroutine, up to the result it sends back. */
    method Create(o: OpenId, g: Window, created: bool)
      requires Reached(View()) && holder == Some(OpenCall(o)) && o in opens && opens[o].Check?
      requires wv.None? && g !in windows
      modifies this`opens, this`windows
      ensures Reached(View()) && opens == old(opens)[o := AwaitResult(g)]
      ensures windows == old(windows)[g := if created then Pumping else Failed]
    {
      ghost var s := View();
      opens, windows := opens[o := AwaitResult(g)], windows[g := if created then Pumping else Failed];
      Created(s, o, g, created, View());
    }

    /** Open by call o; g names the goroutine it may start, and the rest is what Windows makes of a new
        window: whether it can be created, and hidden from capture. */
    method Open(o: OpenId, g: Window, creates: bool, hides: bool) returns (r: Result<(), OpenError>)
      requires Reached(View()) && holder.None? && o !in opens && g !in windows
      modifies this
      ensures Reached(View()) && holder.None?
      // a tracked window is brought back and no other is created
      ensures old(wv).Some? ==>
                && r == Ok(()) && wv == old(wv) && windows.Keys == old(windows).Keys
                && shown == old(shown) + [old(wv).value]
      // otherwise the new window is tracked and brought to the front exactly when it was created, hidden or not
      ensures old(wv).None? ==> windows.Keys == old(windows).Keys + {g} && (windows[g].Failed? <==> !creates)
      ensures old(wv).None? ==> wv == if creates then Some(g) else None
      ensures old(wv).None? ==> shown == old(shown) + if creates then [g] else []
      ensures old(wv).None? ==>
                r == if !creates then Err(CreateFailed) else if !hides then Err(NotHidden) else Ok(())
    {
      Lock(o);
      Drift();
      if wv.Some? {
        TrackedExists(View());
        BringBack(o);
        return Ok(());
      }
      r := OpenNew(o, g, creates, hides);
    }

    /** The rest of Open when no window is tracked. */
    method OpenNew(o: OpenId, g: Window, creates: bool, hides: bool) returns (r: Result<(), OpenError>)
      requires Reached(View()) && holder == Some(OpenCall(o)) && o in opens && opens[o].Check?
      requires wv.None? && g !in windows
      modifies this
      ensures Reached(View()) && holder.None?
      ensures windows.Keys == old(windows).Keys + {g} && (windows[g].Failed? <==> !creates)
      ensures wv == if creates then Some(g) else None
      ensures shown == old(shown) + if creates then [g] else []
      ensures r == if !creates then Err(CreateFailed) else if !hides then Err(NotHidden) else Ok(())
    {
      Create(o, g, creates);
      Drift();
      if !creates {
        GiveUp(o, g);
        return Err(CreateFailed);
      }
      r := Adopt(o, g, hides);
    }

    /** The rest of Open when a window is tracked. */
    method BringBack(o: OpenId)
      requires Reached(View()) && o in opens && opens[o].Check? && wv.Some? && wv.value in windows
      modifies this`opens, this`holder, this`usedDestroyed, this`shown
      ensures Reached(View()) && holder.None? && shown == old(shown) + [wv.value]
    {
      ghost var s := View();
      Foreground(wv.value);
      opens, holder := opens[o := Done], None;
      Refocused(s, o, View());
    }

    /** The rest of Open when there is no new window. */
    method GiveUp(o: OpenId, g: Window)
      requires Reached(View()) && o in opens && opens[o] == AwaitResult(g) && g in windows && windows[g].Failed?
      modifies this`opens, this`holder
      ensures Reached(View()) && holder.None?
    {
      ghost var s := View();
      opens, holder := opens[o := Done], None;
      CreationFailed(s, o, g, View());
    }

    /** The rest of Open once the window is there. */
    method Adopt(o: OpenId, g: Window, hides: bool) returns (r: Result<(), OpenError>)
      requires Reached(View()) && o in opens && opens[o] == AwaitResult(g) && g in windows
      requires windows[g].Pumping? || windows[g].WantsClear?
      modifies this`wv, this`opens, this`holder, this`usedDestroyed, this`shown
      ensures Reached(View()) && holder.None? && wv == Some(g) && shown == old(shown) + [g]
      ensures r == if hides then Ok(()) else Err(NotHidden)
    {
      ghost var s := View();
      wv := Some(g);
      Foreground(g);
      opens, holder := opens[o := Done], None;
      Tracked(s, o, g, View());
      return if hides then Ok(()) else Err(NotHidden);
    }

    /** The end of a window's goroutine, after its message loop. */
    method Close(w: Window)
      requires Reached(View()) && holder.None? && w in windows && windows[w].WantsClear?
      modifies this
      ensures Reached(View()) && holder.None?
      ensures wv.None? && windows == old(windows)[w := Destroyed]
    {
      ghost var s := View();
      wv := None;
      windows := windows[w := Destroyed];
      Closed(s, w, View());
    }
  }

  lemma TrackedExists(s: State)
    requires Reached(s) && s.wv.Some?
    ensures s.wv.value in s.windows
  {
    ReachedInv(s);
  }

  lemma ClearsOwn(s: State, w: Window)
    requires Reached(s) && w in s.windows && s.windows[w].Clearing?
    ensures s.wv == Some(w)
  {
    ReachedInv(s);
  }

  lemma Closed(s: State, w: Window, t: State)
    requires Reached(s) && s.holder.None? && w in s.windows && s.windows[w].WantsClear?
    requires t == MoveWindow(s, w, Destroyed).(wv := None)
    ensures Reached(t)
  {
    var s1 := MoveWindow(s, w, Clearing).(holder := Some(Goroutine(w)));
    ReachedStep(s, WindowMoves(w, true), s1);
    ClearsOwn(s1, w);
    var s2 := MoveWindow(s1, w, ClearUnlock).(wv := None);
    ReachedStep(s1, WindowMoves(w, true), s2);
    CloseUnlocks(s2, w, t);
  }

  lemma CloseUnlocks(s: State, w: Window, t: State)
    requires Reached(s) && w in s.windows && s.windows[w].ClearUnlock?
    requires t == MoveWindow(s, w, Destroyed).(holder := None)
    ensures Reached(t)
  {
    var s1 := MoveWindow(s, w, Destroying).(holder := None);
    ReachedStep(s, WindowMoves(w, true), s1);
    ReachedStep(s1, WindowMoves(w, true), t);
  }

  lemma Created(s: State, o: OpenId, g: Window, created: bool, t: State)
    requires Reached(s) && o in s.opens && s.opens[o].Check? && s.wv.None? && g !in s.windows
    requires t == MoveWindow(MoveOpen(s, o, AwaitResult(g)), g, if created then Pumping else Failed)
    ensures Reached(t)
  {
    var s1 := MoveWindow(MoveOpen(s, o, AwaitResult(g)), g, Creating);
    ReachedStep(s, OpenMoves(o, g), s1);
    assert t == MoveWindow(s1, g, if created then Pumping else Failed);
    ReachedStep(s1, WindowMoves(g, created), t);
  }

  lemma Locked(s: State, o: OpenId, t: State)
    requires Reached(s) && s.holder.None? && o !in s.opens
    requires t == MoveOpen(s, o, Check).(holder := Some(OpenCall(o)))
    ensures Reached(t)
  {
    var s1 := MoveOpen(s, o, Called);
    ReachedStep(s, Call(o), s1);
    ReachedStep(s1, OpenMoves(o, 0), MoveOpen(s1, o, Check).(holder := Some(OpenCall(o))));
    assert t == MoveOpen(s1, o, Check).(holder := Some(OpenCall(o)));
  }

  lemma Refocused(s: State, o: OpenId, t: State)
    requires Reached(s) && o in s.opens && s.opens[o] == Check && s.wv.Some? && s.wv.value in s.windows
    requires t == MoveOpen(Use(s, s.wv.value), o, Done).(holder := None)
    ensures Reached(t)
  {
    var s1 := MoveOpen(s, o, Refocus(s.wv.value));
    var s2 := MoveOpen(Use(s1, s.wv.value), o, Unlock);
    ReachedStep(s, OpenMoves(o, 0), s1);
    ReachedStep(s1, OpenMoves(o, 0), s2);
    ReachedStep(s2, OpenMoves(o, 0), MoveOpen(s2, o, Done).(holder := None));
    assert t == MoveOpen(s2, o, Done).(holder := None);
  }

  lemma CreationFailed(s: State, o: OpenId, g: Window, t: State)
    requires Reached(s) && o in s.opens && s.opens[o] == AwaitResult(g) && g in s.windows && s.windows[g].Failed?
    requires t == MoveOpen(s, o, Done).(holder := None)
    ensures Reached(t)
  {
    var s1 := MoveOpen(s, o, Unlock);
    ReachedStep(s, OpenMoves(o, g), s1);
    ReachedStep(s1, OpenMoves(o, g), MoveOpen(s1, o, Done).(holder := None));
    assert t == MoveOpen(s1, o, Done).(holder := None);
  }

  lemma Tracked(s: State, o: OpenId, g: Window, t: State)
    requires Reached(s) && o in s.opens && s.opens[o] == AwaitResult(g) && g in s.windows
    requires s.windows[g].Pumping? || s.windows[g].WantsClear?
    requires t == MoveOpen(Use(s.(wv := Some(g)), g), o, Done).(holder := None)
    ensures Reached(t)
  {
    var s1 := MoveOpen(s, o, Track(g));
    var s2 := MoveOpen(Use(s1, g), o, Unlock).(wv := Some(g));
    ReachedStep(s, OpenMoves(o, g), s1);
    ReachedStep(s1, OpenMoves(o, g), s2);
    ReachedStep(s2, OpenMoves(o, g), MoveOpen(s2, o, Done).(holder := None));
    assert t == MoveOpen(s2, o, Done).(holder := None);
  }

  /** At most one window is between its creation and its clear step; every clear clears the goroutine's
      own window; Open never uses a destroyed window. */
  lemma OneWindow(states: seq<State>, labels: seq<Label>, i: nat)
    requires Execution(states, labels) && i < |states|
    ensures forall v, w | v in states[i].windows && w in states[i].windows ::
              Live(states[i].windows[v]) && Live(states[i].windows[w]) ==> v == w
    ensures states[i].foreignClears == {} && states[i].usedDestroyed == {}
    ensures states[i].wv.Some? ==>
              states[i].wv.value in states[i].windows && Live(states[i].windows[states[i].wv.value])
  {
    Reachable(states, labels, i);
  }
}
