/** Who may destroy an icon handle: Tray.Run's teardown against any number of SetIconPath calls. */
module TrayIcon {
  import opened Wrappers

  // every load from a file gives a new handle, above the stock icon's
  type Handle = nat

  const NULL: Handle := 0
  const STOCK: Handle := 1

  /** Where Run is. Deleted to Ended is its deferred function. */
  datatype RunPc =
    | NotStarted
    | Published
    | Added
    | AddFailed
    | Deleted
    | HasFinal(icon: Handle, owned: bool)
    | Ended

  /** Where a call of SetIconPath is. */
  datatype SetterPc =
    | Called
    | Loaded(icon: Handle)
    | Swapped(prev: Handle, oldOwned: bool)
    | MustDestroy(prev: Handle)
    | SetterDone

  /** Auxiliary: who may still destroy a handle. */
  datatype Right = OfTray | OfSetter(id: nat) | OfTeardown | Nobody

  datatype State = State(
    run: RunPc,
    hIcon: Handle,
    ownsHIcon: bool,
    setters: map<nat, SetterPc>,
    loaded: nat,
    // calls of DestroyIcon, in order
    destroyed: seq<Handle>,
    rights: map<Handle, Right>)

  const INITIAL := State(NotStarted, STOCK, false, map[], 0, [], map[])

  datatype Label =
    | StartRun(fromFile: bool)
    | AddIcon(ok: bool)
    | DeleteIcon
    | ReadFinal
    | DestroyFinal
    | Call(id: nat)
    | Load(id: nat, ok: bool)
    | Swap(id: nat)
    | Modify(id: nat, ok: bool)
    | DestroyOld(id: nat)

  predicate InShell(s: State) {
    s.run.Added?
  }

  /** The teardown has not read the icon yet. */
  predicate BeforeRead(run: RunPc) {
    run.Published? || run.Added? || run.AddFailed? || run.Deleted?
  }

  function MoveSetter(s: State, id: nat, pc: SetterPc): State {
    s.(setters := s.setters[id := pc])
  }

  /** The handle the next load from a file gives. */
  function Fresh(s: State): Handle {
    STOCK + s.loaded + 1
  }

  // ---- critical sections of the tray's mutexes ------------------------------------

  function AfterPublish(s: State, fromFile: bool): State {
    if fromFile
    then s.(run := Published, hIcon := Fresh(s), ownsHIcon := true, loaded := s.loaded + 1,
            rights := s.rights[Fresh(s) := OfTray])
    else s.(run := Published, hIcon := STOCK, ownsHIcon := false)
  }

  function AfterReadFinal(s: State): State {
    s.(run := HasFinal(s.hIcon, s.ownsHIcon),
       rights := if s.ownsHIcon then s.rights[s.hIcon := OfTeardown] else s.rights)
  }

  function AfterSwap(s: State, id: nat, icon: Handle): State {
    MoveSetter(s, id, Swapped(s.hIcon, s.ownsHIcon)).(
      hIcon := icon, ownsHIcon := true,
      rights := if !BeforeRead(s.run) then s.rights[icon := Nobody]
                else if s.ownsHIcon then s.rights[icon := OfTray][s.hIcon := OfSetter(id)]
                else s.rights[icon := OfTray])
  }

  // ---- the protocol -------------------------------------------------------------

  /** With `strict`, NIM_MODIFY succeeds only between NIM_ADD and NIM_DELETE. */
  predicate Enabled(strict: bool, s: State, l: Label) {
    match l
    case StartRun(_) => s.run.NotStarted?
    case AddIcon(_) => s.run.Published?
    case DeleteIcon => s.run.Added?
    case ReadFinal => s.run.Deleted?
    case DestroyFinal => s.run.HasFinal?
    case Call(id) => id !in s.setters
    case Load(id, _) => id in s.setters && s.setters[id].Called?
    case Swap(id) => id in s.setters && s.setters[id].Loaded?
    case Modify(id, ok) => id in s.setters && s.setters[id].Swapped? && (strict && ok ==> InShell(s))
    case DestroyOld(id) => id in s.setters && s.setters[id].MustDestroy?
  }

  function Next(s: State, l: Label): State
    requires Enabled(false, s, l)
  {
    match l
    case StartRun(fromFile) => AfterPublish(s, fromFile)
    case AddIcon(ok) => s.(run := if ok then Added else AddFailed)
    case DeleteIcon => s.(run := Deleted)
    case ReadFinal => AfterReadFinal(s)
    case DestroyFinal =>
      if s.run.owned
      then s.(run := Ended, destroyed := s.destroyed + [s.run.icon], rights := s.rights[s.run.icon := Nobody])
      else s.(run := Ended)
    case Call(id) => MoveSetter(s, id, Called)
    case Load(id, ok) =>
      if s.run.NotStarted? || !ok then MoveSetter(s, id, SetterDone)
      else MoveSetter(s, id, Loaded(Fresh(s))).(loaded := s.loaded + 1, rights := s.rights[Fresh(s) := OfSetter(id)])
    case Swap(id) => AfterSwap(s, id, s.setters[id].icon)
    case Modify(id, ok) =>
      var pc := s.setters[id];
      MoveSetter(s, id, if ok && pc.oldOwned && pc.prev != NULL then MustDestroy(pc.prev) else SetterDone)
    case DestroyOld(id) =>
      var prev := s.setters[id].prev;
      MoveSetter(s, id, SetterDone).(destroyed := s.destroyed + [prev], rights := s.rights[prev := Nobody])
  }

  predicate Step(strict: bool, s: State, l: Label, s': State) {
    Enabled(strict, s, l) && s' == Next(s, l)
  }

  ghost predicate Execution(strict: bool, states: seq<State>, labels: seq<Label>) {
    && |states| == |labels| + 1 && states[0] == INITIAL
    && forall i :: 0 <= i < |labels| ==> Step(strict, states[i], labels[i], states[i + 1])
  }

  predicate Has(s: State, h: Handle, r: Right) {
    STOCK < h < Fresh(s) && h in s.rights && s.rights[h] == r
  }

  ghost predicate RightsInv(s: State) {
    && (forall h :: h in s.rights ==> STOCK < h < Fresh(s))
    && (s.ownsHIcon && BeforeRead(s.run) ==> Has(s, s.hIcon, OfTray))
    && (s.run.NotStarted? ==> !s.ownsHIcon)
    && (s.run.HasFinal? && s.run.owned ==> Has(s, s.run.icon, OfTeardown))
  }

  ghost predicate LoadedInv(s: State) {
    && (forall id :: id in s.setters && s.setters[id].Loaded? ==>
          Has(s, s.setters[id].icon, OfSetter(id)) && !s.run.NotStarted?)
  }

  ghost predicate SwappedInv(s: State) {
    && (forall id :: id in s.setters && s.setters[id].Swapped? && s.setters[id].oldOwned && BeforeRead(s.run) ==>
          Has(s, s.setters[id].prev, OfSetter(id)))
    && (forall id :: id in s.setters && s.setters[id].Swapped? ==> !s.run.NotStarted?)
  }

  ghost predicate MustDestroyInv(s: State) {
    forall id :: id in s.setters && s.setters[id].MustDestroy? ==> Has(s, s.setters[id].prev, OfSetter(id))
  }

  /** What was destroyed may not be destroyed again. */
  ghost predicate SpentInv(s: State) {
    forall i :: 0 <= i < |s.destroyed| ==> Has(s, s.destroyed[i], Nobody)
  }

  ghost predicate OnceInv(s: State) {
    forall i, j :: 0 <= i < j < |s.destroyed| ==> s.destroyed[i] != s.destroyed[j]
  }

  ghost predicate Inv(s: State) {
    RightsInv(s) && LoadedInv(s) && SwappedInv(s) && MustDestroyInv(s) && SpentInv(s) && OnceInv(s)
  }

  lemma StepKeepsRights(s: State, l: Label, s': State)
    requires RightsInv(s) && LoadedInv(s) && SwappedInv(s) && MustDestroyInv(s) && Step(true, s, l, s')
    ensures RightsInv(s')
  {
  }

  lemma StepKeepsLoaded(s: State, l: Label, s': State)
    requires RightsInv(s) && LoadedInv(s) && MustDestroyInv(s) && Step(true, s, l, s')
    ensures LoadedInv(s')
  {
  }

  lemma StepKeepsSwapped(s: State, l: Label, s': State)
    requires RightsInv(s) && LoadedInv(s) && SwappedInv(s) && MustDestroyInv(s) && Step(true, s, l, s')
    ensures SwappedInv(s')
  {
  }

  lemma StepKeepsMustDestroy(s: State, l: Label, s': State)
    requires RightsInv(s) && LoadedInv(s) && SwappedInv(s) && MustDestroyInv(s) && Step(true, s, l, s')
    ensures MustDestroyInv(s')
  {
  }

  lemma StepKeepsSpent(s: State, l: Label, s': State)
    requires RightsInv(s) && LoadedInv(s) && MustDestroyInv(s) && SpentInv(s) && Step(true, s, l, s')
    ensures SpentInv(s')
  {
  }

  lemma StepKeepsOnce(s: State, l: Label, s': State)
    requires RightsInv(s) && MustDestroyInv(s) && SpentInv(s) && OnceInv(s) && Step(true, s, l, s')
    ensures OnceInv(s')
  {
  }

  lemma StepInv(s: State, l: Label, s': State)
    requires Inv(s) && Step(true, s, l, s')
    ensures Inv(s')
  {
    StepKeepsRights(s, l, s');
    StepKeepsLoaded(s, l, s');
    StepKeepsSwapped(s, l, s');
    StepKeepsMustDestroy(s, l, s');
    StepKeepsSpent(s, l, s');
    StepKeepsOnce(s, l, s');
  }

  lemma {:induction false} Reachable(states: seq<State>, labels: seq<Label>, i: nat)
    requires Execution(true, states, labels) && i < |states|
    ensures Inv(states[i])
  {
    if i > 0 {
      Reachable(states, labels, i - 1);
      StepInv(states[i - 1], labels[i - 1], states[i]);
    }
  }

  /** Some run leads to s. */
  ghost predicate Reached(s: State) {
    exists states: seq<State>, labels: seq<Label> :: Execution(true, states, labels) && states[|labels|] == s
  }

  lemma ReachedStep(s: State, l: Label)
    requires Reached(s) && Enabled(true, s, l)
    ensures Reached(Next(s, l))
  {
    var states: seq<State>, labels: seq<Label> :| Execution(true, states, labels) && states[|labels|] == s;
    var states1, labels1 := Extend(states, labels, l, Next(s, l));
  }

  lemma ReachedInv(s: State)
    requires Reached(s)
    ensures Inv(s)
  {
    var states: seq<State>, labels: seq<Label> :| Execution(true, states, labels) && states[|labels|] == s;
    Reachable(states, labels, |labels|);
  }

  // ---- the code --------------------------------------------------------------------

  /** Tray with its trayState. The shell and the other goroutines take steps in between. */
  class Tray {
    var hIcon: Handle
    var ownsHIcon: bool
    var run: RunPc
    var setters: map<nat, SetterPc>
    var loaded: nat
    var destroyed: seq<Handle>
    ghost var rights: map<Handle, Right>

    ghost function View(): State
      reads this
    {
      State(run, hIcon, ownsHIcon, setters, loaded, destroyed, rights)
    }

    constructor ()
      ensures View() == INITIAL && Reached(View())
    {
      hIcon, ownsHIcon := STOCK, false;
      run, setters, loaded, destroyed, rights := NotStarted, map[], 0, [], map[];
      new;
      assert Execution(true, [INITIAL], []);
    }

    /** Any number of steps of somebody else: of Run if `me` is a call of SetIconPath, and of any other
        such call. */
    method Others(me: Option<nat>)
      requires Reached(View())
      modifies this
      ensures Reached(View())
      ensures me.Some? && me.value in old(setters) ==>
                me.value in setters && setters[me.value] == old(setters)[me.value]
      ensures me.None? ==> run == old(run)
      ensures old(destroyed) <= destroyed
      // an icon in the shell was there already, or was about to be added
      ensures run.Published? ==> old(run).Published?
      ensures run.Added? ==> old(run).Added? || old(run).Published?
    {
      var steps: int := *;
      for i := 0 to if steps < 0 then 0 else steps
        invariant Reached(View())
        invariant me.Some? && me.value in old(setters) ==>
                    me.value in setters && setters[me.value] == old(setters)[me.value]
        invariant me.None? ==> run == old(run)
        invariant old(destroyed) <= destroyed
        invariant run.Published? ==> old(run).Published?
        invariant run.Added? ==> old(run).Added? || old(run).Published?
      {
        var ofRun: bool, id: nat := *, *;
        if ofRun && me.Some? {
          RunMoves();
        } else if !ofRun && me != Some(id) {
          SetterMoves(id);
        }
      }
    }

    /** Run's next step after its publication, if it can take one. */
    method RunMoves()
      requires Reached(View())
      modifies this`run, this`rights, this`destroyed
      ensures Reached(View()) && old(destroyed) <= destroyed
      ensures !run.Published? && (run.Added? ==> old(run).Published?)
    {
      if run.Published? {
        Add();
      } else if run.Added? {
        Delete();
      } else if run.Deleted? {
        var _, _ := FinalIcon();
      } else if run.HasFinal? {
        DestroyIcon();
      }
    }

    /** The next step of call id of SetIconPath. */
    method SetterMoves(id: nat)
      requires Reached(View())
      modifies this`hIcon, this`ownsHIcon, this`setters, this`loaded, this`destroyed, this`rights
      ensures Reached(View()) && old(destroyed) <= destroyed
      ensures forall other :: other in old(setters) && other != id ==>
                other in setters && setters[other] == old(setters)[other]
    {
      if id !in setters {
        ReachedStep(View(), Call(id));
        setters := setters[id := Called];
      } else if setters[id].Called? {
        Load(id);
      } else if setters[id].Loaded? {
        var _, _ := Swap(id);
      } else if setters[id].Swapped? {
        var succeeds: bool := *;
        var _ := Modify(id, succeeds);
      } else if setters[id].MustDestroy? {
        DestroyPrevious(id);
      }
    }

    /** SetIconPath up to its load. */
    method Load(id: nat)
      requires Reached(View()) && id in setters && setters[id].Called?
      modifies this`setters, this`loaded, this`rights
      ensures Reached(View())
      ensures id in setters && setters == old(setters)[id := setters[id]]
    {
      var ok: bool := *;
      ReachedStep(View(), Label.Load(id, ok));
      var icon: Handle := STOCK + loaded + 1;
      if run.NotStarted? || !ok {
        setters := setters[id := SetterDone];
      } else {
        setters, loaded, rights := setters[id := Loaded(icon)], loaded + 1, rights[icon := OfSetter(id)];
      }
    }

    method Add()
      requires Reached(View()) && run.Published?
      modifies this`run
      ensures Reached(View()) && (run.Added? || run.AddFailed?)
    {
      var ok: bool := *;
      ReachedStep(View(), AddIcon(ok));
      run := if ok then Added else AddFailed;
    }

    /** Run up to the publication of its state; h is the icon loaded from the file, if that worked. */
    method Publish(h: Option<Handle>)
      requires Reached(View()) && run.NotStarted? && (h.Some? ==> h.value == Fresh(View()))
      modifies this
      ensures Reached(View()) && run.Published?
      ensures if h.Some? then hIcon == h.value && ownsHIcon else hIcon == STOCK && !ownsHIcon
      ensures setters == old(setters) && destroyed == old(destroyed)
    {
      ReachedStep(View(), StartRun(h.Some?));
      hIcon, ownsHIcon := STOCK, false;
      if h.Some? {
        hIcon, ownsHIcon := h.value, true;
        loaded, rights := loaded + 1, rights[h.value := OfTray];
      }
      run := Published;
    }

    method Delete()
      requires Reached(View()) && run.Added?
      modifies this`run
      ensures Reached(View()) && run.Deleted?
    {
      ReachedStep(View(), DeleteIcon);
      run := Deleted;
    }

    /** What the teardown reads. */
    method FinalIcon() returns (icon: Handle, owned: bool)
      requires Reached(View()) && run.Deleted?
      modifies this`run, this`rights
      ensures Reached(View()) && run == HasFinal(icon, owned)
      ensures icon == hIcon && owned == ownsHIcon
    {
      ReachedStep(View(), ReadFinal);
      icon, owned := hIcon, ownsHIcon;
      run := HasFinal(icon, owned);
      if owned {
        rights := rights[icon := OfTeardown];
      }
    }

    method DestroyIcon()
      requires Reached(View()) && run.HasFinal?
      modifies this`run, this`destroyed, this`rights
      ensures Reached(View()) && run.Ended?
      ensures if old(run).owned
              then destroyed == old(destroyed) + [old(run).icon]
                   && old(run).icon != STOCK && old(run).icon !in old(destroyed)
              else destroyed == old(destroyed)
    {
      ReachedStep(View(), DestroyFinal);
      FinalNotDestroyed(View());
      if run.owned {
        destroyed, rights := destroyed + [run.icon], rights[run.icon := Nobody];
      }
      run := Ended;
    }

    /** Run's deferred function, once the icon was added. */
    method Teardown() returns (icon: Handle, owned: bool)
      requires Reached(View()) && run.Added?
      modifies this
      ensures Reached(View()) && run.Ended? && old(destroyed) <= destroyed
      // the icon in place when the teardown looked is destroyed now, for the first time
      ensures icon == hIcon && owned == ownsHIcon
      ensures owned ==>
                && icon != STOCK && destroyed != [] && destroyed[|destroyed| - 1] == icon
                && icon !in destroyed[..|destroyed| - 1]
    {
      Delete();
      Others(None);
      icon, owned := FinalIcon();
      ghost var before := destroyed;
      DestroyIcon();
      assert owned ==> destroyed[..|destroyed| - 1] == before;
    }

    /** SetIconPath puts a loaded icon in place of the current one. */
    method Swap(id: nat) returns (prev: Handle, oldOwned: bool)
      requires Reached(View()) && id in setters && setters[id].Loaded?
      modifies this`hIcon, this`ownsHIcon, this`setters, this`rights
      ensures Reached(View()) && setters == old(setters)[id := Swapped(prev, oldOwned)]
      ensures prev == old(hIcon) && oldOwned == old(ownsHIcon) && hIcon == old(setters[id].icon) && ownsHIcon
    {
      ReachedStep(View(), Label.Swap(id));
      var icon := setters[id].icon;
      prev, oldOwned := hIcon, ownsHIcon;
      setters := setters[id := Swapped(prev, oldOwned)];
      rights := if !BeforeRead(run) then rights[icon := Nobody]
                else if oldOwned then rights[icon := OfTray][prev := OfSetter(id)]
                else rights[icon := OfTray];
      hIcon, ownsHIcon := icon, true;
    }

    /** SetIconPath as call id, from where it has loaded its icon; succeeds is what the shell makes of NIM_MODIFY
        while it has the tray's icon. shown tells whether NIM_MODIFY succeeded; prev is the icon that was in
        place. */
    method SetIconPath(id: nat, succeeds: bool) returns (shown: bool, prev: Handle, oldOwned: bool)
      requires Reached(View()) && id in setters && setters[id].Loaded?
      modifies this
      ensures Reached(View()) && id in setters && setters[id].SetterDone? && old(destroyed) <= destroyed
      ensures prev == old(hIcon) && oldOwned == old(ownsHIcon)
      ensures shown ==> succeeds
      ensures succeeds && old(run).Added? && run.Added? ==> shown
      // an icon this tray loaded is destroyed once it is no longer shown, for the first time
      ensures shown && oldOwned ==>
                && prev != STOCK && destroyed != [] && destroyed[|destroyed| - 1] == prev
                && prev !in destroyed[..|destroyed| - 1]
    {
      prev, oldOwned := Swap(id);
      Others(Some(id));
      shown := Modify(id, succeeds);
      Others(Some(id));
      if shown && oldOwned {
        DestroyPrevious(id);
      }
    }

    /** NIM_MODIFY, which fails once the icon is deleted, and what SetIconPath makes of it. */
    method Modify(id: nat, succeeds: bool) returns (ok: bool)
      requires Reached(View()) && id in setters && setters[id].Swapped?
      modifies this`setters
      ensures Reached(View()) && id in setters && setters == old(setters)[id := setters[id]]
      ensures ok <==> succeeds && run.Added?
      ensures setters[id] == if ok && old(setters[id].oldOwned) then MustDestroy(old(setters[id].prev)) else SetterDone
    {
      ok := succeeds && run.Added?;
      SwappedNotNull(View(), id);
      ReachedStep(View(), Label.Modify(id, ok));
      var pc := setters[id];
      setters := setters[id := if ok && pc.oldOwned && pc.prev != NULL then MustDestroy(pc.prev) else SetterDone];
    }

    method DestroyPrevious(id: nat)
      requires Reached(View()) && id in setters && setters[id].MustDestroy?
      modifies this`setters, this`destroyed, this`rights
      ensures Reached(View()) && setters == old(setters)[id := SetterDone]
      ensures destroyed == old(destroyed) + [old(setters[id].prev)]
      ensures old(setters[id].prev) != STOCK && old(setters[id].prev) !in old(destroyed)
    {
      PreviousNotDestroyed(View(), id);
      ReachedStep(View(), DestroyOld(id));
      var prev := setters[id].prev;
      destroyed, rights, setters := destroyed + [prev], rights[prev := Nobody], setters[id := SetterDone];
    }
  }

  lemma PreviousNotDestroyed(s: State, id: nat)
    requires Reached(s) && id in s.setters && s.setters[id].MustDestroy?
    ensures s.setters[id].prev != STOCK && s.setters[id].prev !in s.destroyed
  {
    ReachedInv(s);
  }

  lemma SwappedNotNull(s: State, id: nat)
    requires Reached(s) && id in s.setters && s.setters[id].Swapped?
    ensures s.run.Added? && s.setters[id].oldOwned ==> s.setters[id].prev != NULL
  {
    ReachedInv(s);
  }

  lemma FinalNotDestroyed(s: State)
    requires Reached(s) && s.run.HasFinal?
    ensures s.run.owned ==> s.run.icon != STOCK && s.run.icon !in s.destroyed
  {
    ReachedInv(s);
  }

  /** Every handle is destroyed at most once, only handles loaded from a file are, and the stock icon
      never is. */
  lemma DestroyedAtMostOnce(states: seq<State>, labels: seq<Label>, i: nat)
    requires Execution(true, states, labels) && i < |states|
    ensures forall j, k :: 0 <= j < k < |states[i].destroyed| ==> states[i].destroyed[j] != states[i].destroyed[k]
    ensures forall j :: 0 <= j < |states[i].destroyed| ==>
              states[i].destroyed[j] != STOCK && states[i].destroyed[j] < Fresh(states[i])
    ensures forall id :: id in states[i].setters && states[i].setters[id].MustDestroy? ==>
              states[i].setters[id].prev !in states[i].destroyed
    ensures states[i].run.HasFinal? && states[i].run.owned ==> states[i].run.icon !in states[i].destroyed
  {
    Reachable(states, labels, i);
  }

  /** The assumption on NIM_MODIFY is needed. Whenever the teardown has destroyed the icon in place while
      a SetIconPath call holds a freshly loaded one, that call would destroy the same icon again if its
      NIM_MODIFY succeeded. */
  lemma LateModifyDestroysTwice(s: State, id: nat) returns (s1: State, s2: State, s3: State)
    requires s.run.Ended? && s.ownsHIcon && s.hIcon != NULL && s.hIcon in s.destroyed
    requires id in s.setters && s.setters[id].Loaded?
    ensures Step(true, s, Swap(id), s1) && Step(false, s1, Modify(id, true), s2) && Step(true, s2, DestroyOld(id), s3)
    ensures s3.destroyed == s.destroyed + [s.hIcon] && s.hIcon in s.destroyed
  {
    var icon := s.setters[id].icon;
    s1 := MoveSetter(s, id, Swapped(s.hIcon, true)).(
      hIcon := icon, ownsHIcon := true, rights := s.rights[icon := Nobody]);
    s2 := MoveSetter(s1, id, MustDestroy(s.hIcon));
    s3 := MoveSetter(s2, id, SetterDone).(
      destroyed := s.destroyed + [s.hIcon], rights := s2.rights[s.hIcon := Nobody]);
  }

  lemma Extend(states: seq<State>, labels: seq<Label>, l: Label, s: State)
      returns (states': seq<State>, labels': seq<Label>)
    requires Execution(true, states, labels) && Step(true, states[|labels|], l, s)
    ensures Execution(true, states', labels') && |labels'| == |labels| + 1 && states'[|labels'|] == s
  {
    states', labels' := states + [s], labels + [l];
    forall i | 0 <= i < |labels'| ensures Step(true, states'[i], labels'[i], states'[i + 1]) {
      if i < |labels| {
        assert Step(true, states[i], labels[i], states[i + 1]);
      }
    }
  }

  const LOADING := State(Added, 2, true, map[0 := Loaded(3)], 2, [], map[2 := OfTray, 3 := OfSetter(0)])

  lemma LoadingReached() returns (states: seq<State>, labels: seq<Label>)
    ensures Execution(true, states, labels) && states[|labels|] == LOADING
  {
    var s1 := INITIAL.(run := Published, hIcon := 2, ownsHIcon := true, loaded := 1, rights := map[2 := OfTray]);
    var s2 := s1.(run := Added);
    var s3 := s2.(setters := map[0 := Called]);
    states, labels := [INITIAL], [];
    states, labels := Extend(states, labels, StartRun(true), s1);
    states, labels := Extend(states, labels, AddIcon(true), s2);
    states, labels := Extend(states, labels, Call(0), s3);
    states, labels := Extend(states, labels, Load(0, true), LOADING);
  }

  /** Such a state is reached by an ordinary shutdown. */
  lemma TeardownDuringSetIconPath() returns (states: seq<State>, labels: seq<Label>)
    ensures Execution(true, states, labels)
    ensures var s := states[|labels|];
            && s.run.Ended? && s.ownsHIcon && s.hIcon != NULL && s.hIcon in s.destroyed
            && 0 in s.setters && s.setters[0].Loaded?
  {
    states, labels := LoadingReached();
    var s5 := LOADING.(run := Deleted);
    var s6 := s5.(run := HasFinal(2, true), rights := map[2 := OfTeardown, 3 := OfSetter(0)]);
    var s7 := s6.(run := Ended, destroyed := [2], rights := map[2 := Nobody, 3 := OfSetter(0)]);
    states, labels := Extend(states, labels, DeleteIcon, s5);
    states, labels := Extend(states, labels, ReadFinal, s6);
    states, labels := Extend(states, labels, DestroyFinal, s7);
  }
}
