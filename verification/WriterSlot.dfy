/**
The DDS writer of a route to DDS is one atomic word. Setters load it, create a writer and install it by
compare-and-exchange, deleting their own writer if another was first; deleters swap in 0 and delete what
they took out; callbacks load it and use what they saw. Every atomic action is one step, and any number
of calls interleave.
*/
module WriterSlot {
  import opened Wrappers

  type Handle = int

  /**
  Where a call stands. `Created` holds a writer not installed yet, `Lost` and `Taken` one still to be deleted. A
  callback uses what it loaded; the serial tells which writer had the handle then.
  */
  datatype Pc =
    | SetStart
    | SetCreate
    | SetCreated(handle: Handle)
    | SetLost(handle: Handle)
    | DelStart
    | DelTaken(handle: Handle)
    | CbStart
    | CbUse(handle: Handle, serial: nat)

  /**
  `live` gives each live writer the serial number of its creation: DDS may use a handle again after
  deletion, but not the serial. `installed`, `lost`, `deleted` and `seen` are the serials that were put
  in the slot, lost the race, were deleted, or were loaded by a callback.
  */
  datatype State = State(
    slot: Handle, live: map<Handle, nat>, next: nat, calls: map<nat, Pc>,
    installed: set<nat>, lost: set<nat>, deleted: seq<nat>, seen: set<nat>)

  datatype Step =
    | Call(t: nat, pc: Pc)
    | Load(t: nat)
    | Create(t: nat, outcome: Option<Handle>)
    | Exchange(t: nat)
    | DeleteOwn(t: nat)
    | Swap(t: nat)
    | CbLoad(t: nat)
    | CbDone(t: nat)

  const INIT := State(0, map[], 0, map[], {}, {}, [], {})

  predicate Enabled(s: State, step: Step) {
    match step
    case Call(t, pc) => t !in s.calls && (pc == SetStart || pc == DelStart || pc == CbStart)
    case Load(t) => t in s.calls && s.calls[t] == SetStart
    case Create(t, outcome) =>
      t in s.calls && s.calls[t] == SetCreate && (outcome.Some? ==> outcome.value > 0 && outcome.value !in s.live)
    case Exchange(t) => t in s.calls && s.calls[t].SetCreated?
    case DeleteOwn(t) => t in s.calls && (s.calls[t].SetLost? || s.calls[t].DelTaken?)
    case Swap(t) => t in s.calls && s.calls[t] == DelStart
    case CbLoad(t) => t in s.calls && s.calls[t] == CbStart
    case CbDone(t) => t in s.calls && s.calls[t].CbUse?
  }

  function Finish(s: State, t: nat): State {
    s.(calls := s.calls - {t})
  }

  function Goto(s: State, t: nat, pc: Pc): State {
    s.(calls := s.calls[t := pc])
  }

  function Apply(s: State, step: Step): State
    requires Enabled(s, step)
  {
    match step
    case Call(t, pc) => Goto(s, t, pc)
    case Load(t) => if s.slot == 0 then Goto(s, t, SetCreate) else Finish(s, t)
    case Create(t, outcome) =>
      if outcome.None? then Finish(s, t)
      else Goto(s, t, SetCreated(outcome.value)).(live := s.live[outcome.value := s.next], next := s.next + 1)
    case Exchange(t) =>
      var h := s.calls[t].handle;
      var serials := if h in s.live then {s.live[h]} else {};
      if s.slot == 0 then Finish(s, t).(slot := h, installed := s.installed + serials)
      else Goto(s, t, SetLost(h)).(lost := s.lost + serials)
    case DeleteOwn(t) =>
      var h := s.calls[t].handle;
      Finish(s, t).(live := s.live - {h}, deleted := if h in s.live then s.deleted + [s.live[h]] else s.deleted)
    case Swap(t) => if s.slot == 0 then Finish(s, t) else Goto(s, t, DelTaken(s.slot)).(slot := 0)
    case CbLoad(t) =>
      if s.slot == 0 then s
      else Goto(s, t, CbUse(s.slot, if s.slot in s.live then s.live[s.slot] else 0))
           .(seen := if s.slot in s.live then s.seen + {s.live[s.slot]} else s.seen)
    case CbDone(t) => Finish(s, t)
  }

  // ---------- ownership ----------

  /** The writer a call is responsible for. */
  predicate Holds(s: State, t: nat, h: Handle) {
    t in s.calls && (s.calls[t] == SetCreated(h) || s.calls[t] == SetLost(h) || s.calls[t] == DelTaken(h))
  }

  /** The installed writer and those held by calls are live, apart from one another, and no others are live. */
  ghost predicate Owned(s: State) {
    && (s.slot != 0 ==> s.slot in s.live)
    && (forall t, h :: Holds(s, t, h) ==> h in s.live && h != s.slot && h > 0)
    && (forall t, t', h :: Holds(s, t, h) && Holds(s, t', h) ==> t == t')
    && (forall h :: h in s.live ==> h > 0 && (h == s.slot || exists t :: Holds(s, t, h)))
  }

  /** Serials in use are apart, and none deleted is live or deleted twice. */
  ghost predicate SerialsOk(s: State) {
    && (forall h :: h in s.live ==> s.live[h] < s.next && s.live[h] !in s.deleted)
    && (forall h, h' :: h in s.live && h' in s.live && s.live[h] == s.live[h'] ==> h == h')
    && (forall i :: 0 <= i < |s.deleted| ==> s.deleted[i] < s.next)
    && (forall i, j :: 0 <= i < j < |s.deleted| ==> s.deleted[i] != s.deleted[j])
  }

  /** A serial is installed or lost by the one exchange of its creator, never both; callbacks only load installed ones. */
  ghost predicate RaceOk(s: State) {
    && (forall n :: n in s.installed || n in s.lost ==> n < s.next)
    && s.installed !! s.lost
    && s.seen <= s.installed
    && (s.slot != 0 ==> s.slot in s.live && s.live[s.slot] in s.installed)
    && CreatedOk(s) && LostOk(s)
  }

  /** A writer before its exchange has neither won nor lost. */
  ghost predicate CreatedOk(s: State) {
    forall t :: t in s.calls && s.calls[t].SetCreated? ==>
      s.calls[t].handle in s.live && s.live[s.calls[t].handle] !in s.installed && s.live[s.calls[t].handle] !in s.lost
  }

  ghost predicate LostOk(s: State) {
    forall t :: t in s.calls && s.calls[t].SetLost? ==> s.calls[t].handle in s.live && s.live[s.calls[t].handle] in s.lost
  }

  /** The writer with this handle and serial is live. */
  predicate Lives(s: State, h: Handle, n: nat) {
    h in s.live && s.live[h] == n
  }

  /** The writer a callback loaded was installed once, and is live unless it has been deleted since. */
  ghost predicate LoadedOk(s: State) {
    forall t, h, n :: t in s.calls && s.calls[t] == CbUse(h, n) ==> n in s.seen && (n in s.deleted || Lives(s, h, n))
  }

  ghost predicate Inv(s: State) {
    Owned(s) && SerialsOk(s) && RaceOk(s) && LoadedOk(s)
  }

  lemma OwnedStep(s: State, step: Step)
    requires Owned(s) && Enabled(s, step)
    ensures Owned(Apply(s, step))
  {
    var s' := Apply(s, step);
    forall h | h in s'.live ensures h > 0 && (h == s'.slot || exists t :: Holds(s', t, h)) {
      StaysOwned(s, step, h);
    }
    forall t, h | Holds(s', t, h) ensures h in s'.live && h != s'.slot && h > 0 {
      HeldApart(s, step, t, h);
    }
    forall t, t', h | Holds(s', t, h) && Holds(s', t', h) ensures t == t' {
      HeldOnce(s, step, t, t', h);
    }
    if s'.slot != 0 { InstalledLives(s, step); }
  }

  /** What a call holds after a step it held before, or the step is its own creation or deletion swap. */
  lemma HeldBefore(s: State, step: Step, t: nat, h: Handle)
    requires Owned(s) && Enabled(s, step) && Holds(Apply(s, step), t, h)
    ensures Holds(s, t, h) || (t == step.t && h !in s.live && step.Create?) || (t == step.t && h == s.slot != 0 && step.Swap?)
  {
  }

  lemma HeldApart(s: State, step: Step, t: nat, h: Handle)
    requires Owned(s) && Enabled(s, step) && Holds(Apply(s, step), t, h)
    ensures var s' := Apply(s, step); h in s'.live && h != s'.slot && h > 0
  {
    HeldBefore(s, step, t, h);
    if step.Exchange? || step.DeleteOwn? {
      var mine := s.calls[step.t].handle;
      assert Holds(s, step.t, mine);
      if mine == h { assert t == step.t; }
    }
  }

  lemma HeldOnce(s: State, step: Step, t: nat, t': nat, h: Handle)
    requires Owned(s) && Enabled(s, step) && Holds(Apply(s, step), t, h) && Holds(Apply(s, step), t', h)
    ensures t == t'
  {
    HeldBefore(s, step, t, h);
    HeldBefore(s, step, t', h);
  }

  lemma InstalledLives(s: State, step: Step)
    requires Owned(s) && Enabled(s, step) && Apply(s, step).slot != 0
    ensures Apply(s, step).slot in Apply(s, step).live
  {
    if step.Exchange? || step.DeleteOwn? { assert Holds(s, step.t, s.calls[step.t].handle); }
  }

  lemma StaysOwned(s: State, step: Step, h: Handle)
    requires Owned(s) && Enabled(s, step) && h in Apply(s, step).live
    ensures var s' := Apply(s, step); h > 0 && (h == s'.slot || exists t :: Holds(s', t, h))
  {
    var s' := Apply(s, step);
    if h !in s.live {
      assert Holds(s', step.t, h);
    } else if h == s.slot {
      if s'.slot != h { assert Holds(s', step.t, h); }
    } else {
      var t :| Holds(s, t, h);
      if h != s'.slot { assert Holds(s', t, h); }
    }
  }

  lemma SerialsStep(s: State, step: Step)
    requires Inv(s) && Enabled(s, step)
    ensures SerialsOk(Apply(s, step))
  {
    if step.DeleteOwn? { assert Holds(s, step.t, s.calls[step.t].handle); }
  }

  lemma RaceStep(s: State, step: Step)
    requires Inv(s) && Enabled(s, step)
    ensures RaceOk(Apply(s, step))
  {
    hide LoadedOk;
    CreatedStep(s, step);
    LostStep(s, step);
    hide CreatedOk, LostOk;
    if step.DeleteOwn? { assert Holds(s, step.t, s.calls[step.t].handle); }
    if step.Exchange? { MineIsNew(s, step.t); }
  }

  lemma MineIsNew(s: State, t: nat)
    requires RaceOk(s) && Enabled(s, Exchange(t))
    ensures var h := s.calls[t].handle; h in s.live && s.live[h] !in s.installed && s.live[h] !in s.lost
  {
  }

  lemma CreatedStep(s: State, step: Step)
    requires Inv(s) && Enabled(s, step)
    ensures CreatedOk(Apply(s, step))
  {
    var s' := Apply(s, step);
    forall t | t in s'.calls && s'.calls[t].SetCreated?
      ensures var h := s'.calls[t].handle; h in s'.live && s'.live[h] !in s'.installed && s'.live[h] !in s'.lost
    {
      if t in s.calls && s.calls[t].SetCreated? {
        if (step.DeleteOwn? || step.Exchange?) && t != step.t { OthersApart(s, step, t); }
      }
    }
  }

  lemma LostStep(s: State, step: Step)
    requires Inv(s) && Enabled(s, step)
    ensures LostOk(Apply(s, step))
  {
    var s' := Apply(s, step);
    forall t | t in s'.calls && s'.calls[t].SetLost?
      ensures s'.calls[t].handle in s'.live && s'.live[s'.calls[t].handle] in s'.lost
    {
      if t in s.calls && s.calls[t].SetLost? {
        if (step.DeleteOwn? || step.Exchange?) && t != step.t { OthersApart(s, step, t); }
      } else {
        assert step == Exchange(t);
        MineIsNew(s, t);
      }
    }
  }

  /** A step that deletes or exchanges a writer is about its own, not that of another call. */
  lemma OthersApart(s: State, step: Step, t: nat)
    requires Owned(s) && Enabled(s, step) && t in s.calls && (s.calls[t].SetCreated? || s.calls[t].SetLost?)
    requires (step.DeleteOwn? || step.Exchange?) && t != step.t
    ensures s.calls[t].handle != s.calls[step.t].handle
  {
    assert Holds(s, step.t, s.calls[step.t].handle) && Holds(s, t, s.calls[t].handle);
  }

  lemma LoadedStep(s: State, step: Step)
    requires Inv(s) && Enabled(s, step)
    ensures LoadedOk(Apply(s, step))
  {
    var s' := Apply(s, step);
    forall t, h, n | t in s'.calls && s'.calls[t] == CbUse(h, n) ensures n in s'.seen && (n in s'.deleted || Lives(s', h, n)) {
      if t in s.calls && s.calls[t] == CbUse(h, n) { StaysLoaded(s, step, h, n); }
    }
  }

  lemma StaysLoaded(s: State, step: Step, h: Handle, n: nat)
    requires Enabled(s, step) && n in s.seen && (n in s.deleted || Lives(s, h, n))
    ensures var s' := Apply(s, step); n in s'.seen && (n in s'.deleted || Lives(s', h, n))
  {
  }

  // ---------- whole runs ----------

  ghost predicate Run(states: seq<State>, steps: seq<Step>) {
    && |states| == |steps| + 1
    && states[0] == INIT
    && forall i :: 0 <= i < |steps| ==> Enabled(states[i], steps[i]) && states[i + 1] == Apply(states[i], steps[i])
  }

  lemma {:induction false} RunInv(states: seq<State>, steps: seq<Step>, i: nat)
    requires Run(states, steps) && i < |states|
    ensures Inv(states[i])
  {
    if i > 0 {
      RunInv(states, steps, i - 1);
      hide Owned, SerialsOk, RaceOk, LoadedOk, Apply, Enabled;
      OwnedStep(states[i - 1], steps[i - 1]);
      SerialsStep(states[i - 1], steps[i - 1]);
      RaceStep(states[i - 1], steps[i - 1]);
      LoadedStep(states[i - 1], steps[i - 1]);
    }
  }

  /** At every moment the live writers are the installed one and those calls in flight still hold, each held once. */
  lemma LiveIsInstalledOrHeld(states: seq<State>, steps: seq<Step>, i: nat)
    requires Run(states, steps) && i < |states|
    ensures var s := states[i];
            && (forall h :: h in s.live <==> (h == s.slot && h != 0) || exists t :: Holds(s, t, h))
            && (forall t :: !Holds(s, t, s.slot))
            && (forall t, t', h :: Holds(s, t, h) && Holds(s, t', h) ==> t == t')
  {
    RunInv(states, steps, i);
  }

  /** No writer is deleted twice, and only live ones are deleted: the deletion always hits the writer the call holds. */
  lemma DeletedOnce(states: seq<State>, steps: seq<Step>, i: nat)
    requires Run(states, steps) && i < |states|
    ensures forall j, k :: 0 <= j < k < |states[i].deleted| ==> states[i].deleted[j] != states[i].deleted[k]
    ensures i < |steps| && steps[i].DeleteOwn? ==>
              states[i].calls[steps[i].t].handle in states[i].live && |states[i + 1].deleted| == |states[i].deleted| + 1
  {
    RunInv(states, steps, i);
    if i < |steps| && steps[i].DeleteOwn? {
      assert Enabled(states[i], steps[i]) && states[i + 1] == Apply(states[i], steps[i]);
      assert Holds(states[i], steps[i].t, states[i].calls[steps[i].t].handle);
    }
  }

  /** With no call in flight, at most the installed writer is live. */
  lemma QuietSlot(states: seq<State>, steps: seq<Step>, i: nat)
    requires Run(states, steps) && i < |states| && states[i].calls == map[]
    ensures states[i].live.Keys == if states[i].slot == 0 then {} else {states[i].slot}
  {
    RunInv(states, steps, i);
    var s := states[i];
    assert Owned(s);
    forall h | h in s.live ensures h == s.slot && h != 0 {
      assert forall t :: !Holds(s, t, h);
    }
    assert s.slot != 0 ==> s.slot in s.live.Keys;
  }

  /** No callback ever loads a writer that lost the race, even if its handle is used again. */
  lemma CallbackNeverSeesLoser(states: seq<State>, steps: seq<Step>, i: nat)
    requires Run(states, steps) && i < |states|
    ensures states[i].seen !! states[i].lost
  {
    RunInv(states, steps, i);
  }

  /** Every writer ever created is live or was deleted: none is forgotten. */
  ghost predicate Accounted(s: State) {
    forall n :: 0 <= n < s.next ==> n in s.deleted || exists h :: h in s.live && s.live[h] == n
  }

  lemma {:induction false} NothingForgotten(states: seq<State>, steps: seq<Step>, i: nat)
    requires Run(states, steps) && i < |states|
    ensures Accounted(states[i])
  {
    if i > 0 {
      NothingForgotten(states, steps, i - 1);
      RunInv(states, steps, i - 1);
      var s, s' := states[i - 1], states[i];
      assert Enabled(s, steps[i - 1]) && s' == Apply(s, steps[i - 1]);
      forall n | 0 <= n < s'.next ensures n in s'.deleted || exists h :: h in s'.live && s'.live[h] == n {
        if n < s.next && n !in s.deleted {
          var h :| h in s.live && s.live[h] == n;
          if h in s'.live { assert s'.live[h] == n; } else { assert s'.deleted[|s.deleted|] == n; }
        } else if n == s.next {
          var h := steps[i - 1].outcome.value;
          assert h in s'.live && s'.live[h] == n;
        }
      }
    }
  }

  // ---------- what a finished call has seen to ----------

  ghost predicate WriterSeen(states: seq<State>, j: nat, k: nat) {
    exists m :: j <= m <= k && m < |states| && states[m].slot != 0
  }

  ghost predicate EmptySeen(states: seq<State>, j: nat, k: nat) {
    exists m :: j <= m <= k && m < |states| && states[m].slot == 0
  }

  /** A set call that has neither found nor installed a writer yet. */
  predicate Setting(s: State, t: nat) {
    t in s.calls && (s.calls[t] == SetStart || s.calls[t] == SetCreate || s.calls[t].SetCreated?)
  }

  lemma SettingStep(s: State, step: Step, t: nat)
    requires Inv(s) && Enabled(s, step) && Setting(s, t) && s.slot == 0 && step != Create(t, None)
    ensures Setting(Apply(s, step), t) || Apply(s, step).slot != 0
  {
    if step.Exchange? { assert Holds(s, step.t, s.calls[step.t].handle); }
  }

  lemma {:induction false} SetterBusyOrDone(states: seq<State>, steps: seq<Step>, t: nat, j: nat, k: nat)
    requires Run(states, steps) && j <= k < |states| && Setting(states[j], t)
    requires forall m :: j <= m < k ==> steps[m] != Create(t, None)
    ensures WriterSeen(states, j, k) || Setting(states[k], t)
  {
    if j < k {
      SetterBusyOrDone(states, steps, t, j, k - 1);
      RunInv(states, steps, k - 1);
      hide Inv, Setting, Enabled, Apply;
      if states[k - 1].slot == 0 && Setting(states[k - 1], t) { SettingStep(states[k - 1], steps[k - 1], t); }
      assert WriterSeen(states, j, k - 1) ==> WriterSeen(states, j, k);
      if states[k - 1].slot != 0 || states[k].slot != 0 { assert WriterSeen(states, j, k); }
    }
  }

  /** A set call that has ended, and whose writer could be created if it tried, has seen a writer in the slot or put one there. */
  lemma FinishedSetSawWriter(states: seq<State>, steps: seq<Step>, t: nat, j: nat, k: nat)
    requires Run(states, steps) && j <= k < |states|
    requires t in states[j].calls && states[j].calls[t] == SetStart && t !in states[k].calls
    requires forall m :: j <= m < k ==> steps[m] != Create(t, None)
    ensures exists m :: j <= m <= k && states[m].slot != 0
  {
    SetterBusyOrDone(states, steps, t, j, k);
  }

  lemma {:induction false} DeleterBusyOrDone(states: seq<State>, steps: seq<Step>, t: nat, j: nat, k: nat)
    requires Run(states, steps) && j <= k < |states| && t in states[j].calls && states[j].calls[t] == DelStart
    ensures EmptySeen(states, j, k) || (t in states[k].calls && states[k].calls[t] == DelStart)
  {
    if j < k {
      DeleterBusyOrDone(states, steps, t, j, k - 1);
      assert Enabled(states[k - 1], steps[k - 1]) && states[k] == Apply(states[k - 1], steps[k - 1]);
      assert EmptySeen(states, j, k - 1) ==> EmptySeen(states, j, k);
      if states[k].slot == 0 || states[k - 1].slot == 0 { assert EmptySeen(states, j, k); }
    }
  }

  /** A delete call that has ended has seen the slot empty, or emptied it: no writer stays in it from beginning to end. */
  lemma FinishedDeleteSawEmpty(states: seq<State>, steps: seq<Step>, t: nat, j: nat, k: nat)
    requires Run(states, steps) && j <= k < |states|
    requires t in states[j].calls && states[j].calls[t] == DelStart && t !in states[k].calls
    ensures exists m :: j <= m <= k && states[m].slot == 0
  {
    DeleterBusyOrDone(states, steps, t, j, k);
  }

  // ---------- what a callback may count on ----------

  predicate IsInstalled(s: State, h: Handle, n: nat) {
    s.slot == h && Lives(s, h, n)
  }

  /** A deleter has taken it out of the slot, but not deleted it yet. */
  ghost predicate BeingDeleted(s: State, h: Handle, n: nat) {
    Lives(s, h, n) && exists t :: t in s.calls && s.calls[t] == DelTaken(h)
  }

  /**
  The writer a callback loaded is live until it is deleted, and then its handle is that of another writer or none.
  While it lives it is installed, or held by a deletion that has taken it out; never by a setter.
  */
  lemma LoadedWriterLivesIff(states: seq<State>, steps: seq<Step>, i: nat, t: nat)
    requires Run(states, steps) && i < |states| && t in states[i].calls && states[i].calls[t].CbUse?
    ensures var s := states[i];
            var CbUse(h, n) := s.calls[t];
            && (Lives(s, h, n) <==> IsInstalled(s, h, n) || BeingDeleted(s, h, n))
            && !(IsInstalled(s, h, n) && BeingDeleted(s, h, n))
            && (Lives(s, h, n) <==> n !in s.deleted)
  {
    RunInv(states, steps, i);
    var s := states[i];
    var CbUse(h, n) := s.calls[t];
    if Lives(s, h, n) && s.slot != h {
      var t' :| Holds(s, t', h);
      assert s.calls[t'] == DelTaken(h);
    }
    assert forall t' :: t' in s.calls && s.calls[t'] == DelTaken(h) ==> Holds(s, t', h);
  }

  // ---------- both ends of the callback's window are reached ----------

  ghost predicate Reachable(s: State) {
    exists states, steps :: Run(states, steps) && states[|steps|] == s
  }

  lemma ReachNext(s: State, step: Step)
    requires Reachable(s) && Enabled(s, step)
    ensures Reachable(Apply(s, step))
  {
    var states, steps :| Run(states, steps) && states[|steps|] == s;
    hide Apply, Enabled;
    var states', steps' := states + [Apply(s, step)], steps + [step];
    assert Run(states', steps') && states'[|steps'|] == Apply(s, step);
  }

  lemma SetterInstalls(h: Handle) returns (s: State)
    requires h > 0
    ensures Reachable(s) && s.calls == map[] && s.slot == h && s.live == map[h := 0] && s.deleted == []
  {
    assert Run([INIT], []) && Reachable(INIT);
    hide Reachable;
    ReachNext(INIT, Call(1, SetStart));
    s := Apply(INIT, Call(1, SetStart));
    ReachNext(s, Load(1));
    s := Apply(s, Load(1));
    ReachNext(s, Create(1, Some(h)));
    s := Apply(s, Create(1, Some(h)));
    ReachNext(s, Exchange(1));
    s := Apply(s, Exchange(1));
  }

  lemma CallbackLoads(s: State) returns (s': State)
    requires Reachable(s) && s.calls == map[] && s.slot in s.live && s.slot != 0
    ensures Reachable(s') && s'.calls == map[0 := CbUse(s.slot, s.live[s.slot])] && s'.slot == s.slot && s'.live == s.live
    ensures s'.deleted == s.deleted
  {
    hide Reachable;
    ReachNext(s, Call(0, CbStart));
    s' := Apply(s, Call(0, CbStart));
    ReachNext(s', CbLoad(0));
    s' := Apply(s', CbLoad(0));
  }

  /** The deletion can come before the callback writes through the handle it loaded: the condition above is not idle. */
  lemma CallbackMayOutliveWriter(h: Handle)
    requires h > 0
    ensures exists s :: Reachable(s) && 0 in s.calls && s.calls[0] == CbUse(h, 0) && 0 in s.deleted && h !in s.live
  {
    var s := SetterInstalls(h);
    s := CallbackLoads(s);
    hide Reachable;
    ReachNext(s, Call(2, DelStart));
    s := Apply(s, Call(2, DelStart));
    ReachNext(s, Swap(2));
    s := Apply(s, Swap(2));
    ReachNext(s, DeleteOwn(2));
    s := Apply(s, DeleteOwn(2));
  }
}
