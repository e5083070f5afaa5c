/**
 A deferred: two one-shot lists with memory and one list for progress. The first callbacks of the one-shot lists are
 its own.
 */
module Deferred {
  import opened ChunkStore
  import opened Callbacks

  /**
   The callbacks of a one-shot list: `state = ...`, `disable` of the other list, `lock` of the progress list; then
   those of users.
   */
  datatype Fn<F> = SetState | DisableOther | LockProgress | User(f: F)

  datatype Outcome = Resolved | Rejected

  datatype Deferred<F, D> = Deferred(state: Option<Outcome>, done: State<Fn<F>, D>, fail: State<Fn<F>, D>,
  progress: State<Fn<F>, D>)

  /**
   A user attaches callbacks, settles or notifies; a callback of a user returns; a callback of the deferred itself
   does its work.
   */
  datatype Action<F, D> =
    | Attach(to: Outcome, fns: seq<F>)
    | AttachProgress(fns: seq<F>)
    | Settle(how: Outcome, data: D)
    | Notify(data: D)
    | Return(from: Outcome)
    | ReturnProgress
    | Own(from: Outcome)

  function List<F, D>(d: Deferred<F, D>, o: Outcome): State<Fn<F>, D> {
    if o == Resolved then d.done else d.fail
  }

  function WithList<F, D>(d: Deferred<F, D>, o: Outcome, s: State<Fn<F>, D>): Deferred<F, D> {
    if o == Resolved then d.(done := s) else d.(fail := s)
  }

  function Other(o: Outcome): Outcome {
    if o == Resolved then Rejected else Resolved
  }

  const ONCE_MEMORY := Options(true, true, false)

  function OwnFns<F>(): seq<Fn<F>> {
    [SetState, DisableOther, LockProgress]
  }

  function Users<F>(fns: seq<F>): (r: seq<Fn<F>>)
    ensures |r| == |fns| && forall i :: 0 <= i < |r| ==> r[i] == User(fns[i])
  {
    seq(|fns|, i requires 0 <= i < |fns| => User(fns[i]))
  }

  function New<F(==), D>(): Deferred<F, D> {
    Deferred(None, Pushed(Start(ONCE_MEMORY), OwnFns<F>()), Pushed(Start(ONCE_MEMORY), OwnFns<F>()),
    Start(Options(false, true, false)))
  }

  // ----- one-shot lists over time -----

  /** Nothing has been fired yet; callbacks wait, the own ones first. */
  ghost predicate Waiting<F, D>(s: State<Fn<F>, D>) {
    true == (s.o == ONCE_MEMORY && s.list.Some? && s.stack == None && s.memory == None && !s.fired && !s.firing &&
    s.past.calls == [] &&
      s.past.firings == [] && |s.list.value| == |s.past.ids| == s.past.next &&
      (forall k :: 0 <= k < |s.past.ids| ==> s.past.ids[k] == k) &&
      Owned(s.list.value, 0))
  }

  /** The own callbacks are at `-base`; all later ones are callbacks of users. */
  ghost predicate Owned<F>(list: seq<Fn<F>>, base: int) {
    true == (|list| + base >= 3 && forall k :: 0 <= k < |list| ==>
      (k + base == 0 ==> list[k] == SetState) && (k + base == 1 ==> list[k] == DisableOther) &&
      (k + base == 2 ==> list[k] == LockProgress) && (k + base >= 3 ==> list[k].User?))
  }

  /**
   The list was fired with `data`: the callbacks are called one by one, in the order in which they were attached, each
   once.
   */
  ghost predicate Serial<F, D>(s: State<Fn<F>, D>, data: D) {
    true == (s.o == ONCE_MEMORY && s.list.Some? && s.stack == None && s.memory == Some(data) && s.fired &&
    |s.past.firings| > 0 &&
      (forall i :: 0 <= i < |s.past.calls| ==> s.past.calls[i].id == i && s.past.calls[i].data == data) &&
      |s.list.value| == |s.past.ids| &&
      if s.firing then
        var base := |s.past.calls| - (s.firingIndex + 1);
        s.past.firings[|s.past.firings| - 1].data == data && s.firingLength == |s.past.ids| &&
        0 <= s.firingIndex < s.firingLength &&
        base >= 0 && base + |s.past.ids| == s.past.next &&
        (forall k :: 0 <= k < |s.past.ids| ==> s.past.ids[k] == base + k) &&
        Owned(s.list.value, base)
      else s.past.ids == [] && |s.past.calls| == s.past.next >= 3)
  }

  /** The list was disabled before it was fired. */
  ghost predicate Dead<F, D>(s: State<Fn<F>, D>) {
    true == (Listed(s) && s.list == None && !s.firing && !s.fired && s.past.calls == [])
  }

  lemma {:induction false} PushedPlain<F, D>(s: State<F, D>, fns: seq<F>)
    requires Listed(s) && s.list.Some? && !s.o.unique
    ensures var t := Pushed(s, fns);
            t == s.(list := t.list, past := s.past.(ids := t.past.ids, next := t.past.next, added := t.past.added)) &&
            Listed(t) &&
            t.list == Some(s.list.value + fns) &&
            t.past.next == s.past.next + |fns| && |t.past.ids| == |s.past.ids| + |fns| &&
            t.past.ids[..|s.past.ids|] == s.past.ids &&
            forall i :: |s.past.ids| <= i < |t.past.ids| ==> t.past.ids[i] == s.past.next + i - |s.past.ids|
    decreases |fns|
  {
    if fns == [] {
      assert s.list.value + fns == s.list.value;
    } else {
      var k := |fns| - 1;
      PushedPlain(s, fns[..k]);
      assert s.list.value + fns == (s.list.value + fns[..k]) + [fns[k]];
    }
  }

  lemma OwnedMore<F>(list: seq<Fn<F>>, base: int, fns: seq<F>)
    requires Owned(list, base)
    ensures Owned(list + Users(fns), base)
  {
  }

  lemma WaitingAdd<F, D>(s: State<Fn<F>, D>, fns: seq<F>)
    requires Waiting(s) && Listed(s)
    ensures Listed(s) && Waiting(Step(s, Add(Users(fns))))
  {
    PushedPlain(s, Users(fns));
    OwnedMore(s.list.value, 0, fns);
  }

  lemma WaitingFire<F, D>(s: State<Fn<F>, D>, data: D)
    requires Waiting(s) && Listed(s)
    ensures Listed(s) && Serial(Step(s, FireWith(data)), data)
    ensures var t := Step(s, FireWith(data)); t.firing && |t.past.calls| == 1 && t.firingIndex == 0
  {
    var u := Fired(Accepted(s, data), data, 0);
    assert Step(s, FireWith(data)) == Loop(u) == Called(u);
  }

  lemma SerialFire<F, D>(s: State<Fn<F>, D>, data: D, again: D)
    requires Serial(s, data) && Listed(s)
    ensures Listed(s) && Step(s, FireWith(again)) == s
  {
  }

  lemma SerialReturn<F, D>(s: State<Fn<F>, D>, data: D)
    requires Serial(s, data) && Listed(s) && s.firing
    ensures Listed(s) && Looping(s.(firingIndex := s.firingIndex + 1)) && Serial(Step(s, Op.Return), data)
    ensures var t := Step(s, Op.Return); |t.past.calls| == |s.past.calls| + if t.firing then 1 else 0
  {
  }

  lemma SerialAdd<F, D>(s: State<Fn<F>, D>, data: D, fns: seq<F>)
    requires Serial(s, data) && Listed(s)
    ensures Listed(s) && Serial(Step(s, Add(Users(fns))), data)
    ensures var t := Step(s, Add(Users(fns)));
            |t.past.calls| >= |s.past.calls| && (t.firing && !s.firing ==> |t.past.calls| > |s.past.calls|) &&
            (s.firing ==> t.firing)
  {
    PushedPlain(s, Users(fns));
    if s.firing {
      OwnedMore(s.list.value, |s.past.calls| - (s.firingIndex + 1), fns);
    } else {
      SerialRefire(s, data, fns);
    }
  }

  /** Callbacks that are attached when the list is at rest are called at once. */
  lemma SerialRefire<F, D>(s: State<Fn<F>, D>, data: D, fns: seq<F>)
    requires Serial(s, data) && Listed(s) && !s.firing
    ensures Listed(s) && Serial(Added(s, Users(fns)), data)
    ensures var t := Added(s, Users(fns)); |t.past.calls| == |s.past.calls| + if t.firing then 1 else 0
  {
    var fs := Users(fns);
    RestPushed(s, data, fs);
    var u := Fired(Pushed(s, fs), data, 0);
    if fns == [] { SerialRests(s, data, Pushed(s, fs), u); } else { SerialAgain(s, data, fs, Pushed(s, fs), u); }
  }

  /** `t` is the list `s` with new callbacks. */
  ghost predicate IsPushed<F, D>(t: State<Fn<F>, D>, s: State<Fn<F>, D>, fs: seq<Fn<F>>) {
    true == (Listed(t) && t.list == Some(fs) && t.past.next == s.past.next + |fs| && |t.past.ids| == |fs| &&
      (forall i :: 0 <= i < |t.past.ids| ==> t.past.ids[i] == s.past.next + i) &&
      t == s.(list := t.list, past := s.past.(ids := t.past.ids, next := t.past.next, added := t.past.added)))
  }

  lemma RestPushed<F, D>(s: State<Fn<F>, D>, data: D, fs: seq<Fn<F>>)
    requires Serial(s, data) && Listed(s) && !s.firing
    ensures IsPushed(Pushed(s, fs), s, fs) && Looping(Fired(Pushed(s, fs), data, 0)) &&
      Added(s, fs) == Loop(Fired(Pushed(s, fs), data, 0))
  {
    PushedPlain(s, fs);
    assert s.list.value == [] && [] + fs == fs;
  }

  lemma SerialRests<F, D>(s: State<Fn<F>, D>, data: D, t: State<Fn<F>, D>, u: State<Fn<F>, D>)
    requires Serial(s, data) && !s.firing && IsPushed(t, s, []) && u == Fired(t, data, 0)
    ensures Looping(u) && !Loop(u).firing && Serial(Loop(u), data) && Loop(u).past.calls == s.past.calls
  {
    var v := Ended(u);
    assert Loop(u) == v.(list := Some([]), past := v.past.(ids := []));
  }

  lemma SerialAgain<F, D>(s: State<Fn<F>, D>, data: D, fs: seq<Fn<F>>, t: State<Fn<F>, D>, u: State<Fn<F>, D>)
    requires Serial(s, data) && !s.firing && fs != [] && (forall i :: 0 <= i < |fs| ==> fs[i].User?)
    requires IsPushed(t, s, fs) && u == Fired(t, data, 0)
    ensures Looping(u) && Loop(u).firing && Serial(Loop(u), data) && |Loop(u).past.calls| == |s.past.calls| + 1
  {
    var v, f := Called(u), |u.past.firings| - 1;
    assert Loop(u) == v;
    assert u.past.firings[f].data == data;
    assert v.past.calls == s.past.calls + [Call(f, s.past.next, data)];
    assert Owned(fs, |s.past.calls|);
  }

  // ----- what no operation of a user changes -----

  ghost predicate SameLock<F, D>(s: State<F, D>, t: State<F, D>) {
    true == (t.o == s.o && (s.list.Some? && s.stack.Some? ==> t.list.Some? && t.stack.Some?) &&
    (s.stack == None ==> t.stack == None) &&
      (s.fired ==> t.fired) && (s.list == None ==> t.list == None))
  }

  lemma {:induction false} LoopOpen<F, D>(s: State<F, D>)
    requires Looping(s)
    ensures SameLock(s, Loop(s))
    decreases Pending(s)
  {
    if s.list.Some? && s.firingIndex >= s.firingLength && s.stack.Some? && s.stack.value != [] {
      LoopOpen(Fired(Shifted(Ended(s)), s.stack.value[0], 0));
    }
  }

  lemma {:induction false} RemovedFromOpen<F, D>(s: State<F, D>, fn: F, k: nat)
    requires Listed(s) && s.list.Some? && k <= |s.list.value|
    ensures SameLock(s, RemovedFrom(s, fn, k))
    decreases |s.list.value|
  {
    var i := IndexFrom(s.list.value, fn, k);
    if i < |s.list.value| { RemovedFromOpen(TakenOut(s, i), fn, i); }
  }

  lemma {:induction false} RemovedOpen<F, D>(s: State<F, D>, fns: seq<F>)
    requires Listed(s)
    ensures SameLock(s, Removed(s, fns))
    decreases |fns|
  {
    if fns != [] && s.list.Some? {
      RemovedOpen(s, fns[..|fns| - 1]);
      RemovedFromOpen(Removed(s, fns[..|fns| - 1]), fns[|fns| - 1], 0);
    }
  }

  lemma {:induction false} PushedOpen<F, D>(s: State<F, D>, fns: seq<F>)
    requires Listed(s) && s.list.Some?
    ensures Pushed(s, fns) == s.(list := Pushed(s, fns).list, past := Pushed(s, fns).past)
    decreases |fns|
  {
    if fns != [] { PushedOpen(s, fns[..|fns| - 1]); }
  }

  lemma StepOpen<F, D>(s: State<Fn<F>, D>, op: Op<Fn<F>, D>)
    requires CanStep(s) && !op.Lock? && !op.Disable?
    ensures SameLock(s, Step(s, op))
  {
    match op
    case Add(fns) =>
      if s.list.Some? {
        PushedOpen(s, fns);
        if !s.firing && s.memory.Some? { LoopOpen(Fired(Pushed(s, fns), s.memory.value, |s.list.value|)); }
      }
    case Remove(fns) => RemovedOpen(s, fns);
    case FireWith(data) =>
      if s.list.Some? && !s.firing && (!s.fired || s.stack.Some?) { LoopOpen(Fired(Accepted(s, data), data, 0)); }
    case Return => if s.firing { LoopOpen(s.(firingIndex := s.firingIndex + 1)); }
  }

  // ----- the same, to be looked into only on request -----

  /** Mentioning it for a state makes the verifier look into what the predicates below say of the state. */
  predicate Unfolded<F, D>(s: State<F, D>, z: int) {
    true
  }

  predicate CanStep<F, D>(s: State<F, D>) {
    true == (Listed(s) && (s.firing ==> s.fired && Looping(s.(firingIndex := s.firingIndex + 1))))
  }

  /** `t == Step(s, op)` */
  ghost predicate IsStep<F, D>(t: State<F, D>, s: State<F, D>, op: Op<F, D>) {
    forall z {:trigger Unfolded(s, z)} :: Unfolded(s, z) ==> CanStep(s) && t == Step(s, op)
  }

  ghost predicate IsGood<F, D>(s: State<F, D>) {
    forall z {:trigger Unfolded(s, z)} :: Unfolded(s, z) ==> Good(s)
  }

  ghost predicate Waits<F, D>(s: State<Fn<F>, D>) {
    !s.firing && s.past.calls == [] && forall z {:trigger Unfolded(s, z)} :: Unfolded(s, z) ==> Good(s) && Waiting(s)
  }

  /** `n` callbacks have been called. */
  ghost predicate Goes<F, D>(s: State<Fn<F>, D>, data: D, n: nat) {
    n == |s.past.calls| && s.memory == Some(data) && forall z {:trigger Unfolded(s, z)} :: Unfolded(s, z) ==>
    Good(s) && Serial(s, data)
  }

  ghost predicate IsDead<F, D>(s: State<Fn<F>, D>) {
    !s.firing && s.past.calls == [] && forall z {:trigger Unfolded(s, z)} :: Unfolded(s, z) ==> Good(s) && Dead(s)
  }

  /** The callback that is running. */
  function Current<F, D>(s: State<F, D>): Option<F> {
    if s.firing && s.list.Some? && 0 <= s.firingIndex < |s.list.value| then Some(s.list.value[s.firingIndex]) else None
  }

  lemma WaitsAdd<F, D>(s: State<Fn<F>, D>, t: State<Fn<F>, D>, fns: seq<F>)
    requires Waits(s) && IsStep(t, s, Add(Users(fns)))
    ensures Waits(t)
  {
    assert Unfolded(s, 0);
    StepGood(s, Add(Users(fns)));
    WaitingAdd(s, fns);
  }

  lemma WaitsFire<F, D>(s: State<Fn<F>, D>, t: State<Fn<F>, D>, data: D)
    requires Waits(s) && IsStep(t, s, FireWith(data))
    ensures Goes(t, data, 1) && t.firing && Current(t) == Some(SetState)
  {
    assert Unfolded(s, 0);
    StepGood(s, FireWith(data));
    WaitingFire(s, data);
  }

  lemma WaitsDisable<F, D>(s: State<Fn<F>, D>, t: State<Fn<F>, D>)
    requires Waits(s) && IsStep(t, s, Op.Disable)
    ensures IsDead(t)
  {
    assert Unfolded(s, 0);
    StepGood(s, Op.Disable);
  }

  lemma DeadStays<F, D>(s: State<Fn<F>, D>, t: State<Fn<F>, D>, op: Op<Fn<F>, D>)
    requires IsDead(s) && IsStep(t, s, op) && (op.Add? || op.FireWith?)
    ensures t == s
  {
    assert Unfolded(s, 0);
  }

  lemma GoesFire<F, D>(s: State<Fn<F>, D>, t: State<Fn<F>, D>, data: D, n: nat, again: D)
    requires Goes(s, data, n) && IsStep(t, s, FireWith(again))
    ensures t == s
  {
    assert Unfolded(s, 0);
    StepGood(s, FireWith(again));
    SerialFire(s, data, again);
  }

  /** Which callback is running is known from the number of calls. */
  lemma GoesCurrent<F, D>(s: State<Fn<F>, D>, data: D, n: nat)
    requires Goes(s, data, n)
    ensures Current(s) == None <==> !s.firing
    ensures s.firing ==> n >= 1
    ensures s.firing ==>
      if n == 1 then Current(s) == Some(SetState) else if n == 2 then Current(s) == Some(DisableOther)
                         else if n == 3 then Current(s) == Some(LockProgress) else Current(s).value.User?
    ensures !s.firing ==> n >= 3
  {
    assert Unfolded(s, 0);
  }

  lemma GoesReturn<F, D>(s: State<Fn<F>, D>, t: State<Fn<F>, D>, data: D, n: nat)
    requires Goes(s, data, n) && s.firing && IsStep(t, s, Op.Return)
    ensures Goes(t, data, if t.firing then n + 1 else n) && (n < 3 ==> t.firing)
  {
    assert Unfolded(s, 0);
    StepGood(s, Op.Return);
    SerialReturn(s, data);
    if !t.firing { assert Unfolded(t, 0); }
  }

  lemma GoesAdd<F, D>(s: State<Fn<F>, D>, t: State<Fn<F>, D>, data: D, n: nat, fns: seq<F>) returns (m: nat)
    requires Goes(s, data, n) && IsStep(t, s, Add(Users(fns)))
    ensures Goes(t, data, m) && m >= n && (t.firing && !s.firing ==> m > n) && (s.firing ==> t.firing)
  {
    assert Unfolded(s, 0);
    StepGood(s, Add(Users(fns)));
    SerialAdd(s, data, fns);
    m := |t.past.calls|;
  }

  lemma GoodStep<F, D>(s: State<F, D>, t: State<F, D>, op: Op<F, D>)
    requires IsGood(s) && IsStep(t, s, op)
    ensures IsGood(t)
  {
    assert Unfolded(s, 0);
    StepGood(s, op);
  }

  /** The list does not accept fire calls any more. */
  ghost predicate Closed<F, D>(s: State<F, D>) {
    s.stack == None && (s.fired || s.list == None)
  }

  lemma LockStep<F, D>(s: State<F, D>, t: State<F, D>)
    requires IsGood(s) && IsStep(t, s, Op.Lock)
    ensures Closed(t)
  {
    assert Unfolded(s, 0);
  }

  lemma LockedStays<F, D>(s: State<Fn<F>, D>, t: State<Fn<F>, D>, op: Op<Fn<F>, D>)
    requires Closed(s) && IsStep(t, s, op)
    ensures Closed(t)
  {
    assert Unfolded(s, 0);
    if op.Lock? || op.Disable? { } else { StepOpen(s, op); }
  }

  lemma LockedIgnores<F, D>(s: State<F, D>, t: State<F, D>, data: D)
    requires Closed(s) && IsStep(t, s, FireWith(data))
    ensures t == s
  {
    assert Unfolded(s, 0);
  }

  // ----- the deferred -----

  ghost predicate OwnRuns<F, D>(d: Deferred<F, D>, o: Outcome) {
    Current(List(d, o)).Some? && !Current(List(d, o)).value.User?
  }

  /** A callback of the deferred itself runs to its end before anything else can happen. */
  ghost predicate Enabled<F, D>(d: Deferred<F, D>, a: Action<F, D>) {
    match a
    case Own(o) => OwnRuns(d, o)
    case Return(o) => !OwnRuns(d, Resolved) && !OwnRuns(d, Rejected) && List(d, o).firing
    case ReturnProgress => !OwnRuns(d, Resolved) && !OwnRuns(d, Rejected) && d.progress.firing
    case _ => !OwnRuns(d, Resolved) && !OwnRuns(d, Rejected)
  }

  /** `e` is `d` with another list `o`, which results from the operation. */
  ghost predicate OnList<F, D>(d: Deferred<F, D>, o: Outcome, op: Op<Fn<F>, D>, e: Deferred<F, D>) {
    e == WithList(d, o, List(e, o)) && IsStep(List(e, o), List(d, o), op)
  }

  ghost predicate OnProgress<F, D>(d: Deferred<F, D>, op: Op<Fn<F>, D>, e: Deferred<F, D>) {
    e == d.(progress := e.progress) && IsStep(e.progress, d.progress, op)
  }

  /** What the callback of the deferred that is running in list `o` does before it returns. */
  ghost predicate OwnWork<F, D>(d: Deferred<F, D>, o: Outcome, e: Deferred<F, D>) {
    var fn := Current(List(d, o));
    fn.Some? &&
    match fn.value
    case SetState => OnList(d.(state := Some(o)), o, Op.Return, e)
    case DisableOther =>
      OnList(WithList(d, Other(o), List(e, Other(o))), o, Op.Return, e) &&
      IsStep(List(e, Other(o)), List(d, Other(o)), Op.Disable)
    case LockProgress => OnList(d.(progress := e.progress), o, Op.Return, e) && IsStep(e.progress, d.progress, Op.Lock)
    case User(_) => false
  }

  ghost predicate Next<F, D>(d: Deferred<F, D>, a: Action<F, D>, e: Deferred<F, D>) {
    Enabled(d, a) &&
    match a
    case Attach(o, fns) => OnList(d, o, Add(Users(fns)), e)
    case AttachProgress(fns) => OnProgress(d, Add(Users(fns)), e)
    case Settle(o, data) => OnList(d, o, FireWith(data), e)
    case Notify(data) => OnProgress(d, FireWith(data), e)
    case Return(o) => OnList(d, o, Op.Return, e)
    case ReturnProgress => OnProgress(d, Op.Return, e)
    case Own(o) => OwnWork(d, o, e)
  }

  /** Not yet settled. */
  ghost predicate Open<F, D>(d: Deferred<F, D>) {
    true == (d.state == None && Waits(d.done) && Waits(d.fail) && IsGood(d.progress))
  }

  /** Fired with `data`: the callbacks of the deferred, and then those of the users, are being called, `n` so far. */
  ghost predicate Settled<F, D>(d: Deferred<F, D>, o: Outcome, data: D, n: nat) {
    Goes(List(d, o), data, n) && n >= 1 && IsGood(d.progress) && d.state == (if n >= 2 then Some(o) else None) &&
    (if n >= 3 then IsDead(List(d, Other(o))) else Waits(List(d, Other(o)))) &&
    ((n <= 3 && List(d, o).firing) || Closed(d.progress))
  }

  /** The side that has been fired. */
  ghost predicate Valid<F, D>(d: Deferred<F, D>) {
    Open(d) || FiredSide(d, Resolved) || FiredSide(d, Rejected)
  }

  ghost predicate FiredSide<F, D>(d: Deferred<F, D>, o: Outcome) {
    List(d, o).memory.Some? && Settled(d, o, List(d, o).memory.value, |List(d, o).past.calls|)
  }

  lemma OpenNext<F, D>(d: Deferred<F, D>, a: Action<F, D>, e: Deferred<F, D>)
    requires Open(d) && Next(d, a, e)
    ensures if a.Settle? then Settled(e, a.how, a.data, 1) else Open(e)
  {
    match a
    case Attach(o, fns) => WaitsAdd(List(d, o), List(e, o), fns);
    case AttachProgress(fns) => GoodStep(d.progress, e.progress, Add(Users(fns)));
    case Settle(o, data) => WaitsFire(List(d, o), List(e, o), data);
    case Notify(data) => GoodStep(d.progress, e.progress, FireWith(data));
    case Return(o) =>
    case ReturnProgress => GoodStep(d.progress, e.progress, Op.Return);
    case Own(o) =>
  }

  lemma OwnNext<F, D>(d: Deferred<F, D>, o: Outcome, data: D, n: nat, e: Deferred<F, D>)
    requires Settled(d, o, data, n) && OwnWork(d, o, e)
    ensures Settled(e, o, data, |List(e, o).past.calls|) && |List(e, o).past.calls| >= n
  {
    GoesCurrent(List(d, o), data, n);
    GoesReturn(List(d, o), List(e, o), data, n);
    if n == 2 {
      WaitsDisable(List(d, Other(o)), List(e, Other(o)));
    } else if n == 3 {
      GoodStep(d.progress, e.progress, Op.Lock);
      LockStep(d.progress, e.progress);
    }
  }

  lemma SettledNext<F, D>(d: Deferred<F, D>, o: Outcome, data: D, n: nat, a: Action<F, D>, e: Deferred<F, D>)
    requires Settled(d, o, data, n) && Next(d, a, e)
    ensures Settled(e, o, data, |List(e, o).past.calls|) && |List(e, o).past.calls| >= n
    ensures a.Settle? ==> e == d
  {
    GoesCurrent(List(d, o), data, n);
    if a == Own(o) {
      OwnNext(d, o, data, n, e);
    } else {
      match a
      case Attach(p, fns) =>
        if p == o { var m := GoesAdd(List(d, o), List(e, o), data, n, fns); } else {
          DeadStays(List(d, p), List(e, p), Add(Users(fns)));
        }
      case AttachProgress(fns) => ProgressNext(d, e, Add(Users(fns)));
      case Settle(p, again) =>
        if p == o { GoesFire(List(d, o), List(e, o), data, n, again); } else {
          DeadStays(List(d, p), List(e, p), FireWith(again));
        }
      case Notify(again) => ProgressNext(d, e, FireWith(again));
      case Return(p) => if p == o { GoesReturn(List(d, o), List(e, o), data, n); }
      case ReturnProgress => ProgressNext(d, e, Op.Return);
      case Own(p) =>
    }
  }

  lemma ProgressNext<F, D>(d: Deferred<F, D>, e: Deferred<F, D>, op: Op<Fn<F>, D>)
    requires IsGood(d.progress) && OnProgress(d, op, e)
    ensures IsGood(e.progress) && (Closed(d.progress) ==> Closed(e.progress))
  {
    GoodStep(d.progress, e.progress, op);
    if Closed(d.progress) { LockedStays(d.progress, e.progress, op); }
  }

  /** Once the state has left pending, it and the data stay. */
  ghost predicate Agrees<F, D>(d: Deferred<F, D>, e: Deferred<F, D>) {
    forall o :: FiredSide(d, o) ==>
    FiredSide(e, o) && List(e, o).memory == List(d, o).memory && (d.state.Some? ==> e.state == d.state)
  }

  lemma NextKeeps<F, D>(d: Deferred<F, D>, a: Action<F, D>, e: Deferred<F, D>)
    requires Valid(d) && Next(d, a, e)
    ensures Valid(e) && Agrees(d, e)
    ensures Open(d) && a.Settle? ==> FiredSide(e, a.how) && List(e, a.how).memory == Some(a.data)
  {
    if Open(d) { OpenNext(d, a, e); }
    forall o | FiredSide(d, o)
      ensures FiredSide(e, o) && List(e, o).memory == List(d, o).memory && (d.state.Some? ==> e.state == d.state)
    {
      SettledNext(d, o, List(d, o).memory.value, |List(d, o).past.calls|, a, e);
    }
  }

  /** A run: `ds[i]` leads to `ds[i + 1]` by `acts[i]`. */
  ghost predicate Run<F, D>(ds: seq<Deferred<F, D>>, acts: seq<Action<F, D>>) {
    |ds| == |acts| + 1 && forall i :: 0 <= i < |acts| ==> Next(ds[i], acts[i], ds[i + 1])
  }

  lemma NewGood<F, D>()
    ensures Good(Pushed(Start<Fn<F>, D>(ONCE_MEMORY), OwnFns<F>()))
  {
    var s := Start<Fn<F>, D>(ONCE_MEMORY);
    StartGood<Fn<F>, D>(ONCE_MEMORY);
    PushedGood(s, OwnFns<F>());
  }

  lemma NewWaiting<F, D>()
    ensures Waiting(Pushed(Start<Fn<F>, D>(ONCE_MEMORY), OwnFns<F>()))
  {
    var s, fs := Start<Fn<F>, D>(ONCE_MEMORY), OwnFns<F>();
    PushedPlain(s, fs);
    assert [] + fs == fs && Owned(fs, 0);
  }

  lemma NewList<F, D>()
    ensures Waits(Pushed(Start<Fn<F>, D>(ONCE_MEMORY), OwnFns<F>()))
  {
    NewGood<F, D>();
    NewWaiting<F, D>();
    PushedPlain(Start<Fn<F>, D>(ONCE_MEMORY), OwnFns<F>());
  }

  lemma NewOpen<F, D>()
    ensures Open(New<F, D>())
  {
    NewList<F, D>();
    StartGood<Fn<F>, D>(Options(false, true, false));
  }

  /** In any order of calls a deferred is settled at most once; its outcome and its data never change afterwards. */
  lemma {:induction false} SettlesOnce<F, D>(ds: seq<Deferred<F, D>>, acts: seq<Action<F, D>>)
    requires Run(ds, acts) && Valid(ds[0])
    ensures Valid(ds[|acts|]) && Agrees(ds[0], ds[|acts|])
    decreases |acts|
  {
    if acts != [] {
      var n := |acts| - 1;
      var es, bs := ds[..n + 1], acts[..n];
      forall i | 0 <= i < n ensures Next(es[i], bs[i], es[i + 1]) {
        assert Next(ds[i], acts[i], ds[i + 1]);
      }
      SettlesOnce(es, bs);
      assert Next(ds[n], acts[n], ds[n + 1]);
      NextKeeps(ds[n], acts[n], ds[n + 1]);
    }
  }

  /**
   In a run that begins with a new deferred, what is settled at one time is settled in the same way at all later
   times.
   */
  lemma SettlesOnceFromNew<F, D>(ds: seq<Deferred<F, D>>, acts: seq<Action<F, D>>, i: nat, j: nat)
    requires Run(ds, acts) && ds[0] == New() && i <= j <= |acts|
    ensures Valid(ds[i]) && Valid(ds[j]) && Agrees(ds[i], ds[j])
  {
    NewOpen<F, D>();
    RunPart(ds, acts, 0, i);
    SettlesOnce(ds[0..i + 1], acts[0..i]);
    RunPart(ds, acts, i, j);
    SettlesOnce(ds[i..j + 1], acts[i..j]);
  }

  lemma RunPart<F, D>(ds: seq<Deferred<F, D>>, acts: seq<Action<F, D>>, i: nat, j: nat)
    requires Run(ds, acts) && i <= j <= |acts|
    ensures Run(ds[i..j + 1], acts[i..j])
  {
    forall k | 0 <= k < j - i ensures Next(ds[i..j + 1][k], acts[i..j][k], ds[i..j + 1][k + 1]) {
      assert Next(ds[i + k], acts[i + k], ds[i + k + 1]);
    }
  }

  /**
   Before the deferred is fired nothing has been called; handlers of the side that lost are never called. When the
   list that won is at rest, the `i`-th of all callbacks attached to it, before, during or after the settlement, has
   been called exactly once, as the `i`-th, with the settling data.
   */
  lemma HandlersOnce<F, D>(d: Deferred<F, D>, o: Outcome)
    requires Valid(d)
    ensures Open(d) ==> List(d, o).past.calls == []
    ensures FiredSide(d, o) ==>
              var s := List(d, o);
              List(d, Other(o)).past.calls == [] &&
              (forall i :: 0 <= i < |s.past.calls| ==>
              s.past.calls[i].id == i && s.past.calls[i].data == s.memory.value) &&
              |s.past.calls| <= s.past.next && (!s.firing ==> |s.past.calls| == s.past.next)
  {
    if FiredSide(d, o) { assert Unfolded(List(d, o), 0); }
  }

  // ----- which functions are called -----

  /** All functions that the actions attach to side `o`, in order. */
  function Attached<F, D>(acts: seq<Action<F, D>>, o: Outcome): seq<F> {
    if acts == [] then [] else
      var a := acts[|acts| - 1];
      Attached(acts[..|acts| - 1], o) + if a.Attach? && a.to == o then a.fns else []
  }

  function AttachedProgress<F, D>(acts: seq<Action<F, D>>): seq<F> {
    if acts == [] then [] else
      var a := acts[|acts| - 1];
      AttachedProgress(acts[..|acts| - 1]) + if a.AttachProgress? then a.fns else []
  }

  const MEMORY := Options(false, true, false)

  /**
   A list with the options `o` has got `base` callbacks of the deferred, and then the functions `fs`, unless it has been
   disabled.
   */
  ghost predicate Has<F, D>(s: State<Fn<F>, D>, o: Options, base: nat, fs: seq<F>) {
    true == (s.list.Some? ==>
    (s.o == o && |s.past.added| == base + |fs| &&
    forall i :: base <= i < base + |fs| ==> s.past.added[i] == User(fs[i - base])))
  }

  lemma AddedStep<F, D>(s: State<Fn<F>, D>, t: State<Fn<F>, D>, op: Op<Fn<F>, D>)
    requires IsGood(s) && IsStep(t, s, op) && (s.list.Some? ==> !s.o.unique)
    ensures t.list.Some? ==>
      s.list.Some? && t.o == s.o && t.past.added == s.past.added + if op.Add? then op.fns else []
  {
    assert Unfolded(s, 0);
    if op.Add? {
      if s.list.Some? { var r := AddPuts(s, op.fns); }
    } else {
      OthersAddNone(s, op);
    }
    if !op.Lock? && !op.Disable? { StepOpen(s, op); }
  }

  lemma HasNext<F, D>(s: State<Fn<F>, D>, t: State<Fn<F>, D>, op: Op<Fn<F>, D>, o: Options, base: nat, fs: seq<F>,
                       new': seq<F>)
    requires IsGood(s) && IsStep(t, s, op) && Has(s, o, base, fs) && !o.unique
    requires if op.Add? then op.fns == Users(new') else new' == []
    ensures Has(t, o, base, fs + new')
  {
    AddedStep(s, t, op);
  }

  lemma ValidList<F, D>(d: Deferred<F, D>, o: Outcome)
    requires Valid(d)
    ensures IsGood(List(d, o)) && IsGood(d.progress)
  {
    assert Unfolded(List(d, o), 0);
  }

  lemma ListNext<F, D>(d: Deferred<F, D>, a: Action<F, D>, e: Deferred<F, D>, o: Outcome, fs: seq<F>)
    requires Valid(d) && Next(d, a, e) && Has(List(d, o), ONCE_MEMORY, 3, fs)
    ensures Has(List(e, o), ONCE_MEMORY, 3, fs + if a.Attach? && a.to == o then a.fns else [])
  {
    var s, t := List(d, o), List(e, o);
    ValidList(d, o);
    assert fs + [] == fs;
    match a
    case Attach(p, fns) => if p == o { HasNext(s, t, Add(Users(fns)), ONCE_MEMORY, 3, fs, fns); }
    case Settle(p, data) => if p == o { HasNext(s, t, FireWith(data), ONCE_MEMORY, 3, fs, []); }
    case Return(p) => if p == o { HasNext(s, t, Op.Return, ONCE_MEMORY, 3, fs, []); }
    case Own(p) => ListOwn(d, p, e, o, fs);
    case _ =>
  }

  lemma ListOwn<F, D>(d: Deferred<F, D>, p: Outcome, e: Deferred<F, D>, o: Outcome, fs: seq<F>)
    requires IsGood(List(d, o)) && OwnWork(d, p, e) && Has(List(d, o), ONCE_MEMORY, 3, fs)
    ensures Has(List(e, o), ONCE_MEMORY, 3, fs)
  {
    var s, t := List(d, o), List(e, o);
    assert fs + [] == fs;
    if p == o {
      HasNext(s, t, Op.Return, ONCE_MEMORY, 3, fs, []);
    } else if Current(List(d, p)).value == DisableOther {
      HasNext(s, t, Op.Disable, ONCE_MEMORY, 3, fs, []);
    }
  }

  lemma ProgressListNext<F, D>(d: Deferred<F, D>, a: Action<F, D>, e: Deferred<F, D>, fs: seq<F>)
    requires Valid(d) && Next(d, a, e) && Has(d.progress, MEMORY, 0, fs)
    ensures Has(e.progress, MEMORY, 0, fs + if a.AttachProgress? then a.fns else [])
  {
    var s, t := d.progress, e.progress;
    ValidList(d, Resolved);
    assert fs + [] == fs;
    match a
    case AttachProgress(fns) => HasNext(s, t, Add(Users(fns)), MEMORY, 0, fs, fns);
    case Notify(data) => HasNext(s, t, FireWith(data), MEMORY, 0, fs, []);
    case ReturnProgress => HasNext(s, t, Op.Return, MEMORY, 0, fs, []);
    case Own(p) => if Current(List(d, p)).value == LockProgress { HasNext(s, t, Op.Lock, MEMORY, 0, fs, []); }
    case _ =>
  }

  /** In a run from a new deferred, each list has got exactly the functions that the actions attach to it, in order. */
  lemma {:induction false} RunHas<F, D>(ds: seq<Deferred<F, D>>, acts: seq<Action<F, D>>, o: Outcome)
    requires Run(ds, acts) && ds[0] == New()
    ensures Valid(ds[|acts|]) && Has(List(ds[|acts|], o), ONCE_MEMORY, 3, Attached(acts, o))
    ensures Has(ds[|acts|].progress, MEMORY, 0, AttachedProgress(acts))
    decreases |acts|
  {
    NewOpen<F, D>();
    SettlesOnce(ds, acts);
    if acts == [] {
      NewHas<F, D>();
    } else {
      var n := |acts| - 1;
      RunPart(ds, acts, 0, n);
      assert ds[0..n + 1] == ds[..n + 1] && acts[0..n] == acts[..n];
      RunHas(ds[..n + 1], acts[..n], o);
      assert Next(ds[n], acts[n], ds[n + 1]);
      ListNext(ds[n], acts[n], ds[n + 1], o, Attached(acts[..n], o));
      ProgressListNext(ds[n], acts[n], ds[n + 1], AttachedProgress(acts[..n]));
    }
  }

  lemma NewHas<F, D>()
    ensures Has(New<F, D>().done, ONCE_MEMORY, 3, []) && Has(New<F, D>().fail, ONCE_MEMORY, 3, []) &&
      Has(New<F, D>().progress, MEMORY, 0, [])
  {
    var s := Start<Fn<F>, D>(ONCE_MEMORY);
    StartNamed(s);
    PushedOpts(s, OwnFns<F>());
    var r := PushedNew(s, OwnFns<F>());
    assert |r| == 3;
  }

  lemma StartNamed<F, D>(s: State<F, D>)
    requires s == Start(ONCE_MEMORY)
    ensures Named(s)
  {
  }

  /**
   The functions that users have attached to the winning side, by whatever calls and at whatever times, are called in
   the order in which they were attached, each once, behind the callbacks of the deferred itself and with the settling
   data; when the list is at rest all of them have been called.
   */
  lemma CalledInOrder<F, D>(ds: seq<Deferred<F, D>>, acts: seq<Action<F, D>>, o: Outcome)
    requires Run(ds, acts) && ds[0] == New()
    ensures var s, fs := List(ds[|acts|], o), Attached(acts, o);
            FiredSide(ds[|acts|], o) ==>
            (|s.past.calls| <= 3 + |fs| && (!s.firing ==> |s.past.calls| == 3 + |fs|) &&
            forall i :: 3 <= i < |s.past.calls| ==>
              s.past.calls[i].id < |s.past.added| && s.past.added[s.past.calls[i].id] == User(fs[i - 3]) &&
              s.past.calls[i].data == s.memory.value)
  {
    RunHas(ds, acts, o);
    var d := ds[|acts|];
    HandlersOnce(d, o);
    if FiredSide(d, o) {
      ValidList(d, o);
      assert Unfolded(List(d, o), 0);
    }
  }

  /** Two sides never both win. */
  lemma OneSide<F, D>(d: Deferred<F, D>, o: Outcome)
    requires FiredSide(d, o)
    ensures !FiredSide(d, Other(o))
  {
  }

  /** When the handlers of users run, and ever after, notifications are ignored. */
  lemma NoMoreProgress<F, D>(d: Deferred<F, D>, o: Outcome, data: D, e: Deferred<F, D>)
    requires FiredSide(d, o) && Next(d, Notify(data), e)
    ensures e == d
  {
    GoesCurrent(List(d, o), List(d, o).memory.value, |List(d, o).past.calls|);
    LockedIgnores(d.progress, e.progress, data);
  }

  // ----- the object -----

  /** A step of a list object is a step of its value. */
  lemma ListStep<F, D>(s: State<F, D>, op: Op<F, D>, t: State<F, D>)
    requires Good(s) && (Listed(s) && (s.firing ==> s.fired && Looping(s.(firingIndex := s.firingIndex + 1))) ==>
      t == Step(s, op))
    ensures IsStep(t, s, op)
  {
    StepGood(s, op);
  }

  /** Settling once more changes nothing. */
  lemma SettledAgain<F, D>(d: Deferred<F, D>, how: Outcome, data: D, e: Deferred<F, D>)
    requires Valid(d) && !Open(d) && Next(d, Action.Settle(how, data), e)
    ensures e == d
  {
    var o := if FiredSide(d, Resolved) then Resolved else Rejected;
    SettledNext(d, o, List(d, o).memory.value, |List(d, o).past.calls|, Action.Settle(how, data), e);
  }

  /** The callbacks of the deferred are the first three to be called. */
  lemma OwnCounts<F, D>(d: Deferred<F, D>, o: Outcome, e: Deferred<F, D>)
    requires FiredSide(d, o) && Next(d, Action.Own(o), e)
    ensures |List(d, o).past.calls| <= 3 && (OwnRuns(e, o) ==> |List(e, o).past.calls| > |List(d, o).past.calls|)
  {
    GoesCurrent(List(d, o), List(d, o).memory.value, |List(d, o).past.calls|);
    GoesReturn(List(d, o), List(e, o), List(d, o).memory.value, |List(d, o).past.calls|);
  }

  lemma OwnEnds<F, D>(d: Deferred<F, D>, o: Outcome)
    requires FiredSide(d, o) && !OwnRuns(d, o)
    ensures d.state == Some(o)
  {
    GoesCurrent(List(d, o), List(d, o).memory.value, |List(d, o).past.calls|);
  }

  lemma NewStep<F, D>(s: State<Fn<F>, D>)
    requires s == Start(ONCE_MEMORY)
    ensures CanStep(s) && Step(s, Add(OwnFns<F>())) == Pushed(s, OwnFns<F>())
  {
    PushedPlain(s, OwnFns<F>());
  }

  /** A one-shot list with the callbacks of the deferred. */
  method NewOneShot<F(==), D>() returns (l: CallbackList<Fn<F>, D>)
    ensures fresh(l) && l.Valid() && Waits(l.Abs())
  {
    l := new CallbackList<Fn<F>, D>(ONCE_MEMORY);
    ghost var s := l.Abs();
    NewStep(s);
    l.Add(OwnFns<F>());
    assert l.Abs() == Pushed(s, OwnFns<F>());
    NewList<F, D>();
  }

  method NewProgress<F(==), D>() returns (l: CallbackList<F, D>)
    ensures fresh(l) && l.Valid() && IsGood(l.Abs())
  {
    var o := Options(false, true, false);
    l := new CallbackList<F, D>(o);
    StartGood<F, D>(o);
  }

  method DisableList<F(==), D>(l: CallbackList<F, D>)
    requires l.Valid()
    modifies l
    ensures l.Valid() && IsStep(l.Abs(), old(l.Abs()), Op.Disable)
  {
    ghost var s := l.Abs();
    l.Disable();
    ListStep(s, Op.Disable, l.Abs());
  }

  method LockList<F(==), D>(l: CallbackList<F, D>)
    requires l.Valid()
    modifies l
    ensures l.Valid() && IsStep(l.Abs(), old(l.Abs()), Op.Lock)
  {
    ghost var s := l.Abs();
    l.Lock();
    ListStep(s, Op.Lock, l.Abs());
  }

  method ReturnTo<F(==), D>(l: CallbackList<F, D>)
    requires l.Valid() && l.firing
    modifies l
    ensures l.Valid() && IsStep(l.Abs(), old(l.Abs()), Op.Return)
  {
    ghost var s := l.Abs();
    l.Return();
    ListStep(s, Op.Return, l.Abs());
  }

  lemma AllOpen<F, D>(d: State<Fn<F>, D>, f: State<Fn<F>, D>, p: State<Fn<F>, D>)
    requires Waits(d) && Waits(f) && IsGood(p)
    ensures Open(Deferred(None, d, f, p))
  {
  }

  class DeferredObject<F(==), D> {
    const done: CallbackList<Fn<F>, D>
    const fail: CallbackList<Fn<F>, D>
    const progress: CallbackList<Fn<F>, D>
    var state: Option<Outcome>

    ghost function Abs(): Deferred<F, D>
      reads this, done, fail, progress
    {
      Deferred(state, done.Abs(), fail.Abs(), progress.Abs())
    }

    ghost predicate Intact()
      reads this, done, fail, progress
    {
      true == (done != fail && done != progress && fail != progress && done.Valid() && fail.Valid() && progress.Valid())
    }

    constructor ()
      ensures Intact() && Open(Abs()) && fresh(done) && fresh(fail) && fresh(progress)
    {
      var d := NewOneShot<F, D>();
      var f := NewOneShot<F, D>();
      var p := NewProgress<Fn<F>, D>();
      done, fail, progress, state := d, f, p, None;
      AllOpen(d.Abs(), f.Abs(), p.Abs());
      new;
      assert Abs() == Deferred(None, d.Abs(), f.Abs(), p.Abs());
    }

    /** `done` and `fail` */
    method Attach(to: Outcome, fns: seq<F>)
      requires Intact() && Enabled(Abs(), Action.Attach(to, fns))
      modifies done, fail
      ensures Intact() && Next(old(Abs()), Action.Attach(to, fns), Abs())
    {
      ghost var s := List(Abs(), to);
      if to == Resolved { done.Add(Users(fns)); } else { fail.Add(Users(fns)); }
      ListStep(s, Add(Users(fns)), List(Abs(), to));
    }

    /** `resolveWith` and `rejectWith`, up to the first callback */
    method SettleWith(how: Outcome, data: D)
      requires Intact() && Enabled(Abs(), Action.Settle(how, data))
      modifies done, fail
      ensures Intact() && Next(old(Abs()), Action.Settle(how, data), Abs())
    {
      ghost var s := List(Abs(), how);
      if how == Resolved { done.FireWith(data); } else { fail.FireWith(data); }
      ListStep(s, FireWith(data), List(Abs(), how));
    }

    /** `progress` */
    method AttachProgress(fns: seq<F>)
      requires Intact() && Enabled(Abs(), Action.AttachProgress(fns))
      modifies progress
      ensures Intact() && Next(old(Abs()), Action.AttachProgress(fns), Abs())
    {
      ghost var s := progress.Abs();
      progress.Add(Users(fns));
      ListStep(s, Add(Users(fns)), progress.Abs());
    }

    /** `notifyWith` */
    method Notify(data: D)
      requires Intact() && Enabled(Abs(), Action.Notify(data))
      modifies progress
      ensures Intact() && Next(old(Abs()), Action.Notify(data), Abs())
    {
      ghost var s := progress.Abs();
      progress.FireWith(data);
      ListStep(s, FireWith(data), progress.Abs());
    }

    /** A callback of a user returns. */
    method ReturnFrom(o: Outcome)
      requires Intact() && Enabled(Abs(), Action.Return(o))
      modifies done, fail
      ensures Intact() && Next(old(Abs()), Action.Return(o), Abs())
    {
      ghost var s := List(Abs(), o);
      if o == Resolved { done.Return(); } else { fail.Return(); }
      ListStep(s, Op.Return, List(Abs(), o));
    }

    method ReturnFromProgress()
      requires Intact() && Enabled(Abs(), Action.ReturnProgress)
      modifies progress
      ensures Intact() && Next(old(Abs()), Action.ReturnProgress, Abs())
    {
      ghost var s := progress.Abs();
      progress.Return();
      ListStep(s, Op.Return, progress.Abs());
    }

    /** The callback of the deferred itself that is running in list `o` does its work and returns. */
    method RunOwn(o: Outcome)
      requires Intact() && OwnRuns(Abs(), o)
      modifies this, done, fail, progress
      ensures Intact() && Next(old(Abs()), Action.Own(o), Abs())
    {
      var own, other := done, fail;
      if o == Rejected { own, other := fail, done; }
      var fn := own.list.value[own.firingIndex];
      match fn {
        case SetState => state := Some(o);
        case DisableOther => DisableList(other);
        case LockProgress => LockList(progress);
        case User(_) =>
      }
      ReturnTo(own);
    }

    /** Settling the deferred: its own callbacks run before anything else can happen. */
    method Settle(how: Outcome, data: D)
      requires Intact() && Valid(Abs()) && Enabled(Abs(), Action.Settle(how, data))
      modifies this, done, fail, progress
      ensures Intact() && Valid(Abs())
      ensures if old(Open(Abs())) then state == Some(how) && FiredSide(Abs(), how) &&
        List(Abs(), how).memory == Some(data) && !OwnRuns(Abs(), how)
              else Abs() == old(Abs())
    {
      ghost var d0 := Abs();
      SettleWith(how, data);
      NextKeeps(d0, Action.Settle(how, data), Abs());
      if !Open(d0) { SettledAgain(d0, how, data, Abs()); }
      var own := HasOwn(how);
      while own
        invariant Intact() && Valid(Abs()) && own == OwnRuns(Abs(), how)
        invariant if Open(d0) then FiredSide(Abs(), how) && List(Abs(), how).memory == Some(data) else Abs() == d0
        decreases if own then 4 - |List(Abs(), how).past.calls| else 0
      {
        ghost var d := Abs();
        RunOwn(how);
        NextKeeps(d, Action.Own(how), Abs());
        OwnCounts(d, how, Abs());
        own := HasOwn(how);
      }
      if Open(d0) { OwnEnds(Abs(), how); }
    }

    method HasOwn(o: Outcome) returns (b: bool)
      ensures b == OwnRuns(Abs(), o)
    {
      var l := if o == Resolved then done else fail;
      b := l.firing && l.list.Some? && 0 <= l.firingIndex < |l.list.value| && !l.list.value[l.firingIndex].User?;
    }
  }
}
