/**
 Callback lists. While a list is firing, the callback that is running may add, remove, fire, lock or disable. Each
 function below is one step: a call of an operation, or the return of the callback that is running.
 */
module Callbacks {
  import opened ChunkStore
  import opened Sequences

  datatype Options = Options(once: bool, memory: bool, unique: bool)

  /** A call of the callback that was the `id`-th to be added, in firing number `firing`. */
  datatype Call<D> = Call(firing: nat, id: nat, data: D)

  /** A firing calls the callbacks from number `start` on; `left` are those in the list when it ended. */
  datatype Firing<D> = Firing(data: D, start: nat, left: Option<seq<nat>>)

  /**
   The past of a list: `ids` number the callbacks in the list, `added` are all functions that were ever added, the
   `id`-th at index `id`. `requested` are the fire calls that were accepted, `delivered` those that have been served,
   each by the firing that `served` names.
   */
  datatype Past<F, D> = Past(ids: seq<nat>, next: nat, added: seq<F>, calls: seq<Call<D>>, firings: seq<Firing<D>>,
                             requested: seq<D>, delivered: seq<D>, served: seq<nat>)

  datatype State<F, D> = State(o: Options, list: Option<seq<F>>, stack: Option<seq<D>>, memory: Option<D>, fired: bool,
                               firing: bool, firingLength: int, firingIndex: int, past: Past<F, D>)

  datatype Op<F, D> = Add(fns: seq<F>) | Remove(fns: seq<F>) | FireWith(data: D) | Lock | Disable | Return

  function Start<F, D>(o: Options): State<F, D> {
    State(o, Some([]), if o.once then None else Some([]), None, false, false, 0, 0, Past([], 0, [], [], [], [], [], []))
  }

  // ----- firing -----

  predicate Listed<F, D>(s: State<F, D>) {
    true == (match s.list
             case Some(list) => |s.past.ids| == |list|
             case None => s.past.ids == [] && s.stack == None && s.memory == None)
  }

  predicate Looping<F, D>(s: State<F, D>) {
    true == (Listed(s) && |s.past.firings| > 0 &&
    (s.list.Some? ==> s.firingLength == |s.past.ids| && 0 <= s.firingIndex <= s.firingLength))
  }

  function Pending<F, D>(s: State<F, D>): nat {
    if s.stack.Some? then |s.stack.value| else 0
  }

  /** `fire`, from the callback at index `start` on */
  function Begin<F, D>(s: State<F, D>, data: D, start: nat): State<F, D>
    requires Listed(s) && s.list.Some? && start <= |s.past.ids|
    decreases Pending(s), 1
  {
    Loop(Fired(s, data, start))
  }

  function Fired<F, D>(s: State<F, D>, data: D, start: nat): (t: State<F, D>)
    requires Listed(s) && s.list.Some? && start <= |s.past.ids|
    ensures Looping(t) && Pending(t) == Pending(s)
  {
    var first := if start < |s.past.ids| then s.past.ids[start] else s.past.next;
    s.(memory := if s.o.memory then Some(data) else None, fired := true, firingIndex := start,
       firingLength := |s.list.value|, firing := true,
       past := s.past.(firings := s.past.firings + [Firing(data, first, None)]))
  }

  /** The head of the loop in `fire`: the next callback is called, or the firing ends. */
  function Loop<F, D>(s: State<F, D>): State<F, D>
    requires Looping(s)
    decreases Pending(s), 0
  {
    if s.list.Some? && s.firingIndex < s.firingLength then Called(s)
    else if s.list == None then s.(firing := false)
    else
      var t := Ended(s);
      if s.stack.Some? then
        if s.stack.value == [] then t else Begin(Shifted(t), s.stack.value[0], 0)
      else if s.memory.Some? then t.(list := Some([]), past := t.past.(ids := []))
      else Disabled(t)
  }

  /** The callback at `firingIndex` is called. */
  function Called<F, D>(s: State<F, D>): State<F, D>
    requires Looping(s) && s.list.Some? && s.firingIndex < s.firingLength
  {
    var f := |s.past.firings| - 1;
    s.(past := s.past.(calls := s.past.calls + [Call(f, s.past.ids[s.firingIndex], s.past.firings[f].data)]))
  }

  function Ended<F, D>(s: State<F, D>): (t: State<F, D>)
    requires Looping(s) && s.list.Some?
    ensures Listed(t) && t.list.Some? && t.stack == s.stack
  {
    var f := |s.past.firings| - 1;
    s.(firing := false, past := s.past.(firings := s.past.firings[f := s.past.firings[f].(left := Some(s.past.ids))]))
  }

  function Shifted<F, D>(s: State<F, D>): (t: State<F, D>)
    requires Listed(s) && s.list.Some? && s.stack.Some? && s.stack.value != []
    ensures Listed(t) && t.list.Some? && Pending(t) == Pending(s) - 1
  {
    s.(stack := Some(s.stack.value[1..]), past := s.past.(delivered := s.past.delivered + [s.stack.value[0]],
    served := s.past.served + [|s.past.firings|]))
  }

  function Disabled<F, D>(s: State<F, D>): State<F, D> {
    s.(list := None, stack := None, memory := None, past := s.past.(ids := []))
  }

  // ----- the operations -----

  function Pushed<F(==), D>(s: State<F, D>, fns: seq<F>): (t: State<F, D>)
    requires Listed(s) && s.list.Some?
    ensures Listed(t) && t.list.Some? && |s.past.ids| <= |t.past.ids|
    decreases |fns|
  {
    if fns == [] then s else
      var t := Pushed(s, fns[..|fns| - 1]);
      var fn := fns[|fns| - 1];
      if s.o.unique && fn in t.list.value then t
      else t.(list := Some(t.list.value + [fn]),
      past := t.past.(ids := t.past.ids + [t.past.next], next := t.past.next + 1, added := t.past.added + [fn]))
  }

  function Added<F(==), D>(s: State<F, D>, fns: seq<F>): State<F, D>
    requires Listed(s)
  {
    if s.list == None then s else
      var t := Pushed(s, fns);
      if s.firing then t.(firingLength := |t.list.value|)
      else if s.memory.Some? then Begin(t, s.memory.value, |s.list.value|)
      else t
  }

  /** The index of `x` in `list`, from `k` on; `|list|` if there is none. */
  function IndexFrom<F(==)>(list: seq<F>, x: F, k: nat): (i: nat)
    requires k <= |list|
    ensures k <= i <= |list| && (i < |list| ==> list[i] == x) && forall j :: k <= j < i ==> list[j] != x
    decreases |list| - k
  {
    if k == |list| || list[k] == x then k else IndexFrom(list, x, k + 1)
  }

  /** The callback at index `k` is taken out of the list. */
  function TakenOut<F, D>(s: State<F, D>, k: nat): (t: State<F, D>)
    requires Listed(s) && s.list.Some? && k < |s.past.ids|
    ensures Listed(t) && t.list.Some?
  {
    s.(list := Some(Cut(s.list.value, k, 1)), past := s.past.(ids := Cut(s.past.ids, k, 1)),
       firingLength := if s.firing && k <= s.firingLength then s.firingLength - 1 else s.firingLength,
       firingIndex := if s.firing && k <= s.firingIndex then s.firingIndex - 1 else s.firingIndex)
  }

  function RemovedFrom<F(==), D>(s: State<F, D>, fn: F, k: nat): (t: State<F, D>)
    requires Listed(s) && s.list.Some? && k <= |s.list.value|
    ensures Listed(t) && t.list.Some?
    decreases |s.list.value|
  {
    var i := IndexFrom(s.list.value, fn, k);
    if i == |s.list.value| then s else RemovedFrom(TakenOut(s, i), fn, i)
  }

  function Removed<F(==), D>(s: State<F, D>, fns: seq<F>): (t: State<F, D>)
    requires Listed(s)
    ensures Listed(t) && t.list.Some? == s.list.Some?
    decreases |fns|
  {
    if fns == [] || s.list == None then s else RemovedFrom(Removed(s, fns[..|fns| - 1]), fns[|fns| - 1], 0)
  }

  function FiredWith<F, D>(s: State<F, D>, data: D): State<F, D>
    requires Listed(s) && (s.firing ==> s.fired)
  {
    if s.list == None || (s.fired && s.stack == None) then s
    else if s.firing then
      s.(stack := Some(s.stack.value + [data]), past := s.past.(requested := s.past.requested + [data]))
    else Begin(Accepted(s, data), data, 0)
  }

  /** A fire call that is served at once. */
  function Accepted<F, D>(s: State<F, D>, data: D): State<F, D> {
    var p := s.past;
    s.(past := p.(requested := p.requested + [data], delivered := p.delivered + [data],
    served := p.served + [|p.firings|]))
  }

  function Locked<F, D>(s: State<F, D>): State<F, D> {
    if s.memory == None then Disabled(s) else s.(stack := None)
  }

  /** One step. A callback can return only when one is running. */
  function Step<F(==), D>(s: State<F, D>, op: Op<F, D>): State<F, D>
    requires Listed(s) && (s.firing ==> s.fired && Looping(s.(firingIndex := s.firingIndex + 1)))
  {
    match op
    case Add(fns) => Added(s, fns)
    case Remove(fns) => Removed(s, fns)
    case FireWith(data) => FiredWith(s, data)
    case Lock => Locked(s)
    case Disable => Disabled(s)
    case Return => if s.firing then Loop(s.(firingIndex := s.firingIndex + 1)) else s
  }

  /** On a disabled list adding, removing and firing have no effect, and no step makes this undone. */
  lemma DisabledIdle<F, D>(s: State<F, D>, op: Op<F, D>)
    requires Listed(s) && s.list == None && (s.firing ==> s.fired && Looping(s.(firingIndex := s.firingIndex + 1)))
    ensures Step(s, op).list == None && (op.Add? || op.Remove? || op.FireWith? ==> Step(s, op) == s)
  {
    match op
    case Add(_) =>
    case Remove(_) =>
    case FireWith(_) =>
    case Lock =>
    case Disable =>
    case Return =>
  }

  // ----- the invariant -----

  ghost predicate Increasing(ids: seq<nat>, next: nat) {
    true == ((forall i, j :: 0 <= i < j < |ids| ==> ids[i] < ids[j]) && forall i :: 0 <= i < |ids| ==> ids[i] < next)
  }

  /** Calls are in the order of the firings, and within a firing in the order of the list, without repetition. */
  ghost predicate CallsOk<D>(firings: seq<Firing<D>>, calls: seq<Call<D>>, next: nat) {
    true == ((forall i, j :: 0 <= i < j < |calls| ==>
                calls[i].firing <= calls[j].firing &&
                (calls[i].firing == calls[j].firing ==> calls[i].id < calls[j].id)) &&
    forall c :: c in calls ==>
    c.firing < |firings| && c.data == firings[c.firing].data && firings[c.firing].start <= c.id < next)
  }

  /** Firing `f` has come to its end and has called all callbacks that it had to. */
  ghost predicate Complete<D>(firings: seq<Firing<D>>, calls: seq<Call<D>>, f: nat)
    requires f < |firings|
  {
    true == (firings[f].left.Some? && forall id :: id in firings[f].left.value && id >= firings[f].start ==>
    Call(f, id, firings[f].data) in calls)
  }

  ghost predicate AllComplete<D>(firings: seq<Firing<D>>, calls: seq<Call<D>>, n: int) {
    true == (n <= |firings| && forall f :: 0 <= f < n ==> Complete(firings, calls, f))
  }

  /** Requests are delivered in the order in which they were made. */
  ghost predicate Fifo<D>(requested: seq<D>, delivered: seq<D>, stack: Option<seq<D>>) {
    true == (|delivered| <= |requested| && delivered == requested[..|delivered|] &&
    (stack.Some? ==> requested == delivered + stack.value))
  }

  /** The data remembered are those that were delivered last. */
  ghost predicate Remembers<D>(memory: Option<D>, delivered: seq<D>) {
    true == (memory.Some? ==> |delivered| > 0 && memory.value == delivered[|delivered| - 1])
  }

  /** In the firing that is going on, the callbacks before index `i` have had their turn and the others have not. */
  ghost predicate Turn<D>(ids: seq<nat>, firings: seq<Firing<D>>, calls: seq<Call<D>>, next: nat, i: int) {
    true == (0 <= i <= |ids| && |firings| > 0 &&
      var f := |firings| - 1;
      firings[f].start <= next &&
      (forall k :: 0 <= k < i ==> ids[k] < firings[f].start || Call(f, ids[k], firings[f].data) in calls) &&
      (forall k :: i <= k < |ids| ==> ids[k] >= firings[f].start) &&
      (forall k, c :: i <= k < |ids| && c in calls && c.firing == f ==> c.id < ids[k]))
  }

  /** The functions in the list are those that were added under their numbers. */
  ghost predicate Named<F, D>(s: State<F, D>) {
    true == (Listed(s) && |s.past.added| == s.past.next && (s.list.Some? ==> forall i :: 0 <= i < |s.past.ids| ==>
      s.past.ids[i] < |s.past.added| && s.list.value[i] == s.past.added[s.past.ids[i]]))
  }

  /** All of `ids` are to be called in firing `f`. */
  ghost predicate AllIn<D>(firings: seq<Firing<D>>, f: nat, ids: seq<nat>)
    requires f < |firings|
  {
    true == forall k :: 0 <= k < |ids| ==> ids[k] >= firings[f].start
  }

  /**
   Each fire call has been served by a firing of its own, with its data, in which all callbacks of the list are to be
   called; `ids` is the list if the last firing is going on.
   */
  ghost predicate Serving<D>(firings: seq<Firing<D>>, delivered: seq<D>, served: seq<nat>, ids: seq<nat>) {
    true == (|served| == |delivered| && (forall i, j :: 0 <= i < j < |served| ==> served[i] < served[j]) &&
      forall i :: 0 <= i < |served| ==>
        served[i] < |firings| && firings[served[i]].data == delivered[i] &&
        (firings[served[i]].left.Some? ==> AllIn(firings, served[i], firings[served[i]].left.value)) &&
        (served[i] == |firings| - 1 ==> AllIn(firings, served[i], ids)))
  }

  /** A firing is about to begin: it serves the last fire call, or it replays what is remembered. */
  ghost predicate ToServe<F, D>(s: State<F, D>, data: D, start: nat) {
    true == (var p := s.past;
      Serving(p.firings, p.delivered, p.served, []) ||
      (start == 0 && |p.served| == |p.delivered| > 0 && p.served[|p.served| - 1] == |p.firings| &&
      p.delivered[|p.delivered| - 1] == data &&
      Serving(p.firings, p.delivered[..|p.delivered| - 1], p.served[..|p.served| - 1], [])))
  }

  /** What is remembered and queued is as the options want it. */
  predicate Opted<F, D>(s: State<F, D>) {
    true == ((s.memory.Some? ==> s.o.memory) && (s.list.Some? && s.fired && s.o.memory ==> s.memory.Some?) &&
      (s.o.once ==> s.stack == None))
  }

  ghost predicate Base<F, D>(s: State<F, D>) {
    true == (var p := s.past;
      Named(s) && Opted(s) && Increasing(p.ids, p.next) && CallsOk(p.firings, p.calls, p.next) &&
      Fifo(p.requested, p.delivered, s.stack))
  }

  /** What holds at the head of the loop. */
  ghost predicate AtLoop<F, D>(s: State<F, D>) {
    true == (var p := s.past;
      Base(s) && Looping(s) && s.firing && s.fired && Remembers(s.memory, p.delivered) &&
      Serving(p.firings, p.delivered, p.served, p.ids) &&
      AllComplete(p.firings, p.calls, |p.firings| - 1) &&
      (s.list.Some? ==> Turn(p.ids, p.firings, p.calls, p.next, s.firingIndex)))
  }

  /** What holds between two steps. */
  ghost predicate Good<F, D>(s: State<F, D>) {
    true == (var p := s.past;
      Base(s) && Remembers(s.memory, p.delivered) && (s.fired || (p.requested == [] && p.firings == [])) &&
      Serving(p.firings, p.delivered, p.served, if s.firing then p.ids else []) &&
      if s.firing then
        s.fired && |p.firings| > 0 && AllComplete(p.firings, p.calls, |p.firings| - 1) &&
        (s.list.Some? ==> s.firingLength == |p.ids| && Turn(p.ids, p.firings, p.calls, p.next, s.firingIndex + 1))
      else
        AllComplete(p.firings, p.calls, if s.list.Some? then |p.firings| else |p.firings| - 1) &&
        (s.stack.Some? ==> s.stack.value == []))
  }

  // ----- every step keeps it -----

  lemma CompleteMore<D>(fs: seq<Firing<D>>, calls: seq<Call<D>>, n: int, fs': seq<Firing<D>>, calls': seq<Call<D>>)
    requires AllComplete(fs, calls, n) && n <= |fs'| && (forall f :: 0 <= f < n ==> fs'[f] == fs[f])
    requires forall c :: c in calls ==> c in calls'
    ensures AllComplete(fs', calls', n)
  {
    forall f | 0 <= f < n ensures Complete(fs', calls', f) {
      assert Complete(fs, calls, f);
    }
  }

  lemma FiredOk<F, D>(s: State<F, D>, data: D, start: nat)
    requires Base(s) && s.list.Some? && start <= |s.past.ids| &&
      AllComplete(s.past.firings, s.past.calls, |s.past.firings|)
    requires |s.past.delivered| > 0 && data == s.past.delivered[|s.past.delivered| - 1] && ToServe(s, data, start)
    ensures AtLoop(Fired(s, data, start))
  {
    var p, t := s.past, Fired(s, data, start);
    CompleteMore(p.firings, p.calls, |p.firings|, t.past.firings, p.calls);
    FiredServes(s, data, start);
  }

  lemma FiredServes<F, D>(s: State<F, D>, data: D, start: nat)
    requires Base(s) && s.list.Some? && start <= |s.past.ids| && ToServe(s, data, start)
    ensures var p, t := s.past, Fired(s, data, start); Serving(t.past.firings, p.delivered, p.served, p.ids)
  {
    var p, fs := s.past, Fired(s, data, start).past.firings;
    if Serving(p.firings, p.delivered, p.served, []) {
      ServingMore(p.firings, p.delivered, p.served, fs, p.ids);
    } else {
      var n := |p.served| - 1;
      ServingMore(p.firings, p.delivered[..n], p.served[..n], fs, p.ids);
      assert AllIn(fs, |p.firings|, p.ids);
      assert forall i :: 0 <= i < n ==> p.served[..n][i] == p.served[i] && p.delivered[..n][i] == p.delivered[i];
    }
  }

  lemma ServingMore<D>(fs: seq<Firing<D>>, delivered: seq<D>, served: seq<nat>, fs': seq<Firing<D>>, ids: seq<nat>)
    requires Serving(fs, delivered, served, []) && |fs'| > |fs| && fs'[..|fs|] == fs
    ensures Serving(fs', delivered, served, ids)
  {
    forall i | 0 <= i < |served| ensures fs'[served[i]] == fs[served[i]] {
      assert fs'[..|fs|][served[i]] == fs[served[i]];
    }
    forall i | 0 <= i < |served| && fs'[served[i]].left.Some?
      ensures AllIn(fs', served[i], fs'[served[i]].left.value)
    {
      assert AllIn(fs, served[i], fs[served[i]].left.value);
    }
  }

  /** With fewer callbacks, or more new ones, in the list */
  lemma ServingList<D>(fs: seq<Firing<D>>, delivered: seq<D>, served: seq<nat>, ids: seq<nat>, ids': seq<nat>,
                       next: nat)
    requires Serving(fs, delivered, served, ids) && (|fs| > 0 ==> fs[|fs| - 1].start <= next)
    requires forall i :: i in ids' ==> i in ids || i >= next
    ensures Serving(fs, delivered, served, ids')
  {
    forall i | 0 <= i < |served| && served[i] == |fs| - 1 ensures AllIn(fs, served[i], ids') {
      assert AllIn(fs, served[i], ids);
      forall k | 0 <= k < |ids'| ensures ids'[k] >= fs[served[i]].start { assert ids'[k] in ids'; }
    }
  }

  /** The last firing ends. */
  lemma ServingEnds<D>(fs: seq<Firing<D>>, delivered: seq<D>, served: seq<nat>, ids: seq<nat>)
    requires Serving(fs, delivered, served, ids) && |fs| > 0
    ensures Serving(fs[|fs| - 1 := fs[|fs| - 1].(left := Some(ids))], delivered, served, [])
  {
    var n := |fs| - 1;
    var fs' := fs[n := fs[n].(left := Some(ids))];
    forall i | 0 <= i < |served| && fs'[served[i]].left.Some?
      ensures AllIn(fs', served[i], fs'[served[i]].left.value)
    {
      if served[i] == n { assert AllIn(fs, n, ids); } else { assert AllIn(fs, served[i], fs[served[i]].left.value); }
    }
  }

  lemma CalledOk<F, D>(s: State<F, D>)
    requires AtLoop(s) && s.list.Some? && s.firingIndex < s.firingLength
    ensures Good(Called(s))
  {
    var p, t := s.past, Called(s);
    CompleteMore(p.firings, p.calls, |p.firings| - 1, p.firings, t.past.calls);
  }

  lemma EndedOk<F, D>(s: State<F, D>)
    requires AtLoop(s) && s.list.Some? && s.firingIndex == s.firingLength
    ensures var t := Ended(s);
            Base(t) && AllComplete(t.past.firings, t.past.calls, |t.past.firings|) &&
            Serving(t.past.firings, t.past.delivered, t.past.served, [])
  {
    ServingEnds(s.past.firings, s.past.delivered, s.past.served, s.past.ids);
    var p, t := s.past, Ended(s);
    var n := |p.firings| - 1;
    CompleteMore(p.firings, p.calls, n, t.past.firings, p.calls);
    forall f | 0 <= f < n + 1 ensures Complete(t.past.firings, p.calls, f) {
    }
  }

  lemma ShiftedOk<F, D>(s: State<F, D>)
    requires Base(s) && s.list.Some? && s.stack.Some? && s.stack.value != []
    requires Serving(s.past.firings, s.past.delivered, s.past.served, [])
    ensures Base(Shifted(s)) && ToServe(Shifted(s), s.stack.value[0], 0)
  {
    var p, t := s.past, Shifted(s).past;
    assert t.delivered[..|p.delivered|] == p.delivered && t.served[..|p.served|] == p.served;
    assert s.past.requested[|s.past.delivered|] == s.stack.value[0];
  }

  lemma CompleteLess<D>(fs: seq<Firing<D>>, calls: seq<Call<D>>, n: int, k: int)
    requires AllComplete(fs, calls, n) && k <= n
    ensures AllComplete(fs, calls, k)
  {
  }

  lemma {:induction false} LoopOk<F, D>(s: State<F, D>)
    requires AtLoop(s)
    ensures Good(Loop(s))
    decreases Pending(s)
  {
    if s.list.Some? && s.firingIndex < s.firingLength {
      CalledOk(s);
    } else if s.list.Some? {
      EndedOk(s);
      var t := Ended(s);
      CompleteLess(t.past.firings, t.past.calls, |t.past.firings|, |t.past.firings| - 1);
      if s.stack.Some? && s.stack.value != [] {
        ShiftedOk(t);
        var u := Shifted(t);
        FiredOk(u, s.stack.value[0], 0);
        LoopOk(Fired(u, s.stack.value[0], 0));
      }
    }
  }

  lemma {:induction false} PushedOk<F, D>(s: State<F, D>, fns: seq<F>)
    requires Listed(s) && s.list.Some? && Increasing(s.past.ids, s.past.next)
    ensures var t := Pushed(s, fns);
            Increasing(t.past.ids, t.past.next) && s.past.next <= t.past.next && |s.past.ids| <= |t.past.ids| &&
            s.past.ids == t.past.ids[..|s.past.ids|] &&
            (forall i :: |s.past.ids| <= i < |t.past.ids| ==> t.past.ids[i] >= s.past.next) &&
            t == s.(list := t.list, past := s.past.(ids := t.past.ids, next := t.past.next, added := t.past.added))
    decreases |fns|
  {
    if fns != [] { PushedOk(s, fns[..|fns| - 1]); }
  }

  /** Numbers and functions of the callbacks that are there stay, and the functions added are remembered. */
  lemma {:induction false} PushedNamed<F, D>(s: State<F, D>, fns: seq<F>)
    requires Named(s) && s.list.Some?
    ensures Named(Pushed(s, fns)) && |s.past.added| <= |Pushed(s, fns).past.added|
    ensures Pushed(s, fns).past.added[..|s.past.added|] == s.past.added
    decreases |fns|
  {
    if fns != [] { PushedNamed(s, fns[..|fns| - 1]); }
  }

  lemma AddedOk<F, D>(s: State<F, D>, fns: seq<F>)
    requires Good(s)
    ensures Good(Added(s, fns))
  {
    if s.list.Some? {
      var t := Pushed(s, fns);
      PushedGood(s, fns);
      assert Remembers(s.memory, s.past.delivered);
      if !s.firing && s.memory.Some? {
        FiredOk(t, s.memory.value, |s.list.value|);
        LoopOk(Fired(t, s.memory.value, |s.list.value|));
      }
    }
  }

  lemma PushedGood<F, D>(s: State<F, D>, fns: seq<F>)
    requires Good(s) && s.list.Some?
    ensures var t := Pushed(s, fns);
            |s.past.ids| <= |t.past.ids| && t.past.delivered == s.past.delivered && t.memory == s.memory &&
            if s.firing then Good(t.(firingLength := |t.list.value|))
            else Good(t) && Base(t) && AllComplete(t.past.firings, t.past.calls, |t.past.firings|) &&
                 (s.memory.Some? ==> ToServe(t, s.memory.value, |s.list.value|))
  {
    PushedOk(s, fns);
    PushedNamed(s, fns);
    AddedServes(s, Pushed(s, fns));
  }

  lemma AddedServes<F, D>(s: State<F, D>, t: State<F, D>)
    requires Good(s) && t.past.firings == s.past.firings && |s.past.ids| <= |t.past.ids|
    requires s.past.ids == t.past.ids[..|s.past.ids|]
    requires forall i :: |s.past.ids| <= i < |t.past.ids| ==> t.past.ids[i] >= s.past.next
    ensures s.firing && s.list.Some? ==> Serving(t.past.firings, s.past.delivered, s.past.served, t.past.ids)
  {
    if s.firing && s.list.Some? {
      ServingList(s.past.firings, s.past.delivered, s.past.served, s.past.ids, t.past.ids, s.past.next);
    }
  }

  lemma TakenOutOk<F, D>(s: State<F, D>, k: nat)
    requires Good(s) && s.list.Some? && k < |s.past.ids|
    ensures Good(TakenOut(s, k))
  {
  }

  lemma {:induction false} RemovedFromOk<F, D>(s: State<F, D>, fn: F, k: nat)
    requires Good(s) && s.list.Some? && k <= |s.list.value|
    ensures Good(RemovedFrom(s, fn, k))
    decreases |s.past.ids|
  {
    var i := IndexFrom(s.list.value, fn, k);
    if i < |s.list.value| {
      TakenOutOk(s, i);
      RemovedFromOk(TakenOut(s, i), fn, i);
    }
  }

  lemma {:induction false} RemovedOk<F, D>(s: State<F, D>, fns: seq<F>)
    requires Good(s)
    ensures Good(Removed(s, fns))
    decreases |fns|
  {
    if fns != [] && s.list.Some? {
      RemovedOk(s, fns[..|fns| - 1]);
      RemovedFromOk(Removed(s, fns[..|fns| - 1]), fns[|fns| - 1], 0);
    }
  }

  lemma FiredWithOk<F, D>(s: State<F, D>, data: D)
    requires Good(s)
    ensures Good(FiredWith(s, data))
  {
    if s.list.Some? && (!s.fired || s.stack.Some?) && !s.firing {
      var t := Accepted(s, data);
      AcceptedOk(s, data);
      FiredOk(t, data, 0);
      LoopOk(Fired(t, data, 0));
    }
  }

  lemma AcceptedOk<F, D>(s: State<F, D>, data: D)
    requires Good(s) && !s.firing && s.list.Some? && (!s.fired || s.stack.Some?)
    ensures Base(Accepted(s, data)) && ToServe(Accepted(s, data), data, 0)
  {
    var p, t := s.past, Accepted(s, data).past;
    RequestOk(s, data);
    assert t.delivered[..|p.delivered|] == p.delivered && t.served[..|p.served|] == p.served;
  }

  lemma RequestOk<F, D>(s: State<F, D>, data: D)
    requires Good(s) && !s.firing && s.list.Some? && (!s.fired || s.stack.Some?)
    ensures var p := s.past;
            Fifo(p.requested + [data], p.delivered + [data], s.stack)
  {
    var p := s.past;
    assert p.requested == p.delivered;
    var q := p.requested + [data];
    assert q[..|q|] == q && q + [] == q;
  }

  /** Every step keeps the invariant. */
  lemma StepGood<F, D>(s: State<F, D>, op: Op<F, D>)
    requires Good(s)
    ensures Listed(s) && (s.firing ==> s.fired && Looping(s.(firingIndex := s.firingIndex + 1)))
    ensures Good(Step(s, op))
  {
    match op
    case Add(fns) => AddedOk(s, fns);
    case Remove(fns) => RemovedOk(s, fns);
    case FireWith(data) => FiredWithOk(s, data);
    case Lock => DisabledOk(s);
    case Disable => DisabledOk(s);
    case Return => if s.firing { LoopOk(s.(firingIndex := s.firingIndex + 1)); }
  }

  lemma DisabledOk<F, D>(s: State<F, D>)
    requires Good(s)
    ensures Good(Disabled(s)) && (s.memory.Some? ==> Good(s.(stack := None)))
  {
    var p := s.past;
    assert s.firing && s.list.Some? ==> p.firings[|p.firings| - 1].start <= p.next;
    if s.firing { ServingNone(p.firings, p.delivered, p.served, p.ids); }
    CompleteLess(p.firings, p.calls, if s.firing || s.list == None then |p.firings| - 1 else |p.firings|,
      |p.firings| - 1);
  }

  lemma ServingNone<D>(fs: seq<Firing<D>>, delivered: seq<D>, served: seq<nat>, ids: seq<nat>)
    requires Serving(fs, delivered, served, ids)
    ensures Serving(fs, delivered, served, [])
  {
  }

  // ----- runs -----

  ghost predicate Run<F(!new), D(!new)>(s: State<F, D>, ops: seq<Op<F, D>>, t: State<F, D>)
    decreases |ops|
  {
    if ops == [] then s == t
    else
      Good(s) && Listed(s) && (s.firing ==> s.fired && Looping(s.(firingIndex := s.firingIndex + 1))) &&
      Run(Step(s, ops[0]), ops[1..], t)
  }

  lemma StartGood<F, D>(o: Options)
    ensures Good(Start<F, D>(o))
  {
  }

  lemma StartIsGood<F, D>(s: State<F, D>, o: Options)
    requires s.o == o && s.list == Some([]) && s.stack == (if o.once then None else Some([])) && s.memory == None
    requires !s.fired && !s.firing && s.firingLength == s.firingIndex == 0 && s.past == Start<F, D>(o).past
    ensures s == Start(o) && Good(s)
  {
    StartGood<F, D>(o);
  }

  lemma {:induction false} RunGood<F(!new), D(!new)>(s: State<F, D>, ops: seq<Op<F, D>>, t: State<F, D>)
    requires Good(s) && Run(s, ops, t)
    ensures Good(t)
    decreases |ops|
  {
    if ops != [] {
      StepGood(s, ops[0]);
      RunGood(Step(s, ops[0]), ops[1..], t);
    }
  }

  // ----- what it means -----

  /**
   In a firing that has come to its end, a callback that is in the list has been called exactly once, with the data of
   the firing.
   */
  lemma CalledOnce<F, D>(s: State<F, D>, f: nat, id: nat) returns (i: nat)
    requires Good(s) && f < |s.past.firings| && (f < |s.past.firings| - 1 || (!s.firing && s.list.Some?))
    requires s.past.firings[f].left.Some? && id in s.past.firings[f].left.value && id >= s.past.firings[f].start
    ensures i < |s.past.calls| && s.past.calls[i] == Call(f, id, s.past.firings[f].data)
    ensures forall k :: 0 <= k < |s.past.calls| && s.past.calls[k].firing == f && s.past.calls[k].id == id ==> k == i
  {
    var p := s.past;
    assert Complete(p.firings, p.calls, f);
    i :| 0 <= i < |p.calls| && p.calls[i] == Call(f, id, p.firings[f].data);
  }

  /** Every firing but the last has come to its end; so has the last one if the list is neither firing nor disabled. */
  lemma Ends<F, D>(s: State<F, D>, f: nat)
    requires Good(s) && f < |s.past.firings| && (f < |s.past.firings| - 1 || (!s.firing && s.list.Some?))
    ensures s.past.firings[f].left.Some?
  {
    assert Complete(s.past.firings, s.past.calls, f);
  }

  /** The calls of one firing are in the order of the list, and no callback is called twice. */
  lemma CallOrder<F, D>(s: State<F, D>, i: nat, k: nat)
    requires Good(s) && i < k < |s.past.calls|
    ensures s.past.calls[i].firing < s.past.calls[k].firing ||
      (s.past.calls[i].firing == s.past.calls[k].firing && s.past.calls[i].id < s.past.calls[k].id)
  {
  }

  /**
   What is never undone: only callbacks that were in the list, or have been added since, are in the list or have been
   called since.
   */
  ghost predicate Evolves<F, D>(s: State<F, D>, t: State<F, D>) {
    true == (s.past.next <= t.past.next && |s.past.calls| <= |t.past.calls| &&
    t.past.calls[..|s.past.calls|] == s.past.calls &&
      (forall i :: i in t.past.ids ==> i in s.past.ids || i >= s.past.next) &&
      (forall k :: |s.past.calls| <= k < |t.past.calls| ==>
      t.past.calls[k].id in s.past.ids || t.past.calls[k].id >= s.past.next))
  }

  lemma EvolvesTrans<F, D>(s: State<F, D>, t: State<F, D>, u: State<F, D>)
    requires Evolves(s, t) && Evolves(t, u)
    ensures Evolves(s, u)
  {
    var a, b, c := s.past.calls, t.past.calls, u.past.calls;
    assert c[..|a|] == c[..|b|][..|a|];
    forall k | |a| <= k < |c| ensures c[k].id in s.past.ids || c[k].id >= s.past.next {
      if k < |b| { assert c[k] == c[..|b|][k] == b[k]; }
    }
  }

  lemma {:induction false} LoopEvolves<F, D>(s: State<F, D>)
    requires Looping(s)
    ensures Evolves(s, Loop(s))
    decreases Pending(s)
  {
    if s.list.Some? && s.firingIndex >= s.firingLength && s.stack.Some? && s.stack.value != [] {
      var u := Fired(Shifted(Ended(s)), s.stack.value[0], 0);
      LoopEvolves(u);
      EvolvesTrans(s, u, Loop(u));
    }
  }

  lemma {:induction false} PushedEvolves<F, D>(s: State<F, D>, fns: seq<F>)
    requires Listed(s) && s.list.Some?
    ensures Evolves(s, Pushed(s, fns))
    decreases |fns|
  {
    if fns != [] { PushedEvolves(s, fns[..|fns| - 1]); }
  }

  lemma {:induction false} RemovedFromEvolves<F, D>(s: State<F, D>, fn: F, k: nat)
    requires Listed(s) && s.list.Some? && k <= |s.list.value|
    ensures Evolves(s, RemovedFrom(s, fn, k))
    decreases |s.list.value|
  {
    var i := IndexFrom(s.list.value, fn, k);
    if i < |s.list.value| {
      RemovedFromEvolves(TakenOut(s, i), fn, i);
      EvolvesTrans(s, TakenOut(s, i), RemovedFrom(s, fn, k));
    }
  }

  lemma {:induction false} RemovedEvolves<F, D>(s: State<F, D>, fns: seq<F>)
    requires Listed(s)
    ensures Evolves(s, Removed(s, fns))
    decreases |fns|
  {
    if fns != [] && s.list.Some? {
      var t := Removed(s, fns[..|fns| - 1]);
      RemovedEvolves(s, fns[..|fns| - 1]);
      RemovedFromEvolves(t, fns[|fns| - 1], 0);
      EvolvesTrans(s, t, Removed(s, fns));
    }
  }

  lemma StepEvolves<F, D>(s: State<F, D>, op: Op<F, D>)
    requires Listed(s) && (s.firing ==> s.fired && Looping(s.(firingIndex := s.firingIndex + 1)))
    ensures Evolves(s, Step(s, op))
  {
    match op
    case Add(fns) =>
      if s.list.Some? {
        PushedEvolves(s, fns);
        var t := Pushed(s, fns);
        if !s.firing && s.memory.Some? {
          var u := Fired(t, s.memory.value, |s.list.value|);
          LoopEvolves(u);
          EvolvesTrans(s, t, u);
          EvolvesTrans(s, u, Loop(u));
        }
      }
    case Remove(fns) => RemovedEvolves(s, fns);
    case FireWith(data) =>
      if s.list.Some? && (!s.fired || s.stack.Some?) && !s.firing {
        var u := Fired(Accepted(s, data), data, 0);
        LoopEvolves(u);
        EvolvesTrans(s, u, Loop(u));
      }
    case Lock =>
    case Disable =>
    case Return =>
      if s.firing {
        var u := s.(firingIndex := s.firingIndex + 1);
        LoopEvolves(u);
        EvolvesTrans(s, u, Loop(u));
      }
  }

  lemma {:induction false} RunEvolves<F(!new), D(!new)>(s: State<F, D>, ops: seq<Op<F, D>>, t: State<F, D>)
    requires Run(s, ops, t)
    ensures Evolves(s, t)
    decreases |ops|
  {
    if ops != [] {
      StepEvolves(s, ops[0]);
      RunEvolves(Step(s, ops[0]), ops[1..], t);
      EvolvesTrans(s, Step(s, ops[0]), t);
    }
  }

  /**
   A callback that has been removed is not called any more, whatever happens; so it is not called at all if it was
   removed before its turn.
   */
  lemma RemovedNeverCalled<F(!new), D(!new)>(s: State<F, D>, ops: seq<Op<F, D>>, t: State<F, D>, id: nat, k: nat)
    requires Run(s, ops, t) && id < s.past.next && id !in s.past.ids && |s.past.calls| <= k < |t.past.calls|
    ensures t.past.calls[k].id != id
  {
    RunEvolves(s, ops, t);
  }

  // ----- what each operation does -----

  lemma {:induction false} RemovedFromTakes<F, D>(s: State<F, D>, fn: F, k: nat)
    requires Named(s) && s.list.Some? && k <= |s.list.value| && Increasing(s.past.ids, s.past.next)
    requires forall j :: 0 <= j < k ==> s.list.value[j] != fn
    ensures var t := RemovedFrom(s, fn, k);
            Named(t) && Increasing(t.past.ids, s.past.next) && fn !in t.list.value &&
            t.past == s.past.(ids := t.past.ids)
    ensures forall id :: id in RemovedFrom(s, fn, k).past.ids <==>
      id in s.past.ids && id < |s.past.added| && s.past.added[id] != fn
    decreases |s.list.value|
  {
    var i := IndexFrom(s.list.value, fn, k);
    if i < |s.list.value| {
      TakenOutTakes(s, i);
      RemovedFromTakes(TakenOut(s, i), fn, i);
    }
  }

  lemma TakenOutTakes<F, D>(s: State<F, D>, i: nat)
    requires Named(s) && s.list.Some? && i < |s.list.value| && Increasing(s.past.ids, s.past.next)
    ensures var t := TakenOut(s, i);
            Named(t) && Increasing(t.past.ids, s.past.next) && t.past == s.past.(ids := t.past.ids) &&
            (forall j :: 0 <= j < i ==> t.list.value[j] == s.list.value[j]) &&
            forall id :: id in t.past.ids <==> id in s.past.ids && id != s.past.ids[i]
  {
    CutMembers(s.past.ids, i, s.past.next);
  }

  lemma CutMembers(ids: seq<nat>, i: nat, next: nat)
    requires Increasing(ids, next) && i < |ids|
    ensures Increasing(Cut(ids, i, 1), next) && forall id :: id in Cut(ids, i, 1) <==> id in ids && id != ids[i]
  {
    var cut := Cut(ids, i, 1);
    assert forall j :: 0 <= j < |cut| ==> cut[j] == ids[if j < i then j else j + 1];
    forall j | 0 <= j < |ids| && j != i ensures ids[j] in cut { assert cut[if j < i then j else j - 1] == ids[j]; }
  }

  lemma {:induction false} RemovedTakes<F, D>(s: State<F, D>, fns: seq<F>)
    requires Named(s) && s.list.Some? && Increasing(s.past.ids, s.past.next)
    ensures var t := Removed(s, fns);
            Named(t) && Increasing(t.past.ids, s.past.next) && t.past == s.past.(ids := t.past.ids)
    ensures forall id :: id in Removed(s, fns).past.ids <==>
      id in s.past.ids && id < |s.past.added| && s.past.added[id] !in fns
    decreases |fns|
  {
    if fns != [] {
      var n := |fns| - 1;
      RemovedTakes(s, fns[..n]);
      RemovedFromTakes(Removed(s, fns[..n]), fns[n], 0);
      assert forall f :: f in fns <==> f in fns[..n] || f == fns[n];
    }
  }

  /**
   Removing takes all occurrences of the functions out of the list. Those that are left keep their order and their
   numbers, and nothing is called.
   */
  lemma RemoveTakesOut<F, D>(s: State<F, D>, fns: seq<F>)
    requires Good(s) && s.list.Some?
    ensures Listed(s) && (s.firing ==> s.fired && Looping(s.(firingIndex := s.firingIndex + 1)))
    ensures var t := Step(s, Remove(fns));
            t.list.Some? && |t.list.value| == |t.past.ids| && Increasing(t.past.ids, s.past.next) &&
            (forall f :: f in fns ==> f !in t.list.value) &&
            (forall i :: 0 <= i < |t.past.ids| ==>
              t.past.ids[i] < |s.past.added| && t.list.value[i] == s.past.added[t.past.ids[i]]) &&
            (forall id :: id in t.past.ids <==>
              id in s.past.ids && id < |s.past.added| && s.past.added[id] !in fns) &&
            t.past == s.past.(ids := t.past.ids)
  {
    RemovedTakes(s, fns);
    var t := Removed(s, fns);
    forall i | 0 <= i < |t.list.value| ensures t.list.value[i] !in fns { assert t.past.ids[i] in t.past.ids; }
  }

  lemma {:induction false} LoopAdds<F, D>(s: State<F, D>)
    requires Looping(s)
    ensures Loop(s).past.added == s.past.added
    decreases Pending(s)
  {
    if s.list.Some? && s.firingIndex >= s.firingLength && s.stack.Some? && s.stack.value != [] {
      LoopAdds(Fired(Shifted(Ended(s)), s.stack.value[0], 0));
    }
  }

  /** Only adding adds functions. */
  lemma OthersAddNone<F, D>(s: State<F, D>, op: Op<F, D>)
    requires Good(s) && !op.Add?
    ensures Listed(s) && (s.firing ==> s.fired && Looping(s.(firingIndex := s.firingIndex + 1)))
    ensures Step(s, op).past.added == s.past.added
  {
    match op
    case Remove(fns) => if s.list.Some? { RemoveTakesOut(s, fns); }
    case FireWith(data) =>
      if s.list.Some? && (!s.fired || s.stack.Some?) && !s.firing { LoopAdds(Fired(Accepted(s, data), data, 0)); }
    case Lock =>
    case Disable =>
    case Return => if s.firing { LoopAdds(s.(firingIndex := s.firingIndex + 1)); }
  }

  /** Functions that have been removed are not called any more, unless they are added again. */
  lemma RemoveStops<F(!new), D(!new)>(s: State<F, D>, fns: seq<F>, ops: seq<Op<F, D>>, t: State<F, D>, k: nat)
    requires Good(s) && s.list.Some? && Listed(s)
    requires s.firing ==> s.fired && Looping(s.(firingIndex := s.firingIndex + 1))
    requires Run(Step(s, Remove(fns)), ops, t) && |s.past.calls| <= k < |t.past.calls|
    ensures var id := t.past.calls[k].id;
            id >= s.past.next || (id in s.past.ids && id < |s.past.added| && s.past.added[id] !in fns)
  {
    RemoveTakesOut(s, fns);
    RunEvolves(Step(s, Remove(fns)), ops, t);
  }

  /** `r` are the functions of `fns` that are added to `list`. */
  ghost predicate AreNew<F>(list: seq<F>, fns: seq<F>, unique: bool, r: seq<F>) {
    true == if unique
      then (forall i :: 0 <= i < |r| ==> r[i] in fns && r[i] !in list) &&
           (forall i :: 0 <= i < |fns| ==> fns[i] in list || fns[i] in r) &&
           forall i, j :: 0 <= i < j < |r| ==> IndexFrom(fns, r[i], 0) < IndexFrom(fns, r[j], 0)
      else r == fns
  }

  /** `t` is the list `s` with `r` added at its end. */
  ghost predicate Appends<F, D>(t: State<F, D>, s: State<F, D>, r: seq<F>) {
    true == (Named(t) && Named(s) && s.list.Some? && t.list == Some(s.list.value + r) &&
      t.past.added == s.past.added + r && t.past.next == s.past.next + |r| && |t.past.ids| == |s.past.ids| + |r| &&
      t.past.ids[..|s.past.ids|] == s.past.ids &&
      forall i :: |s.past.ids| <= i < |t.past.ids| ==> t.past.ids[i] == s.past.next + i - |s.past.ids|)
  }

  lemma AppendsOne<F, D>(t: State<F, D>, s: State<F, D>, r: seq<F>, fn: F)
    requires Appends(t, s, r)
    ensures t.list.Some? && Appends(t.(list := Some(t.list.value + [fn]), past := t.past.(
              ids := t.past.ids + [t.past.next], next := t.past.next + 1, added := t.past.added + [fn])), s, r + [fn])
  {
    assert s.list.value + r + [fn] == s.list.value + (r + [fn]);
    assert s.past.added + r + [fn] == s.past.added + (r + [fn]);
  }

  lemma {:induction false} PushedNew<F, D>(s: State<F, D>, fns: seq<F>) returns (r: seq<F>)
    requires Named(s) && s.list.Some?
    ensures Appends(Pushed(s, fns), s, r) && AreNew(s.list.value, fns, s.o.unique, r)
    decreases |fns|
  {
    r := [];
    if fns == [] {
      assert s.list.value + r == s.list.value && s.past.added + r == s.past.added;
    } else {
      var n := |fns| - 1;
      var fn := fns[n];
      r := PushedNew(s, fns[..n]);
      var t := Pushed(s, fns[..n]);
      PushedOpts(s, fns[..n]);
      NewOne(s.list.value, fns[..n], s.o.unique, r, fn);
      assert fns[..n] + [fn] == fns && t.list.value == s.list.value + r;
      AppendsOne(t, s, r, fn);
      if !(s.o.unique && fn in s.list.value + r) { r := r + [fn]; }
    }
  }

  lemma {:induction false} PushedOpts<F, D>(s: State<F, D>, fns: seq<F>)
    requires Listed(s) && s.list.Some?
    ensures Pushed(s, fns).o == s.o
    decreases |fns|
  {
    if fns != [] { PushedOpts(s, fns[..|fns| - 1]); }
  }

  lemma NewOne<F>(list: seq<F>, fns: seq<F>, unique: bool, r: seq<F>, fn: F)
    requires AreNew(list, fns, unique, r)
    ensures AreNew(list, fns + [fn], unique, if unique && fn in list + r then r else r + [fn])
  {
    if unique {
      forall x | x in fns ensures IndexFrom(fns + [fn], x, 0) == IndexFrom(fns, x, 0) < |fns| {
        FirstStays(fns, fn, x, 0);
      }
      if fn !in fns { FirstLast(fns, fn, 0); }
    }
  }

  lemma {:induction false} FirstStays<F>(fns: seq<F>, fn: F, x: F, k: nat)
    requires k <= |fns| && x in fns[k..]
    ensures IndexFrom(fns + [fn], x, k) == IndexFrom(fns, x, k) < |fns|
    decreases |fns| - k
  {
    assert fns[k..] == [fns[k]] + fns[k + 1..];
    if fns[k] != x { FirstStays(fns, fn, x, k + 1); }
  }

  lemma {:induction false} FirstLast<F>(fns: seq<F>, fn: F, k: nat)
    requires k <= |fns| && fn !in fns[k..]
    ensures IndexFrom(fns + [fn], fn, k) == |fns|
    decreases |fns| - k
  {
    if k < |fns| {
      assert fns[k..] == [fns[k]] + fns[k + 1..];
      FirstLast(fns, fn, k + 1);
    }
  }

  /**
   Adding puts the functions at the end of the list, all of them, or of those that are new in a list of unique functions
   the first occurrences; they get the next numbers. A list with memory that is at rest calls the first of them at once,
   with the data remembered.
   */
  lemma AddPuts<F, D>(s: State<F, D>, fns: seq<F>) returns (r: seq<F>)
    requires Good(s) && s.list.Some?
    ensures Listed(s) && (s.firing ==> s.fired && Looping(s.(firingIndex := s.firingIndex + 1)))
    ensures AreNew(s.list.value, fns, s.o.unique, r)
    ensures var t := Step(s, Add(fns));
            t.past.added == s.past.added + r && Good(t) &&
            if s.firing || s.memory == None then
              t.list == Some(s.list.value + r) && t.past.calls == s.past.calls &&
              t.past.ids[..|s.past.ids|] == s.past.ids
            else if r == [] then t.past.calls == s.past.calls && !t.firing
            else t.firing && t.list == Some(s.list.value + r) &&
                 t.past.calls == s.past.calls + [Call(|s.past.firings|, s.past.next, s.memory.value)]
  {
    StepGood(s, Add(fns));
    r := PushedNew(s, fns);
    PushedOk(s, fns);
    var t := Pushed(s, fns);
    if !s.firing && s.memory.Some? { ReplayCalls(s, t, r); }
  }

  lemma ReplayCalls<F, D>(s: State<F, D>, t: State<F, D>, r: seq<F>)
    requires Good(s) && s.list.Some? && !s.firing && s.memory.Some? && Appends(t, s, r)
    requires t == s.(list := t.list, past := s.past.(ids := t.past.ids, next := t.past.next, added := t.past.added))
    ensures var u := Begin(t, s.memory.value, |s.list.value|);
            u.past.added == s.past.added + r &&
            if r == [] then u.past.calls == s.past.calls && !u.firing
            else u.firing && u.list == t.list &&
                 u.past.calls == s.past.calls + [Call(|s.past.firings|, s.past.next, s.memory.value)]
  {
    var u := Fired(t, s.memory.value, |s.list.value|);
    if r != [] { assert t.past.ids[|s.past.ids|] == s.past.next; }
    assert s.stack.Some? ==> s.stack.value == [];
  }

  /**
   A list remembers its last fire call if it is to have memory, and only then; a list that is to fire once queues
   nothing, so that after the first fire call all others are ignored.
   */
  lemma OptionsHold<F, D>(s: State<F, D>, data: D)
    requires Good(s)
    ensures s.list.Some? && s.fired && s.o.memory ==>
      |s.past.delivered| > 0 && s.memory == Some(s.past.delivered[|s.past.delivered| - 1])
    ensures !s.o.memory ==> s.memory == None
    ensures Listed(s) && (s.firing ==> s.fired && Looping(s.(firingIndex := s.firingIndex + 1)))
    ensures s.o.once && s.fired ==> Step(s, FireWith(data)) == s
  {
  }

  /** No fire call is accepted any more, and none is waiting. */
  predicate Shut<F, D>(s: State<F, D>) {
    s.stack == None && (s.fired || s.list == None)
  }

  lemma ShutLoop<F, D>(s: State<F, D>)
    requires Looping(s) && s.stack == None && s.fired
    ensures var t := Loop(s); Shut(t) && t.past.requested == s.past.requested && t.past.delivered == s.past.delivered
  {
  }

  lemma ShutStep<F, D>(s: State<F, D>, op: Op<F, D>)
    requires Good(s) && Shut(s)
    ensures Listed(s) && (s.firing ==> s.fired && Looping(s.(firingIndex := s.firingIndex + 1)))
    ensures var t := Step(s, op);
            Shut(t) && t.past.requested == s.past.requested && t.past.delivered == s.past.delivered
  {
    match op
    case Add(fns) =>
      if s.list.Some? {
        PushedOk(s, fns);
        if !s.firing && s.memory.Some? { ShutLoop(Fired(Pushed(s, fns), s.memory.value, |s.list.value|)); }
      }
    case Remove(fns) =>
      if s.list.Some? {
        RemoveTakesOut(s, fns);
        RemovedFields(s, fns);
      }
    case FireWith(data) =>
    case Lock =>
    case Disable =>
    case Return =>
  }

  lemma {:induction false} RemovedFromFields<F, D>(s: State<F, D>, fn: F, k: nat)
    requires Listed(s) && s.list.Some? && k <= |s.list.value|
    ensures var t := RemovedFrom(s, fn, k); t.stack == s.stack && t.fired == s.fired
    decreases |s.list.value|
  {
    var i := IndexFrom(s.list.value, fn, k);
    if i < |s.list.value| { RemovedFromFields(TakenOut(s, i), fn, i); }
  }

  lemma {:induction false} RemovedFields<F, D>(s: State<F, D>, fns: seq<F>)
    requires Listed(s)
    ensures var t := Removed(s, fns); t.stack == s.stack && t.fired == s.fired
    decreases |fns|
  {
    if fns != [] && s.list.Some? {
      RemovedFields(s, fns[..|fns| - 1]);
      RemovedFromFields(Removed(s, fns[..|fns| - 1]), fns[|fns| - 1], 0);
    }
  }

  lemma {:induction false} ShutRun<F(!new), D(!new)>(s: State<F, D>, ops: seq<Op<F, D>>, t: State<F, D>)
    requires Good(s) && Shut(s) && Run(s, ops, t)
    ensures t.past.requested == s.past.requested && t.past.delivered == s.past.delivered
    decreases |ops|
  {
    if ops != [] {
      ShutStep(s, ops[0]);
      StepGood(s, ops[0]);
      ShutRun(Step(s, ops[0]), ops[1..], t);
    }
  }

  /**
   After locking, or disabling, fire calls that wait are never served and new ones are ignored; a list without memory
   is disabled when it is locked, and a disabled list holds no callbacks.
   */
  lemma LockIsFinal<F(!new), D(!new)>(s: State<F, D>, op: Op<F, D>, ops: seq<Op<F, D>>, t: State<F, D>)
    requires Good(s) && Listed(s) && (s.firing ==> s.fired && Looping(s.(firingIndex := s.firingIndex + 1)))
    requires (op.Lock? || op.Disable?) && Run(Step(s, op), ops, t)
    ensures t.past.requested == s.past.requested && t.past.delivered == s.past.delivered
    ensures op.Disable? || s.memory == None ==> Step(s, op).list == None
  {
    StepGood(s, op);
    ShutRun(Step(s, op), ops, t);
  }

  /**
   A fire call on a list that is at rest calls the first callback at once; while the list is firing it waits in the
   queue; on a list that is disabled, or locked and fired before, it is ignored.
   */
  lemma FireCalls<F, D>(s: State<F, D>, data: D)
    requires Good(s)
    ensures Listed(s) && (s.firing ==> s.fired && Looping(s.(firingIndex := s.firingIndex + 1)))
    ensures var t := Step(s, FireWith(data));
            if s.list == None || (s.fired && s.stack == None) then t == s
            else t.past.requested == s.past.requested + [data] &&
                 if s.firing then t.past.calls == s.past.calls && t.stack == Some(s.stack.value + [data])
                 else if s.past.ids == [] then t.past.calls == s.past.calls && !t.firing
                 else t.firing && t.list == s.list &&
                      t.past.calls == s.past.calls + [Call(|s.past.firings|, s.past.ids[0], data)]
  {
    StepGood(s, FireWith(data));
    if s.list.Some? && (!s.fired || s.stack.Some?) && !s.firing { IdleFires(s, data); }
  }

  lemma IdleFires<F, D>(s: State<F, D>, data: D)
    requires Good(s) && s.list.Some? && !s.firing && (!s.fired || s.stack.Some?)
    ensures var t := Begin(Accepted(s, data), data, 0);
            t.past.requested == s.past.requested + [data] &&
            if s.past.ids == [] then t.past.calls == s.past.calls && !t.firing
            else t.firing && t.list == s.list &&
                 t.past.calls == s.past.calls + [Call(|s.past.firings|, s.past.ids[0], data)]
  {
    var a := Accepted(s, data);
    var u := Fired(a, data, 0);
    assert s.stack.Some? ==> s.stack.value == [];
    assert Begin(a, data, 0) == Loop(u);
    if s.past.ids == [] { LoopEnds(u); } else { LoopCalls(u); }
  }

  lemma LoopEnds<F, D>(s: State<F, D>)
    requires Looping(s) && s.list.Some? && s.firingIndex == s.firingLength && (s.stack.Some? ==> s.stack.value == [])
    ensures var t := Loop(s); t.past.calls == s.past.calls && t.past.requested == s.past.requested && !t.firing
  {
  }

  lemma LoopCalls<F, D>(s: State<F, D>)
    requires Looping(s) && s.list.Some? && s.firingIndex < s.firingLength && s.firing
    ensures var t, f := Loop(s), |s.past.firings| - 1;
            t.past.calls == s.past.calls + [Call(f, s.past.ids[s.firingIndex], s.past.firings[f].data)] &&
            t.past.requested == s.past.requested && t.list == s.list && t.firing
  {
  }

  /** Each fire call that has been served has called every callback that is in the list when its firing ends, once. */
  lemma ServedInFull<F, D>(s: State<F, D>, n: nat, id: nat) returns (i: nat)
    requires Good(s) && n < |s.past.delivered| && |s.past.served| == |s.past.delivered|
    requires var f := s.past.served[n];
             f < |s.past.firings| && (f < |s.past.firings| - 1 || (!s.firing && s.list.Some?)) &&
             s.past.firings[f].left.Some? && id in s.past.firings[f].left.value
    ensures i < |s.past.calls| && s.past.calls[i] == Call(s.past.served[n], id, s.past.delivered[n])
    ensures forall k :: 0 <= k < |s.past.calls| && s.past.calls[k].firing == s.past.served[n] ==>
              (s.past.calls[k].id == id ==> k == i)
  {
    var f := s.past.served[n];
    assert Serving(s.past.firings, s.past.delivered, s.past.served, if s.firing then s.past.ids else []);
    assert AllIn(s.past.firings, f, s.past.firings[f].left.value);
    i := CalledOnce(s, f, id);
  }

  /** Each fire call that has been served has a firing of its own, with its data, in the order of the calls. */
  lemma ServedInTurn<F, D>(s: State<F, D>, n: nat)
    requires Good(s) && n < |s.past.delivered|
    ensures |s.past.served| == |s.past.delivered| && s.past.served[n] < |s.past.firings|
    ensures s.past.firings[s.past.served[n]].data == s.past.delivered[n]
    ensures n > 0 ==> s.past.served[n - 1] < s.past.served[n]
  {
  }

  /**
   Fire calls are served first come, first served; when the list is at rest, and neither locked nor disabled, all have
   been served.
   */
  lemma FirstInFirstOut<F, D>(s: State<F, D>)
    requires Good(s)
    ensures var p := s.past;
            |p.delivered| <= |p.requested| && p.delivered == p.requested[..|p.delivered|] &&
            (s.stack.Some? && !s.firing ==> p.delivered == p.requested)
  {
  }

  // ----- the object -----

  class CallbackList<F(==), D> {
    const o: Options
    var list: Option<seq<F>>
    var stack: Option<seq<D>>
    var memory: Option<D>
    var fired: bool
    var firing: bool
    var firingLength: int
    var firingIndex: int
    var firingStart: nat
    ghost var past: Past<F, D>

    ghost function Abs(): State<F, D>
      reads this
    {
      State(o, list, stack, memory, fired, firing, firingLength, firingIndex, past)
    }

    ghost predicate Valid()
      reads this
    {
      true == (Good(Abs()) && firingStart == 0)
    }

    constructor (o: Options)
      ensures Valid() && Abs() == Start(o)
    {
      this.o := o;
      list, stack, memory := Some([]), if o.once then None else Some([]), None;
      fired, firing, firingLength, firingIndex, firingStart := false, false, 0, 0, 0;
      past := Start<F, D>(o).past;
      new;
      StartIsGood(Abs(), o);
    }

    /** `fire` up to its loop */
    method Fire(data: D)
      requires Listed(Abs()) && list.Some? && firingStart <= |list.value|
      modifies this
      ensures firingStart == 0 && Abs() == Begin(old(Abs()), data, old(firingStart))
      decreases Pending(Abs()), 1
    {
      ghost var s := Abs();
      memory := if o.memory then Some(data) else None;
      fired := true;
      firingIndex, firingStart := firingStart, 0;
      firingLength := |list.value|;
      firing := true;
      past := Fired(s, data, firingIndex).past;
      Continue();
    }

    /** The loop of `fire` up to the next call of a callback, and what follows the loop. */
    method Continue()
      requires Looping(Abs()) && firingStart == 0
      modifies this
      ensures firingStart == 0 && Abs() == Loop(old(Abs()))
      decreases Pending(Abs()), 0
    {
      ghost var s := Abs();
      if list.Some? && firingIndex < firingLength {
        past := Called(s).past;
      } else {
        firing := false;
        if list.Some? {
          past := Ended(s).past;
          if stack.Some? {
            if stack.value != [] {
              var data := stack.value[0];
              past := Shifted(Ended(s)).past;
              stack := Some(stack.value[1..]);
              Fire(data);
            }
          } else if memory.Some? {
            list := Some([]);
            past := past.(ids := []);
          } else {
            DisableList();
          }
        }
      }
    }

    /** The callback that is running returns. */
    method Return()
      requires Valid() && firing
      modifies this
      ensures Valid() && Abs() == Step(old(Abs()), Op.Return)
    {
      StepGood(Abs(), Op<F, D>.Return);
      firingIndex := firingIndex + 1;
      Continue();
    }

    method Add(fns: seq<F>)
      requires Valid()
      modifies this
      ensures Valid() && Abs() == Step(old(Abs()), Op.Add(fns))
    {
      StepGood(Abs(), Op.Add(fns));
      AddAll(fns);
    }

    method AddAll(fns: seq<F>)
      requires Listed(Abs()) && firingStart == 0
      modifies this
      ensures Abs() == Added(old(Abs()), fns) && firingStart == 0
    {
      ghost var s := Abs();
      if list.Some? {
        var start := |list.value|;
        PushAll(fns);
        if firing {
          firingLength := |list.value|;
        } else if memory.Some? {
          firingStart := start;
          Fire(memory.value);
        }
      }
    }

    /** The loop of `add` */
    method PushAll(fns: seq<F>)
      requires Listed(Abs()) && list.Some?
      modifies this`list, this`past
      ensures Abs() == Pushed(old(Abs()), fns) && list.Some? && |old(list).value| <= |list.value|
    {
      ghost var s := Abs();
      for i := 0 to |fns|
        invariant list.Some? && Abs() == Pushed(s, fns[..i]) && |s.list.value| <= |list.value|
      {
        assert fns[..i + 1][..i] == fns[..i];
        if !o.unique || fns[i] !in list.value {
          list := Some(list.value + [fns[i]]);
          past := past.(ids := past.ids + [past.next], next := past.next + 1, added := past.added + [fns[i]]);
        }
      }
      assert fns[..|fns|] == fns;
    }

    method Remove(fns: seq<F>)
      requires Valid()
      modifies this
      ensures Valid() && Abs() == Step(old(Abs()), Op.Remove(fns))
    {
      StepGood(Abs(), Op.Remove(fns));
      RemoveAll(fns);
    }

    method RemoveAll(fns: seq<F>)
      requires Listed(Abs())
      modifies this
      ensures Abs() == Removed(old(Abs()), fns) && firingStart == old(firingStart)
    {
      ghost var s := Abs();
      if list.Some? {
        for i := 0 to |fns|
          invariant list.Some? && Listed(Abs()) && Abs() == Removed(s, fns[..i])
          invariant firingStart == old(firingStart)
        {
          assert fns[..i + 1][..i] == fns[..i];
          RemoveFn(fns[i]);
        }
        assert fns[..|fns|] == fns;
      }
    }

    method RemoveFn(fn: F)
      requires list.Some? && Listed(Abs())
      modifies this
      ensures Abs() == RemovedFrom(old(Abs()), fn, 0) && list.Some? && Listed(Abs()) && firingStart == old(firingStart)
    {
      ghost var s := Abs();
      var index: nat := IndexFrom(list.value, fn, 0);
      while index < |list.value|
        invariant list.Some? && Listed(Abs()) && index <= |list.value| &&
          (index < |list.value| ==> list.value[index] == fn)
        invariant RemovedFrom(Abs(), fn, index) == RemovedFrom(s, fn, 0) && firingStart == old(firingStart)
        decreases |list.value|
      {
        TakeOut(index);
        index := IndexFrom(list.value, fn, index);
      }
    }

    method TakeOut(index: nat)
      requires list.Some? && Listed(Abs()) && index < |list.value|
      modifies this`list, this`past, this`firingLength, this`firingIndex
      ensures Abs() == TakenOut(old(Abs()), index)
    {
      ghost var t := Abs();
      list := Some(list.value[..index] + list.value[index + 1..]);
      past := TakenOut(t, index).past;
      if firing {
        if index <= firingLength { firingLength := firingLength - 1; }
        if index <= firingIndex { firingIndex := firingIndex - 1; }
      }
    }

    method FireWith(data: D)
      requires Valid()
      modifies this
      ensures Valid() && Abs() == Step(old(Abs()), Op.FireWith(data))
    {
      StepGood(Abs(), Op<F, D>.FireWith(data));
      Request(data);
    }

    method Request(data: D)
      requires Listed(Abs()) && (firing ==> fired) && firingStart == 0
      modifies this
      ensures Abs() == FiredWith(old(Abs()), data) && firingStart == 0
    {
      if list.Some? && (!fired || stack.Some?) {
        if firing {
          past := past.(requested := past.requested + [data]);
          stack := Some(stack.value + [data]);
        } else {
          past := Accepted(Abs(), data).past;
          Fire(data);
        }
      }
    }

    method DisableList()
      modifies this`list, this`stack, this`memory, this`past
      ensures Abs() == Disabled(old(Abs()))
    {
      list, stack, memory := None, None, None;
      past := past.(ids := []);
    }

    method Disable()
      requires Valid()
      modifies this
      ensures Valid() && Abs() == Step(old(Abs()), Op.Disable) && list == None && Listed(Abs())
    {
      StepGood(Abs(), Op<F, D>.Disable);
      DisableList();
    }

    method Lock()
      requires Valid()
      modifies this
      ensures Valid() && Abs() == Step(old(Abs()), Op.Lock)
    {
      StepGood(Abs(), Op<F, D>.Lock);
      stack := None;
      if memory == None { DisableList(); }
    }
  }
}
