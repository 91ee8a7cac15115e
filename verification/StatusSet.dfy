/**
 The lock-free set of resources being updated: a sorted slice behind an atomic pointer, replaced by
 load / build / compare-and-swap. Any number of begin and end calls are interleaved one atomic
 step at a time. Every slice ever published stays in `heap`; a pointer is its position there, so a
 freshly allocated slice always has a pointer never seen before.
 */
module StatusSet {
  import opened Sets
  import opened Strings

  // ---------- One call's own work: build the slice to publish ----------

  /** `next` is the slice to publish over `current`. */
  ghost predicate IsNext(current: seq<string>, id: string, add: bool, next: seq<string>) {
    Increasing(next) && Elements(next) == Applied(Elements(current), id, add)
  }

  ghost function Applied(ids: set<string>, id: string, add: bool): set<string> {
    if add then ids + {id} else ids - {id}
  }

  /** Adding what is there, or removing what is not, returns without publishing. */
  ghost predicate IsNoop(current: seq<string>, id: string, add: bool) {
    add <==> id in current
  }

  /** There is only one slice to publish. */
  lemma NextIsUnique(current: seq<string>, id: string, add: bool, a: seq<string>, b: seq<string>)
    requires IsNext(current, id, add, a) && IsNext(current, id, add, b)
    ensures a == b
  {
    IncreasingIsCanonical(a, b);
  }

  /** Builds the slice to publish in memory of its own: the published one is only read. */
  method BuildSnapshot(current: array<string>, id: string, add: bool) returns (noop: bool, next: array<string>)
    requires Increasing(current[..])
    ensures noop <==> IsNoop(current[..], id, add)
    ensures !noop ==> fresh(next) && IsNext(current[..], id, add, next[..])
    ensures noop ==> next == current && Applied(Elements(current[..]), id, add) == Elements(current[..])
  {
    hide Less, Increasing;
    ghost var was := current[..];
    var index, found := BinarySearch(current[..], id);
    if add {
      if found { return true, current; }
      next := CopyWith(current, index, id);
      InsertIncreasing(was, id, index);
      return false, next;
    }
    if !found { return true, current; }
    next := CopyWithout(current, index);
    DeleteIncreasing(was, index);
    return false, next;
  }

  method CopyWith(a: array<string>, index: nat, id: string) returns (b: array<string>)
    requires index <= a.Length
    ensures fresh(b) && b[..] == a[..][..index] + [id] + a[..][index..]
  {
    b := new string[a.Length + 1];
    forall k | 0 <= k < index { b[k] := a[k]; }
    b[index] := id;
    forall k | index <= k < a.Length { b[k + 1] := a[k]; }
  }

  method CopyWithout(a: array<string>, index: nat) returns (b: array<string>)
    requires index < a.Length
    ensures fresh(b) && b[..] == a[..][..index] + a[..][index + 1..]
  {
    b := new string[a.Length - 1];
    forall k | 0 <= k < index { b[k] := a[k]; }
    forall k | index < k < a.Length { b[k - 1] := a[k]; }
  }

  /** What a caller asking for the status gets is a copy of its own. */
  method StatusSnapshot(published: array<string>) returns (ids: array<string>)
    ensures fresh(ids) && ids[..] == published[..]
  {
    ids := new string[published.Length];
    forall k | 0 <= k < published.Length { ids[k] := published[k]; }
  }

  // ---------- The interleaved state ----------

  datatype Pc =
    | Ready                    // about to load the pointer
    | Loaded(version: nat)     // holds that version and the slice built from it, about to swap
    | Returned

  /** One call of the update loop: a begin, or an end belonging to the begin at index `begin`.
      `charges` lists the version each failed swap had loaded. */
  datatype Call = Call(id: string, add: bool, begin: nat, pc: Pc, charges: seq<nat>)

  /** `author[v]` is the call that published version `v + 1`; `done` lists the calls in the order
      they took effect. Both are history: no step reads them. */
  datatype State = State(heap: seq<seq<string>>, calls: seq<Call>, author: seq<nat>, done: seq<nat>)

  function Current(s: State): seq<string>
    requires s.heap != []
  {
    s.heap[|s.heap| - 1]
  }

  datatype Step = InvokeBegin(raw: string) | InvokeEnd(begin: nat) | Load(i: nat) | Swap(i: nat)

  ghost predicate Init(s: State) {
    s == State([[]], [], [], [])
  }

  ghost predicate Next(s: State, s': State, step: Step)
    requires s.heap != []
  {
    match step
    case InvokeBegin(raw) =>
      var id := TrimSpace(raw);
      s' == if id == "" then s else s.(calls := s.calls + [Call(id, true, |s.calls|, Ready, [])])
    case InvokeEnd(k) =>
      && k < |s.calls| && s.calls[k].add && s.calls[k].pc.Returned?
      && s' == s.(calls := s.calls + [Call(s.calls[k].id, false, k, Ready, [])])
    case Load(i) =>
      && i < |s.calls| && s.calls[i].pc.Ready?
      && var c := s.calls[i];
         if IsNoop(Current(s), c.id, c.add) then
           s' == s.(calls := s.calls[i := c.(pc := Returned)], done := s.done + [i])
         else
           s' == s.(calls := s.calls[i := c.(pc := Loaded(|s.heap| - 1))])
    case Swap(i) =>
      && i < |s.calls| && s.calls[i].pc.Loaded?
      && var c := s.calls[i];
         if c.pc.version == |s.heap| - 1 then
           && |s'.heap| == |s.heap| + 1
           && IsNext(Current(s), c.id, c.add, s'.heap[|s.heap|])
           && s' == State(s.heap + [s'.heap[|s.heap|]], s.calls[i := c.(pc := Returned)],
                          s.author + [i], s.done + [i])
         else
           s' == s.(calls := s.calls[i := c.(pc := Ready, charges := c.charges + [c.pc.version])])
  }

  /** A state and a step leave no choice of the next state. */
  lemma StepsAreDetermined(s: State, a: State, b: State, step: Step)
    requires s.heap != [] && Next(s, a, step) && Next(s, b, step)
    ensures a == b
  {
    if step.Swap? && s.calls[step.i].pc.version == |s.heap| - 1 {
      var c := s.calls[step.i];
      NextIsUnique(Current(s), c.id, c.add, a.heap[|s.heap|], b.heap[|s.heap|]);
    }
  }

  // ---------- The invariant ----------

  ghost predicate Inv(s: State) {
    HeapInv(s) && (forall i :: 0 <= i < |s.calls| ==> CallInv(s, i)) && AuthorInv(s) && DoneInv(s) && OwnedInv(s)
  }

  /** Every published slice is strictly increasing. */
  ghost predicate HeapInv(s: State) {
    |s.heap| == |s.author| + 1 && forall v :: 0 <= v < |s.heap| ==> Increasing(s.heap[v])
  }

  ghost predicate CallInv(s: State, i: nat)
    requires HeapInv(s) && i < |s.calls|
  {
    var c := s.calls[i];
    && (!c.add ==> c.begin < i && var b := s.calls[c.begin]; b.add && b.pc.Returned? && b.id == c.id)
    && (c.pc.Loaded? ==> c.pc.version < |s.heap| && !IsNoop(s.heap[c.pc.version], c.id, c.add))
    && ChargesInv(s.author, i, c.charges, if c.pc.Loaded? then c.pc.version else |s.author|)
  }

  /** Failed swaps are charged to distinct versions below `limit`, each superseded by another call. */
  ghost predicate ChargesInv(author: seq<nat>, i: nat, charges: seq<nat>, limit: nat) {
    && (forall j, k :: 0 <= j < k < |charges| ==> charges[j] < charges[k])
    && (forall j :: 0 <= j < |charges| ==> charges[j] < limit && charges[j] < |author| && author[charges[j]] != i)
  }

  /** A call publishes at most once, and then returns. */
  ghost predicate AuthorInv(s: State) {
    && (forall v :: 0 <= v < |s.author| ==> s.author[v] < |s.calls| && s.calls[s.author[v]].pc.Returned?)
    && (forall v, w :: 0 <= v < w < |s.author| ==> s.author[v] != s.author[w])
  }

  /** The returned calls, each listed once, replayed one at a time give the published set. */
  ghost predicate DoneInv(s: State)
    requires HeapInv(s)
  {
    && (forall j :: 0 <= j < |s.done| ==> s.done[j] < |s.calls|)
    && (forall j, k :: 0 <= j < k < |s.done| ==> s.done[j] != s.done[k])
    && (forall i :: 0 <= i < |s.calls| ==> (s.calls[i].pc.Returned? <==> i in s.done))
    && Replay(s.calls, s.done) == Elements(Current(s))
  }

  /** Calls applied one after the other to the empty set. */
  ghost function Replay(calls: seq<Call>, order: seq<nat>): set<string>
    requires forall j :: 0 <= j < |order| ==> order[j] < |calls|
  {
    if order == [] then {} else
      var c := calls[order[|order| - 1]];
      Applied(Replay(calls, order[..|order| - 1]), c.id, c.add)
  }

  /** Each published id is held by a begin that has returned and whose ends have not. */
  ghost predicate OwnedInv(s: State)
    requires HeapInv(s)
  {
    forall id :: id in Current(s) ==> exists k :: Holds(s, k, id)
  }

  ghost predicate Holds(s: State, k: nat, id: string) {
    && k < |s.calls| && s.calls[k].add && s.calls[k].id == id && s.calls[k].pc.Returned?
    && forall e :: 0 <= e < |s.calls| && !s.calls[e].add && s.calls[e].begin == k ==> !s.calls[e].pc.Returned?
  }

  // ---------- Every step keeps it ----------

  lemma InitInv(s: State)
    requires Init(s)
    ensures Inv(s)
  {
  }

  lemma NextKeepsHeap(s: State, s': State, step: Step)
    requires Inv(s) && Next(s, s', step)
    ensures HeapInv(s') && s.heap <= s'.heap && s.author <= s'.author && |s.calls| <= |s'.calls|
  {
  }

  lemma NextKeepsCalls(s: State, s': State, step: Step, i: nat)
    requires Inv(s) && Next(s, s', step) && HeapInv(s') && i < |s'.calls|
    ensures CallInv(s', i)
  {
    hide DoneInv, OwnedInv, IsNext, Applied, TrimSpace;
    if i < |s.calls| {
      assert CallInv(s, i);
    }
  }

  lemma NextKeepsAuthors(s: State, s': State, step: Step)
    requires Inv(s) && Next(s, s', step)
    ensures AuthorInv(s')
  {
  }

  lemma {:induction false} ReplaySameOps(calls: seq<Call>, calls': seq<Call>, order: seq<nat>)
    requires |calls| <= |calls'|
    requires forall i :: 0 <= i < |calls| ==> calls[i].id == calls'[i].id && calls[i].add == calls'[i].add
    requires forall j :: 0 <= j < |order| ==> order[j] < |calls|
    ensures Replay(calls, order) == Replay(calls', order)
  {
    if order != [] { ReplaySameOps(calls, calls', order[..|order| - 1]); }
  }

  /** A step either leaves the published set and the returned calls alone, or is the moment exactly
      one call takes effect: it returns, and the set changes by that call alone. */
  lemma StepLinearizes(s: State, s': State, step: Step)
    requires Inv(s) && Next(s, s', step) && HeapInv(s')
    ensures forall i :: 0 <= i < |s.calls| ==> Continues(s.calls[i], s'.calls[i])
    ensures
      || (s'.done == s.done && Current(s') == Current(s) &&
          (forall i :: 0 <= i < |s.calls| ==> (s'.calls[i].pc.Returned? <==> s.calls[i].pc.Returned?)) &&
          (forall i :: |s.calls| <= i < |s'.calls| ==> s'.calls[i].pc.Ready?))
      || exists i | 0 <= i < |s.calls| :: Takes(s, s', i)
  {
    if s'.done != s.done {
      assert Takes(s, s', step.i);
    }
  }

  /** Call `i` takes effect between `s` and `s'`. */
  ghost predicate Takes(s: State, s': State, i: nat)
    requires HeapInv(s) && HeapInv(s') && i < |s.calls|
  {
    && s'.done == s.done + [i] && |s'.calls| == |s.calls|
    && !s.calls[i].pc.Returned? && s'.calls[i].pc.Returned?
    && (forall k :: 0 <= k < |s.calls| && k != i ==> s'.calls[k] == s.calls[k])
    && Elements(Current(s')) == Applied(Elements(Current(s)), s.calls[i].id, s.calls[i].add)
  }

  lemma NextKeepsDone(s: State, s': State, step: Step)
    requires Inv(s) && Next(s, s', step) && HeapInv(s')
    ensures DoneInv(s')
  {
    StepLinearizes(s, s', step);
    NextKeepsHeap(s, s', step);
    hide Next, AuthorInv, OwnedInv, HeapInv, CallInv, IsNoop, IsNext, Current, Elements, Applied;
    ReplaySameOps(s.calls, s'.calls, s.done);
    if s'.done != s.done {
      var i :| 0 <= i < |s.calls| && Takes(s, s', i);
      assert s'.done[..|s'.done| - 1] == s.done;
      DoneSnoc(s, s', i);
    }
  }

  lemma DoneSnoc(s: State, s': State, i: nat)
    requires HeapInv(s) && HeapInv(s') && DoneInv(s) && i < |s.calls| && Takes(s, s', i)
    requires forall k :: 0 <= k < |s.calls| ==> s'.calls[k].id == s.calls[k].id && s'.calls[k].add == s.calls[k].add
    ensures DoneInv(s')
  {
    hide HeapInv;
    assert i !in s.done;
    assert s'.done[..|s.done|] == s.done;
    ReplaySameOps(s.calls, s'.calls, s.done);
  }

  lemma NextKeepsOwners(s: State, s': State, step: Step)
    requires Inv(s) && Next(s, s', step) && HeapInv(s')
    ensures OwnedInv(s')
  {
    forall id | id in Current(s') ensures exists k :: Holds(s', k, id) {
      if id in Current(s) {
        var k :| Holds(s, k, id);
        KeepsHolding(s, s', step, k, id);
      } else {
        NewlyPublished(s, s', step, id);
      }
    }
  }

  lemma NewlyPublished(s: State, s': State, step: Step, id: string)
    requires Inv(s) && Next(s, s', step) && HeapInv(s')
    requires id !in Current(s) && id in Current(s')
    ensures step.Swap? && Holds(s', step.i, id)
  {
    var c := s.calls[step.i];
    assert id in Applied(Elements(Current(s)), c.id, c.add);
    NoEndYet(s, step.i);
  }

  /** A begin's callback exists only once the begin has returned. */
  lemma NoEndYet(s: State, k: nat)
    requires Inv(s) && k < |s.calls| && !s.calls[k].pc.Returned?
    ensures forall e :: 0 <= e < |s.calls| ==> s.calls[e].add || s.calls[e].begin != k
  {
    forall e | 0 <= e < |s.calls| ensures s.calls[e].add || s.calls[e].begin != k {
      assert CallInv(s, e);
    }
  }

  /** A begin holds its id until an end of its own takes effect, which removes the id. */
  lemma KeepsHolding(s: State, s': State, step: Step, k: nat, id: string)
    requires Inv(s) && Next(s, s', step) && HeapInv(s')
    requires Holds(s, k, id) && id in Current(s) && id in Current(s')
    ensures Holds(s', k, id)
  {
    if (step.Load? || step.Swap?) && !s.calls[step.i].add && s.calls[step.i].begin == k {
      assert CallInv(s, step.i);
      assert s.calls[step.i].id == id;
    }
  }

  lemma NextKeepsInv(s: State, s': State, step: Step)
    requires Inv(s) && Next(s, s', step)
    ensures Inv(s')
  {
    NextKeepsHeap(s, s', step);
    forall i | 0 <= i < |s'.calls| ensures CallInv(s', i) { NextKeepsCalls(s, s', step, i); }
    NextKeepsAuthors(s, s', step);
    NextKeepsDone(s, s', step);
    NextKeepsOwners(s, s', step);
  }

  // ---------- Whole runs ----------

  ghost predicate CanStep(s: State, s': State) {
    s.heap != [] && exists step :: Next(s, s', step)
  }

  ghost predicate IsRun(run: seq<State>) {
    run != [] && Init(run[0]) && forall i :: 0 <= i < |run| - 1 ==> CanStep(run[i], run[i + 1])
  }

  lemma StepKeeps(s: State, s': State)
    requires Inv(s) && CanStep(s, s')
    ensures Inv(s') && Extends(s, s')
  {
    var step :| Next(s, s', step);
    NextKeepsInv(s, s', step);
    NextKeepsHeap(s, s', step);
    StepLinearizes(s, s', step);
  }

  lemma {:induction false} RunKeepsInv(run: seq<State>, n: nat)
    requires IsRun(run) && n < |run|
    ensures Inv(run[n])
  {
    if n == 0 {
      InitInv(run[0]);
    } else {
      hide Inv, CanStep;
      RunKeepsInv(run, n - 1);
      StepKeeps(run[n - 1], run[n]);
    }
  }

  /** Nothing published, done or invoked is taken back, and a call that returned stays as it was. */
  ghost predicate Extends(before: State, after: State) {
    && before.heap <= after.heap && before.done <= after.done && before.author <= after.author
    && |before.calls| <= |after.calls|
    && forall i :: 0 <= i < |before.calls| ==> Continues(before.calls[i], after.calls[i])
  }

  predicate Continues(c: Call, c': Call) {
    c'.id == c.id && c'.add == c.add && c'.begin == c.begin && (c.pc.Returned? ==> c' == c)
  }

  lemma ExtendsTransitive(a: State, b: State, c: State)
    requires Extends(a, b) && Extends(b, c)
    ensures Extends(a, c)
  {
  }

  lemma StepAt(run: seq<State>, n: nat)
    requires IsRun(run) && 0 < n < |run|
    ensures CanStep(run[n - 1], run[n])
  {
  }

  lemma SortedAndSelf(s: State)
    requires Inv(s)
    ensures HeapInv(s) && Extends(s, s)
  {
  }

  /** No published slice is ever altered or dropped, and every one is sorted without repeats. */
  lemma {:induction false} SlicesAreImmutable(run: seq<State>, m: nat, n: nat)
    requires IsRun(run) && m <= n < |run|
    ensures Extends(run[m], run[n]) && HeapInv(run[n])
    decreases n
  {
    hide *;
    RunKeepsInv(run, n);
    SortedAndSelf(run[n]);
    if m < n {
      SlicesAreImmutable(run, m, n - 1);
      RunKeepsInv(run, n - 1);
      StepAt(run, n);
      StepKeeps(run[n - 1], run[n]);
      ExtendsTransitive(run[m], run[n - 1], run[n]);
    }
  }

  /** Every call already in `before` precedes, in `after`, every call invoked later. */
  ghost predicate KeepsRealTimeOrder(before: State, after: State) {
    forall i, j {:trigger after.done[i], after.done[j]} ::
      0 <= i < |after.done| && 0 <= j < |after.done| &&
      after.done[i] in before.done && after.done[j] >= |before.calls|
      ==> i < j
  }

  /** Linearizability: at any moment the published set is what the returned calls leave when run one
      at a time in the order `done`, and a call that had returned before another was invoked comes
      before it in that order. */
  lemma RunIsLinearizable(run: seq<State>, m: nat, n: nat)
    requires IsRun(run) && m <= n < |run|
    ensures HeapInv(run[n]) && DoneInv(run[n])
    ensures KeepsRealTimeOrder(run[m], run[n])
  {
    RunKeepsInv(run, m);
    RunKeepsInv(run, n);
    SlicesAreImmutable(run, m, n);
    assert DoneInv(run[m]) && DoneInv(run[n]);
    OrderIsKept(run[m], run[n]);
  }

  lemma OrderIsKept(before: State, after: State)
    requires HeapInv(before) && DoneInv(before) && HeapInv(after) && DoneInv(after)
    requires before.done <= after.done && |before.calls| <= |after.calls|
    ensures KeepsRealTimeOrder(before, after)
  {
    hide HeapInv;
    forall i, j | 0 <= i < |after.done| && 0 <= j < |after.done| &&
                  after.done[i] in before.done && after.done[j] >= |before.calls|
      ensures i < j
    {
      var k :| 0 <= k < |before.done| && before.done[k] == after.done[i];
      assert after.done[k] == before.done[k];
      assert i == k && j >= |before.done|;
    }
  }

  /** Once every begin that returned has an end that returned, nothing is listed. */
  lemma AllEndedIsEmpty(run: seq<State>, n: nat)
    requires IsRun(run) && n < |run|
    requires forall k :: 0 <= k < |run[n].calls| && run[n].calls[k].add && run[n].calls[k].pc.Returned? ==>
                           Ended(run[n], k)
    ensures run[n].heap != [] && Current(run[n]) == []
  {
    RunKeepsInv(run, n);
    var s := run[n];
    assert forall k, id :: Holds(s, k, id) ==> !Ended(s, k);
    assert Elements(Current(s)) == {};
    NoElements(Current(s));
  }

  ghost predicate Ended(s: State, k: nat) {
    exists e :: 0 <= e < |s.calls| && !s.calls[e].add && s.calls[e].begin == k && s.calls[e].pc.Returned?
  }

  // ---------- Lock freedom ----------

  /** The versions published by calls other than `i`. */
  ghost function PublishedByOthers(author: seq<nat>, i: nat): set<nat> {
    set v | 0 <= v < |author| && author[v] != i
  }

  /** A call's failed swaps never outnumber the successful swaps of the other calls. */
  lemma FailuresAreBounded(run: seq<State>, n: nat, i: nat)
    requires IsRun(run) && n < |run| && i < |run[n].calls|
    ensures |run[n].calls[i].charges| <= |PublishedByOthers(run[n].author, i)|
  {
    RunKeepsInv(run, n);
    assert CallInv(run[n], i);
    var charges := run[n].calls[i].charges;
    DistinctCount(charges);
    assert Set(charges) <= PublishedByOthers(run[n].author, i);
    SubsetSize(Set(charges), PublishedByOthers(run[n].author, i));
  }

  ghost function Set(s: seq<nat>): set<nat> {
    set x | x in s
  }

  lemma {:induction false} DistinctCount(s: seq<nat>)
    requires forall j, k :: 0 <= j < k < |s| ==> s[j] < s[k]
    ensures |Set(s)| == |s|
  {
    if s != [] {
      var last := s[|s| - 1];
      DistinctCount(s[..|s| - 1]);
      assert s == s[..|s| - 1] + [last];
      assert Set(s) == Set(s[..|s| - 1]) + {last};
    }
  }

  /** The calls of one thread, in order: each has returned before the next is invoked. */
  ghost predicate IsThread(run: seq<State>, n: nat, thread: seq<nat>)
    requires n < |run|
  {
    && (forall a :: 0 <= a < |thread| ==> thread[a] < |run[n].calls|)
    && forall a, b :: 0 <= a < b < |thread| ==> exists m :: 0 <= m <= n && Between(run[m], thread[a], thread[b])
  }

  /** The one call has returned and the other is not yet invoked. */
  ghost predicate Between(s: State, i: nat, j: nat) {
    i < |s.calls| <= j && s.calls[i].pc.Returned?
  }

  ghost function Failures(s: State, thread: seq<nat>): nat
    requires forall a :: 0 <= a < |thread| ==> thread[a] < |s.calls|
  {
    if thread == [] then 0
    else Failures(s, thread[..|thread| - 1]) + |s.calls[thread[|thread| - 1]].charges|
  }

  ghost function Charged(s: State, thread: seq<nat>): set<nat>
    requires forall a :: 0 <= a < |thread| ==> thread[a] < |s.calls|
  {
    if thread == [] then {}
    else Charged(s, thread[..|thread| - 1]) + Set(s.calls[thread[|thread| - 1]].charges)
  }

  /** The versions published by calls outside the thread. */
  ghost function PublishedOutside(author: seq<nat>, thread: seq<nat>): set<nat> {
    set v | 0 <= v < |author| && author[v] !in thread
  }

  /** All failed swaps of a thread together never outnumber the successful swaps of the other threads. */
  lemma ThreadFailuresAreBounded(run: seq<State>, n: nat, thread: seq<nat>)
    requires IsRun(run) && n < |run| && IsThread(run, n, thread)
    ensures Failures(run[n], thread) <= |PublishedOutside(run[n].author, thread)|
  {
    hide IsRun;
    ThreadCharges(run, n, thread);
    var outside := PublishedOutside(run[n].author, thread);
    forall v | v in Charged(run[n], thread) ensures v in outside {
      var b := ChargedTo(run[n], thread, v);
      ChargedOutside(run, n, thread, b, v);
    }
    SubsetSize(Charged(run[n], thread), outside);
  }

  lemma {:induction false} ChargedTo(s: State, thread: seq<nat>, v: nat) returns (b: nat)
    requires forall a :: 0 <= a < |thread| ==> thread[a] < |s.calls|
    requires v in Charged(s, thread)
    ensures b < |thread| && v in s.calls[thread[b]].charges
  {
    if v in s.calls[thread[|thread| - 1]].charges {
      b := |thread| - 1;
    } else {
      b := ChargedTo(s, thread[..|thread| - 1], v);
    }
  }

  /** Each failure of a thread is charged to a version of its own. */
  lemma {:induction false} ThreadCharges(run: seq<State>, n: nat, thread: seq<nat>)
    requires IsRun(run) && n < |run| && IsThread(run, n, thread)
    ensures |Charged(run[n], thread)| == Failures(run[n], thread)
  {
    hide IsRun, IsThread, Between;
    if thread != [] {
      ThreadParts(run, n, thread);
      var rest, last := thread[..|thread| - 1], thread[|thread| - 1];
      ThreadCharges(run, n, rest);
      RunKeepsInv(run, n);
      ChargesAreDistinct(run[n], last);
      var early, late := Charged(run[n], rest), Set(run[n].calls[last].charges);
      forall v | v in early ensures v !in late {
        var b := ChargedTo(run[n], rest, v);
        ChargesApart(run, n, thread, b, |thread| - 1, v);
      }
      assert early !! late;
    }
  }

  lemma ThreadParts(run: seq<State>, n: nat, thread: seq<nat>)
    requires n < |run| && IsThread(run, n, thread) && thread != []
    ensures IsThread(run, n, thread[..|thread| - 1])
    ensures forall a :: 0 <= a < |thread| ==> thread[a] < |run[n].calls|
  {
    hide Between;
    var rest := thread[..|thread| - 1];
    forall a, b | 0 <= a < b < |rest| ensures exists m :: 0 <= m <= n && Between(run[m], rest[a], rest[b]) {
      assert rest[a] == thread[a] && rest[b] == thread[b];
    }
  }

  lemma ChargesAreDistinct(s: State, i: nat)
    requires Inv(s) && i < |s.calls|
    ensures |Set(s.calls[i].charges)| == |s.calls[i].charges|
  {
    assert CallInv(s, i);
    DistinctCount(s.calls[i].charges);
  }

  /** Versions charged to a later call of a thread were published after the earlier call had returned. */
  lemma ChargesApart(run: seq<State>, n: nat, thread: seq<nat>, a: nat, b: nat, v: nat)
    requires IsRun(run) && n < |run| && IsThread(run, n, thread) && a < b < |thread|
    requires v in run[n].calls[thread[a]].charges
    ensures v !in run[n].calls[thread[b]].charges
  {
    var m :| 0 <= m <= n && Between(run[m], thread[a], thread[b]);
    hide IsRun, IsThread;
    RunKeepsInv(run, m);
    SlicesAreImmutable(run, m, n);
    ReturnedCharges(run[m], run[n], thread[a]);
    LateCharges(run, m, n, thread[b]);
  }

  lemma ReturnedCharges(before: State, after: State, i: nat)
    requires Inv(before) && Extends(before, after) && i < |before.calls| && before.calls[i].pc.Returned?
    ensures i < |after.calls| && forall v :: v in after.calls[i].charges ==> v < |before.author|
  {
    assert CallInv(before, i);
    assert Continues(before.calls[i], after.calls[i]);
    hide HeapInv, DoneInv, OwnedInv, AuthorInv;
  }

  /** A call invoked after `run[m]` loads and is charged only versions published since. */
  ghost predicate IsLate(s: State, i: nat, floor: nat) {
    i < |s.calls| ==>
      && (s.calls[i].pc.Loaded? ==> s.calls[i].pc.version >= floor)
      && forall v :: v in s.calls[i].charges ==> v >= floor
  }

  lemma {:induction false} LateCharges(run: seq<State>, m: nat, n: nat, i: nat)
    requires IsRun(run) && m <= n < |run| && i >= |run[m].calls|
    ensures IsLate(run[n], i, |run[m].author|)
    decreases n
  {
    hide *;
    if m == n {
      NotYetInvoked(run[m], i);
    } else {
      LateCharges(run, m, n - 1, i);
      SlicesAreImmutable(run, m, n - 1);
      RunKeepsInv(run, n - 1);
      StepAt(run, n);
      StaysLate(run[m], run[n - 1], run[n], i);
    }
  }

  lemma NotYetInvoked(s: State, i: nat)
    requires i >= |s.calls|
    ensures IsLate(s, i, |s.author|)
  {
  }

  lemma StaysLate(before: State, s: State, s': State, i: nat)
    requires Inv(s) && Extends(before, s) && CanStep(s, s') && IsLate(s, i, |before.author|)
    ensures IsLate(s', i, |before.author|)
  {
    var step :| Next(s, s', step);
    hide CallInv, AuthorInv, DoneInv, OwnedInv, IsNext, IsNoop, Continues;
  }

  /** A version charged to a call of a thread was published by none of the thread's calls. */
  lemma ChargedOutside(run: seq<State>, n: nat, thread: seq<nat>, b: nat, v: nat)
    requires IsRun(run) && n < |run| && IsThread(run, n, thread) && b < |thread|
    requires v in run[n].calls[thread[b]].charges
    ensures v in PublishedOutside(run[n].author, thread)
  {
    RunKeepsInv(run, n);
    ChargedToAnother(run[n], thread[b], v);
    forall a | 0 <= a < |thread| ensures run[n].author[v] != thread[a] {
      if a < b {
        var m :| 0 <= m <= n && Between(run[m], thread[a], thread[b]);
        hide IsRun, IsThread;
        LateCharges(run, m, n, thread[b]);
        PublishedEarlier(run, m, n, thread[a], v);
      } else if b < a {
        var m :| 0 <= m <= n && Between(run[m], thread[b], thread[a]);
        hide IsRun, IsThread;
        RunKeepsInv(run, m);
        SlicesAreImmutable(run, m, n);
        ReturnedCharges(run[m], run[n], thread[b]);
        InvokedLater(run[m], run[n], thread[a], v);
      }
    }
  }

  lemma ChargedToAnother(s: State, i: nat, v: nat)
    requires Inv(s) && i < |s.calls| && v in s.calls[i].charges
    ensures v < |s.author| && s.author[v] != i
  {
    assert CallInv(s, i);
  }

  lemma InvokedLater(before: State, after: State, i: nat, v: nat)
    requires Inv(before) && Extends(before, after) && v < |before.author| && i >= |before.calls|
    ensures v < |after.author| && after.author[v] != i
  {
    assert after.author[v] == before.author[v];
    hide CallInv, DoneInv, OwnedInv, HeapInv;
  }

  /** A call that has returned publishes nothing more. */
  lemma {:induction false} PublishedEarlier(run: seq<State>, m: nat, n: nat, i: nat, v: nat)
    requires IsRun(run) && m <= n < |run| && i < |run[m].calls| && run[m].calls[i].pc.Returned?
    requires |run[m].author| <= v < |run[n].author|
    ensures run[n].author[v] != i
    decreases n
  {
    hide *;
    if m < n {
      RunKeepsInv(run, n - 1);
      SlicesAreImmutable(run, m, n - 1);
      StepAt(run, n);
      ReturnedStays(run[m], run[n - 1], i);
      NoMoreFrom(run[n - 1], run[n], i, v);
      if v < |run[n - 1].author| {
        PublishedEarlier(run, m, n - 1, i, v);
      }
    }
  }

  lemma ReturnedStays(before: State, after: State, i: nat)
    requires Extends(before, after) && i < |before.calls| && before.calls[i].pc.Returned?
    ensures i < |after.calls| && after.calls[i].pc.Returned?
  {
    assert Continues(before.calls[i], after.calls[i]);
  }

  lemma NoMoreFrom(s: State, s': State, i: nat, v: nat)
    requires CanStep(s, s') && i < |s.calls| && s.calls[i].pc.Returned? && v < |s'.author|
    ensures v < |s.author| ==> s'.author[v] == s.author[v]
    ensures v >= |s.author| ==> s'.author[v] != i
  {
    var step :| Next(s, s', step);
    hide IsNext, IsNoop;
  }

  // ---------- A set, not a counter ----------

  /** The last call on `id` to take effect, if any, is a begin. */
  ghost predicate LastIsBegin(calls: seq<Call>, order: seq<nat>, id: string)
    requires forall j :: 0 <= j < |order| ==> order[j] < |calls|
  {
    exists p :: 0 <= p < |order| && calls[order[p]].id == id && calls[order[p]].add &&
      forall q :: p < q < |order| && calls[order[q]].id == id ==> calls[order[q]].add
  }

  /** Exactly when an id is listed, however the calls interleave: some begin of it took effect, and
      after it no end of any begin of it. */
  lemma ListedExactly(run: seq<State>, n: nat, id: string)
    requires IsRun(run) && n < |run|
    ensures HeapInv(run[n]) && DoneInv(run[n])
    ensures id in Current(run[n]) <==> LastIsBegin(run[n].calls, run[n].done, id)
  {
    RunKeepsInv(run, n);
    ReplayedLast(run[n].calls, run[n].done, id);
  }

  predicate IsTrimmed(id: string) {
    id != "" && !IsSpace(id[0]) && !IsSpace(id[|id| - 1])
  }

  /** A begin with a blank ID does nothing at all; any other invokes one call, for the ID without the white space
      around it. */
  lemma BeginIsTrimmed(s: State, s': State, raw: string)
    requires s.heap != [] && Next(s, s', InvokeBegin(raw))
    ensures Blank(raw) ==> s' == s
    ensures !Blank(raw) ==>
      exists c: Call, lead, trail ::
        && s' == s.(calls := s.calls + [c]) && c.add && c.pc.Ready? && IsTrimmed(c.id)
        && raw == lead + c.id + trail && Blank(lead) && Blank(trail)
  {
    var lead, trail := TrimSpaceIs(raw);
    var id := TrimSpace(raw);
    hide TrimSpace, IsSpace;
    assert id == "" ==> Blank(lead + trail) && raw == lead + trail;
    if id != "" {
      assert raw[|lead|] == id[0];
      var c := Call(id, true, |s.calls|, Ready, []);
      assert s' == s.(calls := s.calls + [c]) && IsTrimmed(c.id);
    }
  }

  /** So in every run no blank ID is ever listed, and none with white space around it. */
  lemma OnlyTrimmedAreListed(run: seq<State>, n: nat, id: string)
    requires IsRun(run) && n < |run| && run[n].heap != [] && id in Current(run[n])
    ensures IsTrimmed(id)
  {
    CallsAreTrimmed(run, n);
    ListedExactly(run, n, id);
    hide IsTrimmed, HeapInv, DoneInv, Current;
  }

  lemma {:induction false} CallsAreTrimmed(run: seq<State>, n: nat)
    requires IsRun(run) && n < |run|
    ensures forall i :: 0 <= i < |run[n].calls| ==> IsTrimmed(run[n].calls[i].id)
  {
    if n == 0 {
      assert Init(run[0]);
    } else {
      CallsAreTrimmed(run, n - 1);
      RunKeepsInv(run, n - 1);
      StepAt(run, n);
      var s, s' := run[n - 1], run[n];
      var step :| Next(s, s', step);
      StepIsTrimmed(s, s', step);
    }
  }

  lemma StepIsTrimmed(s: State, s': State, step: Step)
    requires s.heap != [] && Next(s, s', step)
    requires forall i :: 0 <= i < |s.calls| ==> IsTrimmed(s.calls[i].id)
    ensures forall i :: 0 <= i < |s'.calls| ==> IsTrimmed(s'.calls[i].id)
  {
    if step.InvokeBegin? {
      BeginIsTrimmed(s, s', step.raw);
    }
    hide IsTrimmed, TrimSpace, Blank;
  }

  lemma {:induction false} ReplayedLast(calls: seq<Call>, order: seq<nat>, id: string)
    requires forall j :: 0 <= j < |order| ==> order[j] < |calls|
    ensures id in Replay(calls, order) <==> LastIsBegin(calls, order, id)
  {
    if order != [] {
      var rest, n := order[..|order| - 1], |order| - 1;
      ReplayedLast(calls, rest, id);
      if calls[order[n]].id == id {
        assert calls[order[n]].add ==> LastIsBegin(calls, order, id);
      } else {
        if LastIsBegin(calls, rest, id) {
          var p :| 0 <= p < |rest| && calls[rest[p]].id == id && calls[rest[p]].add &&
            forall q :: p < q < |rest| && calls[rest[q]].id == id ==> calls[rest[q]].add;
          assert rest[p] == order[p];
        }
        if LastIsBegin(calls, order, id) {
          var p :| 0 <= p < |order| && calls[order[p]].id == id && calls[order[p]].add &&
            forall q :: p < q < |order| && calls[order[q]].id == id ==> calls[order[q]].add;
          assert rest[p] == order[p];
        }
      }
    }
  }

  ghost predicate IsBegin(s: State, k: nat, id: string) {
    k < |s.calls| && s.calls[k].add && s.calls[k].id == id
  }

  ghost predicate IsEnd(s: State, e: nat, k: nat) {
    e < |s.calls| && !s.calls[e].add && s.calls[e].begin == k
  }

  /** Some end of begin `k` took effect before position `p`. */
  ghost predicate EndedBy(s: State, k: nat, p: nat) {
    exists q :: 0 <= q < p && q < |s.done| && IsEnd(s, s.done[q], k)
  }

  /** The published set answers for what is held: an ID is listed if and only if some begin of it has taken
      effect and none of that begin's ends has. */
  ghost predicate ListsHeld(s: State, id: string) {
    s.heap != [] && (id in Current(s) <==> exists k :: Holds(s, k, id))
  }

  /** Whenever an end of `id` takes effect, every other begin of `id` that took effect before it has been
      ended before it. */
  ghost predicate EndsAlone(s: State, id: string) {
    forall r, p :: 0 <= r < p < |s.done| && IsBegin(s, s.done[r], id) && IsOtherEnd(s, s.done[p], s.done[r], id) ==>
      EndedBy(s, s.done[r], p)
  }

  ghost predicate IsOtherEnd(s: State, e: nat, k: nat, id: string) {
    e < |s.calls| && !s.calls[e].add && s.calls[e].id == id && s.calls[e].begin != k
  }

  /** When the set is as good as a counter, exactly: all along a run an ID is listed if and only if it is held,
      if and only if no end of it ever takes effect while another begin of it is held. */
  lemma CountsExactly(run: seq<State>, n: nat, id: string)
    requires IsRun(run) && n < |run|
    ensures (forall m :: 0 <= m <= n ==> ListsHeld(run[m], id)) <==> EndsAlone(run[n], id)
  {
    hide *;
    if EndsAlone(run[n], id) {
      forall m | 0 <= m <= n ensures ListsHeld(run[m], id) {
        SlicesAreImmutable(run, m, n);
        RunKeepsInv(run, m);
        RunKeepsInv(run, n);
        InvSeesPrefix(run[m], run[n]);
        AloneEarlier(run[m], run[n], id);
        AloneListsHeld(run[m], id);
      }
    }
    if forall m :: 0 <= m <= n ==> ListsHeld(run[m], id) {
      AllPairsAlone(run, n, id);
    }
  }

  /** What an earlier state has seen of the effects is a prefix of what a later one has. */
  ghost predicate SeesPrefix(before: State, after: State) {
    && before.done <= after.done && |before.calls| <= |after.calls|
    && (forall j :: 0 <= j < |before.done| ==> before.done[j] < |before.calls|)
    && forall i :: 0 <= i < |before.calls| ==> Continues(before.calls[i], after.calls[i])
  }

  lemma InvSeesPrefix(before: State, after: State)
    requires Inv(before) && Extends(before, after)
    ensures SeesPrefix(before, after)
  {
    hide HeapInv, CallInv, AuthorInv, OwnedInv, Replay, Continues;
  }

  lemma EndedAlike(before: State, after: State, k: nat, p: nat)
    requires SeesPrefix(before, after) && p <= |before.done|
    ensures EndedBy(before, k, p) <==> EndedBy(after, k, p)
  {
    forall q | 0 <= q < p
      ensures before.done[q] == after.done[q]
      ensures IsEnd(before, before.done[q], k) <==> IsEnd(after, after.done[q], k)
    {
      assert Continues(before.calls[before.done[q]], after.calls[before.done[q]]);
    }
  }

  lemma AloneEarlier(before: State, after: State, id: string)
    requires SeesPrefix(before, after) && EndsAlone(after, id)
    ensures EndsAlone(before, id)
  {
    forall r, p | 0 <= r < p < |before.done| && IsBegin(before, before.done[r], id) &&
                  IsOtherEnd(before, before.done[p], before.done[r], id)
      ensures EndedBy(before, before.done[r], p)
    {
      assert after.done[r] == before.done[r] && after.done[p] == before.done[p];
      EndedAlike(before, after, before.done[r], p);
      hide EndedBy;
    }
  }

  /** No end takes effect after a begin that is still held, so the last call on the ID is a begin. */
  lemma AloneListsHeld(s: State, id: string)
    requires Inv(s) && EndsAlone(s, id)
    ensures ListsHeld(s, id)
  {
    hide CallInv, AuthorInv;
    ReplayedLast(s.calls, s.done, id);
    if k :| Holds(s, k, id) {
      var p :| 0 <= p < |s.done| && s.done[p] == k;
      forall q | p < q < |s.done| && s.calls[s.done[q]].id == id ensures s.calls[s.done[q]].add {
        HeldIsUnended(s, id, k, q);
        assert !IsOtherEnd(s, s.done[q], s.done[p], id);
      }
      hide HeapInv, Replay, EndsAlone;
      assert LastIsBegin(s.calls, s.done, id);
    }
  }

  lemma HeldIsUnended(s: State, id: string, k: nat, q: nat)
    requires HeapInv(s) && DoneInv(s) && Holds(s, k, id)
    ensures !EndedBy(s, k, q)
  {
    hide HeapInv;
  }

  lemma AllPairsAlone(run: seq<State>, n: nat, id: string)
    requires IsRun(run) && n < |run|
    requires forall m :: 0 <= m <= n ==> ListsHeld(run[m], id)
    ensures EndsAlone(run[n], id)
  {
    var s := run[n];
    hide IsRun, ListsHeld, IsBegin, IsOtherEnd, EndedBy;
    forall r, p | 0 <= r < p < |s.done| && IsBegin(s, s.done[r], id) && IsOtherEnd(s, s.done[p], s.done[r], id)
      ensures EndedBy(s, s.done[r], p)
    {
      PairIsAlone(run, n, id, r, p);
    }
  }

  lemma PairIsAlone(run: seq<State>, n: nat, id: string, r: nat, p: nat)
    requires IsRun(run) && n < |run| && forall m :: 0 <= m <= n ==> ListsHeld(run[m], id)
    requires r < p < |run[n].done| && IsBegin(run[n], run[n].done[r], id)
    requires IsOtherEnd(run[n], run[n].done[p], run[n].done[r], id)
    ensures EndedBy(run[n], run[n].done[r], p)
  {
    hide *;
    var m := PrefixIsReached(run, n, p + 1);
    SlicesAreImmutable(run, m, n);
    RunKeepsInv(run, m);
    RunKeepsInv(run, n);
    InvSeesPrefix(run[m], run[n]);
    AtItsMoment(run[m], run[n], id, r, p);
  }

  /** At the moment an end takes effect the ID is not listed, so if listed means held, no begin holds it. */
  lemma AtItsMoment(at: State, s: State, id: string, r: nat, p: nat)
    requires Inv(at) && SeesPrefix(at, s) && |at.done| == p + 1 && ListsHeld(at, id)
    requires r < p < |s.done| && IsBegin(s, s.done[r], id) && IsOtherEnd(s, s.done[p], s.done[r], id)
    ensures EndedBy(s, s.done[r], p)
  {
    assert at.done[r] == s.done[r] && at.done[p] == s.done[p];
    assert Continues(at.calls[at.done[r]], s.calls[s.done[r]]) && Continues(at.calls[at.done[p]], s.calls[s.done[p]]);
    EndedAlike(at, s, s.done[r], p);
    hide SeesPrefix, Continues, EndedBy;
    UnlistedIsEnded(at, id, r, p);
  }

  lemma UnlistedIsEnded(s: State, id: string, r: nat, p: nat)
    requires Inv(s) && ListsHeld(s, id) && |s.done| == p + 1 && r < p
    requires IsBegin(s, s.done[r], id) && IsOtherEnd(s, s.done[p], s.done[r], id)
    ensures EndedBy(s, s.done[r], p)
  {
    hide CallInv, AuthorInv, OwnedInv, HeapInv;
    var k := s.done[r];
    ReplayedLast(s.calls, s.done, id);
    assert !LastIsBegin(s.calls, s.done, id);
    hide LastIsBegin, Replay;
    assert !Holds(s, k, id);
    var e :| 0 <= e < |s.calls| && !s.calls[e].add && s.calls[e].begin == k && s.calls[e].pc.Returned?;
    var q :| 0 <= q < |s.done| && s.done[q] == e;
  }

  /** Effects happen one at a time: every number of them up to the last was once all there were. */
  lemma {:induction false} PrefixIsReached(run: seq<State>, n: nat, j: nat) returns (m: nat)
    requires IsRun(run) && n < |run| && j <= |run[n].done|
    ensures m <= n && |run[m].done| == j
  {
    if |run[n].done| == j {
      m := n;
    } else {
      RunKeepsInv(run, n);
      StartsUndone(run);
      assert n > 0;
      RunKeepsInv(run, n - 1);
      StepAt(run, n);
      OneAtATime(run[n - 1], run[n]);
      m := PrefixIsReached(run, n - 1, j);
    }
  }

  lemma StartsUndone(run: seq<State>)
    requires IsRun(run)
    ensures run[0].done == []
  {
  }

  lemma OneAtATime(s: State, s': State)
    requires CanStep(s, s')
    ensures |s'.done| <= |s.done| + 1
  {
    var step :| Next(s, s', step);
  }

  /** Of two begins of `id` to take effect, the earlier has been ended before the later, and every end of it
      that takes effect does so before the later: the begins do not overlap. */
  ghost predicate NoOverlap(s: State, id: string) {
    forall r, q :: 0 <= r < q < |s.done| && IsBegin(s, s.done[r], id) && IsBegin(s, s.done[q], id) ==>
      EndedBy(s, s.done[r], q) && EndedBefore(s, s.done[r], q)
  }

  /** Every end of begin `k` that took effect stands before position `q`. */
  ghost predicate EndedBefore(s: State, k: nat, q: nat) {
    forall p :: 0 <= p < |s.done| && IsEnd(s, s.done[p], k) ==> p < q
  }

  /** In particular as long as the begins of an ID do not overlap. Beginning an ID again after its end, as a
      run does, is no overlap. */
  lemma HeldIffListed(run: seq<State>, n: nat, id: string)
    requires IsRun(run) && n < |run| && NoOverlap(run[n], id)
    ensures ListsHeld(run[n], id)
  {
    var s := run[n];
    hide IsRun, ListsHeld, EndedBy, EndedBefore;
    forall r, p | 0 <= r < p < |s.done| && IsBegin(s, s.done[r], id) && IsOtherEnd(s, s.done[p], s.done[r], id)
      ensures EndedBy(s, s.done[r], p)
    {
      var t := EndFollowsBegin(run, n, p);
      ApartEndsAlone(s, id, r, p, t);
    }
    CountsExactly(run, n, id);
  }

  lemma ApartEndsAlone(s: State, id: string, r: nat, p: nat, t: nat)
    requires NoOverlap(s, id) && r < p < |s.done| && t < p && IsBegin(s, s.done[r], id)
    requires IsOtherEnd(s, s.done[p], s.done[r], id) && s.calls[s.done[p]].begin == s.done[t]
    requires IsBegin(s, s.done[t], id)
    ensures EndedBy(s, s.done[r], p)
  {
    if t < r {
      assert EndedBefore(s, s.done[t], r) && IsEnd(s, s.done[p], s.done[t]);
    } else {
      assert EndedBy(s, s.done[r], t);
    }
  }

  /** An end takes effect after its begin. */
  lemma EndFollowsBegin(run: seq<State>, n: nat, p: nat) returns (t: nat)
    requires IsRun(run) && n < |run| && p < |run[n].done|
    requires run[n].done[p] < |run[n].calls| && !run[n].calls[run[n].done[p]].add
    ensures t < p && run[n].calls[run[n].done[p]].begin == run[n].done[t]
    ensures IsBegin(run[n], run[n].done[t], run[n].calls[run[n].done[p]].id)
  {
    hide *;
    var m := PrefixIsReached(run, n, p + 1);
    SlicesAreImmutable(run, m, n);
    RunKeepsInv(run, m);
    RunKeepsInv(run, n);
    t := BeginIsDone(run[m], run[n], p);
  }

  lemma BeginIsDone(at: State, s: State, p: nat) returns (t: nat)
    requires Inv(at) && Inv(s) && Extends(at, s) && |at.done| == p + 1
    requires p < |s.done| && s.done[p] < |s.calls| && !s.calls[s.done[p]].add
    ensures t < p && s.calls[s.done[p]].begin == s.done[t] && IsBegin(s, s.done[t], s.calls[s.done[p]].id)
  {
    var e := s.done[p];
    assert at.done[p] == e && CallInv(at, e);
    hide AuthorInv, OwnedInv, HeapInv;
    var b := at.calls[e].begin;
    t :| 0 <= t < |at.done| && at.done[t] == b;
    assert s.done[t] == b;
  }

  /** ... and when no two begins share an ID. */
  lemma HeldIsListed(run: seq<State>, n: nat, id: string)
    requires IsRun(run) && n < |run|
    requires forall k, l ::
               0 <= k < l < |run[n].calls| && run[n].calls[k].add && run[n].calls[l].add
               ==> run[n].calls[k].id != run[n].calls[l].id
    ensures ListsHeld(run[n], id)
  {
    RunKeepsInv(run, n);
    hide HeapInv, CallInv, AuthorInv, OwnedInv;
    HeldIffListed(run, n, id);
  }

  /** Two begins of one id, the second before any end. */
  lemma BegunTwice(a: string) returns (run: seq<State>)
    requires TrimSpace(a) == a && a != ""
    ensures IsRun(run)
    ensures run[|run| - 1] ==
            State([[], [a]], [Call(a, true, 0, Returned, []), Call(a, true, 1, Returned, [])], [0], [0, 1])
  {
    assert Elements([]) == {} && Elements([a]) == {a};
    var b0, b1 := Call(a, true, 0, Ready, []), Call(a, true, 1, Ready, []);
    var r0, r1 := b0.(pc := Returned), b1.(pc := Returned);
    var s0 := State([[]], [], [], []);
    var s1 := s0.(calls := [b0]);
    var s2 := s1.(calls := [b0.(pc := Loaded(0))]);
    var s3 := State([[], [a]], [r0], [0], [0]);
    var s4 := s3.(calls := [r0, b1]);
    var s5 := s4.(calls := [r0, r1], done := [0, 1]);
    assert Next(s0, s1, InvokeBegin(a));
    assert Next(s1, s2, Load(0));
    assert Next(s2, s3, Swap(0));
    assert Next(s3, s4, InvokeBegin(a));
    assert Next(s4, s5, Load(1));
    run := [s0, s1, s2, s3, s4, s5];
    assert forall i :: 0 <= i < |run| - 1 ==> CanStep(run[i], run[i + 1]) by { hide Next; }
  }

  /** With two overlapping begins of one id, the first end removes it although the second begin has
      not ended: a set of IDs keeps no count of its begins. */
  lemma OverlapDropsId() returns (run: seq<State>, id: string)
    ensures IsRun(run) && run[|run| - 1].heap != []
    ensures id !in Current(run[|run| - 1]) && Holds(run[|run| - 1], 1, id)
  {
    id := "a";
    TrimSpaceKeepsSolid(id);
    var begun := BegunTwice(id);
    var s5 := begun[|begun| - 1];
    var e := Call(id, false, 0, Ready, []);
    assert Elements([]) == {} && Elements([id]) == {id};
    var s6 := s5.(calls := s5.calls + [e]);
    var s7 := s6.(calls := s5.calls + [e.(pc := Loaded(1))]);
    var s8 := State([[], [id], []], s5.calls + [e.(pc := Returned)], [0, 2], [0, 1, 2]);
    assert Next(s5, s6, InvokeEnd(0));
    assert Next(s6, s7, Load(2));
    assert Next(s7, s8, Swap(2));
    assert Holds(s8, 1, id);
    hide Next, Holds;
    LongerRun(begun, s6);
    LongerRun(begun + [s6], s7);
    LongerRun(begun + [s6] + [s7], s8);
    run := begun + [s6] + [s7] + [s8];
  }

  lemma LongerRun(run: seq<State>, s: State)
    requires IsRun(run) && CanStep(run[|run| - 1], s)
    ensures IsRun(run + [s])
  {
  }
}
