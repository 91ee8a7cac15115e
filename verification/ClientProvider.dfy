/**
 The shared Docker client behind an atomic pointer. Any number of `DockerClient` and `Close` calls
 are interleaved one atomic step at a time; whether a ping, an open or a close fails is part of the
 step. A client is a position in `closes`, so each opened client is one never seen before.
 */
module ClientProvider {
  import opened Wrappers

  type Client = nat

  /** Where a call stands; the client it names in brackets is its own unless said otherwise. */
  datatype Pc =
    | Start                                             // about to load the pointer
    | Pinging(shared: Client)                           // pings the client it loaded (not its own)
    | Retiring(shared: Client)                          // that ping failed: about to swap it for nil
    | Opening                                           // found nil: about to open a client
    | Probing(own: Client)                              // pings the client it opened
    | Installing(own: Client)                           // about to swap nil for its client
    | Losing(own: Client)                               // that failed: about to load the winner
    | Discarding(own: Client, winner: Option<Client>)   // about to close its own client
    | Closing(own: Client)                              // about to close a client it took or opened
    | Swapping                                          // a Close call, about to swap nil in
    | Returned(result: Option<Client>)

  /** `closes` and `installs` count, for each opened client, how often it was closed or installed. */
  datatype State = State(slot: Option<Client>, closes: seq<nat>, installs: seq<nat>, calls: seq<Pc>)

  datatype Step = InvokeDockerClient | InvokeClose | Act(i: nat, ok: bool)

  const INIT: State := State(None, [], [], [])

  ghost predicate Enabled(s: State, step: Step) {
    step.Act? ==> step.i < |s.calls| && !s.calls[step.i].Returned?
  }

  /** What a step does to the shared pointer and the clients. */
  datatype Effect =
    | Keep
    | Open                 // a new client comes into being
    | Put(c: Client)       // nil is swapped for the client
    | Take(c: Client)      // the client is swapped for nil
    | Shut(c: Client)      // the client is closed

  /** The next position of a call and the effect of its step, when it sees the pointer `slot` and
      the next client to be opened is `unused`; `ok` is the outcome of a ping, open or close. */
  function Action(pc: Pc, slot: Option<Client>, unused: Client, ok: bool): (Pc, Effect)
    requires !pc.Returned?
  {
    match pc
    case Start => (if slot.Some? then Pinging(slot.value) else Opening, Keep)
    case Pinging(c) => (if ok then Returned(Some(c)) else Retiring(c), Keep)
    case Retiring(c) => if slot == Some(c) then (Closing(c), Take(c)) else (Returned(None), Keep)
    case Opening => if ok then (Probing(unused), Open) else (Returned(None), Keep)
    case Probing(c) => (if ok then Installing(c) else Closing(c), Keep)
    case Installing(c) => if slot.None? then (Returned(Some(c)), Put(c)) else (Losing(c), Keep)
    case Losing(c) => (Discarding(c, slot), Keep)
    case Discarding(c, winner) =>
      (if !ok then Returned(None) else if winner.None? then Start else Returned(winner), Shut(c))
    case Closing(c) => (Returned(None), Shut(c))
    case Swapping => if slot.Some? then (Closing(slot.value), Take(slot.value)) else (Returned(None), Keep)
  }

  function Apply(s: State, i: nat, pc: Pc, effect: Effect): State
    requires i < |s.calls| && |s.closes| == |s.installs|
    requires effect.Put? || effect.Shut? ==> effect.c < |s.closes|
  {
    var s := s.(calls := s.calls[i := pc]);
    match effect
    case Keep => s
    case Open => s.(closes := s.closes + [0], installs := s.installs + [0])
    case Put(c) => s.(slot := Some(c), installs := s.installs[c := s.installs[c] + 1])
    case Take(c) => s.(slot := None)
    case Shut(c) => s.(closes := s.closes[c := s.closes[c] + 1])
  }

  /** One atomic step. */
  function Do(s: State, step: Step): State
    requires Wellformed(s) && Enabled(s, step)
  {
    match step
    case InvokeDockerClient => s.(calls := s.calls + [Start])
    case InvokeClose => s.(calls := s.calls + [Swapping])
    case Act(i, ok) =>
      var (pc, effect) := Action(s.calls[i], s.slot, |s.closes|, ok);
      Apply(s, i, pc, effect)
  }

  /** The client a call is responsible for, if any. */
  function Own(pc: Pc): Option<Client> {
    match pc
    case Probing(c) => Some(c)
    case Installing(c) => Some(c)
    case Losing(c) => Some(c)
    case Discarding(c, _) => Some(c)
    case Closing(c) => Some(c)
    case _ => None
  }

  /** A client a call may hand to its caller: it was put there by somebody. */
  function Shared(pc: Pc): Option<Client> {
    match pc
    case Pinging(c) => Some(c)
    case Retiring(c) => Some(c)
    case Discarding(_, winner) => winner
    case Returned(result) => result
    case _ => None
  }

  ghost predicate Wellformed(s: State) {
    && |s.closes| == |s.installs|
    && (s.slot.Some? ==> s.slot.value < |s.closes|)
    && forall i :: 0 <= i < |s.calls| ==>
         && (Own(s.calls[i]).Some? ==> Own(s.calls[i]).value < |s.closes|)
         && (Shared(s.calls[i]).Some? ==> Shared(s.calls[i]).value < |s.closes|)
  }

  ghost predicate Installed(s: State, c: Client) {
    s.slot == Some(c)
  }

  ghost predicate OwnedBy(s: State, c: Client, i: nat) {
    i < |s.calls| && Own(s.calls[i]) == Some(c)
  }

  ghost predicate Owned(s: State, c: Client) {
    exists i: nat :: OwnedBy(s, c, i)
  }

  ghost predicate Closed(s: State, c: Client)
    requires c < |s.closes|
  {
    s.closes[c] > 0
  }

  ghost predicate Inv(s: State) {
    Wellformed(s) && OneOwner(s) && CountsInv(s) && NoneLost(s) && CallsInv(s)
  }

  /** A client has at most one owner, and an owned client is neither installed nor closed. */
  ghost predicate OneOwner(s: State)
    requires Wellformed(s)
  {
    && (forall i: nat, j: nat, c: Client :: OwnedBy(s, c, i) && OwnedBy(s, c, j) ==> i == j)
    && (forall i: nat, c: Client :: OwnedBy(s, c, i) ==> !Installed(s, c) && s.closes[c] == 0)
  }

  ghost predicate CountsInv(s: State)
    requires Wellformed(s)
  {
    && (s.slot.Some? ==> s.closes[s.slot.value] == 0 && s.installs[s.slot.value] == 1)
    && (forall c :: 0 <= c < |s.closes| ==> s.closes[c] <= 1 && s.installs[c] <= 1)
  }

  ghost predicate NoneLost(s: State)
    requires Wellformed(s)
  {
    forall c :: 0 <= c < |s.closes| && s.closes[c] == 0 ==> Installed(s, c) || Owned(s, c)
  }

  ghost predicate CallsInv(s: State)
    requires Wellformed(s)
  {
    forall i :: 0 <= i < |s.calls| ==>
      && (s.calls[i].Probing? || s.calls[i].Installing? ==> s.installs[s.calls[i].own] == 0)
      && (Shared(s.calls[i]).Some? ==> s.installs[Shared(s.calls[i]).value] == 1)
  }

  /** How ownership moves with each effect; nothing else changes hands. */
  ghost predicate Fits(pc: Pc, slot: Option<Client>, unused: Client, pc': Pc, effect: Effect) {
    && match effect
       case Keep => Own(pc') == Own(pc)
       case Open => Own(pc).None? && Own(pc') == Some(unused)
       case Put(c) => Own(pc) == Some(c) && Own(pc').None? && slot.None? && pc.Installing?
       case Take(c) => Own(pc).None? && Own(pc') == Some(c) && slot == Some(c)
       case Shut(c) => Own(pc) == Some(c) && Own(pc').None?
  }

  lemma ActionFits(pc: Pc, slot: Option<Client>, unused: Client, ok: bool)
    requires !pc.Returned?
    ensures var (pc', effect) := Action(pc, slot, unused, ok);
      && Fits(pc, slot, unused, pc', effect)
      && (Shared(pc').Some? ==> Shared(pc') == Shared(pc) || Shared(pc') == slot || effect == Put(Shared(pc').value))
      && (pc'.Probing? ==> effect.Open?)
      && (pc'.Installing? ==> pc == Probing(pc'.own) && effect.Keep?)
  {
  }

  lemma ActionKeepsOwners(s: State, i: nat, pc: Pc, effect: Effect)
    requires Inv(s) && i < |s.calls| && Fits(s.calls[i], s.slot, |s.closes|, pc, effect)
    ensures var s' := Apply(s, i, pc, effect);
            Wellformed(s') ==> OneOwner(s') && NoneLost(s')
  {
    hide CallsInv;
    var s' := Apply(s, i, pc, effect);
    var own := Own(s.calls[i]);
    assert own.Some? ==> OwnedBy(s, own.value, i);
    forall k: nat, c: Client | OwnedBy(s', c, k) && Wellformed(s')
      ensures OwnedBy(s, c, k) || (k == i && (Installed(s, c) || c == |s.closes|))
      ensures !Installed(s', c) && s'.closes[c] == 0
    {
    }
    forall c | 0 <= c < |s'.closes| && s'.closes[c] == 0 && Wellformed(s')
      ensures Installed(s', c) || Owned(s', c)
    {
      if c < |s.closes| && Owned(s, c) {
        var k: nat :| OwnedBy(s, c, k);
        assert OwnedBy(s', c, k) || Installed(s', c);
      } else {
        assert Installed(s', c) || OwnedBy(s', c, i);
      }
    }
  }

  lemma ActionKeepsCounts(s: State, i: nat, pc: Pc, effect: Effect)
    requires Inv(s) && i < |s.calls| && Fits(s.calls[i], s.slot, |s.closes|, pc, effect)
    requires Shared(pc).Some? ==>
               Shared(pc) == Shared(s.calls[i]) || Shared(pc) == s.slot || effect == Put(Shared(pc).value)
    ensures var s' := Apply(s, i, pc, effect); Wellformed(s') && CountsInv(s')
  {
    EffectIsSafe(s, i, pc, effect);
    hide Fits, OneOwner, NoneLost, CallsInv;
    match effect
    case Keep =>
    case Open =>
    case Put(c) => PutKeepsCounts(s, Apply(s, i, pc, effect), c);
    case Take(c) =>
    case Shut(c) => ShutKeepsCounts(s, Apply(s, i, pc, effect), c);
  }

  /** An effect finds the client it is on in the right place: neither closed nor installed before. */
  lemma EffectIsSafe(s: State, i: nat, pc: Pc, effect: Effect)
    requires Inv(s) && i < |s.calls| && Fits(s.calls[i], s.slot, |s.closes|, pc, effect)
    requires Shared(pc).Some? ==>
               Shared(pc) == Shared(s.calls[i]) || Shared(pc) == s.slot || effect == Put(Shared(pc).value)
    ensures effect.Put? || effect.Shut? ==> effect.c < |s.closes| && s.closes[effect.c] == 0 && s.slot != Some(effect.c)
    ensures effect.Put? ==> s.installs[effect.c] == 0
    ensures Wellformed(Apply(s, i, pc, effect))
  {
    hide NoneLost, CountsInv;
    var own := Own(s.calls[i]);
    assert own.Some? ==> OwnedBy(s, own.value, i);
  }

  lemma PutKeepsCounts(s: State, s': State, c: Client)
    requires Wellformed(s) && Wellformed(s') && CountsInv(s) && c < |s.closes| && s.closes[c] == 0 && s.installs[c] == 0
    requires s'.slot == Some(c) && s'.closes == s.closes && s'.installs == s.installs[c := 1]
    ensures CountsInv(s')
  {
    assert |s'.closes| == |s'.installs|;
    hide Wellformed;
  }

  lemma ShutKeepsCounts(s: State, s': State, c: Client)
    requires Wellformed(s) && Wellformed(s') && CountsInv(s) && c < |s.closes| && s.closes[c] == 0 && s.slot != Some(c)
    requires s'.slot == s.slot && s'.closes == s.closes[c := 1] && s'.installs == s.installs
    ensures CountsInv(s')
  {
    assert |s'.closes| == |s'.installs| && (s.slot.Some? ==> s.slot.value < |s.closes|);
    hide Wellformed;
  }

  lemma ActionKeepsCalls(s: State, i: nat, pc: Pc, effect: Effect)
    requires Inv(s) && i < |s.calls| && Fits(s.calls[i], s.slot, |s.closes|, pc, effect)
    requires Shared(pc).Some? ==>
               Shared(pc) == Shared(s.calls[i]) || Shared(pc) == s.slot || effect == Put(Shared(pc).value)
    requires pc.Probing? ==> effect.Open?
    requires pc.Installing? ==> s.calls[i] == Probing(pc.own) && effect.Keep?
    requires Wellformed(Apply(s, i, pc, effect))
    ensures CallsInv(Apply(s, i, pc, effect))
  {
    hide NoneLost;
    var s' := Apply(s, i, pc, effect);
    assert Own(s.calls[i]).Some? ==> OwnedBy(s, Own(s.calls[i]).value, i);
    forall k | 0 <= k < |s'.calls| && (s'.calls[k].Probing? || s'.calls[k].Installing?)
      ensures s'.installs[s'.calls[k].own] == 0
    {
      if k != i { assert OwnedBy(s, s.calls[k].own, k); }
    }
  }

  lemma StepKeepsInv(s: State, step: Step)
    requires Inv(s) && Enabled(s, step)
    ensures Inv(Do(s, step))
  {
    if step.Act? {
      var i := step.i;
      var (pc, effect) := Action(s.calls[i], s.slot, |s.closes|, step.ok);
      ActionFits(s.calls[i], s.slot, |s.closes|, step.ok);
      ActionKeepsCounts(s, i, pc, effect);
      ActionKeepsCalls(s, i, pc, effect);
      ActionKeepsOwners(s, i, pc, effect);
    } else {
      InvokeKeepsInv(s, Do(s, step));
    }
  }

  lemma InvokeKeepsInv(s: State, s': State)
    requires Inv(s)
    requires exists pc | pc in {Start, Swapping} :: s' == s.(calls := s.calls + [pc])
    ensures Inv(s')
  {
    forall i: nat, c: Client ensures OwnedBy(s', c, i) <==> OwnedBy(s, c, i) {}
    forall c: Client | Owned(s, c) ensures Owned(s', c) {
      var i: nat :| OwnedBy(s, c, i);
      assert OwnedBy(s', c, i);
    }
  }

  // ---------- Whole runs ----------

  /** The state after some steps from the beginning, when each is possible. */
  ghost predicate Reaches(s: State, steps: seq<Step>, s': State)
    decreases |steps|
  {
    if steps == [] then s' == s
    else Wellformed(s) && Enabled(s, steps[0]) && Reaches(Do(s, steps[0]), steps[1..], s')
  }

  lemma {:induction false} RunKeepsInv(s: State, steps: seq<Step>, s': State)
    requires Inv(s) && Reaches(s, steps, s')
    ensures Inv(s')
    decreases |steps|
  {
    if steps != [] {
      StepKeepsInv(s, steps[0]);
      RunKeepsInv(Do(s, steps[0]), steps[1..], s');
    }
  }

  /** Ownership: every client ever opened is installed, or in the hands of exactly one call, or
      closed, and only one of these; none is installed or closed twice. */
  lemma ExactlyOnePlace(steps: seq<Step>, s: State, c: Client)
    requires Reaches(INIT, steps, s) && c < |s.closes|
    ensures |s.installs| == |s.closes| && s.installs[c] <= 1 && s.closes[c] <= 1
    ensures Installed(s, c) ==> !Owned(s, c) && !Closed(s, c)
    ensures Owned(s, c) ==> !Closed(s, c)
    ensures Installed(s, c) || Owned(s, c) || Closed(s, c)
    ensures forall i: nat, j: nat :: OwnedBy(s, c, i) && OwnedBy(s, c, j) ==> i == j
  {
    RunKeepsInv(INIT, steps, s);
  }

  /** A call that has returned owns no client, and a client it returned was installed. */
  lemma ReturnedOwnsNothing(steps: seq<Step>, s: State, i: nat)
    requires Reaches(INIT, steps, s) && i < |s.calls| && s.calls[i].Returned?
    ensures forall c: Client :: !OwnedBy(s, c, i)
    ensures s.calls[i].result.Some? ==>
              var c := s.calls[i].result.value; c < |s.installs| && s.installs[c] == 1
  {
    RunKeepsInv(INIT, steps, s);
  }

  ghost predicate Quiet(s: State) {
    forall i :: 0 <= i < |s.calls| ==> s.calls[i].Returned?
  }

  /** When all calls have returned, at most the installed client is open. */
  lemma QuietLeavesAtMostOneOpen(steps: seq<Step>, s: State)
    requires Reaches(INIT, steps, s) && Quiet(s)
    ensures forall c :: 0 <= c < |s.closes| && !Closed(s, c) ==> s.slot == Some(c)
  {
    RunKeepsInv(INIT, steps, s);
  }

  // ---------- Calls on their own ----------

  lemma {:induction false} ReachesOn(s: State, steps: seq<Step>, mid: State, more: seq<Step>, s': State)
    requires Reaches(s, steps, mid) && Reaches(mid, more, s')
    ensures Reaches(s, steps + more, s')
    decreases |steps|
  {
    if steps == [] {
      assert steps + more == more;
    } else {
      ReachesOn(Do(s, steps[0]), steps[1..], mid, more, s');
      assert (steps + more)[1..] == steps[1..] + more;
    }
  }

  /** What a step of the newest call leaves. */
  lemma NewestActs(s: State, calls: seq<Pc>, ok: bool, pc: Pc, effect: Effect) returns (s': State)
    requires Inv(s) && |s.calls| == |calls| + 1 && s.calls[..|calls|] == calls && !s.calls[|calls|].Returned?
    requires Action(s.calls[|calls|], s.slot, |s.closes|, ok) == (pc, effect)
    ensures Reaches(s, [Act(|calls|, ok)], s') && Inv(s')
    ensures s'.calls == calls + [pc]
    ensures match effect
      case Keep => s' == s.(calls := s'.calls)
      case Open => s' == State(s.slot, s.closes + [0], s.installs + [0], s'.calls)
      case Put(c) => c < |s.installs| && s' == State(Some(c), s.closes, s.installs[c := s.installs[c] + 1], s'.calls)
      case Take(c) => s' == s.(slot := None, calls := s'.calls)
      case Shut(c) => c < |s.closes| && s' == s.(closes := s.closes[c := s.closes[c] + 1], calls := s'.calls)
  {
    var n := |calls|;
    StepKeepsInv(s, Act(n, ok));
    s' := Do(s, Act(n, ok));
    ActionFits(s.calls[n], s.slot, |s.closes|, ok);
    hide Fits, OneOwner, CountsInv, NoneLost, CallsInv;
    assert s.calls[n := pc] == calls + [pc];
  }

  /** A `Close` call while no other acts: the installed client, if any, is taken out and closed. */
  lemma LoneClose(s: State, ok: bool) returns (s': State)
    requires Inv(s)
    ensures var n := |s.calls|;
      Reaches(s, if s.slot.None? then [InvokeClose, Act(n, ok)] else [InvokeClose, Act(n, ok), Act(n, ok)], s')
    ensures s'.slot.None? && s'.calls == s.calls + [Returned(None)] && s'.installs == s.installs
    ensures if s.slot.None? then s'.closes == s.closes
            else var c := s.slot.value; c < |s.closes| && s'.closes == s.closes[c := s.closes[c] + 1]
  {
    StepKeepsInv(s, InvokeClose);
    var n, invoked := |s.calls|, Do(s, InvokeClose);
    assert Reaches(s, [InvokeClose], invoked);
    hide Inv, Wellformed, Apply, Reaches, Enabled;
    if s.slot.None? {
      s' := NewestActs(invoked, s.calls, ok, Returned(None), Keep);
      ReachesOn(s, [InvokeClose], invoked, [Act(n, ok)], s');
      assert [InvokeClose] + [Act(n, ok)] == [InvokeClose, Act(n, ok)];
    } else {
      var swapped := NewestActs(invoked, s.calls, ok, Closing(s.slot.value), Take(s.slot.value));
      s' := NewestActs(swapped, s.calls, ok, Returned(None), Shut(s.slot.value));
      ReachesOn(invoked, [Act(n, ok)], swapped, [Act(n, ok)], s');
      ReachesOn(s, [InvokeClose], invoked, [Act(n, ok)] + [Act(n, ok)], s');
      assert [InvokeClose] + ([Act(n, ok)] + [Act(n, ok)]) == [InvokeClose, Act(n, ok), Act(n, ok)];
    }
  }

  /** After a final `Close`, with no other call under way, every client ever opened has been closed exactly once. */
  lemma FinalCloseLeavesNoneOpen(steps: seq<Step>, s: State, ok: bool) returns (s': State)
    requires Reaches(INIT, steps, s) && Quiet(s)
    ensures var n := |s.calls|;
      Reaches(s, if s.slot.None? then [InvokeClose, Act(n, ok)] else [InvokeClose, Act(n, ok), Act(n, ok)], s')
    ensures Quiet(s') && s'.slot.None?
    ensures |s'.closes| == |s.closes| && forall c :: 0 <= c < |s'.closes| ==> s'.closes[c] == 1
  {
    RunKeepsInv(INIT, steps, s);
    QuietLeavesAtMostOneOpen(steps, s);
    s' := LoneClose(s, ok);
    assert CountsInv(s);
    hide Inv, Wellformed, Reaches;
  }

  /** A call that begins while a client is installed comes to ping it. */
  lemma CallLoads(s: State, c: Client) returns (s': State)
    requires Inv(s) && s.slot == Some(c)
    ensures Reaches(s, [InvokeDockerClient, Act(|s.calls|, true)], s') && Inv(s')
    ensures c < |s.closes| && s' == s.(calls := s.calls + [Pinging(c)])
  {
    StepKeepsInv(s, InvokeDockerClient);
    var s1 := Do(s, InvokeDockerClient);
    assert Reaches(s, [InvokeDockerClient], s1) && c < |s.closes|;
    hide Inv, Wellformed, Apply, Reaches, Enabled;
    s' := NewestActs(s1, s.calls, true, Pinging(c), Keep);
    ReachesOn(s, [InvokeDockerClient], s1, [Act(|s.calls|, true)], s');
  }

  /** A call that begins while none is installed comes to ping a client that it opened. */
  lemma CallOpens(s: State) returns (s': State)
    requires Inv(s) && s.slot == None
    ensures Reaches(s, [InvokeDockerClient, Act(|s.calls|, true), Act(|s.calls|, true)], s') && Inv(s')
    ensures |s.installs| == |s.closes|
    ensures s' == State(None, s.closes + [0], s.installs + [0], s.calls + [Probing(|s.closes|)])
  {
    StepKeepsInv(s, InvokeDockerClient);
    var s1 := Do(s, InvokeDockerClient);
    assert Reaches(s, [InvokeDockerClient], s1) && |s.installs| == |s.closes|;
    hide Inv, Wellformed, Apply, Reaches, Enabled;
    var act := Act(|s.calls|, true);
    var s2 := NewestActs(s1, s.calls, true, Opening, Keep);
    s' := NewestActs(s2, s.calls, true, Probing(|s.closes|), Open);
    ReachesOn(s1, [act], s2, [act], s');
    ReachesOn(s, [InvokeDockerClient], s1, [act] + [act], s');
    assert [InvokeDockerClient] + ([act] + [act]) == [InvokeDockerClient, act, act];
  }

  // ---------- What a call answers ----------

  /** A call while a client is installed and no other call acts: if the client answers the ping it is the
      result, and nothing else changes. */
  lemma LiveClientIsReturned(s: State, c: Client)
    requires Inv(s) && s.slot == Some(c)
    ensures var n := |s.calls|;
      Reaches(s, [InvokeDockerClient, Act(n, true), Act(n, true)], s.(calls := s.calls + [Returned(Some(c))]))
  {
    hide Inv, Reaches;
    var n := |s.calls|;
    var s1 := CallLoads(s, c);
    var s2 := NewestActs(s1, s.calls, true, Returned(Some(c)), Keep);
    ReachesOn(s, [InvokeDockerClient, Act(n, true)], s1, [Act(n, true)], s2);
    assert [InvokeDockerClient, Act(n, true)] + [Act(n, true)] == [InvokeDockerClient, Act(n, true), Act(n, true)];
  }

  /** If the ping fails, the call takes the client out, closes it and returns none. */
  lemma DeadClientIsRetired(s: State, c: Client, ok: bool)
    requires Inv(s) && s.slot == Some(c)
    ensures var n := |s.calls|;
      && c < |s.closes|
      && Reaches(s, [InvokeDockerClient, Act(n, true), Act(n, false), Act(n, true), Act(n, ok)],
                 State(None, s.closes[c := s.closes[c] + 1], s.installs, s.calls + [Returned(None)]))
  {
    hide Inv, Reaches;
    var n := |s.calls|;
    var s1 := CallLoads(s, c);
    var s2 := NewestActs(s1, s.calls, false, Retiring(c), Keep);
    var s3 := NewestActs(s2, s.calls, true, Closing(c), Take(c));
    var s4 := NewestActs(s3, s.calls, ok, Returned(None), Shut(c));
    ReachesOn(s2, [Act(n, true)], s3, [Act(n, ok)], s4);
    assert [Act(n, true)] + [Act(n, ok)] == [Act(n, true), Act(n, ok)];
    ReachesOn(s1, [Act(n, false)], s2, [Act(n, true), Act(n, ok)], s4);
    assert [Act(n, false)] + [Act(n, true), Act(n, ok)] == [Act(n, false), Act(n, true), Act(n, ok)];
    ReachesOn(s, [InvokeDockerClient, Act(n, true)], s1, [Act(n, false), Act(n, true), Act(n, ok)], s4);
    assert [InvokeDockerClient, Act(n, true)] + [Act(n, false), Act(n, true), Act(n, ok)]
        == [InvokeDockerClient, Act(n, true), Act(n, false), Act(n, true), Act(n, ok)];
  }

  /** With no client installed, a call that opens one and finds it alive installs and returns it. */
  lemma FreshClientIsInstalled(s: State)
    requires Inv(s) && s.slot == None
    ensures var n, c := |s.calls|, |s.closes|;
      Reaches(s, [InvokeDockerClient, Act(n, true), Act(n, true), Act(n, true), Act(n, true)],
              State(Some(c), s.closes + [0], s.installs + [1], s.calls + [Returned(Some(c))]))
  {
    hide Inv, Reaches;
    var n, c, act := |s.calls|, |s.closes|, Act(|s.calls|, true);
    var s1 := CallOpens(s);
    var s2 := NewestActs(s1, s.calls, true, Installing(c), Keep);
    var s3 := NewestActs(s2, s.calls, true, Returned(Some(c)), Put(c));
    assert (s.installs + [0])[c := 1] == s.installs + [1];
    ReachesOn(s1, [act], s2, [act], s3);
    assert [act] + [act] == [act, act];
    ReachesOn(s, [InvokeDockerClient, act, act], s1, [act, act], s3);
    assert [InvokeDockerClient, act, act] + [act, act] == [InvokeDockerClient, act, act, act, act];
  }

  /** A fresh client that does not answer is closed and not installed. */
  lemma DeadFreshClientIsClosed(s: State, ok: bool)
    requires Inv(s) && s.slot == None
    ensures var n := |s.calls|;
      Reaches(s, [InvokeDockerClient, Act(n, true), Act(n, true), Act(n, false), Act(n, ok)],
              State(None, s.closes + [1], s.installs + [0], s.calls + [Returned(None)]))
  {
    hide Inv, Reaches;
    var n, c := |s.calls|, |s.closes|;
    var s1 := CallOpens(s);
    var s2 := NewestActs(s1, s.calls, false, Closing(c), Keep);
    var s3 := NewestActs(s2, s.calls, ok, Returned(None), Shut(c));
    assert (s.closes + [0])[c := 1] == s.closes + [1];
    ReachesOn(s1, [Act(n, false)], s2, [Act(n, ok)], s3);
    assert [Act(n, false)] + [Act(n, ok)] == [Act(n, false), Act(n, ok)];
    ReachesOn(s, [InvokeDockerClient, Act(n, true), Act(n, true)], s1, [Act(n, false), Act(n, ok)], s3);
    assert [InvokeDockerClient, Act(n, true), Act(n, true)] + [Act(n, false), Act(n, ok)]
        == [InvokeDockerClient, Act(n, true), Act(n, true), Act(n, false), Act(n, ok)];
  }

  /** A call that comes to install its client when another is installed, and is left to itself, closes its own and
      returns the installed one. */
  lemma LoserReturnsTheWinner(s: State, calls: seq<Pc>, own: Client, winner: Client)
    requires Inv(s) && s.calls == calls + [Installing(own)] && s.slot == Some(winner)
    ensures var n := |calls|;
      && own < |s.closes|
      && Reaches(s, [Act(n, true), Act(n, true), Act(n, true)],
                 s.(closes := s.closes[own := s.closes[own] + 1], calls := calls + [Returned(Some(winner))]))
  {
    hide Inv, Reaches;
    var n := |calls|;
    var s1 := NewestActs(s, calls, true, Losing(own), Keep);
    var s2 := NewestActs(s1, calls, true, Discarding(own, Some(winner)), Keep);
    var s3 := NewestActs(s2, calls, true, Returned(Some(winner)), Shut(own));
    ReachesOn(s1, [Act(n, true)], s2, [Act(n, true)], s3);
    ReachesOn(s, [Act(n, true)], s1, [Act(n, true)] + [Act(n, true)], s3);
    assert [Act(n, true)] + ([Act(n, true)] + [Act(n, true)]) == [Act(n, true), Act(n, true), Act(n, true)];
  }

  /** The client a call last pinged along some steps, and whether it answered; `last` from before them. */
  ghost function LastPing(s: State, steps: seq<Step>, i: nat, last: Option<(Client, bool)>): Option<(Client, bool)>
    decreases |steps|
  {
    if steps == [] || !Wellformed(s) || !Enabled(s, steps[0]) then last
    else LastPing(Do(s, steps[0]), steps[1..], i, PingOf(s, steps[0], i, last))
  }

  ghost function PingOf(s: State, step: Step, i: nat, last: Option<(Client, bool)>): Option<(Client, bool)> {
    if step.Act? && step.i == i && i < |s.calls| then
      match s.calls[i]
      case Pinging(c) => Some((c, step.ok))
      case Probing(c) => Some((c, step.ok))
      case _ => last
    else last
  }

  /** Where a call stands agrees with its last ping: the client it returns answered, or else a client of its own
      did, which it closed on losing to the returned one. */
  ghost predicate Answers(s: State, pc: Pc, last: Option<(Client, bool)>) {
    match pc
    case Retiring(c) => last == Some((c, false))
    case Installing(c) => last == Some((c, true))
    case Losing(c) => last == Some((c, true))
    case Discarding(c, _) => last == Some((c, true))
    case Returned(Some(c)) => last.Some? && last.value.1 && (last.value.0 == c || WasClosed(s, last.value.0))
    case _ => true
  }

  ghost predicate WasClosed(s: State, c: Client) {
    c < |s.closes| && s.closes[c] > 0
  }

  ghost predicate AnswersAt(s: State, i: nat, last: Option<(Client, bool)>) {
    i < |s.calls| ==> Answers(s, s.calls[i], last)
  }

  lemma ActionAnswers(s: State, s': State, i: nat, ok: bool, last: Option<(Client, bool)>)
    requires Wellformed(s) && Enabled(s, Act(i, ok)) && Answers(s, s.calls[i], last)
    requires forall c: Client :: WasClosed(s, c) ==> WasClosed(s', c)
    requires s.calls[i].Discarding? ==> WasClosed(s', s.calls[i].own)
    ensures Answers(s', Action(s.calls[i], s.slot, |s.closes|, ok).0, PingOf(s, Act(i, ok), i, last))
  {
    hide WasClosed, Wellformed;
  }

  lemma StepAnswers(s: State, step: Step, i: nat, last: Option<(Client, bool)>)
    requires Wellformed(s) && Enabled(s, step) && AnswersAt(s, i, last)
    ensures AnswersAt(Do(s, step), i, PingOf(s, step, i, last))
  {
    ClosedStays(s, step);
    if step.Act? && step.i == i {
      if s.calls[i].Discarding? { DiscardCloses(s, i, step.ok); }
      ActionAnswers(s, Do(s, step), i, step.ok, last);
      hide Answers, Action, PingOf, WasClosed, Wellformed;
    } else {
      hide WasClosed, Wellformed, Action;
    }
  }

  lemma ClosedStays(s: State, step: Step)
    requires Wellformed(s) && Enabled(s, step)
    ensures forall c: Client :: WasClosed(s, c) ==> WasClosed(Do(s, step), c)
  {
  }

  lemma DiscardCloses(s: State, i: nat, ok: bool)
    requires Wellformed(s) && Enabled(s, Act(i, ok)) && s.calls[i].Discarding?
    ensures WasClosed(Do(s, Act(i, ok)), s.calls[i].own)
  {
  }

  lemma {:induction false} RunAnswers(s: State, steps: seq<Step>, s': State, i: nat, last: Option<(Client, bool)>)
    requires Reaches(s, steps, s') && AnswersAt(s, i, last)
    ensures AnswersAt(s', i, LastPing(s, steps, i, last))
    decreases |steps|
  {
    if steps != [] {
      StepAnswers(s, steps[0], i, last);
      hide AnswersAt, Do, PingOf, Wellformed;
      RunAnswers(Do(s, steps[0]), steps[1..], s', i, PingOf(s, steps[0], i, last));
    }
  }

  /** In every run the client a call returns answered the call's last ping, or else another did that the call had
      opened itself and closed on losing to the returned one; a call whose last ping failed returns none. */
  lemma OnlyLiveClientsAreReturned(steps: seq<Step>, s: State, i: nat)
    requires Reaches(INIT, steps, s) && i < |s.calls| && s.calls[i].Returned?
    ensures var result, last := s.calls[i].result, LastPing(INIT, steps, i, None);
      result.Some? ==>
        last.Some? && last.value.1 && (last.value.0 == result.value || WasClosed(s, last.value.0))
  {
    RunAnswers(INIT, steps, s, i, None);
    hide Reaches, LastPing, WasClosed;
  }

  /** The step is a ping, an open or a close of call `i`, and it fails. */
  ghost predicate FailsAt(s: State, step: Step, i: nat) {
    step == Act(i, false) && i < |s.calls| &&
    var pc := s.calls[i]; pc.Pinging? || pc.Opening? || pc.Probing? || pc.Discarding? || pc.Closing?
  }

  /** Along some steps a ping, an open or a close of call `i` fails. */
  ghost predicate Fails(s: State, steps: seq<Step>, i: nat)
    decreases |steps|
  {
    steps != [] && Wellformed(s) && Enabled(s, steps[0]) &&
    (FailsAt(s, steps[0], i) || Fails(Do(s, steps[0]), steps[1..], i))
  }

  /** Where a call for a client stands, by whether a ping, an open or a close of it failed. */
  ghost predicate StandsBy(pc: Pc, failed: bool) {
    if failed then pc.Retiring? || pc.Closing? || pc == Returned(None)
    else !pc.Retiring? && !pc.Closing? && !pc.Swapping? && pc != Returned(None)
  }

  lemma {:induction false} RunStandsBy(s: State, steps: seq<Step>, s': State, i: nat, failed: bool)
    requires Reaches(s, steps, s') && i < |s.calls| && StandsBy(s.calls[i], failed)
    ensures i < |s'.calls| && StandsBy(s'.calls[i], failed || Fails(s, steps, i))
    decreases |steps|
  {
    if steps != [] {
      StepStandsBy(s, steps[0], i, failed);
      hide StandsBy, FailsAt, Do, Wellformed, Enabled;
      RunStandsBy(Do(s, steps[0]), steps[1..], s', i, failed || FailsAt(s, steps[0], i));
    }
  }

  lemma StepStandsBy(s: State, step: Step, i: nat, failed: bool)
    requires Wellformed(s) && Enabled(s, step) && i < |s.calls| && StandsBy(s.calls[i], failed)
    ensures i < |Do(s, step).calls| && StandsBy(Do(s, step).calls[i], failed || FailsAt(s, step, i))
  {
    hide Wellformed;
  }

  /** In every run, whatever the other calls do meanwhile, a call returns a client if and only if its pings, opens
      and closes all succeed. */
  lemma ClientExactlyOnSuccess(s: State, steps: seq<Step>, s': State, i: nat)
    requires Reaches(s, steps, s') && i < |s.calls| && s.calls[i] == Start
    ensures i < |s'.calls|
    ensures s'.calls[i].Returned? ==> (s'.calls[i].result.Some? <==> !Fails(s, steps, i))
  {
    RunStandsBy(s, steps, s', i, false);
    hide Reaches, Fails;
  }
}
