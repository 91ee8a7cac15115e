/** What every restart run guarantees about its calls and results, whatever fails along the way. */
module RunTheorems {
  import opened Wrappers
  import opened DockerTypes
  import opened Strings
  import opened Settings
  import opened Deps
  import opened Host
  import opened Matching
  import opened RestartTypes
  import opened RestartOrder
  import opened ComposeGroups
  import opened Recreate
  import opened StandalonePhase
  import opened RestartRunning

  // ---------- Positions in joined blocks ----------

  /** Calls at two positions of a join come from blocks in the same order. */
  lemma {:induction false} JoinMonotone(blocks: seq<seq<Op>>, a: nat, b: nat) returns (ka: nat, kb: nat)
    requires a <= b < |Join(blocks)|
    ensures ka <= kb < |blocks| && Join(blocks)[a] in blocks[ka] && Join(blocks)[b] in blocks[kb]
  {
    var rest, last := blocks[..|blocks| - 1], blocks[|blocks| - 1];
    var n := |Join(rest)|;
    if b < n {
      ka, kb := JoinMonotone(rest, a, b);
    } else {
      kb := |blocks| - 1;
      assert Join(blocks)[b] == last[b - n];
      if a < n {
        ka, kb := JoinMonotone(rest, a, a);
        kb := |blocks| - 1;
      } else {
        ka := kb;
        assert Join(blocks)[a] == last[a - n];
      }
    }
  }

  lemma {:induction false} JoinBackMonotone(blocks: seq<seq<Op>>, a: nat, b: nat) returns (ka: nat, kb: nat)
    requires a <= b < |JoinBack(blocks)|
    ensures kb <= ka < |blocks| && JoinBack(blocks)[a] in blocks[ka] && JoinBack(blocks)[b] in blocks[kb]
  {
    var n := |JoinBack(blocks[1..])|;
    if b < n {
      ka, kb := JoinBackMonotone(blocks[1..], a, b);
      ka, kb := ka + 1, kb + 1;
    } else {
      kb := 0;
      assert JoinBack(blocks)[b] == blocks[0][b - n];
      if a < n {
        ka, kb := JoinBackMonotone(blocks[1..], a, a);
        ka, kb := ka + 1, 0;
      } else {
        ka := 0;
        assert JoinBack(blocks)[a] == blocks[0][a - n];
      }
    }
  }

  lemma {:induction false} BlockInJoinBack(blocks: seq<seq<Op>>, k: nat, op: Op)
    requires k < |blocks| && op in blocks[k]
    ensures op in JoinBack(blocks)
  {
    if k > 0 {
      BlockInJoinBack(blocks[1..], k - 1, op);
    }
  }

  // ---------- Phases ----------

  /** Compose updates, then stops and removals, then creations and their clean-up, then self-updates. */
  function Phase(op: Op): nat {
    match op
    case UpdateServices(_, _, _) => 0
    case Stop(_, _) => 1
    case Remove(_, _, force) => if force then 2 else 1
    case Create(_, _, _, _) => 2
    case Connect(_, _, _) => 2
    case Start(_, _) => 2
    case SelfUpdate(_, _, _, _) => 3
  }

  ghost predicate AllOfPhase(ops: seq<Op>, phase: nat) {
    forall i :: 0 <= i < |ops| ==> Phase(ops[i]) == phase
  }

  lemma StopsAreOfPhase(standalone: seq<ContainerWithDeps>, plans: map<Name, Plan>, blocks: seq<seq<Op>>)
    requires Planned(standalone, plans) && StopBlocks(standalone, plans, 0, blocks)
    ensures AllOfPhase(JoinBack(blocks), 1)
  {
    var ops := JoinBack(blocks);
    forall i | 0 <= i < |ops| ensures Phase(ops[i]) == 1 {
      var k, _ := JoinBackMonotone(blocks, i, i);
      assert IsStopBlock(standalone[0 + k].name, OldID(standalone, plans, 0 + k), blocks[k]);
    }
  }

  lemma CreatesAreOfPhase(standalone: seq<ContainerWithDeps>, blocks: seq<seq<Op>>, survivors: seq<string>)
    requires CreateBlocks(standalone, |standalone|, blocks, survivors)
    ensures AllOfPhase(Join(blocks), 2)
  {
    var ops := Join(blocks);
    forall i | 0 <= i < |ops| ensures Phase(ops[i]) == 2 {
      var k, _ := JoinMonotone(blocks, i, i);
      assert ReplaceOps(blocks[k], standalone[k].name);
    }
  }

  lemma {:induction false} SelfOpsAreOfPhase(queue: seq<SelfUpdatePlan>)
    ensures AllOfPhase(SelfOps(queue), 3)
  {
    if queue != [] { SelfOpsAreOfPhase(queue[..|queue| - 1]); }
  }

  ghost predicate PhasesFit(log: RunLog) {
    AllOfPhase(log.compose, 0) && AllOfPhase(JoinBack(log.stops), 1) && AllOfPhase(Join(log.creates), 2) &&
    AllOfPhase(log.selfUpdates, 3)
  }

  lemma RunPhases(cfg: UpdaterConfig, log: RunLog)
    requires CallsFit(cfg, log)
    ensures PhasesFit(log)
  {
    StopsAreOfPhase(StandaloneOf(log), log.plans, log.stops);
    CreatesAreOfPhase(StandaloneOf(log), log.creates, log.survivors);
    var queue :| QueueFits(log.plans, SelfUpdatesOf(log), queue) &&
      log.selfUpdates == if cfg.hasSelfUpdater then SelfOps(queue) else [];
    SelfOpsAreOfPhase(queue);
    var processed :| ComposeOpsFit(log.groups, processed, log.compose);
  }

  /** In every run all compose updates come before all standalone work, every stop and removal before
      every creation, and every self-update last. */
  lemma RunIsPhased(cfg: UpdaterConfig, log: RunLog, i: nat, j: nat)
    requires CallsFit(cfg, log) && i < j < |Calls(log)|
    ensures Phase(Calls(log)[i]) <= Phase(Calls(log)[j])
  {
    RunPhases(cfg, log);
    hide CallsFit, Phase, JoinBack, Join;
    ConcatIsPhased(log.compose, JoinBack(log.stops), Join(log.creates), log.selfUpdates, i, j);
  }

  lemma ConcatIsPhased(a: seq<Op>, b: seq<Op>, c: seq<Op>, d: seq<Op>, i: nat, j: nat)
    requires AllOfPhase(a, 0) && AllOfPhase(b, 1) && AllOfPhase(c, 2) && AllOfPhase(d, 3)
    requires i < j < |a + b + c + d|
    ensures Phase((a + b + c + d)[i]) <= Phase((a + b + c + d)[j])
  {
    PhaseAt(a, b, c, d, i);
    PhaseAt(a, b, c, d, j);
  }

  /** Which part a position of the whole falls into. */
  lemma PhaseAt(a: seq<Op>, b: seq<Op>, c: seq<Op>, d: seq<Op>, i: nat)
    requires AllOfPhase(a, 0) && AllOfPhase(b, 1) && AllOfPhase(c, 2) && AllOfPhase(d, 3)
    requires i < |a + b + c + d|
    ensures var n, m := |a|, |a| + |b|;
      Phase((a + b + c + d)[i]) ==
      if i < n then 0 else if i < m then 1 else if i < m + |c| then 2 else 3
    ensures |a| <= i < |a| + |b| ==> (a + b + c + d)[i] == b[i - |a|]
    ensures |a| + |b| <= i < |a| + |b| + |c| ==> (a + b + c + d)[i] == c[i - |a| - |b|]
    ensures |a| + |b| + |c| <= i ==> (a + b + c + d)[i] == d[i - |a| - |b| - |c|]
  {
    var all := a + b + c + d;
    hide Phase;
    if i < |a| { assert all[i] == a[i]; }
    else if i < |a| + |b| { assert all[i] == b[i - |a|]; }
    else if i < |a| + |b| + |c| { assert all[i] == c[i - |a| - |b|]; }
    else { assert all[i] == d[i - |a| - |b| - |c|]; }
  }

  // ---------- Order among the standalone containers ----------

  /** Of two standalone candidates the later one is stopped first. */
  lemma StopsGoBackward(cfg: UpdaterConfig, log: RunLog, x: ContainerWithDeps, y: ContainerWithDeps, i: nat, j: nat)
    requires CallsFit(cfg, log) && UniqueNames(StandaloneOf(log)) && Before(StandaloneOf(log), x, y)
    requires i < |Calls(log)| && Phase(Calls(log)[i]) == 1 && Calls(log)[i].owner == x.name
    requires j < |Calls(log)| && Phase(Calls(log)[j]) == 1 && Calls(log)[j].owner == y.name
    ensures j < i
  {
    RunPhases(cfg, log);
    var stops, n := JoinBack(log.stops), |log.compose|;
    assert StopBlocks(StandaloneOf(log), log.plans, 0, log.stops);
    hide CallsFit, Phase, JoinBack, Join, StandaloneOf;
    PhaseAt(log.compose, stops, Join(log.creates), log.selfUpdates, i);
    PhaseAt(log.compose, stops, Join(log.creates), log.selfUpdates, j);
    StopOrder(StandaloneOf(log), log.plans, log.stops, x, y, i - n, j - n);
  }

  lemma StopOrder(standalone: seq<ContainerWithDeps>, plans: map<Name, Plan>, blocks: seq<seq<Op>>,
                  x: ContainerWithDeps, y: ContainerWithDeps, i: nat, j: nat)
    requires Planned(standalone, plans) && StopBlocks(standalone, plans, 0, blocks)
    requires UniqueNames(standalone) && Before(standalone, x, y)
    requires i < |JoinBack(blocks)| && JoinBack(blocks)[i].owner == x.name
    requires j < |JoinBack(blocks)| && JoinBack(blocks)[j].owner == y.name
    ensures j < i
  {
    if i <= j {
      var ki, kj := JoinBackMonotone(blocks, i, j);
      assert IsStopBlock(standalone[0 + ki].name, OldID(standalone, plans, 0 + ki), blocks[ki]);
      assert IsStopBlock(standalone[0 + kj].name, OldID(standalone, plans, 0 + kj), blocks[kj]);
      PositionsOrdered(standalone, x, y, ki, kj);
    }
  }

  lemma PositionsOrdered(s: seq<ContainerWithDeps>, x: ContainerWithDeps, y: ContainerWithDeps, kx: nat, ky: nat)
    requires UniqueNames(s) && Before(s, x, y) && kx < |s| && ky < |s| && s[kx].name == x.name && s[ky].name == y.name
    ensures kx < ky
  {
  }

  /** ... and everything done to create the earlier one comes before anything for the later one. */
  lemma CreatesGoForward(cfg: UpdaterConfig, log: RunLog, x: ContainerWithDeps, y: ContainerWithDeps, i: nat, j: nat)
    requires CallsFit(cfg, log) && UniqueNames(StandaloneOf(log)) && Before(StandaloneOf(log), x, y)
    requires i < |Calls(log)| && Phase(Calls(log)[i]) == 2 && Calls(log)[i].owner == x.name
    requires j < |Calls(log)| && Phase(Calls(log)[j]) == 2 && Calls(log)[j].owner == y.name
    ensures i < j
  {
    RunPhases(cfg, log);
    var creates, n := Join(log.creates), |log.compose| + |JoinBack(log.stops)|;
    assert CreateBlocks(StandaloneOf(log), |StandaloneOf(log)|, log.creates, log.survivors);
    hide CallsFit, Phase, JoinBack, Join, StandaloneOf;
    PhaseAt(log.compose, JoinBack(log.stops), creates, log.selfUpdates, i);
    PhaseAt(log.compose, JoinBack(log.stops), creates, log.selfUpdates, j);
    CreateOrder(StandaloneOf(log), log.creates, log.survivors, x, y, i - n, j - n);
  }

  lemma CreateOrder(standalone: seq<ContainerWithDeps>, blocks: seq<seq<Op>>, survivors: seq<string>,
                    x: ContainerWithDeps, y: ContainerWithDeps, i: nat, j: nat)
    requires CreateBlocks(standalone, |standalone|, blocks, survivors)
    requires UniqueNames(standalone) && Before(standalone, x, y)
    requires i < |Join(blocks)| && Join(blocks)[i].owner == x.name
    requires j < |Join(blocks)| && Join(blocks)[j].owner == y.name
    ensures i < j
  {
    if j <= i {
      var kj, ki := JoinMonotone(blocks, j, i);
      assert ReplaceOps(blocks[ki], standalone[ki].name) && ReplaceOps(blocks[kj], standalone[kj].name);
      PositionsOrdered(standalone, x, y, ki, kj);
    }
  }

  /** Every standalone candidate's container is asked to stop, exactly where its turn comes. */
  lemma EveryStandaloneIsStopped(cfg: UpdaterConfig, log: RunLog, k: nat)
    requires CallsFit(cfg, log) && k < |StandaloneOf(log)|
    ensures var c := StandaloneOf(log)[k];
      c.name in log.plans && Op.Stop(c.name, log.plans[c.name].cnt.id) in Calls(log)
  {
    var standalone := StandaloneOf(log);
    assert IsStopBlock(standalone[0 + k].name, OldID(standalone, log.plans, 0 + k), log.stops[k]);
    var stop := Op.Stop(standalone[k].name, OldID(standalone, log.plans, k));
    BlockInJoinBack(log.stops, k, stop);
  }

  // ---------- Dependencies ----------

  lemma {:induction false} WithPlansKeepsOrder(s: seq<ContainerWithDeps>, plans: map<Name, Plan>,
                                               x: ContainerWithDeps, y: ContainerWithDeps)
    requires Before(s, x, y) && x.name in plans && y.name in plans
    ensures Before(WithPlans(s, plans), x, y)
  {
    var rest, last := s[..|s| - 1], s[|s| - 1];
    var i, j :| 0 <= i < j < |s| && s[i] == x && s[j] == y;
    var kept := WithPlans(rest, plans);
    if j < |s| - 1 {
      assert rest[i] == x && rest[j] == y;
      WithPlansKeepsOrder(rest, plans, x, y);
      var a, b :| 0 <= a < b < |kept| && kept[a] == x && kept[b] == y;
      assert WithPlans(s, plans)[a] == x && WithPlans(s, plans)[b] == y;
    } else {
      assert rest[i] == x;
      WithPlansMembers(rest, plans);
      var a :| 0 <= a < |kept| && kept[a] == x;
      assert WithPlans(s, plans) == kept + [y];
      assert (kept + [y])[a] == x && (kept + [y])[|kept|] == y;
    }
  }

  /** If the last candidate is selected, it is so at its own position. */
  lemma LastIsOfKind(handled: seq<ContainerWithDeps>, kinds: seq<Kind>, k: Kind)
    requires |handled| == |kinds| && UniqueNames(handled) && handled != []
    requires handled[|handled| - 1] in Select(handled, kinds, k)
    ensures kinds[|handled| - 1] == k
  {
    SelectMembers(handled, kinds, k);
  }

  lemma {:induction false} SelectKeepsOrder(handled: seq<ContainerWithDeps>, kinds: seq<Kind>, k: Kind,
                                            x: ContainerWithDeps, y: ContainerWithDeps)
    requires |handled| == |kinds| && UniqueNames(handled) && Before(handled, x, y)
    requires x in Select(handled, kinds, k) && y in Select(handled, kinds, k)
    ensures Before(Select(handled, kinds, k), x, y)
  {
    var n := |handled| - 1;
    var rest, last := handled[..n], handled[n];
    var kept := Select(rest, kinds[..n], k);
    var i, j :| 0 <= i < j < |handled| && handled[i] == x && handled[j] == y;
    assert rest[i] == x && x != last;
    assert x in kept;
    if j < n {
      assert rest[j] == y && y != last && y in kept;
      SelectKeepsOrder(rest, kinds[..n], k, x, y);
      var a, b :| 0 <= a < b < |kept| && kept[a] == x && kept[b] == y;
      assert Select(handled, kinds, k)[a] == x && Select(handled, kinds, k)[b] == y;
    } else {
      assert y == last;
      LastIsOfKind(handled, kinds, k);
      var a :| 0 <= a < |kept| && kept[a] == x;
      assert Select(handled, kinds, k) == kept + [y];
      assert (kept + [y])[a] == x && (kept + [y])[|kept|] == y;
    }
  }

  /** The main ordering theorem. If the marked containers' dependencies have no cycle and `u` depends
      on `v`, however indirectly, both standalone and `v` of no later class, then `u` is stopped before
      `v`, and whatever is done to create `v` is done before anything to create `u`. */
  lemma DependentsStopFirst(cfg: UpdaterConfig, candidates: seq<ContainerWithDeps>, base: seq<ContainerWithDeps>,
                            plans: map<Name, Plan>, log: RunLog, u: ContainerWithDeps, v: ContainerWithDeps, i: nat,
                            j: nat)
    requires UniqueNames(candidates) && Acyclic(candidates) && IsBaseOrder(candidates, base)
    requires log.handled == WithPlans(Partition(cfg, plans, base), plans) && |log.handled| == |log.kinds|
    requires CallsFit(cfg, log)
    requires u in StandaloneOf(log) && v in StandaloneOf(log) && u != v
    requires Reaches(candidates, u.name, v.name)
    requires Rank(ClassOf(cfg, plans, v)) <= Rank(ClassOf(cfg, plans, u))
    requires i < |Calls(log)| && Calls(log)[i].owner == u.name
    requires j < |Calls(log)| && Calls(log)[j].owner == v.name
    ensures Phase(Calls(log)[i]) == 1 && Phase(Calls(log)[j]) == 1 ==> i < j
    ensures Phase(Calls(log)[i]) == 2 && Phase(Calls(log)[j]) == 2 ==> j < i
  {
    var sorted, standalone := Partition(cfg, plans, base), StandaloneOf(log);
    SamePermutation(candidates, base);
    PartitionIsPermutation(cfg, plans, base);
    SamePermutation(base, sorted);
    SelectMembers(log.handled, log.kinds, Standalone);
    WithPlansMembers(sorted, plans);
    WithPlansUnique(sorted, plans);
    hide CallsFit, Partition, Select, Calls, ClassOf, Rank, Phase, WithPlans, IsBaseOrder, Acyclic, Reaches;
    assert u in log.handled && v in log.handled;
    DependencyOrder(cfg, plans, candidates, base, u, v);
    WithPlansKeepsOrder(sorted, plans, v, u);
    SelectKeepsOrder(log.handled, log.kinds, Standalone, v, u);
    if Phase(Calls(log)[i]) == 1 && Phase(Calls(log)[j]) == 1 {
      StopsGoBackward(cfg, log, v, u, j, i);
    }
    if Phase(Calls(log)[i]) == 2 && Phase(Calls(log)[j]) == 2 {
      CreatesGoForward(cfg, log, v, u, j, i);
    }
  }

  lemma {:induction false} WithPlansUnique(s: seq<ContainerWithDeps>, plans: map<Name, Plan>)
    requires UniqueNames(s)
    ensures UniqueNames(WithPlans(s, plans))
  {
    if s != [] {
      var rest, last := s[..|s| - 1], s[|s| - 1];
      WithPlansUnique(rest, plans);
      WithPlansMembers(rest, plans);
      var kept := WithPlans(rest, plans);
      forall i | 0 <= i < |kept| ensures kept[i].name != last.name {
        assert kept[i] in kept;
        var j :| 0 <= j < |rest| && rest[j] == kept[i];
        assert s[j] == rest[j];
      }
    }
  }

  // ---------- Self-updates ----------

  lemma {:induction false} SelfOpAt(queue: seq<SelfUpdatePlan>, k: nat)
    ensures |SelfOps(queue)| == |queue|
    ensures k < |queue| ==> SelfOps(queue)[k] == SelfOp(queue[k])
  {
    if queue != [] { SelfOpAt(queue[..|queue| - 1], k); }
  }

  /** Whose self-update a call is. */
  lemma SelfUpdateCaller(cfg: UpdaterConfig, log: RunLog, i: nat) returns (k: nat)
    requires CallsFit(cfg, log) && i < |Calls(log)| && Calls(log)[i].SelfUpdate?
    ensures k < |SelfUpdatesOf(log)| && SelfUpdatesOf(log)[k].name == Calls(log)[i].owner
    ensures i == |log.compose| + |JoinBack(log.stops)| + |Join(log.creates)| + k
  {
    var queue :| QueueFits(log.plans, SelfUpdatesOf(log), queue) &&
      log.selfUpdates == if cfg.hasSelfUpdater then SelfOps(queue) else [];
    hide CallsFit, Calls, Phase, JoinBack, Join, SelfUpdatesOf, SelfOps;
    RunPhases(cfg, log);
    k := SelfUpdatePart(log, i);
    SelfOpAt(queue, k);
  }

  lemma SelfUpdatePart(log: RunLog, i: nat) returns (k: nat)
    requires PhasesFit(log) && i < |Calls(log)| && Calls(log)[i].SelfUpdate?
    ensures k < |log.selfUpdates| && Calls(log)[i] == log.selfUpdates[k]
    ensures i == |log.compose| + |JoinBack(log.stops)| + |Join(log.creates)| + k
  {
    assert Phase(Calls(log)[i]) == 3;
    hide Phase, JoinBack, Join, AllOfPhase;
    PhaseAt(log.compose, JoinBack(log.stops), Join(log.creates), log.selfUpdates, i);
    k := i - |log.compose| - |JoinBack(log.stops)| - |Join(log.creates)|;
  }

  /** The order of handling: by class, and inside a class by the order before the partition. */
  ghost predicate GoesBefore(cfg: UpdaterConfig, plans: map<Name, Plan>, base: seq<ContainerWithDeps>,
                             x: ContainerWithDeps, y: ContainerWithDeps)
  {
    var k, l := Rank(ClassOf(cfg, plans, x)), Rank(ClassOf(cfg, plans, y));
    k < l || (k == l && Before(base, x, y))
  }

  lemma OneGoesBefore(cfg: UpdaterConfig, plans: map<Name, Plan>, base: seq<ContainerWithDeps>,
                      x: ContainerWithDeps, y: ContainerWithDeps)
    requires UniqueNames(base) && x in base && y in base && x != y
    ensures GoesBefore(cfg, plans, base, x, y) != GoesBefore(cfg, plans, base, y, x)
  {
    BeforeIsAsymmetric(base, x, y);
    var i :| 0 <= i < |base| && base[i] == x;
    var j :| 0 <= j < |base| && base[j] == y;
    assert if i < j then Before(base, x, y) else Before(base, y, x);
    hide ClassOf, Before;
  }

  lemma GoesBeforeInRun(cfg: UpdaterConfig, plans: map<Name, Plan>, base: seq<ContainerWithDeps>, log: RunLog,
                        x: ContainerWithDeps, y: ContainerWithDeps)
    requires UniqueNames(base) && |log.handled| == |log.kinds|
    requires log.handled == WithPlans(Partition(cfg, plans, base), plans)
    requires x in SelfUpdatesOf(log) && y in SelfUpdatesOf(log) && GoesBefore(cfg, plans, base, x, y)
    ensures Before(SelfUpdatesOf(log), x, y) && UniqueNames(SelfUpdatesOf(log))
  {
    SelfUpdatesAreBase(cfg, plans, base, log);
    assert SelfUpdatesOf(log) == Select(log.handled, log.kinds, SelfUpdating);
    assert x in base && y in base && x.name in plans && y.name in plans;
    hide WithPlans, Select, ClassOf, Partition, SelfUpdatesOf, Before, UniqueNames;
    PartitionKeepsOrder(cfg, plans, base, x, y);
    WithPlansKeepsOrder(Partition(cfg, plans, base), plans, x, y);
    SelectKeepsOrder(log.handled, log.kinds, SelfUpdating, x, y);
  }

  lemma SelfUpdatesAreBase(cfg: UpdaterConfig, plans: map<Name, Plan>, base: seq<ContainerWithDeps>, log: RunLog)
    requires UniqueNames(base) && |log.handled| == |log.kinds|
    requires log.handled == WithPlans(Partition(cfg, plans, base), plans)
    ensures UniqueNames(log.handled) && UniqueNames(SelfUpdatesOf(log))
    ensures forall c :: c in SelfUpdatesOf(log) ==> c in log.handled && c in base && c.name in plans
  {
    var sorted := Partition(cfg, plans, base);
    hide WithPlans, Select, Partition, UniqueNames;
    PartitionIsPermutation(cfg, plans, base);
    SamePermutation(base, sorted);
    WithPlansUnique(sorted, plans);
    WithPlansMembers(sorted, plans);
    SelectMembers(log.handled, log.kinds, SelfUpdating);
  }

  /** Of two self-updates of a run, which is triggered first: by class, normal containers before agents before
      servers, and inside a class in base order. So the container the host runs in goes last only if no other
      self-update is of a later class, or of its own and later in order: known by its ID alone and without a
      server label, it goes before every agent and server. */
  lemma SelfUpdateOrder(cfg: UpdaterConfig, base: seq<ContainerWithDeps>, plans: map<Name, Plan>, log: RunLog,
                        i: nat, j: nat)
    returns (x: ContainerWithDeps, y: ContainerWithDeps)
    requires UniqueNames(base) && CallsFit(cfg, log) && |log.handled| == |log.kinds|
    requires log.handled == WithPlans(Partition(cfg, plans, base), plans)
    requires i < |Calls(log)| && j < |Calls(log)| && i != j && Calls(log)[i].SelfUpdate? && Calls(log)[j].SelfUpdate?
    ensures x in log.handled && x.name == Calls(log)[i].owner && y in log.handled && y.name == Calls(log)[j].owner
    ensures i < j <==> GoesBefore(cfg, plans, base, x, y)
  {
    hide *;
    var k := SelfUpdateCaller(cfg, log, i);
    var l := SelfUpdateCaller(cfg, log, j);
    var waiting := SelfUpdatesOf(log);
    x, y := waiting[k], waiting[l];
    SelfUpdatesAreBase(cfg, plans, base, log);
    DifferentPlaces(waiting, k, l);
    OneGoesBefore(cfg, plans, base, x, y);
    if GoesBefore(cfg, plans, base, x, y) {
      GoesBeforeInRun(cfg, plans, base, log, x, y);
      PositionsOrdered(waiting, x, y, k, l);
    } else {
      GoesBeforeInRun(cfg, plans, base, log, y, x);
      PositionsOrdered(waiting, y, x, l, k);
    }
  }

  lemma DifferentPlaces(s: seq<ContainerWithDeps>, k: nat, l: nat)
    requires UniqueNames(s) && k < |s| && l < |s| && k != l
    ensures s[k] in s && s[l] in s && s[k] != s[l]
  {
  }

  /** In particular the classes of the self-updates, in the order they are triggered, never fall. */
  lemma ServersUpdateLast(cfg: UpdaterConfig, base: seq<ContainerWithDeps>, plans: map<Name, Plan>, log: RunLog,
                          i: nat, j: nat)
    returns (x: ContainerWithDeps, y: ContainerWithDeps)
    requires UniqueNames(base) && CallsFit(cfg, log) && |log.handled| == |log.kinds|
    requires log.handled == WithPlans(Partition(cfg, plans, base), plans)
    requires i < j < |Calls(log)| && Calls(log)[i].SelfUpdate? && Calls(log)[j].SelfUpdate?
    ensures x in log.handled && x.name == Calls(log)[i].owner && y in log.handled && y.name == Calls(log)[j].owner
    ensures Rank(ClassOf(cfg, plans, x)) <= Rank(ClassOf(cfg, plans, y))
  {
    x, y := SelfUpdateOrder(cfg, base, plans, log, i, j);
    hide ClassOf, Rank, CallsFit, Calls, Before;
  }

  // ---------- Results and routes ----------

  /** One result per handled candidate, in order, under its name and with its images; none is left
      merely checked, its flags agree with its status, and a restart is reported only for a standalone
      container that just followed a dependency. */
  lemma ResultsAreFinal(cfg: UpdaterConfig, projects: map<string, string>, log: RunLog,
                        results: seq<ResourceResult>, i: nat)
    requires AllFinished(cfg, projects, log, results) && i < |results|
    ensures |results| == |log.handled| && results[i].resourceName == log.handled[i].name
    ensures results[i].status in {Updated, Restarted, Skipped, Failed}
    ensures log.handled[i].name in log.plans
    ensures results[i].status == Restarted ==>
              log.kinds[i] == Standalone && log.plans[log.handled[i].name].implicit
    ensures results[i].status == Updated && log.kinds[i] == Standalone ==> !log.plans[log.handled[i].name].implicit
    ensures results[i].resourceType.Container?
    ensures results[i].status == Skipped <==>
              log.plans[log.handled[i].name].inspect.Some? && log.plans[log.handled[i].name].newRef == ""
    ensures results[i].updateApplied <==> results[i].status in {Updated, Restarted}
    ensures results[i].updateAvailable <==> results[i].status == Updated
    ensures var plan := log.plans[log.handled[i].name];
      && results[i].resourceID == plan.cnt.id
      && if plan.inspect.Some?
         then results[i].oldImage == plan.matched && results[i].newImage == cfg.normalize(plan.newRef)
         else results[i].oldImage == results[i].newImage == ""
  {
    var c := log.handled[i];
    assert Finished(cfg, projects, log.groups, c, log.plans[c.name], log.kinds[i], results[i]);
    hide Finished;
    ResultIsFinal(cfg, projects, log.groups, c, log.plans[c.name], log.kinds[i], results[i]);
  }

  lemma ResultIsFinal(cfg: UpdaterConfig, projects: map<string, string>, groups: Groups, c: ContainerWithDeps,
                      plan: Plan, kind: Kind, r: ResourceResult)
    requires Finished(cfg, projects, groups, c, plan, kind, r)
    ensures r.resourceName == c.name && r.resourceID == plan.cnt.id && r.resourceType.Container?
    ensures r.status in {Updated, Restarted, Skipped, Failed}
    ensures r.status == Restarted ==> kind == Standalone && plan.implicit
    ensures r.status == Updated && kind == Standalone ==> !plan.implicit
    ensures r.status == Skipped <==> plan.inspect.Some? && plan.newRef == ""
    ensures r.updateApplied <==> r.status in {Updated, Restarted}
    ensures r.updateAvailable <==> r.status == Updated
    ensures if plan.inspect.Some? then r.oldImage == plan.matched && r.newImage == cfg.normalize(plan.newRef)
            else r.oldImage == r.newImage == ""
  {
    hide GroupOf, ServiceLabel, ProjectLabel, IsSelfUpdateCandidate, InspectLabels;
  }

  lemma StopCaller(standalone: seq<ContainerWithDeps>, plans: map<Name, Plan>, blocks: seq<seq<Op>>,
                   i: nat) returns (k: nat)
    requires Planned(standalone, plans) && StopBlocks(standalone, plans, 0, blocks) && i < |JoinBack(blocks)|
    ensures k < |standalone| == |blocks| && JoinBack(blocks)[i] in blocks[k]
    ensures standalone[k].name in plans && IsStopBlock(standalone[k].name, OldID(standalone, plans, k), blocks[k])
  {
    var kb;
    k, kb := JoinBackMonotone(blocks, i, i);
    assert IsStopBlock(standalone[0 + k].name, OldID(standalone, plans, 0 + k), blocks[k]);
  }

  lemma CreateCaller(standalone: seq<ContainerWithDeps>, blocks: seq<seq<Op>>, survivors: seq<string>,
                     i: nat) returns (k: nat)
    requires CreateBlocks(standalone, |standalone|, blocks, survivors) && i < |Join(blocks)|
    ensures k < |standalone| == |blocks| && Join(blocks)[i] in blocks[k]
    ensures ReplaceOps(blocks[k], standalone[k].name)
  {
    var kb;
    k, kb := JoinMonotone(blocks, i, i);
    assert ReplaceOps(blocks[k], standalone[k].name);
  }

  /** A call of a candidate's stop block: on the candidate's own container. */
  ghost predicate InStopBlock(log: RunLog, k: nat, op: Op) {
    && k < |StandaloneOf(log)| && k < |log.stops| && op in log.stops[k]
    && var c := StandaloneOf(log)[k];
       c.name in log.plans && IsStopBlock(c.name, log.plans[c.name].cnt.id, log.stops[k])
  }

  /** A call to bring a candidate's container back: on a container that these calls created. */
  ghost predicate InCreateBlock(log: RunLog, k: nat, op: Op) {
    && k < |StandaloneOf(log)| && k < |log.creates| && op in log.creates[k]
    && ReplaceOps(log.creates[k], StandaloneOf(log)[k].name)
  }

  /** Whose call a stop, removal or creation is. */
  lemma StandaloneCaller(cfg: UpdaterConfig, log: RunLog, i: nat) returns (k: nat)
    requires CallsFit(cfg, log) && i < |Calls(log)| && 1 <= Phase(Calls(log)[i]) <= 2
    ensures if Phase(Calls(log)[i]) == 1 then InStopBlock(log, k, Calls(log)[i])
            else InCreateBlock(log, k, Calls(log)[i])
    ensures k < |StandaloneOf(log)| && StandaloneOf(log)[k].name == Calls(log)[i].owner
  {
    RunPhases(cfg, log);
    assert Planned(StandaloneOf(log), log.plans);
    assert PhaseBlocks(StandaloneOf(log), log.plans, log.stops, log.creates, log.survivors);
    hide *;
    if Phase(Calls(log)[i]) == 1 {
      var j := StopPart(log, i);
      k := StopCall(log, j);
    } else {
      var j := CreatePart(log, i);
      k := CreateCall(log, j);
    }
  }

  lemma StopPart(log: RunLog, i: nat) returns (j: nat)
    requires PhasesFit(log) && i < |Calls(log)| && Phase(Calls(log)[i]) == 1
    ensures j < |JoinBack(log.stops)| && Calls(log)[i] == JoinBack(log.stops)[j]
  {
    hide Phase, JoinBack, Join, AllOfPhase;
    PhaseAt(log.compose, JoinBack(log.stops), Join(log.creates), log.selfUpdates, i);
    j := i - |log.compose|;
  }

  lemma CreatePart(log: RunLog, i: nat) returns (j: nat)
    requires PhasesFit(log) && i < |Calls(log)| && Phase(Calls(log)[i]) == 2
    ensures j < |Join(log.creates)| && Calls(log)[i] == Join(log.creates)[j]
  {
    hide Phase, JoinBack, Join, AllOfPhase;
    PhaseAt(log.compose, JoinBack(log.stops), Join(log.creates), log.selfUpdates, i);
    j := i - |log.compose| - |JoinBack(log.stops)|;
  }

  lemma StopCall(log: RunLog, j: nat) returns (k: nat)
    requires Planned(StandaloneOf(log), log.plans) && j < |JoinBack(log.stops)|
    requires PhaseBlocks(StandaloneOf(log), log.plans, log.stops, log.creates, log.survivors)
    ensures InStopBlock(log, k, JoinBack(log.stops)[j]) && StandaloneOf(log)[k].name == JoinBack(log.stops)[j].owner
  {
    hide StandaloneOf, JoinBack, StopBlocks, CreateBlocks, Planned;
    k := StopCaller(StandaloneOf(log), log.plans, log.stops, j);
  }

  lemma CreateCall(log: RunLog, j: nat) returns (k: nat)
    requires Planned(StandaloneOf(log), log.plans) && j < |Join(log.creates)|
    requires PhaseBlocks(StandaloneOf(log), log.plans, log.stops, log.creates, log.survivors)
    ensures InCreateBlock(log, k, Join(log.creates)[j]) && StandaloneOf(log)[k].name == Join(log.creates)[j].owner
  {
    hide StandaloneOf, Join, StopBlocks, CreateBlocks, Planned;
    k := CreateCaller(StandaloneOf(log), log.creates, log.survivors, j);
  }

  lemma {:induction false} BlockInJoin(blocks: seq<seq<Op>>, k: nat, op: Op)
    requires k < |blocks| && op in blocks[k]
    ensures op in Join(blocks)
  {
    if k < |blocks| - 1 {
      BlockInJoin(blocks[..|blocks| - 1], k, op);
    }
  }

  /** A created container is its candidate's survivor, or its forced removal is called for. */
  lemma CreationIsCleanedUp(cfg: UpdaterConfig, log: RunLog, n: nat) returns (k: nat)
    requires CallsFit(cfg, log) && n < |Calls(log)| && Calls(log)[n].Create? && Calls(log)[n].created.Some?
    ensures k < |StandaloneOf(log)| && k < |log.survivors| && StandaloneOf(log)[k].name == Calls(log)[n].owner
    ensures var op := Calls(log)[n];
      || Op.Remove(op.owner, op.created.value, true) in Calls(log)
      || (log.survivors[k] != "" && op.created.value == log.survivors[k])
  {
    RunPhases(cfg, log);
    var op, stops, creates, standalone := Calls(log)[n], JoinBack(log.stops), Join(log.creates), StandaloneOf(log);
    assert CreateBlocks(standalone, |standalone|, log.creates, log.survivors);
    assert Phase(op) == 2;
    hide CallsFit, Phase, JoinBack, Join, StandaloneOf;
    PhaseAt(log.compose, stops, creates, log.selfUpdates, n);
    var kb;
    k, kb := JoinMonotone(log.creates, n - |log.compose| - |stops|, n - |log.compose| - |stops|);
    assert op in log.creates[k];
    assert ReplaceOps(log.creates[k], standalone[k].name);
    assert CleansUp(log.creates[k], standalone[k].name, log.survivors[k]);
    var removal := Op.Remove(op.owner, op.created.value, true);
    if removal in log.creates[k] {
      BlockInJoin(log.creates, k, removal);
    }
  }

  /** The host runs in this container, as far as full or abbreviated IDs tell. */
  predicate IsSelfByID(cfg: UpdaterConfig, containerID: string) {
    var selfID := TrimSpace(cfg.selfContainerID);
    selfID != "" && (selfID <= containerID || containerID <= selfID)
  }

  /** The labels give a service, and a project that leads to this ID's group. */
  ghost predicate InProject(projects: map<string, string>, groups: Groups, labels: Labels, id: string) {
    && "com.docker.compose.service" in labels && TrimSpace(labels["com.docker.compose.service"]) != ""
    && "com.docker.compose.project" in labels
    && var name := TrimSpace(labels["com.docker.compose.project"]);
       name != "" && name in projects && projects[name] == id && id in groups && groups[id].projectName == name
  }

  /** Where a candidate goes, exactly: nowhere without an update; to the self-updater if it is a target by label or
      the host's own container by ID; else through compose if it is a service of a project with a group; else it is
      recreated. None is refused, as a target without a self-updater fails only when its turn comes. */
  lemma RouteIs(cfg: UpdaterConfig, projects: map<string, string>, groups: Groups, plan: Plan)
    requires plan.inspect.Some?
    ensures var labels, route := InspectLabels(plan.inspect.value), RouteOf(cfg, projects, groups, plan);
      var self := cfg.policy.isSelfUpdateTarget(labels) || IsSelfByID(cfg, plan.cnt.id);
      && (route.NoUpdate? <==> plan.newRef == "") && !route.Refused?
      && (route.ViaSelfUpdate? <==> plan.newRef != "" && self)
      && (route.ViaCompose? <==>
            plan.newRef != "" && !self && exists id :: id != "" && InProject(projects, groups, labels, id))
      && (route.ViaCompose? ==> InProject(projects, groups, labels, route.projectID))
      && (route.ViaRecreate? ==> plan.newRef != "")
  {
    var labels := InspectLabels(plan.inspect.value);
    var found := GroupOf(projects, groups, ProjectLabel(labels));
    if found != "" { GroupIs(projects, groups, labels, found); }
    hide TrimSpace, InProject, GroupOf, ServiceLabel, ProjectLabel;
    if id :| id != "" && InProject(projects, groups, labels, id) {
      GroupIs(projects, groups, labels, id);
    }
  }

  lemma GroupIs(projects: map<string, string>, groups: Groups, labels: Labels, id: string)
    requires id != ""
    ensures InProject(projects, groups, labels, id) <==>
            GroupOf(projects, groups, ProjectLabel(labels)) == id && ServiceLabel(labels) != ""
  {
    hide TrimSpace;
  }

  /** A run stops, removes and recreates only its standalone candidates: a container the host must update
      itself, by label or by container ID, is never one, nor is one that belongs to a compose group. Each
      such call is on the candidate's own container or on one created for it. */
  lemma OnlyStandaloneIsRecreated(cfg: UpdaterConfig, projects: map<string, string>, log: RunLog,
                                  results: seq<ResourceResult>, i: nat) returns (n: nat)
    requires AllFinished(cfg, projects, log, results) && CallsFit(cfg, log)
    requires i < |Calls(log)| && 1 <= Phase(Calls(log)[i]) <= 2
    ensures n < |log.handled| && log.handled[n].name == Calls(log)[i].owner && log.handled[n].name in log.plans
    ensures var plan := log.plans[log.handled[n].name];
      && plan.inspect.Some? && RouteOf(cfg, projects, log.groups, plan).ViaRecreate?
      && !cfg.policy.isSelfUpdateTarget(InspectLabels(plan.inspect.value)) && !IsSelfByID(cfg, plan.cnt.id)
      && !exists id :: id != "" && InProject(projects, log.groups, InspectLabels(plan.inspect.value), id)
    ensures var op := Calls(log)[i];
      if op.Stop? || (op.Remove? && !op.force) then op.id == log.plans[log.handled[n].name].cnt.id
      else op.Create? || CreatedFor(log, op.owner, op.id)
  {
    var k := StandaloneCaller(cfg, log, i);
    var c := StandaloneOf(log)[k];
    assert c in StandaloneOf(log);
    hide *;
    n := RecreatedCandidate(cfg, projects, log, results, c);
    if Phase(Calls(log)[i]) == 1 {
      StopBlockCall(log, k, Calls(log)[i]);
    } else {
      CreateBlockCall(log, k, Calls(log)[i]);
    }
  }

  lemma StopBlockCall(log: RunLog, k: nat, op: Op)
    requires InStopBlock(log, k, op)
    ensures op.Stop? || (op.Remove? && !op.force)
    ensures var c := StandaloneOf(log)[k]; c.name in log.plans && op.id == log.plans[c.name].cnt.id
  {
    hide StandaloneOf;
  }

  /** Some call of the run created this container for this candidate. */
  ghost predicate CreatedFor(log: RunLog, owner: Name, id: string) {
    exists op :: op in Calls(log) && op.Create? && op.owner == owner && op.created == Some(id)
  }

  lemma CreateBlockCall(log: RunLog, k: nat, op: Op)
    requires InCreateBlock(log, k, op)
    ensures !op.Stop? && (op.Remove? ==> op.force) && (op.Create? || CreatedFor(log, op.owner, op.id))
  {
    hide StandaloneOf;
    if !op.Create? {
      var create :| create in log.creates[k] && create.Create? && create.created == Some(op.id);
      BlockInJoin(log.creates, k, create);
      assert create in Calls(log);
    }
  }

  lemma RecreatedCandidate(cfg: UpdaterConfig, projects: map<string, string>, log: RunLog,
                           results: seq<ResourceResult>, c: ContainerWithDeps) returns (n: nat)
    requires AllFinished(cfg, projects, log, results) && c in StandaloneOf(log)
    ensures n < |log.handled| && log.handled[n] == c && c.name in log.plans
    ensures var plan := log.plans[c.name];
      && plan.inspect.Some? && RouteOf(cfg, projects, log.groups, plan).ViaRecreate?
      && !cfg.policy.isSelfUpdateTarget(InspectLabels(plan.inspect.value)) && !IsSelfByID(cfg, plan.cnt.id)
      && !exists id :: id != "" && InProject(projects, log.groups, InspectLabels(plan.inspect.value), id)
  {
    SelectMembers(log.handled, log.kinds, Standalone);
    hide Select, RouteOf, InProject, IsSelfByID, IsStandaloneResult;
    n :| 0 <= n < |log.handled| && log.handled[n] == c && log.kinds[n] == Standalone;
    assert Finished(cfg, projects, log.groups, c, log.plans[c.name], log.kinds[n], results[n]);
    RouteIs(cfg, projects, log.groups, log.plans[c.name]);
  }

  /** Each compose project is updated at most once in a run, with a service list free of repeats that
      only candidates without a self-update label asked for. */
  lemma ComposeProjectsOnce(cfg: UpdaterConfig, projects: map<string, string>, plans: map<Name, Plan>,
                            sorted: seq<ContainerWithDeps>, log: RunLog, i: nat, j: nat)
    requires GroupsFit(cfg, projects, plans, sorted, log.groups) && CallsFit(cfg, log)
    requires i < j < |Calls(log)| && Calls(log)[i].UpdateServices?
    ensures Calls(log)[j].UpdateServices? ==> Calls(log)[i].projectID != Calls(log)[j].projectID
    ensures NoDuplicates(Calls(log)[i].services)
    ensures forall service :: service in Calls(log)[i].services ==>
              exists c :: c in sorted && Contributes(cfg, projects, plans, c, Calls(log)[i].projectID, service)
  {
    var processed := ComposeCall(cfg, log, i);
    if Calls(log)[j].UpdateServices? {
      var processed' := ComposeCall(cfg, log, j);
    }
    hide CallsFit, Contributes, Calls, JoinBack, Join, NoDuplicates;
    GroupServices(cfg, projects, plans, sorted, log.groups, log.compose[i].projectID);
  }

  lemma ComposeCall(cfg: UpdaterConfig, log: RunLog, i: nat) returns (processed: set<string>)
    requires CallsFit(cfg, log) && i < |Calls(log)| && Calls(log)[i].UpdateServices?
    ensures i < |log.compose| && Calls(log)[i] == log.compose[i] && ComposeOpsFit(log.groups, processed, log.compose)
  {
    processed :| ComposeOpsFit(log.groups, processed, log.compose);
    hide *;
    RunPhases(cfg, log);
    ComposePart(log, i);
  }

  lemma ComposePart(log: RunLog, i: nat)
    requires PhasesFit(log) && i < |Calls(log)| && Calls(log)[i].UpdateServices?
    ensures i < |log.compose| && Calls(log)[i] == log.compose[i]
  {
    assert Phase(Calls(log)[i]) == 0;
    hide Phase, JoinBack, Join, AllOfPhase;
    PhaseAt(log.compose, JoinBack(log.stops), Join(log.creates), log.selfUpdates, i);
    if i < |log.compose| { ComposeAt(log, i); }
  }

  /** A candidate routed through compose has its project updated, by exactly one call of the run. The
      call's list holds the candidate's service if and only if some candidate contributed it when the
      groups were built, and in particular if this candidate was inspected by then. */
  lemma ComposeCandidateIsServed(cfg: UpdaterConfig, projects: map<string, string>, plans: map<Name, Plan>,
                                 sorted: seq<ContainerWithDeps>, log: RunLog, c: ContainerWithDeps) returns (i: nat)
    requires GroupsFit(cfg, projects, plans, sorted, log.groups) && PlansInspected(plans, log.plans)
    requires CallsFit(cfg, log) && ComposeFits(cfg, projects, log)
    requires c in log.handled && ComposeTarget(cfg, projects, log.groups, log.plans, c).Some?
    ensures var id := ComposeTarget(cfg, projects, log.groups, log.plans, c).value;
      && i < |Calls(log)| && Calls(log)[i].UpdateServices? && Calls(log)[i].projectID == id
      && (forall j :: 0 <= j < |Calls(log)| && Calls(log)[j].UpdateServices? && Calls(log)[j].projectID == id ==>
            j == i)
      && c.name in log.plans && log.plans[c.name].inspect.Some?
      && var service := ServiceLabel(InspectLabels(log.plans[c.name].inspect.value));
         && (service in Calls(log)[i].services <==>
               exists d :: d in sorted && Contributes(cfg, projects, plans, d, id, service))
         && (c.name in plans && plans[c.name].inspect.Some? ==> Contributes(cfg, projects, plans, c, id, service))
  {
    var id := ComposeTarget(cfg, projects, log.groups, log.plans, c).value;
    RouteIsGrouped(cfg, projects, log.groups, log.plans, c);
    var op :| op in log.compose && op.UpdateServices? && op.projectID == id;
    i :| 0 <= i < |log.compose| && log.compose[i] == op;
    ComposeAt(log, i);
    var processed := ComposeCall(cfg, log, i);
    forall j | 0 <= j < |Calls(log)| && Calls(log)[j].UpdateServices? && Calls(log)[j].projectID == id ensures j == i {
      var processed' := ComposeCall(cfg, log, j);
    }
    GroupServices(cfg, projects, plans, sorted, log.groups, id);
    if c.name in plans && plans[c.name].inspect.Some? {
      InspectedContributes(cfg, projects, plans, sorted, log.groups, c, id);
    }
    hide CallsFit, ComposeFits, ComposeTarget, Contributes, Calls, GroupsFit, NoDuplicates;
  }

  lemma ComposeAt(log: RunLog, i: nat)
    requires i < |log.compose|
    ensures i < |Calls(log)| && Calls(log)[i] == log.compose[i]
  {
    hide JoinBack, Join;
  }

  /** A candidate that was inspected before the groups were built and is routed through compose contributes
      its own service. */
  lemma InspectedContributes(cfg: UpdaterConfig, projects: map<string, string>, plans: map<Name, Plan>,
                             sorted: seq<ContainerWithDeps>, groups: Groups, c: ContainerWithDeps, id: string)
    requires GroupsFit(cfg, projects, plans, sorted, groups)
    requires ComposeTarget(cfg, projects, groups, plans, c) == Some(id)
    ensures Contributes(cfg, projects, plans, c, id, ServiceLabel(InspectLabels(plans[c.name].inspect.value)))
  {
    RouteIsGrouped(cfg, projects, groups, plans, c);
    assert GroupFits(cfg, projects, plans, sorted, groups, id);
    assert cfg.hasProjectUpdater by {
      if !cfg.hasProjectUpdater { NothingContributed(cfg, projects, plans, sorted, id); }
    }
    NoLabels();
    hide LabelText;
  }

  lemma NoLabels()
    ensures ProjectLabel(map[]) == ""
  {
  }

  /** The condition is needed: a container the scan could not inspect, but the dispatch can, is sent through
      the update of a project whose list lacks its service. */
  lemma UninspectedServiceIsMissed()
    returns (cfg: UpdaterConfig, projects: map<string, string>, before: map<Name, Plan>, after: map<Name, Plan>,
             cs: seq<ContainerWithDeps>)
    ensures |cs| == 2 && PlansInspected(before, after) && cs[1].name in after && after[cs[1].name].inspect.Some?
    ensures ServiceLabel(InspectLabels(after[cs[1].name].inspect.value)) == "db"
    ensures forall groups: Groups :: GroupsFit(cfg, projects, before, cs, groups) ==>
              && ComposeTarget(cfg, projects, groups, after, cs[1]) == Some("id")
              && "id" in groups && "db" !in groups["id"].services
  {
    var none := (l: Labels) => false;
    cfg := UpdaterConfig(LabelPolicy(none, none, none, none, none), "", true, false,
                         (s: string) => s, (s: string) => false, (l: Labels, s: string) => l);
    projects := map["a" := "id"];
    before := map["x" := ServicePlan("x", "a", "web"), "y" := ServicePlan("y", "a", "db").(inspect := None)];
    after := before["y" := ServicePlan("y", "a", "db")];
    cs := [NamedContainer("x"), NamedContainer("y")];
    SolidLabels("a", "web");
    SolidLabels("a", "db");
    assert ContributionOf(cfg, projects, before, cs[0]) == Some(Contribution("id", "a", "web"));
    assert ContributionOf(cfg, projects, before, cs[1]) == None;
    forall groups: Groups | GroupsFit(cfg, projects, before, cs, groups)
      ensures ComposeTarget(cfg, projects, groups, after, cs[1]) == Some("id")
      ensures "id" in groups && "db" !in groups["id"].services
    {
      var last := ContributorFindsGroup(cfg, projects, before, cs, groups, cs[0]);
      GroupServices(cfg, projects, before, cs, groups, "id");
      assert forall d :: d in cs ==> !Contributes(cfg, projects, before, d, "id", "db");
      hide ProjectLabel, ServiceLabel, GroupsFit, NoDuplicates;
    }
  }

  // ---------- Self-updates by container ID ----------

  /** Where a contributor goes, exactly: to the self-updater if it is the host's own container by ID, else
      through compose if the last contributor to its project gives the project the same name, else it
      is recreated. */
  lemma ContributorIsRouted(cfg: UpdaterConfig, projects: map<string, string>, plans: map<Name, Plan>,
                            cs: seq<ContainerWithDeps>, groups: Groups, c: ContainerWithDeps) returns (last: nat)
    requires GroupsFit(cfg, projects, plans, cs, groups) && c in cs
    requires ContributionOf(cfg, projects, plans, c).Some?
    ensures var k := ContributionOf(cfg, projects, plans, c).value;
      && IsLastContributor(cfg, projects, plans, cs, k.id, last)
      && var name := ContributionOf(cfg, projects, plans, cs[last]).value.projectName;
         && RouteOf(cfg, projects, groups, plans[c.name]) ==
              (if IsSelfByID(cfg, plans[c.name].cnt.id) then ViaSelfUpdate
               else if name == k.projectName then ViaCompose(k.id) else ViaRecreate)
         && (InjectiveProjects(projects) ==> name == k.projectName)
  {
    last := ContributorFindsGroup(cfg, projects, plans, cs, groups, c);
    hide ProjectLabel, ServiceLabel, GroupsFit, IsLastContributor, GroupOf;
  }

  /** Over a whole run: a contributor is left to the self-updater if and only if it is the host's own
      container by ID, and even then every update of its project lists its service; any other contributor
      has its project updated, unless a later contributor renamed the project. */
  lemma ContributorsInRun(cfg: UpdaterConfig, projects: map<string, string>, plans: map<Name, Plan>,
                          sorted: seq<ContainerWithDeps>, log: RunLog, results: seq<ResourceResult>, n: nat)
    returns (last: nat)
    requires GroupsFit(cfg, projects, plans, sorted, log.groups) && PlansInspected(plans, log.plans)
    requires AllFinished(cfg, projects, log, results) && CallsFit(cfg, log) && ComposeFits(cfg, projects, log)
    requires n < |log.handled| && log.handled[n] in sorted
    requires ContributionOf(cfg, projects, plans, log.handled[n]).Some?
    ensures var c, k := log.handled[n], ContributionOf(cfg, projects, plans, log.handled[n]).value;
      && IsLastContributor(cfg, projects, plans, sorted, k.id, last)
      && var name := ContributionOf(cfg, projects, plans, sorted[last]).value.projectName;
         && (InjectiveProjects(projects) ==> name == k.projectName)
         && log.kinds[n] == (if IsSelfByID(cfg, plans[c.name].cnt.id) then SelfUpdating
                             else if name == k.projectName then Settled else Standalone)
         && (log.kinds[n] == Settled ==> k.id in UpdatedProjects(Calls(log)))
    ensures var k := ContributionOf(cfg, projects, plans, log.handled[n]).value;
      forall i :: 0 <= i < |Calls(log)| && Calls(log)[i].UpdateServices? && Calls(log)[i].projectID == k.id ==>
        k.service in Calls(log)[i].services
  {
    var c, k := log.handled[n], ContributionOf(cfg, projects, plans, log.handled[n]).value;
    last := ContributorIsRouted(cfg, projects, plans, sorted, log.groups, c);
    assert c.name in plans && plans[c.name].inspect.Some?;
    KindFollowsRoute(cfg, projects, log, results, n);
    RouteIsGrouped(cfg, projects, log.groups, log.plans, c);
    assert log.plans[c.name] == plans[c.name];
    hide *;
    forall i | 0 <= i < |Calls(log)| && Calls(log)[i].UpdateServices? && Calls(log)[i].projectID == k.id
      ensures k.service in Calls(log)[i].services
    {
      ContributorIsListed(cfg, projects, plans, sorted, log, c, i);
    }
    if ComposeTarget(cfg, projects, log.groups, log.plans, c) == Some(k.id) {
      var i := ComposeCandidateIsServed(cfg, projects, plans, sorted, log, c);
      CallUpdates(log, i);
    }
    KindsOfRoutes(k.id);
  }

  lemma CallUpdates(log: RunLog, i: nat)
    requires i < |Calls(log)| && Calls(log)[i].UpdateServices?
    ensures Calls(log)[i].projectID in UpdatedProjects(Calls(log))
  {
    assert Calls(log)[i] in Calls(log);
  }

  lemma KindsOfRoutes(projectID: string)
    ensures KindOf(ViaSelfUpdate) == SelfUpdating && KindOf(ViaCompose(projectID)) == Settled
    ensures KindOf(ViaRecreate) == Standalone
  {
  }

  lemma ContributorIsListed(cfg: UpdaterConfig, projects: map<string, string>, plans: map<Name, Plan>,
                            sorted: seq<ContainerWithDeps>, log: RunLog, c: ContainerWithDeps, i: nat)
    requires GroupsFit(cfg, projects, plans, sorted, log.groups) && CallsFit(cfg, log) && c in sorted
    requires ContributionOf(cfg, projects, plans, c).Some? && i < |Calls(log)| && Calls(log)[i].UpdateServices?
    requires Calls(log)[i].projectID == ContributionOf(cfg, projects, plans, c).value.id
    ensures ContributionOf(cfg, projects, plans, c).value.service in Calls(log)[i].services
  {
    var processed := ComposeCall(cfg, log, i);
    var last := ContributorFindsGroup(cfg, projects, plans, sorted, log.groups, c);
    hide CallsFit, ContributionOf, IsLastContributor, GroupsFit, Calls, GroupOf;
  }

  /** A candidate's kind is the one its route calls for. */
  lemma KindFollowsRoute(cfg: UpdaterConfig, projects: map<string, string>, log: RunLog, results: seq<ResourceResult>,
                         n: nat)
    requires AllFinished(cfg, projects, log, results) && n < |log.handled|
    ensures log.handled[n].name in log.plans && |log.kinds| == |log.handled|
    ensures var plan := log.plans[log.handled[n].name];
      plan.inspect.Some? ==> log.kinds[n] == KindOf(RouteOf(cfg, projects, log.groups, plan))
  {
    var c := log.handled[n];
    assert Finished(cfg, projects, log.groups, c, log.plans[c.name], log.kinds[n], results[n]);
    hide RouteOf, UniqueNames;
  }

  /** The host's own container, known only by its ID, is left to the self-updater by the dispatch, yet its
      service is in the list its compose project is updated with. */
  lemma SelfByIDStillContributes() returns (cfg: UpdaterConfig, projects: map<string, string>, plans: map<Name, Plan>,
                                            c: ContainerWithDeps)
    ensures Contributes(cfg, projects, plans, c, "id", "web")
    ensures IsSelfUpdateCandidate(cfg, plans[c.name].cnt.id, InspectLabels(plans[c.name].inspect.value))
    ensures forall groups :: RouteOf(cfg, projects, groups, plans[c.name]).ViaSelfUpdate?
  {
    var none := (l: Labels) => false;
    cfg := UpdaterConfig(LabelPolicy(none, none, none, none, none), "x", true, false,
                         (s: string) => s, (s: string) => false, (l: Labels, s: string) => l);
    projects := map["a" := "id"];
    SolidLabels("a", "web");
    plans := map["web" := ServicePlan("x", "a", "web")];
    c := NamedContainer("web");
    TrimSpaceKeepsSolid("x");
  }
}
