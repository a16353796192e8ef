/**
 * The crab registry of crab.py's main loop: the crabs by pid, the colour
 * counter and the time of the last scan. Every `SCAN_INTERVAL` seconds a
 * scan result is reconciled into the registry (new pids get a crab in the
 * next colour, known pids keep theirs and have it updated, vanished pids
 * lose theirs); every frame each crab is stepped and kept on the screen.
 *
 * Screen size, clock readings and random draws are parameters; drawing
 * with curses and reading keys are not part of this model.
 */
module Registry {
  import opened Wrappers
  import opened Classifier
  import opened Scanner
  import opened Crab

  /** The draws made for the `i`-th scan result: a new crab's place and heading, and a heading on waking. */
  datatype SpawnDraws = SpawnDraws(x: Unit, y: Unit, angle: Unit, speed: Unit, wakeAngle: Unit, wakeSpeed: Unit)

  /** A crab state shows a scan result: active exactly above the CPU threshold, with its figures. */
  predicate ReflectsState(s: CrabState, info: ProcessInfo) {
    && s.active == (info.cpuPct > CpuThreshold)
    && s.cpuPct == info.cpuPct
    && s.cwd == info.cwd
    && s.branch == info.branch
  }

  /**
   * The pids of the scan results, collected result by result: the keys
   * the registry holds after reconciling `results`. This is `PidsOf`
   * written as a recursion on the last result, the shape the reconciliation
   * loop's invariants are proved in; `SeenPidsArePids` shows the two agree.
   */
  function SeenPids(results: seq<ProcessInfo>): set<int>
  {
    if results == [] then {}
    else SeenPids(results[..|results| - 1]) + {results[|results| - 1].pid}
  }

  /** Collecting the pids result by result gives the pid set of the results. */
  lemma {:induction false} SeenPidsArePids(results: seq<ProcessInfo>)
    ensures SeenPids(results) == PidsOf(results)
  {
    if results != [] {
      SeenPidsArePids(results[..|results| - 1]);
      PidsOfFront(results);
    }
  }

  /** The pids of a non-empty list are those of all but its last result, and the last one's. */
  lemma PidsOfFront(results: seq<ProcessInfo>)
    requires results != []
    ensures PidsOf(results) == PidsOf(results[..|results| - 1]) + {results[|results| - 1].pid}
  {
    var front := results[..|results| - 1];
    assert results == front + [results[|results| - 1]];
    PidsOfAppend(front, results[|results| - 1]);
  }

  /** The position of the last result for `pid`, the one whose figures a crab ends up with. */
  function LastIndex(results: seq<ProcessInfo>, pid: int): (j: nat)
    requires pid in SeenPids(results)
    ensures j < |results| && results[j].pid == pid
    ensures forall k | j < k < |results| :: results[k].pid != pid
  {
    var n := |results| - 1;
    if results[n].pid == pid then n
    else LastIndex(results[..n], pid)
  }

  /**
   * The pids of `results` that are not in `known`, each once, in the order
   * of their first result: the pids that get a new crab, in the order they
   * get their colours.
   */
  function NewPids(results: seq<ProcessInfo>, known: set<int>): seq<int>
  {
    if results == [] then []
    else
      var front := results[..|results| - 1];
      var pid := results[|results| - 1].pid;
      var before := NewPids(front, known);
      if pid in known || pid in SeenPids(front) then before else before + [pid]
  }

  /**
   * The new pids are the pids of the results that are not known, each
   * listed once.
   */
  lemma {:induction false} NewPidsExactlyOnce(results: seq<ProcessInfo>, known: set<int>)
    ensures var pids := NewPids(results, known);
      && (forall j | 0 <= j < |pids| :: pids[j] in SeenPids(results) && pids[j] !in known)
      && (forall j, k | 0 <= j < k < |pids| :: pids[j] != pids[k])
      && (forall p | p in SeenPids(results) && p !in known :: p in pids)
  {
    if results != [] {
      var front := results[..|results| - 1];
      var pid := results[|results| - 1].pid;
      NewPidsExactlyOnce(front, known);
      var before := NewPids(front, known);
      var pids := NewPids(results, known);
      if !(pid in known || pid in SeenPids(front)) {
        assert pids == before + [pid];
        assert pids[|before|] == pid;
        forall j | 0 <= j < |pids| ensures pids[j] in SeenPids(results) && pids[j] !in known {
          if j < |before| {
            assert pids[j] == before[j];
          }
        }
      }
    }
  }

  /**
   * What one more result changes in the specification of the
   * reconciliation: its pid joins the pid set and becomes the last result
   * for that pid, and other pids keep their last result.
   */
  lemma ReconcileStep(results: seq<ProcessInfo>, i: nat)
    requires i < |results|
    ensures SeenPids(results[..i + 1]) == SeenPids(results[..i]) + {results[i].pid}
    ensures LastIndex(results[..i + 1], results[i].pid) == i
    ensures forall p | p in SeenPids(results[..i]) && p != results[i].pid ::
      LastIndex(results[..i + 1], p) == LastIndex(results[..i], p)
  {
    assert results[..i + 1][..i] == results[..i];
  }

  /** One more result adds its pid to the new pids exactly when it is neither known nor seen before. */
  lemma NewPidsStep(results: seq<ProcessInfo>, i: nat, known: set<int>)
    requires i < |results|
    ensures NewPids(results[..i + 1], known) ==
      if results[i].pid in known || results[i].pid in SeenPids(results[..i]) then NewPids(results[..i], known)
      else NewPids(results[..i], known) + [results[i].pid]
  {
    assert results[..i + 1][..i] == results[..i];
  }

  /** The crabs of the pids `added` have the colours from the `first`-th on, in turn. */
  predicate Coloured(crabs: map<int, CrabEntity>, added: seq<int>, first: nat) {
    forall j | 0 <= j < |added| :: added[j] in crabs && crabs[added[j]].color == ColorFor(first + j)
  }

  /** Colours survive a change of the map that keeps the crabs of the pids `added`. */
  lemma ColouredKept(crabs: map<int, CrabEntity>, later: map<int, CrabEntity>, added: seq<int>, first: nat)
    requires Coloured(crabs, added, first)
    requires forall j | 0 <= j < |added| :: added[j] in later && later[added[j]] == crabs[added[j]]
    ensures Coloured(later, added, first)
  {
  }

  /** A crab in the next colour extends the coloured pids by its pid. */
  lemma ColouredAppend(crabs: map<int, CrabEntity>, added: seq<int>, pid: int, first: nat)
    requires Coloured(crabs, added, first)
    requires pid in crabs && crabs[pid].color == ColorFor(first + |added|)
    ensures Coloured(crabs, added + [pid], first)
  {
    var more := added + [pid];
    forall j | 0 <= j < |more| ensures more[j] in crabs && crabs[more[j]].color == ColorFor(first + j) {
      if j < |added| {
        assert more[j] == added[j];
      }
    }
  }

  /**
   * One step of the reconciliation loop keeps the colours in turn: when
   * the step keeps every crab and either adds no new pid or adds `pid`
   * with a crab in the next colour, the new pids still have the colours
   * from `first` on.
   */
  lemma ColouredStep(crabs: map<int, CrabEntity>, later: map<int, CrabEntity>,
                     before: seq<int>, after: seq<int>, pid: int, first: nat)
    requires Coloured(crabs, before, first)
    requires forall p | p in crabs :: p in later && later[p] == crabs[p]
    requires after == before || (after == before + [pid] && pid in later && later[pid].color == ColorFor(first + |before|))
    ensures Coloured(later, after, first)
  {
    forall j | 0 <= j < |before| ensures before[j] in later && later[before[j]] == crabs[before[j]] {
      var p := before[j];
      assert p in crabs;
      assert p in later && later[p] == crabs[p];
    }
    ColouredKept(crabs, later, before, first);
    if after != before {
      ColouredAppend(later, before, pid, first);
    }
  }

  /**
   * The colours after the `i`-th result of the reconciliation loop: if the
   * step keeps every crab and gives the crab of a pid not yet present the
   * colour `counter`, the new pids still have the colours in turn, and the
   * counter moves on exactly when the pid is new.
   */
  lemma ColouredNext(crabs: map<int, CrabEntity>, later: map<int, CrabEntity>,
                     results: seq<ProcessInfo>, i: nat, known: set<int>, first: nat, counter: nat)
    requires i < |results|
    requires crabs.Keys == known + SeenPids(results[..i])
    requires counter == first + |NewPids(results[..i], known)|
    requires Coloured(crabs, NewPids(results[..i], known), first)
    requires forall p | p in crabs :: p in later && later[p] == crabs[p]
    requires results[i].pid in later
    requires results[i].pid !in crabs ==> later[results[i].pid].color == ColorFor(counter)
    ensures Coloured(later, NewPids(results[..i + 1], known), first)
    ensures |NewPids(results[..i + 1], known)| == |NewPids(results[..i], known)| + if results[i].pid in crabs then 0 else 1
  {
    var pid := results[i].pid;
    var before := NewPids(results[..i], known);
    var after := NewPids(results[..i + 1], known);
    NewPidsStep(results, i, known);
    if pid in crabs {
      assert pid in known + SeenPids(results[..i]);
      assert after == before;
    } else {
      assert pid !in known + SeenPids(results[..i]);
      assert after == before + [pid];
    }
    ColouredStep(crabs, later, before, after, pid, first);
  }

  /** Every state of `states` selects existing frames. */
  predicate AllValid(states: map<int, CrabState>) {
    forall p | p in states :: ValidState(states[p])
  }

  /** The state of the crab of `pid` in `states`, if there is one. */
  function Prior(states: map<int, CrabState>, pid: int): Option<CrabState> {
    if pid in states then Some(states[pid]) else None
  }

  /**
   * `set_active` as the reconciliation block calls it for the scan result
   * `info`: the crab shows the result, keeps its place and counters, draws
   * a new velocity only on waking up and notes whether it fell asleep.
   */
  function Activate(s: CrabState, info: ProcessInfo, trig: Trig, draws: SpawnDraws): (r: CrabState)
    ensures ReflectsState(r, info) && PlaceKept(s, r) && (ValidState(s) ==> ValidState(r))
    ensures r.justSlept == (s.active && !r.active)
    ensures r.active && !s.active ==>
      (r.dx, r.dy) == Velocity(trig, RerollAngle(trig, draws.wakeAngle), RerollSpeed(draws.wakeSpeed))
    ensures !(r.active && !s.active) ==> r.dx == s.dx && r.dy == s.dy
  {
    SetActiveState(s, info.cpuPct > CpuThreshold, info.cpuPct, Some(info.cwd), Some(info.branch),
                   trig, draws.wakeAngle, draws.wakeSpeed)
  }

  /**
   * The state the body of the reconciliation loop leaves for the scan
   * result `info`: the known crab's state `prior`, or a crab spawned on the
   * `w` by `h` screen when there is none, activated for `info`.
   */
  function Admitted(prior: Option<CrabState>, info: ProcessInfo, w: int, h: int, trig: Trig, draws: SpawnDraws): (r: CrabState)
    ensures ReflectsState(r, info)
    ensures prior.Some? ==> PlaceKept(prior.value, r)
    ensures prior.None? ==> PlaceKept(SpawnState(w, h, trig, draws.x, draws.y, draws.angle, draws.speed), r) && !r.justSlept
    ensures (prior.Some? ==> ValidState(prior.value)) ==> ValidState(r)
  {
    Activate(prior.GetOr(SpawnState(w, h, trig, draws.x, draws.y, draws.angle, draws.speed)), info, trig, draws)
  }

  /**
   * The state of the crab of `pid` after the reconciliation loop has
   * admitted `results`, the `i`-th with the draws `draws(i)`, from the
   * state `prior`: each result for `pid` activates the crab for it, the
   * first one spawning the crab when there was none. A pid without results
   * keeps what it had.
   */
  function Reconciled(prior: Option<CrabState>, results: seq<ProcessInfo>, pid: int,
                      w: int, h: int, trig: Trig, draws: nat -> SpawnDraws): (r: Option<CrabState>)
    ensures r.Some? <==> prior.Some? || pid in SeenPids(results)
    ensures pid !in SeenPids(results) ==> r == prior
    ensures (prior.Some? ==> ValidState(prior.value)) && r.Some? ==> ValidState(r.value)
  {
    if results == [] then prior
    else
      var n := |results| - 1;
      var before := Reconciled(prior, results[..n], pid, w, h, trig, draws);
      if results[n].pid == pid then Some(Admitted(before, results[n], w, h, trig, draws(n))) else before
  }

  /**
   * The crab of a pid with results ends in the state the last of them
   * leaves: the reconciliation up to that result, activated for it.
   */
  lemma {:induction false} ReconciledLast(prior: Option<CrabState>, results: seq<ProcessInfo>, pid: int,
                                          w: int, h: int, trig: Trig, draws: nat -> SpawnDraws)
    requires pid in SeenPids(results)
    ensures var j := LastIndex(results, pid);
      Reconciled(prior, results, pid, w, h, trig, draws)
        == Some(Admitted(Reconciled(prior, results[..j], pid, w, h, trig, draws), results[j], w, h, trig, draws(j)))
  {
    var n := |results| - 1;
    if results[n].pid != pid {
      ReconciledLast(prior, results[..n], pid, w, h, trig, draws);
      var j := LastIndex(results, pid);
      assert results[..n][..j] == results[..j];
    }
  }

  /** The crab of a pid with results shows the last result for its pid. */
  lemma ReconciledReflects(prior: Option<CrabState>, results: seq<ProcessInfo>, pid: int,
                           w: int, h: int, trig: Trig, draws: nat -> SpawnDraws)
    requires pid in SeenPids(results)
    ensures ReflectsState(Reconciled(prior, results, pid, w, h, trig, draws).value, results[LastIndex(results, pid)])
  {
    ReconciledLast(prior, results, pid, w, h, trig, draws);
  }

  /** A known crab keeps its place, counters and screen size through the reconciliation. */
  lemma {:induction false} ReconciledPlaceKept(prior: Option<CrabState>, results: seq<ProcessInfo>, pid: int,
                                               w: int, h: int, trig: Trig, draws: nat -> SpawnDraws)
    requires prior.Some?
    ensures PlaceKept(prior.value, Reconciled(prior, results, pid, w, h, trig, draws).value)
  {
    if results != [] {
      ReconciledPlaceKept(prior, results[..|results| - 1], pid, w, h, trig, draws);
    }
  }

  /**
   * A pid with exactly one result, the `j`-th, ends in the state that
   * result leaves from `prior`: a known crab activated for it, or a new
   * crab spawned with the draws `draws(j)` and activated.
   */
  lemma ReconciledOnce(prior: Option<CrabState>, results: seq<ProcessInfo>, pid: int, j: nat,
                       w: int, h: int, trig: Trig, draws: nat -> SpawnDraws)
    requires j < |results| && results[j].pid == pid
    requires forall k | 0 <= k < |results| && k != j :: results[k].pid != pid
    ensures Reconciled(prior, results, pid, w, h, trig, draws) == Some(Admitted(prior, results[j], w, h, trig, draws(j)))
  {
    SeenPidsArePids(results);
    SeenPidsArePids(results[..j]);
    ReconciledLast(prior, results, pid, w, h, trig, draws);
  }

  /**
   * One more result in the reconciliation of a pid: a result for the pid
   * activates its crab (spawning it if there is none yet); a result for
   * another pid leaves it as it was.
   */
  lemma ReconciledStep(prior: Option<CrabState>, results: seq<ProcessInfo>, i: nat, pid: int,
                       w: int, h: int, trig: Trig, draws: nat -> SpawnDraws)
    requires i < |results|
    ensures Reconciled(prior, results[..i + 1], pid, w, h, trig, draws)
         == if results[i].pid == pid
            then Some(Admitted(Reconciled(prior, results[..i], pid, w, h, trig, draws), results[i], w, h, trig, draws(i)))
            else Reconciled(prior, results[..i], pid, w, h, trig, draws)
  {
    assert results[..i + 1][..i] == results[..i];
  }

  /** A frame's step of the crab state `s`, if there is one. */
  function Stepped(s: Option<CrabState>, w: int, h: int, trig: Trig, draws: WalkDraws): Option<CrabState> {
    if s.Some? && ValidState(s.value) then Some(StepState(s.value, w, h, trig, draws)) else s
  }

  /** Both states show the same activity, CPU figure, directory and branch. */
  predicate SameFigures(before: CrabState, after: CrabState) {
    && after.active == before.active && after.cpuPct == before.cpuPct
    && after.cwd == before.cwd && after.branch == before.branch
  }

  /** Each crab of `crabs` is filed under its own pid (so different pids hold different crabs). */
  predicate PidKeyed(crabs: map<int, CrabEntity>) {
    forall p | p in crabs :: crabs[p].pid == p
  }

  /** `crabs` holds each crab under its own pid, and every crab is well formed. */
  predicate WellKeyed(crabs: map<int, CrabEntity>)
    reads crabs.Values
  {
    PidKeyed(crabs) && forall p | p in crabs :: crabs[p].Valid()
  }

  /**
   * A crab after its part of a frame: on a `w` by `h` screen, with its
   * position inside the bounds `update_bounds` keeps (left and top always,
   * right and bottom whenever the screen leaves room for them).
   */
  predicate Placed(crab: CrabEntity, w: int, h: int)
    reads crab
  {
    PlacedState(crab.State(), w, h)
  }

  /**
   * One crab's part of a frame of `_main`: `update`, then `update_bounds`
   * to the screen size; the crab keeps its figures, is one tick further
   * and lies inside the screen.
   */
  method StepCrab(crab: CrabEntity, w: int, h: int, trig: Trig, draws: WalkDraws)
    requires crab.Valid()
    modifies crab
    ensures crab.State() == StepState(old(crab.State()), w, h, trig, draws)
    ensures crab.tick == old(crab.tick) + 1 && SameFigures(old(crab.State()), crab.State())
    ensures Placed(crab, w, h)
  {
    ghost var before := crab.State();
    crab.Update(trig, draws);
    crab.UpdateBounds(w, h);
    StepStateFacts(before, w, h, trig, draws);
  }

  /** Each pid of `pids` occurs once: the last is not among the others, which are distinct too. */
  predicate Distinct(pids: seq<int>) {
    pids == [] || (pids[|pids| - 1] !in pids[..|pids| - 1] && Distinct(pids[..|pids| - 1]))
  }

  /** Two positions of a list of distinct pids hold different pids. */
  lemma {:induction false} DistinctAt(pids: seq<int>, i: nat, j: nat)
    requires Distinct(pids) && i < |pids| && j < |pids| && i != j
    ensures pids[i] != pids[j]
  {
    var front := pids[..|pids| - 1];
    if i < |front| && j < |front| {
      DistinctAt(front, i, j);
    } else if i < |front| {
      assert pids[i] == front[i];
    } else {
      assert pids[j] == front[j];
    }
  }

  /**
   * The pids of `keys`, each once, in the order the loop over the crabs
   * visits them (the order of a dict's values is not part of this model).
   */
  method PidOrder(keys: set<int>) returns (order: seq<int>)
    ensures Distinct(order) && |order| == |keys|
    ensures forall p :: p in order <==> p in keys
    ensures forall i | 0 <= i < |order| :: order[i] in keys
  {
    order := [];
    var todo := keys;
    while todo != {}
      invariant todo <= keys && Distinct(order) && |order| + |todo| == |keys|
      invariant forall p :: p in order <==> p in keys && p !in todo
      decreases |todo|
    {
      assert exists q :: q in todo by {
        if forall q :: q !in todo {
          assert false;
        }
      }
      var pid :| pid in todo;
      assert (order + [pid])[..|order|] == order;
      order := order + [pid];
      todo := todo - {pid};
    }
  }

  /** How many of `pids` have an active state in `states`. */
  function ActiveCount(states: map<int, CrabState>, pids: seq<int>): (n: nat)
    requires forall p | p in pids :: p in states
    ensures n <= |pids|
  {
    if pids == [] then 0
    else
      var last := pids[|pids| - 1];
      assert last in pids;
      ActiveCount(states, pids[..|pids| - 1]) + (if states[last].active then 1 else 0)
  }

  /** Counting the active states of distinct pids one by one counts the set of the active ones. */
  lemma {:induction false} ActiveCountCard(states: map<int, CrabState>, pids: seq<int>)
    requires forall p | p in pids :: p in states
    requires Distinct(pids)
    ensures ActiveCount(states, pids) == |set p | p in pids && states[p].active|
  {
    if pids != [] {
      var front, last := pids[..|pids| - 1], pids[|pids| - 1];
      assert Distinct(front);
      ActiveCountCard(states, front);
      assert last !in front;
      var before := set p | p in front && states[p].active;
      var after := set p | p in pids && states[p].active;
      assert pids == front + [last];
      if states[last].active {
        assert after == before + {last};
      } else {
        assert after == before;
      }
    }
  }

  /**
   * The loop over the crabs of a frame after the first `k` pids of `order`,
   * from the states `states`: those crabs have taken their step with the
   * draws `walk(pid)`, the others are as they were, no activity flag
   * changed, and the counts are those of the stepped crabs.
   */
  predicate SteppedUpTo(crabs: map<int, CrabEntity>, order: seq<int>, k: nat,
                        states: map<int, CrabState>,
                        activeCount: nat, idleCount: nat, w: int, h: int, trig: Trig, walk: int -> WalkDraws)
    reads crabs.Values
  {
    && k <= |order|
    && (forall i | 0 <= i < |order| ::
          && order[i] in crabs && order[i] in states && ValidState(states[order[i]])
          && crabs[order[i]].Valid() && crabs[order[i]].active == states[order[i]].active)
    && activeCount == ActiveCount(states, order[..k]) && activeCount + idleCount == k
    && (forall i | 0 <= i < k :: crabs[order[i]].State() == StepState(states[order[i]], w, h, trig, walk(order[i])))
    && (forall i | k <= i < |order| :: crabs[order[i]].State() == states[order[i]])
  }

  /**
   * The body of the loop over the crabs: the crab of the `k`-th pid takes
   * its step with the draws `walk(pid)` and is counted.
   */
  method StepAt(crabs: map<int, CrabEntity>, order: seq<int>, k: nat, w: int, h: int, trig: Trig, walk: int -> WalkDraws,
                ghost states: map<int, CrabState>, activeCount: nat, idleCount: nat)
    returns (activeCount': nat, idleCount': nat)
    requires k < |order| && PidKeyed(crabs) && Distinct(order)
    requires SteppedUpTo(crabs, order, k, states, activeCount, idleCount, w, h, trig, walk)
    modifies crabs[order[k]]
    ensures SteppedUpTo(crabs, order, k + 1, states, activeCount', idleCount', w, h, trig, walk)
  {
    var crab := crabs[order[k]];
    assert forall i | 0 <= i < |order| && i != k :: crabs[order[i]] != crab by {
      forall i | 0 <= i < |order| && i != k ensures crabs[order[i]] != crab {
        DistinctAt(order, i, k);
        assert crabs[order[i]].pid == order[i];
      }
    }
    StepCrab(crab, w, h, trig, walk(order[k]));
    activeCount', idleCount' := activeCount, idleCount;
    if crab.active {
      activeCount' := activeCount + 1;
    } else {
      idleCount' := idleCount + 1;
    }
    assert order[..k + 1] == order[..k] + [order[k]];
  }

  /** The loop over the crabs of a frame: every crab of `order` takes its step and is counted. */
  method StepAll(crabs: map<int, CrabEntity>, order: seq<int>, w: int, h: int, trig: Trig, walk: int -> WalkDraws,
                 ghost states: map<int, CrabState>)
    returns (activeCount: nat, idleCount: nat)
    requires PidKeyed(crabs) && Distinct(order)
    requires SteppedUpTo(crabs, order, 0, states, 0, 0, w, h, trig, walk)
    modifies crabs.Values
    ensures SteppedUpTo(crabs, order, |order|, states, activeCount, idleCount, w, h, trig, walk)
  {
    activeCount, idleCount := 0, 0;
    for k := 0 to |order|
      invariant SteppedUpTo(crabs, order, k, states, activeCount, idleCount, w, h, trig, walk)
    {
      activeCount, idleCount := StepAt(crabs, order, k, w, h, trig, walk, states, activeCount, idleCount);
    }
  }

  /**
   * Before the loop over `order`, which holds the pids of the crabs, no
   * crab has stepped yet.
   */
  lemma SteppedNone(crabs: map<int, CrabEntity>, order: seq<int>, states: map<int, CrabState>,
                    w: int, h: int, trig: Trig, walk: int -> WalkDraws)
    requires WellKeyed(crabs) && Mirrors(crabs, states) && AllValid(states)
    requires forall i | 0 <= i < |order| :: order[i] in crabs
    ensures SteppedUpTo(crabs, order, 0, states, 0, 0, w, h, trig, walk)
  {
    forall i | 0 <= i < |order|
      ensures order[i] in states && crabs[order[i]].State() == states[order[i]]
      ensures crabs[order[i]].Valid() && ValidState(states[order[i]])
    {
      var p := order[i];
      assert p in crabs && crabs[p].State() == states[p];
    }
    assert order[..0] == [];
  }

  /**
   * After the loop over `order` has stepped every crab towards its step
   * from `states`, the crabs' states `after` are those steps, and the
   * count is that of the active crabs.
   */
  lemma SteppedAll(crabs: map<int, CrabEntity>, order: seq<int>, states: map<int, CrabState>,
                   activeCount: nat, idleCount: nat, w: int, h: int, trig: Trig, walk: int -> WalkDraws)
    returns (after: map<int, CrabState>)
    requires PidKeyed(crabs) && crabs.Keys == states.Keys
    requires forall p :: p in order <==> p in crabs
    requires SteppedUpTo(crabs, order, |order|, states, activeCount, idleCount, w, h, trig, walk)
    ensures WellKeyed(crabs) && Mirrors(crabs, after) && after.Keys == states.Keys
    ensures forall p | p in after :: after[p] == StepState(states[p], w, h, trig, walk(p))
    ensures activeCount + idleCount == |order|
    ensures activeCount == ActiveCount(states, order)
  {
    after := map p | p in crabs :: crabs[p].State();
    forall p | p in crabs
      ensures crabs[p].Valid() && after[p] == StepState(states[p], w, h, trig, walk(p))
    {
      var i :| 0 <= i < |order| && order[i] == p;
    }
    assert order[..|order|] == order;
  }

  /** Every crab state of `states` after its part of a frame. */
  function SteppedMap(states: map<int, CrabState>, w: int, h: int, trig: Trig, walk: int -> WalkDraws): map<int, CrabState>
    requires AllValid(states)
  {
    map p | p in states :: StepState(states[p], w, h, trig, walk(p))
  }

  /** A map with the keys of `states` holding each state after its step is `SteppedMap(states)`. */
  lemma SteppedMapIs(states: map<int, CrabState>, after: map<int, CrabState>, w: int, h: int, trig: Trig, walk: int -> WalkDraws)
    requires AllValid(states) && after.Keys == states.Keys
    requires forall p | p in after :: after[p] == StepState(states[p], w, h, trig, walk(p))
    ensures after == SteppedMap(states, w, h, trig, walk)
  {
    var stepped := SteppedMap(states, w, h, trig, walk);
    assert after.Keys == stepped.Keys;
    forall p | p in after ensures after[p] == stepped[p] {
    }
  }

  /** Counting the active states along a list of all the pids, each once, counts the active states. */
  lemma ActiveCountAll(states: map<int, CrabState>, order: seq<int>)
    requires Distinct(order) && forall p :: p in order <==> p in states
    ensures |order| == |states|
    ensures ActiveCount(states, order) == |set p | p in states && states[p].active|
  {
    ActiveCountCard(states, order);
    var inOrder, inStates := set p | p in order && states[p].active, set p | p in states && states[p].active;
    forall p ensures p in inOrder <==> p in inStates {
      assert p in order <==> p in states;
    }
    assert inOrder == inStates;
    DistinctCard(order);
    forall p ensures p in (set q | q in order) <==> p in states.Keys {
      assert p in order <==> p in states;
    }
    assert (set q | q in order) == states.Keys;
  }

  /** A list of distinct pids has as many entries as it has pids. */
  lemma {:induction false} DistinctCard(pids: seq<int>)
    requires Distinct(pids)
    ensures |set p | p in pids| == |pids|
  {
    if pids != [] {
      var front, last := pids[..|pids| - 1], pids[|pids| - 1];
      assert Distinct(front);
      DistinctCard(front);
      assert pids == front + [last];
      assert last !in front;
      assert (set p | p in pids) == (set p | p in front) + {last};
    }
  }

  /**
   * A step of every state of `states` gives well-formed states inside the
   * screen with the same figures, so as many of them are active.
   */
  lemma SteppedFacts(states: map<int, CrabState>, after: map<int, CrabState>,
                     w: int, h: int, trig: Trig, walk: int -> WalkDraws)
    requires AllValid(states) && after.Keys == states.Keys
    requires forall p | p in after :: after[p] == StepState(states[p], w, h, trig, walk(p))
    ensures AllValid(after)
    ensures forall p | p in after :: PlacedState(after[p], w, h) && SameFigures(states[p], after[p])
    ensures |set p | p in after && after[p].active| == |set p | p in states && states[p].active|
  {
    forall p | p in after
      ensures PlacedState(after[p], w, h) && SameFigures(states[p], after[p])
    {
      StepStateFacts(states[p], w, h, trig, walk(p));
    }
    assert (set p | p in after && after[p].active) == set p | p in states && states[p].active;
  }

  /**
   * The states of the crabs after the purge of the reconciliation block:
   * the crabs of the results' pids are kept as they were admitted, so
   * their states are the reconciliations of the results, show the last
   * result for their pid and keep a known crab's place and counters.
   */
  /** The state of each pid of `results` once they are reconciled from the states `states0`. */
  ghost function ReconciledStates(states0: map<int, CrabState>, results: seq<ProcessInfo>,
                                  w: int, h: int, trig: Trig, draws: nat -> SpawnDraws): map<int, CrabState>
  {
    map p | p in SeenPids(results) :: Reconciled(Prior(states0, p), results, p, w, h, trig, draws).value
  }

  /**
   * The reconciled states are well formed, each shows the last result for
   * its pid, and a pid that had a state keeps its place and counters.
   */
  lemma ReconciledStatesFacts(states0: map<int, CrabState>, results: seq<ProcessInfo>,
                              w: int, h: int, trig: Trig, draws: nat -> SpawnDraws)
    requires AllValid(states0)
    ensures var after := ReconciledStates(states0, results, w, h, trig, draws);
      && AllValid(after)
      && (forall p | p in after :: ReflectsState(after[p], results[LastIndex(results, p)]))
      && (forall p | p in after && p in states0 :: PlaceKept(states0[p], after[p]))
  {
    var after := ReconciledStates(states0, results, w, h, trig, draws);
    forall p | p in after
      ensures ValidState(after[p])
      ensures ReflectsState(after[p], results[LastIndex(results, p)])
      ensures p in states0 ==> PlaceKept(states0[p], after[p])
    {
      ReconciledReflects(Prior(states0, p), results, p, w, h, trig, draws);
      if p in states0 {
        ReconciledPlaceKept(Prior(states0, p), results, p, w, h, trig, draws);
      }
    }
  }

  /**
   * Purging the crabs `admitted`, each in its reconciled state, down to the
   * pids of the results leaves the crabs in exactly the reconciled states.
   */
  lemma PurgedStates(admitted: map<int, CrabEntity>, crabs: map<int, CrabEntity>, keys0: set<int>,
                     states0: map<int, CrabState>, results: seq<ProcessInfo>,
                     w: int, h: int, trig: Trig, draws: nat -> SpawnDraws)
    requires WellKeyed(admitted) && states0.Keys == keys0
    requires admitted.Keys == keys0 + SeenPids(results)
    requires forall p | p in admitted ::
      Some(admitted[p].State()) == Reconciled(Prior(states0, p), results, p, w, h, trig, draws)
    requires crabs == map p | p in admitted && p in SeenPids(results) :: admitted[p]
    ensures WellKeyed(crabs) && Mirrors(crabs, ReconciledStates(states0, results, w, h, trig, draws))
    ensures crabs.Keys == SeenPids(results)
    ensures forall p | p in crabs :: crabs[p] == admitted[p]
  {
  }

  /** `states` holds the state of each crab of `crabs`, under the same pids. */
  ghost predicate Mirrors(crabs: map<int, CrabEntity>, states: map<int, CrabState>)
    reads crabs.Values
  {
    crabs.Keys == states.Keys && forall p | p in crabs :: crabs[p].State() == states[p]
  }

  /** The registry of `_main`: the scanner, the crabs by pid, the colour counter and the time of the last scan. */
  class CrabRegistry {
    const scanner: ProcessScanner
    var crabs: map<int, CrabEntity>
    var nextColor: nat
    var lastScan: real
    /** The state of the crab of each pid. */
    ghost var states: map<int, CrabState>

    /** The crabs are filed under their own pids and well formed, and `states` holds their states. */
    ghost predicate Valid()
      reads this, crabs.Values
    {
      Sound() && Mirrors(crabs, states) && AllValid(states)
    }

    /** The crabs are filed under their own pids and well formed; `states` may lag behind them. */
    predicate Sound()
      reads this, crabs.Values
    {
      scanner.Valid() && WellKeyed(crabs)
    }

    /** The state of the crab of `pid`, if the registry holds one. */
    function StateOf(pid: int): (r: Option<CrabState>)
      reads this, crabs.Values
      ensures r.Some? <==> pid in crabs
      ensures r.Some? ==> r.value == crabs[pid].State()
    {
      if pid in crabs then Some(crabs[pid].State()) else None
    }

    /** The state `_main` starts from: a new scanner, no crabs, colour 0, no scan yet. */
    constructor(ownPid: int, clkTck: nat)
      requires clkTck > 0
      ensures Valid()
      ensures fresh(scanner) && scanner.ownPid == ownPid && scanner.clkTck == clkTck && scanner.prevSamples == map[]
      ensures crabs == map[] && states == map[] && nextColor == 0 && lastScan == 0.0
    {
      scanner := new ProcessScanner(ownPid, clkTck);
      crabs := map[];
      states := map[];
      nextColor := 0;
      lastScan := 0.0;
    }

    /**
     * The body of the reconciliation loop for one result: the crab of a
     * known pid is activated for it, a new pid gets a new crab in the next
     * colour, which is then activated the same way; no other crab changes.
     */
    method Admit(info: ProcessInfo, w: int, h: int, trig: Trig, draws: SpawnDraws)
      requires Sound()
      modifies this`crabs, this`nextColor, if info.pid in crabs then {crabs[info.pid]} else {}
      ensures Sound()
      ensures crabs.Keys == old(crabs).Keys + {info.pid}
      ensures forall p | p in old(crabs) :: crabs[p] == old(crabs)[p]
      ensures crabs[info.pid].State() == Admitted(old(StateOf(info.pid)), info, w, h, trig, draws)
      ensures forall p | p in old(crabs) && p != info.pid :: crabs[p].State() == old(crabs[p].State())
      ensures info.pid in old(crabs) ==> nextColor == old(nextColor)
      ensures info.pid !in old(crabs) ==>
        && fresh(crabs[info.pid])
        && nextColor == old(nextColor) + 1
        && crabs[info.pid].color == ColorFor(old(nextColor))
        && crabs[info.pid].kind == info.kind
    {
      var isActive := info.cpuPct > CpuThreshold;
      if info.pid in crabs {
        var crab := crabs[info.pid];
        assert forall p | p in crabs && p != info.pid :: crabs[p] != crab by {
          forall p | p in crabs && p != info.pid ensures crabs[p] != crab {
            assert crabs[p].pid == p;
          }
        }
        crab.SetActive(isActive, info.cpuPct, Some(info.cwd), Some(info.branch),
                       trig, draws.wakeAngle, draws.wakeSpeed);
      } else {
        var color := ColorFor(nextColor);
        nextColor := nextColor + 1;
        var crab := new CrabEntity(info.pid, info.kind, color, w, h, trig, draws.x, draws.y, draws.angle, draws.speed);
        crab.SetActive(isActive, info.cpuPct, Some(info.cwd), Some(info.branch),
                       trig, draws.wakeAngle, draws.wakeSpeed);
        crabs := crabs[info.pid := crab];
      }
    }

    /**
     * The reconciliation block of `_main` for one scan result, the `i`-th
     * result taking its draws from `draws(i)`: afterwards the registry
     * holds exactly the pids of the results, a known pid keeps its crab, a
     * new pid gets a fresh crab in the next colour, each crab's state is the
     * reconciliation of the results for its pid, and each crab shows the
     * last result for its pid; a known crab keeps its place and counters.
     */
    method Reconcile(results: seq<ProcessInfo>, w: int, h: int, trig: Trig, draws: nat -> SpawnDraws)
      requires Valid()
      modifies this`crabs, this`nextColor, this`states, crabs.Values
      ensures Valid()
      ensures lastScan == old(lastScan) && scanner.prevSamples == old(scanner.prevSamples)
      ensures crabs.Keys == SeenPids(results) == PidsOf(results)
      ensures forall p | p in crabs && p in old(crabs) :: crabs[p] == old(crabs)[p]
      ensures forall p | p in crabs && p !in old(crabs) :: fresh(crabs[p])
      ensures forall p | p in states :: Some(states[p]) == Reconciled(Prior(old(states), p), results, p, w, h, trig, draws)
      ensures forall p | p in states :: ReflectsState(states[p], results[LastIndex(results, p)])
      ensures forall p | p in states && p in old(states) :: PlaceKept(old(states)[p], states[p])
      ensures nextColor == old(nextColor) + |NewPids(results, old(crabs).Keys)|
      ensures Coloured(crabs, NewPids(results, old(crabs).Keys), old(nextColor))
    {
      ghost var states0 := states;
      states := ReconciledStates(states0, results, w, h, trig, draws);
      ReconcileCrabs(results, w, h, trig, draws, states0);
      ReconciledStatesFacts(states0, results, w, h, trig, draws);
    }

    /**
     * The reconciliation block on the crabs alone, from the crabs in the
     * states `states0`: afterwards each crab is in its reconciled state.
     */
    method ReconcileCrabs(results: seq<ProcessInfo>, w: int, h: int, trig: Trig, draws: nat -> SpawnDraws,
                          ghost states0: map<int, CrabState>)
      requires Sound() && Mirrors(crabs, states0)
      modifies this`crabs, this`nextColor, crabs.Values
      ensures Sound() && Mirrors(crabs, ReconciledStates(states0, results, w, h, trig, draws))
      ensures crabs.Keys == SeenPids(results) == PidsOf(results)
      ensures forall p | p in crabs && p in old(crabs) :: crabs[p] == old(crabs)[p]
      ensures forall p | p in crabs && p !in old(crabs) :: fresh(crabs[p])
      ensures nextColor == old(nextColor) + |NewPids(results, old(crabs).Keys)|
      ensures Coloured(crabs, NewPids(results, old(crabs).Keys), old(nextColor))
    {
      NewPidsExactlyOnce(results, crabs.Keys);
      AdmitResults(results, w, h, trig, draws, states0);
      assert results[..|results|] == results;
      ghost var admitted := crabs;
      SeenPidsArePids(results);
      Purge(SeenPids(results));
      PurgedStates(admitted, crabs, old(crabs).Keys, states0, results, w, h, trig, draws);
      ghost var added := NewPids(results, old(crabs).Keys);
      forall j | 0 <= j < |added| ensures added[j] in crabs && crabs[added[j]] == admitted[added[j]] {
        assert added[j] in SeenPids(results);
      }
      ColouredKept(admitted, crabs, added, old(nextColor));
    }

    /**
     * The reconciliation of the first `n` results, starting from the crabs
     * `crabs0` in the states `states0` and the colour counter `color0`:
     * every pid seen has a crab, the crabs from before are kept, each
     * crab's state is the reconciliation of those results for its pid, and
     * the new pids got the next colours in turn.
     */
    ghost predicate Progress(results: seq<ProcessInfo>, n: nat, crabs0: map<int, CrabEntity>, states0: map<int, CrabState>,
                             color0: nat, w: int, h: int, trig: Trig, draws: nat -> SpawnDraws)
      requires n <= |results|
      reads this, crabs.Values
    {
      && crabs.Keys == crabs0.Keys + SeenPids(results[..n])
      && states0.Keys == crabs0.Keys
      && (forall p | p in crabs0 :: crabs[p] == crabs0[p])
      && (forall p | p in crabs :: Some(crabs[p].State()) == Reconciled(Prior(states0, p), results[..n], p, w, h, trig, draws))
      && nextColor == color0 + |NewPids(results[..n], crabs0.Keys)|
      && Coloured(crabs, NewPids(results[..n], crabs0.Keys), color0)
    }

    /** The body of the loop over the results: admitting the `i`-th result extends the progress by one result. */
    method AdmitNext(results: seq<ProcessInfo>, i: nat, w: int, h: int, trig: Trig, draws: nat -> SpawnDraws,
                     ghost crabs0: map<int, CrabEntity>, ghost states0: map<int, CrabState>, ghost color0: nat)
      requires i < |results|
      requires Sound() && Progress(results, i, crabs0, states0, color0, w, h, trig, draws)
      modifies this`crabs, this`nextColor, if results[i].pid in crabs then {crabs[results[i].pid]} else {}
      ensures Sound() && Progress(results, i + 1, crabs0, states0, color0, w, h, trig, draws)
      ensures forall p | p in old(crabs) :: p in crabs && crabs[p] == old(crabs)[p]
      ensures forall p | p in crabs && p !in old(crabs) :: fresh(crabs[p])
    {
      ghost var mid, midColor := crabs, nextColor;
      var pid := results[i].pid;
      assert StateOf(pid) == Reconciled(Prior(states0, pid), results[..i], pid, w, h, trig, draws);
      Admit(results[i], w, h, trig, draws(i));
      AdmitProgress(results, i, crabs0, states0, color0, mid, midColor, w, h, trig, draws);
    }

    /**
     * The progress after admitting the `i`-th result into the crabs `mid`
     * with the colour counter at `midColor`, given the progress before it.
     */
    lemma AdmitProgress(results: seq<ProcessInfo>, i: nat, crabs0: map<int, CrabEntity>, states0: map<int, CrabState>, color0: nat,
                        mid: map<int, CrabEntity>, midColor: nat, w: int, h: int, trig: Trig, draws: nat -> SpawnDraws)
      requires i < |results|
      requires mid.Keys == crabs0.Keys + SeenPids(results[..i]) && states0.Keys == crabs0.Keys
      requires forall p | p in crabs0 :: mid[p] == crabs0[p]
      requires midColor == color0 + |NewPids(results[..i], crabs0.Keys)|
      requires Coloured(mid, NewPids(results[..i], crabs0.Keys), color0)
      requires crabs.Keys == mid.Keys + {results[i].pid}
      requires forall p | p in mid :: crabs[p] == mid[p]
      requires forall p | p in crabs ::
        Some(crabs[p].State()) == (if p == results[i].pid
          then Some(Admitted(Reconciled(Prior(states0, p), results[..i], p, w, h, trig, draws), results[i], w, h, trig, draws(i)))
          else Reconciled(Prior(states0, p), results[..i], p, w, h, trig, draws))
      requires results[i].pid in mid ==> nextColor == midColor
      requires results[i].pid !in mid ==> nextColor == midColor + 1 && crabs[results[i].pid].color == ColorFor(midColor)
      ensures Progress(results, i + 1, crabs0, states0, color0, w, h, trig, draws)
    {
      ReconcileStep(results, i);
      forall p | p in crabs
        ensures Some(crabs[p].State()) == Reconciled(Prior(states0, p), results[..i + 1], p, w, h, trig, draws)
      {
        ReconciledStep(Prior(states0, p), results, i, p, w, h, trig, draws);
      }
      ColouredNext(mid, crabs, results, i, crabs0.Keys, color0, midColor);
    }

    /** The loop over the results in the reconciliation block, before the purge. */
    method AdmitResults(results: seq<ProcessInfo>, w: int, h: int, trig: Trig, draws: nat -> SpawnDraws, ghost states0: map<int, CrabState>)
      requires Sound() && Mirrors(crabs, states0)
      modifies this`crabs, this`nextColor, crabs.Values
      ensures Sound()
      ensures Progress(results, |results|, old(crabs), states0, old(nextColor), w, h, trig, draws)
      ensures forall p | p in crabs && p !in old(crabs) :: fresh(crabs[p])
    {
      assert results[..0] == [];
      var i := 0;
      while i < |results|
        invariant 0 <= i <= |results|
        invariant Sound() && Progress(results, i, old(crabs), states0, old(nextColor), w, h, trig, draws)
        invariant forall p | p in crabs && p !in old(crabs) :: fresh(crabs[p])
      {
        AdmitNext(results, i, w, h, trig, draws, old(crabs), states0, old(nextColor));
        i := i + 1;
      }
    }

    /** The purge loop of the reconciliation block: the crabs of pids outside `keep` are dropped. */
    method Purge(keep: set<int>)
      requires Sound()
      modifies this`crabs
      ensures Sound()
      ensures crabs == map p | p in old(crabs) && p in keep :: old(crabs)[p]
    {
      var unpurged := crabs;
      var keys := crabs.Keys;
      while keys != {}
        invariant keys <= unpurged.Keys
        invariant crabs == map p | p in unpurged && (p in keep || p in keys) :: unpurged[p]
        decreases |keys|
      {
        assert exists q :: q in keys by {
          if forall q :: q !in keys {
            assert false;
          }
        }
        var pid :| pid in keys;
        if pid !in keep {
          crabs := crabs - {pid};
        }
        keys := keys - {pid};
      }
    }

    /**
     * The per-frame loop of `_main` over the crabs: each crab takes its
     * step with the draws `walk(pid)` and is placed on the `w` by `h`
     * screen; the counts of active and idle crabs are returned for the
     * header.
     */
    method Tick(w: int, h: int, trig: Trig, walk: int -> WalkDraws) returns (activeCount: nat, idleCount: nat)
      requires Valid()
      modifies this`states, crabs.Values
      ensures Valid()
      ensures crabs == old(crabs) && nextColor == old(nextColor) && lastScan == old(lastScan)
      ensures states.Keys == old(states).Keys
      ensures forall p | p in states :: states[p] == StepState(old(states)[p], w, h, trig, walk(p))
      ensures forall p | p in states :: PlacedState(states[p], w, h) && SameFigures(old(states)[p], states[p])
      ensures activeCount + idleCount == |states|
      ensures activeCount == |set p | p in states && states[p].active|
    {
      ghost var before := states;
      states := SteppedMap(before, w, h, trig, walk);
      var order := PidOrder(crabs.Keys);
      SteppedNone(crabs, order, before, w, h, trig, walk);
      activeCount, idleCount := StepAll(crabs, order, w, h, trig, walk, before);
      ghost var after := SteppedAll(crabs, order, before, activeCount, idleCount, w, h, trig, walk);
      SteppedMapIs(before, after, w, h, trig, walk);
      ActiveCountAll(before, order);
      SteppedFacts(before, after, w, h, trig, walk);
    }

    /**
     * The scan part of a pass of `_main`'s loop at time `now`: when
     * `SCAN_INTERVAL` seconds have passed since the last scan, a scan of
     * `fs` (the `k`-th entry measured at `clock(k)`) is reconciled into the
     * registry, the `i`-th result drawing `spawn(i)`, and the results are
     * returned; otherwise nothing changes.
     */
    method Rescan(now: real, fs: ProcFs, clock: nat -> real, w: int, h: int, trig: Trig, spawn: nat -> SpawnDraws)
      returns (scanned: Option<seq<ProcessInfo>>)
      requires Valid()
      modifies this`crabs, this`nextColor, this`lastScan, this`states, scanner, crabs.Values
      ensures Valid()
      ensures scanned.Some? <==> now - old(lastScan) >= ScanInterval
      ensures scanned.Some? ==>
        && lastScan == now
        && crabs.Keys == SeenPids(scanned.value) == PidsOf(scanned.value)
        && (scanned.value, scanner.prevSamples) == ScanOutcome(fs, scanner.ownPid, scanner.clkTck, old(scanner.prevSamples), clock)
        && (forall p | p in states :: Some(states[p]) == Reconciled(Prior(old(states), p), scanned.value, p, w, h, trig, spawn))
        && (forall p | p in states :: ReflectsState(states[p], scanned.value[LastIndex(scanned.value, p)]))
        && (forall p | p in states && p in old(states) :: PlaceKept(old(states)[p], states[p]))
        && nextColor == old(nextColor) + |NewPids(scanned.value, old(crabs).Keys)|
        && Coloured(crabs, NewPids(scanned.value, old(crabs).Keys), old(nextColor))
      ensures scanned.None? ==>
        && lastScan == old(lastScan) && crabs == old(crabs) && states == old(states) && nextColor == old(nextColor)
        && scanner.prevSamples == old(scanner.prevSamples)
      ensures forall p | p in crabs && p in old(crabs) :: crabs[p] == old(crabs)[p]
      ensures forall p | p in crabs && p !in old(crabs) :: fresh(crabs[p])
    {
      scanned := None;
      if now - lastScan >= ScanInterval {
        lastScan := now;
        var results := scanner.Scan(fs, clock);
        Reconcile(results, w, h, trig, spawn);
        scanned := Some(results);
      }
    }

    /**
     * One pass of `_main`'s loop at time `now` on a `w` by `h` screen: the
     * scan part, then a step for every crab with the draws `walk(pid)`.
     * The scan results, if any, the states after the scan part and the
     * header's counts are returned.
     */
    method Frame(now: real, fs: ProcFs, clock: nat -> real, w: int, h: int, trig: Trig,
                 spawn: nat -> SpawnDraws, walk: int -> WalkDraws)
      returns (scanned: Option<seq<ProcessInfo>>, ghost reconciled: map<int, CrabState>, activeCount: nat, idleCount: nat)
      requires Valid()
      modifies this`crabs, this`nextColor, this`lastScan, this`states, scanner, crabs.Values
      ensures Valid()
      ensures scanned.Some? <==> now - old(lastScan) >= ScanInterval
      ensures scanned.Some? ==>
        && lastScan == now
        && crabs.Keys == reconciled.Keys == SeenPids(scanned.value) == PidsOf(scanned.value)
        && (scanned.value, scanner.prevSamples) == ScanOutcome(fs, scanner.ownPid, scanner.clkTck, old(scanner.prevSamples), clock)
        && (forall p | p in reconciled :: Some(reconciled[p]) == Reconciled(Prior(old(states), p), scanned.value, p, w, h, trig, spawn))
        && (forall p | p in reconciled :: ReflectsState(reconciled[p], scanned.value[LastIndex(scanned.value, p)]))
        && (forall p | p in reconciled && p in old(states) :: PlaceKept(old(states)[p], reconciled[p]))
        && nextColor == old(nextColor) + |NewPids(scanned.value, old(crabs).Keys)|
        && Coloured(crabs, NewPids(scanned.value, old(crabs).Keys), old(nextColor))
      ensures scanned.None? ==>
        && lastScan == old(lastScan) && crabs == old(crabs) && reconciled == old(states) && nextColor == old(nextColor)
        && scanner.prevSamples == old(scanner.prevSamples)
      ensures forall p | p in crabs && p in old(crabs) :: crabs[p] == old(crabs)[p]
      ensures AllValid(reconciled) && states.Keys == reconciled.Keys
      ensures forall p | p in states :: states[p] == StepState(reconciled[p], w, h, trig, walk(p))
      ensures forall p | p in states :: PlacedState(states[p], w, h) && SameFigures(reconciled[p], states[p])
      ensures activeCount + idleCount == |states|
      ensures activeCount == |set p | p in states && states[p].active|
    {
      scanned := Rescan(now, fs, clock, w, h, trig, spawn);
      reconciled := states;
      activeCount, idleCount := Tick(w, h, trig, walk);
    }
  }
}
