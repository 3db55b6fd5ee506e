/**
 How runs of the locking map come to rest.  A measure of the work that pending calls,
 handles and iterators stand for shrinks with every step that begins nothing new, so
 winding down always ends; and under the rule that threads start map operations
 empty-handed it ends with every call returned and everything given up.
 */
module HashMapWindDown {
  import opened Status
  import opened HashMapProtocol
  import opened HashMapSafety
  import opened HashMapProgress

  lemma ExecOne(run: seq<Label>, l: Label, s: State)
    requires Exec(run) == Some(s) && Enabled(s, l)
    ensures Exec(run + [l]) == Some(Apply(s, l))
  {
    assert (run + [l])[..|run + [l]| - 1] == run;
  }

  ghost predicate Returns(run: seq<Label>, tail: seq<Label>, t: Tid) {
    Exec(run + tail).Some? && t !in Exec(run + tail).value.pcs
  }

  /* ---------- what is left to do ---------- */

  function Weight(pc: Pc): nat {
    match pc.stage
    case WantMap => 20
    case HasMap => 18
    case WantNode(_, _) => 16
    case HasNode(_) => 14
    case Drained(_) => 13
    case Erasing(_, _) => 12
    case Leaving(_, _) => 10
    case DropMap => 2
    case DropNode => 1
  }

  /** The sum of the numbers in a map. */
  ghost function Total<A(!new)>(m: map<A, nat>): nat
    decreases |m|
  {
    if m == map[] then 0
    else
      var a :| a in m;
      SmallerWithout(m, a);
      m[a] + Total(m - {a})
  }

  lemma SmallerWithout<A, B>(m: map<A, B>, a: A)
    requires a in m
    ensures |m - {a}| == |m| - 1
  {
    assert (m - {a}).Keys == m.Keys - {a};
    assert |m.Keys| == |m| && |(m - {a}).Keys| == |m - {a}|;
  }

  lemma {:induction false} TotalWithout<A(!new)>(m: map<A, nat>, a: A)
    requires a in m
    ensures Total(m) == m[a] + Total(m - {a})
    decreases |m|
  {
    var b :| b in m && Total(m) == m[b] + Total(m - {b});
    if b != a {
      SmallerWithout(m, b);
      SmallerWithout(m, a);
      TotalWithout(m - {b}, a);
      TotalWithout(m - {a}, b);
      assert m - {b} - {a} == m - {a} - {b};
    }
  }

  /** The sum after one number is changed or added. */
  lemma TotalChanged<A(!new)>(m: map<A, nat>, a: A, n: nat)
    ensures Total(m[a := n]) == Total(m) - (if a in m then m[a] else 0) + n
  {
    TotalWithout(m[a := n], a);
    if a in m {
      TotalWithout(m, a);
      assert m[a := n] - {a} == m - {a};
    } else {
      assert m[a := n] - {a} == m;
    }
  }

  function Loads(pcs: map<Tid, Pc>): map<Tid, nat> {
    map t | t in pcs :: Weight(pcs[t])
  }

  /** An iterator whose destructor is running. */
  predicate Dying(s: State, i: IterId)
    requires i in s.iters
  {
    s.iters[i].owner in s.pcs && s.pcs[s.iters[i].owner].op == Destroy(i)
  }

  function IterWeight(s: State, i: IterId): nat
    requires i in s.iters
  {
    5 + (if s.iters[i].cur.Some? then 1 else 0) + (if Dying(s, i) then 0 else 3)
  }

  function IterLoads(s: State): map<IterId, nat> {
    map i | i in s.iters :: IterWeight(s, i)
  }

  /** What is left to do until all calls have returned and everything is given up. */
  ghost function Work(s: State): nat {
    Total(Loads(s.pcs)) + |s.handles| + Total(IterLoads(s))
  }

  /* ---------- every step of winding down gets work done ---------- */

  lemma LoadMoved(pcs: map<Tid, Pc>, t: Tid, pc: Pc)
    requires t in pcs
    ensures Total(Loads(pcs[t := pc])) == Total(Loads(pcs)) - Weight(pcs[t]) + Weight(pc)
  {
    TotalChanged(Loads(pcs), t, Weight(pc));
    assert Loads(pcs[t := pc]) == Loads(pcs)[t := Weight(pc)];
  }

  lemma LoadGone(pcs: map<Tid, Pc>, t: Tid)
    requires t in pcs
    ensures Total(Loads(pcs)) == Total(Loads(pcs - {t})) + Weight(pcs[t])
  {
    TotalWithout(Loads(pcs), t);
    assert Loads(pcs) - {t} == Loads(pcs - {t});
  }

  lemma LoadAdded(pcs: map<Tid, Pc>, t: Tid, pc: Pc)
    requires t !in pcs
    ensures Total(Loads(pcs[t := pc])) == Total(Loads(pcs)) + Weight(pc)
  {
    LoadGone(pcs[t := pc], t);
    assert pcs[t := pc] - {t} == pcs;
  }

  lemma SizeAdded<A, B>(m: map<A, B>, a: A, b: B)
    requires a !in m
    ensures |m[a := b]| == |m| + 1
  {
    SmallerWithout(m[a := b], a);
    assert m[a := b] - {a} == m;
  }

  /** The call moves on, and nothing is handed out or given up. */
  lemma MovedWork(s: State, s': State, t: Tid, pc: Pc)
    requires t in s.pcs && s'.pcs == s.pcs[t := pc] && Weight(pc) < Weight(s.pcs[t])
    requires s'.handles == s.handles && IterLoads(s') == IterLoads(s)
    ensures Work(s') < Work(s)
  {
    LoadMoved(s.pcs, t, pc);
  }

  /** A step that leaves the iterators and the operations of calls alone. */
  lemma SameIterLoads(s: State, s': State, t: Tid)
    requires s'.iters == s.iters && t in s.pcs && t in s'.pcs && s'.pcs[t].op == s.pcs[t].op
    requires s'.pcs == s.pcs[t := s'.pcs[t]]
    ensures IterLoads(s') == IterLoads(s)
  {
    forall i | i in s.iters ensures IterWeight(s', i) == IterWeight(s, i) { }
  }

  /** A call that is no destructor goes away. */
  lemma IterLoadsWithout(s: State, s': State, t: Tid)
    requires s'.iters == s.iters && t in s.pcs && !s.pcs[t].op.Destroy? && s'.pcs == s.pcs - {t}
    ensures IterLoads(s') == IterLoads(s)
  {
    forall i | i in s.iters ensures IterWeight(s', i) == IterWeight(s, i) { }
  }

  lemma EarlyStepWorks(s: State, l: Label)
    requires EnabledEarly(s, l) && l.t in s.pcs && !l.BeginIter?
    ensures Work(ApplyEarly(s, l)) < Work(s)
  {
    var s' := ApplyEarly(s, l);
    SameIterLoads(s, s', l.t);
    MovedWork(s, s', l.t, s'.pcs[l.t]);
  }

  lemma BeginIterLoads(s: State, t: Tid, i: IterId, order: seq<Entry>)
    requires CanBegin(s, t, i, order)
    ensures IterLoads(DoBegin(s, t, i, order)) == IterLoads(s)[i := 8]
  {
    var s' := DoBegin(s, t, i, order);
    forall j | j in s.iters ensures IterWeight(s', j) == IterWeight(s, j) { }
  }

  lemma BeginWork(s: State, t: Tid, i: IterId, order: seq<Entry>)
    requires CanBegin(s, t, i, order)
    ensures Work(DoBegin(s, t, i, order)) < Work(s)
  {
    BeginIterLoads(s, t, i, order);
    TotalChanged(IterLoads(s), i, 8);
    ReturnedWork(s, DoBegin(s, t, i, order), t, 0, 8);
  }

  /** A call is over, and what it left behind weighs less than it did. */
  lemma ReturnedWork(s: State, s': State, t: Tid, handles: int, iters: int)
    requires t in s.pcs && s'.pcs == s.pcs - {t} && handles + iters < Weight(s.pcs[t])
    requires |s'.handles| <= |s.handles| + handles && Total(IterLoads(s')) <= Total(IterLoads(s)) + iters
    ensures Work(s') < Work(s)
  {
    LoadGone(s.pcs, t);
  }

  lemma ReturnBareWork(s: State, t: Tid)
    requires CanReturnBare(s, t)
    ensures Work(DoReturnBare(s, t)) < Work(s)
  {
    IterLoadsWithout(s, DoReturnBare(s, t), t);
    ReturnedWork(s, DoReturnBare(s, t), t, 0, 0);
  }

  lemma ReturnHandleWork(s: State, t: Tid, h: HandleId)
    requires CanReturnHandle(s, t, h)
    ensures Work(DoReturnHandle(s, t, h)) < Work(s)
  {
    var s' := DoReturnHandle(s, t, h);
    IterLoadsWithout(s, s', t);
    SizeAdded(s.handles, h, s'.handles[h]);
    ReturnedWork(s, s', t, 1, 0);
  }

  lemma ElementIterLoads(s: State, t: Tid)
    requires CanReturnElement(s, t)
    ensures var i, s' := s.pcs[t].op.iter, DoReturnElement(s, t);
      IterLoads(s') == IterLoads(s)[i := IterWeight(s', i)] && IterWeight(s', i) <= IterWeight(s, i) + 1
  {
    var s' := DoReturnElement(s, t);
    forall j | j in s.iters && j != s.pcs[t].op.iter ensures IterWeight(s', j) == IterWeight(s, j) { }
  }

  lemma ElementTotal(s: State, t: Tid)
    requires CanReturnElement(s, t)
    ensures Total(IterLoads(DoReturnElement(s, t))) <= Total(IterLoads(s)) + 1
  {
    var i := s.pcs[t].op.iter;
    ElementIterLoads(s, t);
    TotalChanged(IterLoads(s), i, IterWeight(DoReturnElement(s, t), i));
  }

  lemma ReturnElementWork(s: State, t: Tid)
    requires CanReturnElement(s, t)
    ensures Work(DoReturnElement(s, t)) < Work(s)
  {
    ElementTotal(s, t);
    ReturnedWork(s, DoReturnElement(s, t), t, 0, 1);
  }

  lemma DropMapIterLoads(s: State, t: Tid)
    requires CanDropMap(s, t)
    ensures IterLoads(DoDropMap(s, t)) == IterLoads(s)
  {
    var s' := DoDropMap(s, t);
    forall i | i in s.iters ensures IterWeight(s', i) == IterWeight(s, i) { }
  }

  lemma DropMapWork(s: State, t: Tid)
    requires CanDropMap(s, t)
    ensures Work(DoDropMap(s, t)) < Work(s)
  {
    DropMapIterLoads(s, t);
    MovedWork(s, DoDropMap(s, t), t, DoDropMap(s, t).pcs[t]);
  }

  lemma DropNodeIterLoads(s: State, t: Tid)
    requires CanDropNode(s, t)
    ensures IterLoads(DoDropNode(s, t)) == IterLoads(s) - {s.pcs[t].op.iter}
  {
    var s' := DoDropNode(s, t);
    forall j | j in s.iters && j != s.pcs[t].op.iter ensures IterWeight(s', j) == IterWeight(s, j) { }
  }

  lemma TotalOfLess<A(!new)>(m: map<A, nat>, a: A)
    ensures Total(m - {a}) <= Total(m)
  {
    if a in m { TotalWithout(m, a); } else { assert m - {a} == m; }
  }

  lemma DropNodeWork(s: State, t: Tid)
    requires CanDropNode(s, t)
    ensures Work(DoDropNode(s, t)) < Work(s)
  {
    DropNodeIterLoads(s, t);
    IteratorGone(s, DoDropNode(s, t), t, s.pcs[t].op.iter);
  }

  lemma IteratorGone(s: State, s': State, t: Tid, i: IterId)
    requires t in s.pcs && s'.pcs == s.pcs - {t} && s'.handles == s.handles && Weight(s.pcs[t]) > 0
    requires IterLoads(s') == IterLoads(s) - {i}
    ensures Work(s') < Work(s)
  {
    TotalOfLess(IterLoads(s), i);
    ReturnedWork(s, s', t, 0, 0);
  }

  lemma DecideWork(s: State, s': State, t: Tid)
    requires t in s.pcs && t in s'.pcs && s'.pcs == s.pcs[t := s'.pcs[t]] && s'.pcs[t].op == s.pcs[t].op
    requires Weight(s'.pcs[t]) < Weight(s.pcs[t]) && s'.handles == s.handles && s'.iters == s.iters
    ensures Work(s') < Work(s)
  {
    SameIterLoads(s, s', t);
    MovedWork(s, s', t, s'.pcs[t]);
  }

  lemma LateStepWorks(s: State, l: Label)
    requires EnabledLate(s, l)
    ensures Work(ApplyLate(s, l)) < Work(s)
  {
    match l
    case ReturnBare(t) => ReturnBareWork(s, t);
    case ReturnHandle(t, h) => ReturnHandleWork(s, t, h);
    case ReturnElement(t) => ReturnElementWork(s, t);
    case DropIterMap(t) => DropMapWork(s, t);
    case DropIterNode(t) => DropNodeWork(s, t);
    case Drain(t) => DecideWork(s, DoDrain(s, t), t);
    case Accept(t) => DecideWork(s, DoAccept(s, t), t);
    case Reject(t) => DecideWork(s, DoReject(s, t), t);
    case Erase(t) => DecideWork(s, DoErase(s, t), t);
  }

  /** Every step of a pending call gets work done. */
  lemma StepWorks(s: State, l: Label)
    requires Enabled(s, l) && l.t in s.pcs
    ensures !BetweenCalls(l) && !l.Invoke? && Work(Apply(s, l)) < Work(s)
  {
    if l.BeginIter? {
      BeginWork(s, l.t, l.i, l.order);
    } else if EarlyStep(l) {
      EarlyStepWorks(s, l);
    } else {
      LateStepWorks(s, l);
    }
  }

  lemma DestroyIterLoads(s: State, t: Tid, i: IterId)
    requires CanInvoke(s, t, Destroy(i))
    ensures i in s.iters && IterWeight(s, i) >= 3
    ensures IterLoads(DoInvoke(s, t, Destroy(i))) == IterLoads(s)[i := IterWeight(s, i) - 3]
  {
    var s' := DoInvoke(s, t, Destroy(i));
    forall j | j in s.iters && j != i ensures IterWeight(s', j) == IterWeight(s, j) { }
  }

  lemma DestroyWork(s: State, t: Tid, i: IterId)
    requires CanInvoke(s, t, Destroy(i))
    ensures Work(DoInvoke(s, t, Destroy(i))) < Work(s)
  {
    DestroyIterLoads(s, t, i);
    TotalLowered(IterLoads(s), i, IterWeight(s, i) - 3);
    StartedWork(s, DoInvoke(s, t, Destroy(i)), t, Pc(Destroy(i), DropMap));
  }

  lemma TotalLowered<A(!new)>(m: map<A, nat>, a: A, n: nat)
    requires a in m && m[a] == n + 3
    ensures Total(m[a := n]) == Total(m) - 3
  {
    TotalChanged(m, a, n);
  }

  /** A call begins that makes the iterators weigh less by more than it weighs itself. */
  lemma StartedWork(s: State, s': State, t: Tid, pc: Pc)
    requires t !in s.pcs && s'.pcs == s.pcs[t := pc] && s'.handles == s.handles
    requires Total(IterLoads(s')) + Weight(pc) < Total(IterLoads(s))
    ensures Work(s') < Work(s)
  {
    LoadAdded(s.pcs, t, pc);
  }

  lemma ReleaseWork(s: State, t: Tid, h: HandleId)
    requires CanRelease(s, t, h)
    ensures Work(DoRelease(s, h)) < Work(s)
  {
    SmallerWithout(s.handles, h);
    assert IterLoads(DoRelease(s, h)) == IterLoads(s) by {
      forall i | i in s.iters ensures IterWeight(DoRelease(s, h), i) == IterWeight(s, i) { }
    }
  }

  lemma ReleaseCurIterLoads(s: State, t: Tid, i: IterId)
    requires CanReleaseCur(s, t, i)
    ensures IterLoads(DoReleaseCur(s, i)) == IterLoads(s)[i := IterWeight(s, i) - 1]
  {
    var s' := DoReleaseCur(s, i);
    forall j | j in s.iters && j != i ensures IterWeight(s', j) == IterWeight(s, j) { }
  }

  lemma ReleaseCurWork(s: State, t: Tid, i: IterId)
    requires CanReleaseCur(s, t, i)
    ensures Work(DoReleaseCur(s, i)) < Work(s)
  {
    ReleaseCurIterLoads(s, t, i);
    TotalChanged(IterLoads(s), i, IterWeight(s, i) - 1);
  }

  /** Steps that begin nothing new: those of pending calls, and giving up what one holds. */
  ghost predicate WindsDown(s: State, l: Label) {
    Enabled(s, l) && (l.t in s.pcs || l.Release? || l.ReleaseCur? || (l.Invoke? && l.op.Destroy?))
  }

  lemma WindingDownWorks(s: State, l: Label)
    requires WindsDown(s, l)
    ensures Disciplined(s, l) && Work(Apply(s, l)) < Work(s)
  {
    if l.t in s.pcs {
      StepWorks(s, l);
    } else if l.Release? {
      ReleaseWork(s, l.t, l.h);
    } else if l.ReleaseCur? {
      ReleaseCurWork(s, l.t, l.i);
    } else {
      DestroyWork(s, l.t, l.op.iter);
    }
  }

  /* ---------- winding down ends, with everything returned and given up ---------- */

  /** The continuation is enabled, and every step of it winds down. */
  ghost predicate WindDown(run: seq<Label>, tail: seq<Label>)
    decreases |tail|
  {
    && Exec(run).Some?
    && (tail != [] ==> WindsDown(Exec(run).value, tail[0]) && WindDown(run + [tail[0]], tail[1..]))
  }

  ghost predicate Extends(run: seq<Label>, more: seq<Label>) {
    Exec(run + more).Some? && (DisciplinedRun(run) ==> DisciplinedRun(run + more))
  }

  lemma ExtendOne(run: seq<Label>, s: State, l: Label)
    requires Exec(run) == Some(s) && Enabled(s, l) && Disciplined(s, l)
    ensures Extends(run, [l]) && Exec(run + [l]) == Some(Apply(s, l))
  {
    ExecOne(run, l, s);
    assert (run + [l])[..|run + [l]| - 1] == run;
  }

  lemma ExtendTwice(run: seq<Label>, a: seq<Label>, b: seq<Label>)
    requires Extends(run, a) && Extends(run + a, b)
    ensures Extends(run, a + b) && Exec(run + (a + b)) == Exec(run + a + b)
  {
    assert run + (a + b) == run + a + b;
  }

  /** Every way of winding down is short, whatever the order of its steps. */
  lemma {:induction false} WindDownIsShort(run: seq<Label>, tail: seq<Label>)
    requires WindDown(run, tail)
    ensures Extends(run, tail) && |tail| + Work(Exec(run + tail).value) <= Work(Exec(run).value)
    decreases |tail|
  {
    if tail == [] {
      assert run + tail == run;
    } else {
      OneStepDown(run, tail[0]);
      WindDownIsShort(run + [tail[0]], tail[1..]);
      ExtendTwice(run, [tail[0]], tail[1..]);
      assert [tail[0]] + tail[1..] == tail;
    }
  }

  lemma OneStepDown(run: seq<Label>, l: Label)
    requires Exec(run).Some? && WindsDown(Exec(run).value, l)
    ensures Extends(run, [l]) && Work(Exec(run + [l]).value) < Work(Exec(run).value)
  {
    WindingDownWorks(Exec(run).value, l);
    ExtendOne(run, Exec(run).value, l);
  }

  /** While a call of `t` is pending, somebody can wind down. */
  lemma SomeoneHelps(run: seq<Label>, t: Tid) returns (l: Label)
    requires Exec(run).Some? && DisciplinedRun(run) && t in Exec(run).value.pcs
    ensures WindsDown(Exec(run).value, l)
  {
    var s := Exec(run).value;
    ReachableInv(run);
    var path := EveryWaitEnds(run, t);
    var u := path[|path| - 1];
    if CanStep(s, u) {
      l :| Enabled(s, l) && l.t == u;
    } else {
      assert WaitsFor(s, path[|path| - 2], u);
      var tk :| Blocks(s, path[|path| - 2], tk) && HeldBy(s, tk, u);
      l := GiveUp(s, tk, u);
    }
  }

  /** A thread outside any call can give up what a lock object of its stands for. */
  lemma GiveUp(s: State, tk: Ticket, u: Tid) returns (l: Label)
    requires Inv(s) && tk in s.locks && HeldBy(s, tk, u) && u !in s.pcs
    ensures WindsDown(s, l)
  {
    assert LockMatches(s, tk);
    if tk.HandleLock? {
      l := Release(u, tk.h);
    } else {
      assert IterOk(s, tk.i);
      l := Invoke(u, Destroy(tk.i));
    }
  }

  /** No call is pending and nothing is held. */
  predicate AtRest(s: State) {
    s.pcs == map[] && s.handles == map[] && s.iters == map[] && s.locks == map[]
  }

  /** Short of rest, somebody can wind down. */
  lemma MoreToWindDown(run: seq<Label>) returns (l: Label)
    requires Exec(run).Some? && DisciplinedRun(run) && !AtRest(Exec(run).value)
    ensures WindsDown(Exec(run).value, l)
  {
    var s := Exec(run).value;
    ReachableInv(run);
    if s.pcs != map[] {
      var t :| t in s.pcs;
      l := SomeoneHelps(run, t);
    } else {
      HeldMeansLocked(s);
      var tk :| tk in s.locks;
      var u := HolderOf(s, tk);
      l := GiveUp(s, tk, u);
    }
  }

  lemma HeldMeansLocked(s: State)
    requires Inv(s) && s.pcs == map[] && !AtRest(s)
    ensures s.locks != map[]
  {
    if s.handles != map[] {
      var h :| h in s.handles;
      assert LockMatches(s, HandleLock(h));
    } else if s.iters != map[] {
      var i :| i in s.iters;
      assert IterOk(s, i) && LockMatches(s, IterMap(i));
    }
  }

  /** From any state of a run that keeps the rule, every way of winding down has at most
      `Work` steps, and one that cannot go on has returned every call and given up everything. */
  lemma WindDownComesToRest(run: seq<Label>, tail: seq<Label>)
    requires DisciplinedRun(run) && WindDown(run, tail)
    ensures |tail| <= Work(Exec(run).value)
    ensures Exec(run + tail).Some?
    ensures (forall l :: !WindsDown(Exec(run + tail).value, l)) ==> AtRest(Exec(run + tail).value)
  {
    WindDownIsShort(run, tail);
    if !AtRest(Exec(run + tail).value) {
      var l := MoreToWindDown(run + tail);
    }
  }

  /** In a run that keeps the rule, every pending call can still return. */
  lemma {:induction false} PendingCallsCanReturn(run: seq<Label>, t: Tid) returns (tail: seq<Label>)
    requires Exec(run).Some? && DisciplinedRun(run)
    ensures Extends(run, tail) && Returns(run, tail, t)
    decreases Work(Exec(run).value)
  {
    if t !in Exec(run).value.pcs {
      tail := [];
      assert run + tail == run;
    } else {
      var l := SomeoneHelps(run, t);
      OneStepDown(run, l);
      var rest := PendingCallsCanReturn(run + [l], t);
      ExtendTwice(run, [l], rest);
      tail := [l] + rest;
    }
  }
}
