/**
 How the locking map may be used without waiting forever.  The rule that threads
 start map operations empty-handed is exact: an empty-handed thread's call can always
 still return, and a thread that holds a handle or an iterator has a map operation
 whose call never returns.  The header's weaker warning does not prevent deadlock.
 */
module HashMapUsage {
  import opened Status
  import opened HashMapProtocol
  import opened HashMapSafety
  import opened HashMapProgress
  import opened HashMapWindDown

  lemma RunInvoke(run: seq<Label>, s: State, t: Tid, op: Op)
    requires Exec(run) == Some(s) && CanInvoke(s, t, op)
    ensures Exec(run + [Invoke(t, op)]) == Some(DoInvoke(s, t, op))
  {
    ExecOne(run, Invoke(t, op), s);
  }

  lemma RunLockMap(run: seq<Label>, s: State, t: Tid)
    requires Exec(run) == Some(s) && CanLockMap(s, t)
    ensures Exec(run + [LockMap(t)]) == Some(DoLockMap(s, t))
  {
    ExecOne(run, LockMap(t), s);
  }

  lemma RunFind(run: seq<Label>, s: State, t: Tid)
    requires Exec(run) == Some(s) && CanFind(s, t)
    ensures Exec(run + [Find(t)]) == Some(DoFind(s, t))
  {
    ExecOne(run, Find(t), s);
  }

  lemma RunInsert(run: seq<Label>, s: State, t: Tid, n: NodeId)
    requires Exec(run) == Some(s) && CanInsert(s, t, n)
    ensures Exec(run + [Insert(t, n)]) == Some(DoInsert(s, t, n))
  {
    ExecOne(run, Insert(t, n), s);
  }

  lemma RunLockNode(run: seq<Label>, s: State, t: Tid)
    requires Exec(run) == Some(s) && CanLockNode(s, t)
    ensures Exec(run + [LockNode(t)]) == Some(DoLockNode(s, t))
  {
    ExecOne(run, LockNode(t), s);
  }

  lemma RunReturnHandle(run: seq<Label>, s: State, t: Tid, h: HandleId)
    requires Exec(run) == Some(s) && CanReturnHandle(s, t, h)
    ensures Exec(run + [ReturnHandle(t, h)]) == Some(DoReturnHandle(s, t, h))
  {
    ExecOne(run, ReturnHandle(t, h), s);
  }

  /* ---------- the deadlock of the header comment ---------- */

  /** One thread puts a new key and keeps the handle. */
  function PutRun(k: Key, v: Value): seq<Label> {
    [Invoke(0, Put(k, v))] + [LockMap(0)] + [Insert(0, 0)] + [LockNode(0)] + [ReturnHandle(0, 0)]
  }

  /** Holding the handle, the thread asks for the same key. */
  function HeaderRun(k: Key, v: Value): seq<Label> {
    PutRun(k, v) + [Invoke(0, Get(k, Exclusive))] + [LockMap(0)] + [Find(0)]
  }

  lemma HeaderInsert(k: Key, v: Value) returns (s: State)
    ensures Exec([Invoke(0, Put(k, v))] + [LockMap(0)] + [Insert(0, 0)]) == Some(s)
    ensures s.contents == map[k := 0] && s.nodes == map[0 := Node(k, v)]
    ensures s.pcs == map[0 := Pc(Put(k, v), WantNode(0, Some(Inserted)))]
    ensures s.locks == map[CallMap(0) := Held(MapMutex, Exclusive)] && s.handles == map[] && s.iters == map[]
  {
    var run := [Invoke(0, Put(k, v))];
    RunInvoke([], Init, 0, Put(k, v));
    assert [] + run == run;
    s := DoInvoke(Init, 0, Put(k, v));
    RunLockMap(run, s, 0);
    s := DoLockMap(s, 0);
    RunInsert(run + [LockMap(0)], s, 0, 0);
    s := DoInsert(s, 0, 0);
  }

  /** The thread returns from PutIfAbsent holding the new entry. */
  lemma HeaderPut(k: Key, v: Value) returns (s: State)
    ensures Exec(PutRun(k, v)) == Some(s)
    ensures s.pcs == map[] && s.contents == map[k := 0] && s.nodes == map[0 := Node(k, v)]
    ensures s.locks == map[HandleLock(0) := Held(NodeMutex(0), Exclusive)]
    ensures s.handles == map[0 := Handle(0, k, 0, Exclusive)] && s.iters == map[]
  {
    var run := [Invoke(0, Put(k, v))] + [LockMap(0)] + [Insert(0, 0)];
    s := HeaderInsert(k, v);
    RunLockNode(run, s, 0);
    s := DoLockNode(s, 0);
    RunReturnHandle(run + [LockNode(0)], s, 0, 0);
    s := DoReturnHandle(s, 0, 0);
    assert s.locks == map[HandleLock(0) := Held(NodeMutex(0), Exclusive)];
    assert s.pcs == map[];
  }

  /** The second call waits for the entry its own thread holds. */
  lemma HeaderGet(k: Key, v: Value) returns (s: State)
    ensures Exec(HeaderRun(k, v)) == Some(s)
    ensures s.pcs == map[0 := Pc(Get(k, Exclusive), WantNode(0, None))]
    ensures HandleLock(0) in s.locks && s.locks[HandleLock(0)] == Held(NodeMutex(0), Exclusive)
    ensures s.handles == map[0 := Handle(0, k, 0, Exclusive)]
  {
    var run := PutRun(k, v);
    s := HeaderPut(k, v);
    RunInvoke(run, s, 0, Get(k, Exclusive));
    run, s := run + [Invoke(0, Get(k, Exclusive))], DoInvoke(s, 0, Get(k, Exclusive));
    RunLockMap(run, s, 0);
    run, s := run + [LockMap(0)], DoLockMap(s, 0);
    RunFind(run, s, 0);
    s := DoFind(s, 0);
  }

  /** The thread of the header comment waits for itself, for every key and value. */
  lemma HeaderRunDeadlocks(k: Key, v: Value)
    ensures Exec(HeaderRun(k, v)).Some? && DeadlockedSet(Exec(HeaderRun(k, v)).value, {0})
  {
    var s := HeaderGet(k, v);
    assert Blocks(s, 0, HandleLock(0)) && HeldBy(s, HandleLock(0), 0);
    assert WaitsFor(s, 0, 0);
  }

  /* ---------- heeding the header's warning is not enough ---------- */

  /** The header's warning: no thread asks for a key that it already holds. */
  ghost predicate SparesOwnKeys(s: State, l: Label) {
    l.Invoke? && Keyed(l.op) ==>
      && (forall h :: h in s.handles && s.handles[h].owner == l.t ==> s.handles[h].key != l.op.key)
      && (forall i :: i in s.iters && s.iters[i].owner == l.t && s.iters[i].cur.Some? ==>
            s.iters[i].cur.value.key != l.op.key)
  }

  ghost predicate SparingRun(run: seq<Label>) {
    run == [] ||
    (SparingRun(run[..|run| - 1]) &&
     (Exec(run[..|run| - 1]).Some? ==> SparesOwnKeys(Exec(run[..|run| - 1]).value, run[|run| - 1])))
  }

  lemma SparingOne(run: seq<Label>, l: Label)
    requires SparingRun(run) && (Exec(run).Some? ==> SparesOwnKeys(Exec(run).value, l))
    ensures SparingRun(run + [l])
  {
    assert (run + [l])[..|run + [l]| - 1] == run;
  }

  lemma SparingQuietly(run: seq<Label>, l: Label)
    requires SparingRun(run) && !l.Invoke?
    ensures SparingRun(run + [l])
  {
    SparingOne(run, l);
  }

  /** Thread 0 holds `k`; thread 1 takes the map mutex to remove `k` and waits for the handle. */
  function RemoverRun(k: Key, v: Value, pred: Value -> bool): seq<Label> {
    PutRun(k, v) + [Invoke(1, RemoveIf(k, pred))] + [LockMap(1)] + [Find(1)]
  }

  /** Then thread 0 asks for another key and waits for the map mutex. */
  function OtherKeyRun(k: Key, v: Value, j: Key, pred: Value -> bool, mode: Mode): seq<Label> {
    RemoverRun(k, v, pred) + [Invoke(0, Get(j, mode))]
  }

  lemma PutRunSpares(k: Key, v: Value)
    ensures SparingRun(PutRun(k, v))
  {
    var run := [Invoke(0, Put(k, v))];
    SparingOne([], run[0]);
    assert [] + run == run;
    SparingQuietly(run, LockMap(0));
    SparingQuietly(run + [LockMap(0)], Insert(0, 0));
    SparingQuietly(run + [LockMap(0)] + [Insert(0, 0)], LockNode(0));
    SparingQuietly(run + [LockMap(0)] + [Insert(0, 0)] + [LockNode(0)], ReturnHandle(0, 0));
  }

  /** The remover holds the map mutex and waits for the entry. */
  lemma RemoverWaits(k: Key, v: Value, pred: Value -> bool) returns (s: State)
    ensures Exec(RemoverRun(k, v, pred)) == Some(s)
    ensures s.pcs == map[1 := Pc(RemoveIf(k, pred), WantNode(0, None))]
    ensures s.locks == map[HandleLock(0) := Held(NodeMutex(0), Exclusive), CallMap(1) := Held(MapMutex, Exclusive)]
    ensures s.handles == map[0 := Handle(0, k, 0, Exclusive)] && s.iters == map[]
  {
    var run := PutRun(k, v);
    s := HeaderPut(k, v);
    RunInvoke(run, s, 1, RemoveIf(k, pred));
    run, s := run + [Invoke(1, RemoveIf(k, pred))], DoInvoke(s, 1, RemoveIf(k, pred));
    RunLockMap(run, s, 1);
    run, s := run + [LockMap(1)], DoLockMap(s, 1);
    RunFind(run, s, 1);
    s := DoFind(s, 1);
  }

  lemma RemoverSpares(k: Key, v: Value, pred: Value -> bool)
    ensures SparingRun(RemoverRun(k, v, pred))
  {
    var run := PutRun(k, v);
    var s := HeaderPut(k, v);
    PutRunSpares(k, v);
    SparingOne(run, Invoke(1, RemoveIf(k, pred)));
    run := run + [Invoke(1, RemoveIf(k, pred))];
    SparingQuietly(run, LockMap(1));
    SparingQuietly(run + [LockMap(1)], Find(1));
  }

  /** A run in which no thread asks for a key it holds, and two threads still deadlock. */
  lemma OtherKeyRunDeadlocks(k: Key, v: Value, j: Key, pred: Value -> bool, mode: Mode)
    requires j != k
    ensures var run := OtherKeyRun(k, v, j, pred, mode);
      SparingRun(run) && Exec(run).Some? && DeadlockedSet(Exec(run).value, {0, 1})
  {
    var s := RemoverWaits(k, v, pred);
    RemoverSpares(k, v, pred);
    RunInvoke(RemoverRun(k, v, pred), s, 0, Get(j, mode));
    SparingOne(RemoverRun(k, v, pred), Invoke(0, Get(j, mode)));
    TwoWait(DoInvoke(s, 0, Get(j, mode)), k, j, pred, mode);
  }

  lemma TwoWait(s: State, k: Key, j: Key, pred: Value -> bool, mode: Mode)
    requires s.pcs == map[1 := Pc(RemoveIf(k, pred), WantNode(0, None)), 0 := Pc(Get(j, mode), WantMap)]
    requires s.locks == map[HandleLock(0) := Held(NodeMutex(0), Exclusive), CallMap(1) := Held(MapMutex, Exclusive)]
    requires s.handles == map[0 := Handle(0, k, 0, Exclusive)]
    ensures DeadlockedSet(s, {0, 1})
  {
    assert Blocks(s, 0, CallMap(1)) && HeldBy(s, CallMap(1), 1);
    assert Blocks(s, 1, HandleLock(0)) && HeldBy(s, HandleLock(0), 0);
    assert WaitsFor(s, 0, 1) && WaitsFor(s, 1, 0);
    assert WaitsWithin(s, 0, {0, 1}) && WaitsWithin(s, 1, {0, 1});
  }

  /* ---------- holding something: some operation never returns ---------- */

  /** Some continuation of the run ends the call of `t` that is invoked next. */
  ghost predicate CanReturn(run: seq<Label>, t: Tid, op: Op) {
    exists tail :: Returns(run + [Invoke(t, op)], tail, t)
  }

  /** A call for the very key that its own thread has a handle on, before the handle stops it. */
  ghost predicate Trapped(s: State, t: Tid, h: HandleId) {
    && t in s.pcs && OwnsHandle(s, t, h) && s.pcs[t].op == Get(s.handles[h].key, Exclusive)
    && (s.pcs[t].stage.WantMap? || s.pcs[t].stage.HasMap? || s.pcs[t].stage.WantNode?)
  }

  /** A lookup of a present key has one next step at each of these stages. */
  lemma OneNextStep(s: State, l: Label)
    requires l.t in s.pcs && s.pcs[l.t].op.Get? && s.pcs[l.t].op.key in s.contents && Enabled(s, l)
    ensures s.pcs[l.t].stage.WantMap? ==> l == LockMap(l.t)
    ensures s.pcs[l.t].stage.HasMap? ==> l == Find(l.t)
  {
  }

  lemma OwnStepKeepsTrapped(s: State, l: Label, h: HandleId)
    requires Trapped(s, l.t, h) && Enabled(s, l) && PcOk(s, l.t, s.pcs[l.t])
    requires Live(s, s.handles[h].key, s.handles[h].node) && LockMatches(s, HandleLock(h))
    ensures Trapped(Apply(s, l), l.t, h)
  {
    if s.pcs[l.t].stage.WantNode? {
      BlockedCannotStep(s, l, HandleLock(h));
    } else {
      OneNextStep(s, l);
      if s.pcs[l.t].stage.WantMap? { LockMapKeepsTrapped(s, l.t, h); } else { FindKeepsTrapped(s, l.t, h); }
    }
  }

  lemma LockMapKeepsTrapped(s: State, t: Tid, h: HandleId)
    requires Trapped(s, t, h) && Enabled(s, LockMap(t))
    ensures Trapped(Apply(s, LockMap(t)), t, h)
  {
  }

  lemma FindKeepsTrapped(s: State, t: Tid, h: HandleId)
    requires Trapped(s, t, h) && Enabled(s, Find(t))
    ensures Trapped(Apply(s, Find(t)), t, h)
  {
  }

  lemma StepKeepsTrapped(s: State, l: Label, t: Tid, h: HandleId)
    requires Inv(s) && Trapped(s, t, h) && Enabled(s, l)
    ensures Trapped(Apply(s, l), t, h)
  {
    if l.t == t {
      assert LockMatches(s, HandleLock(h)) && PcOk(s, t, s.pcs[t]);
      OwnStepKeepsTrapped(s, l, h);
    } else {
      StepLeavesOthers(s, l);
    }
  }

  lemma {:induction false} TrappedForever(run: seq<Label>, tail: seq<Label>, t: Tid, h: HandleId)
    requires Exec(run).Some? && Trapped(Exec(run).value, t, h) && Exec(run + tail).Some?
    ensures Trapped(Exec(run + tail).value, t, h)
  {
    if tail == [] {
      assert run + tail == run;
    } else {
      var before := tail[..|tail| - 1];
      assert (run + tail)[..|run + tail| - 1] == run + before;
      TrappedForever(run, before, t, h);
      ReachableInv(run + before);
      StepKeepsTrapped(Exec(run + before).value, tail[|tail| - 1], t, h);
    }
  }

  /** Asking for the key of a handle one holds never returns, whatever anyone does. */
  lemma HandleBarsItsKey(run: seq<Label>, t: Tid, h: HandleId)
    requires Exec(run).Some? && t !in Exec(run).value.pcs && OwnsHandle(Exec(run).value, t, h)
    ensures !CanReturn(run, t, Get(Exec(run).value.handles[h].key, Exclusive))
  {
    var s := Exec(run).value;
    var l := Invoke(t, Get(s.handles[h].key, Exclusive));
    ExecOne(run, l, s);
    forall tail ensures !Returns(run + [l], tail, t) {
      if Exec(run + [l] + tail).Some? { TrappedForever(run + [l], tail, t, h); }
    }
  }

  /** Changing the map while one holds an iterator never returns, whatever anyone does. */
  lemma IteratorBarsWriters(run: seq<Label>, t: Tid, i: IterId, op: Op)
    requires Exec(run).Some? && t !in Exec(run).value.pcs
    requires i in Exec(run).value.iters && Exec(run).value.iters[i].owner == t && (op.Put? || op.RemoveIf?)
    ensures !CanReturn(run, t, op)
  {
    var s := Exec(run).value;
    ReachableInv(run);
    assert IterOk(s, i) && LockMatches(s, IterMap(i));
    ExecOne(run, Invoke(t, op), s);
    WaitsForOwnIterator(s, t, i, op);
    forall tail ensures !Returns(run + [Invoke(t, op)], tail, t) {
      if Exec(run + [Invoke(t, op)] + tail).Some? {
        DeadlockIsForever(run + [Invoke(t, op)], tail, {t});
        assert WaitsWithin(Exec(run + [Invoke(t, op)] + tail).value, t, {t});
      }
    }
  }

  lemma WaitsForOwnIterator(s: State, t: Tid, i: IterId, op: Op)
    requires CanInvoke(s, t, op) && (op.Put? || op.RemoveIf?) && i in s.iters && s.iters[i].owner == t
    requires IterMap(i) in s.locks && s.locks[IterMap(i)] == Held(MapMutex, Shared)
    ensures DeadlockedSet(DoInvoke(s, t, op), {t})
  {
    var s' := DoInvoke(s, t, op);
    assert Blocks(s', t, IterMap(i)) && HeldBy(s', IterMap(i), t);
    assert WaitsFor(s', t, t);
  }

  /* ---------- the rule is exact ---------- */

  /** The rule is exact.  In a run that has kept it, a thread outside any call is
      empty-handed if and only if every map operation it may start next can return. */
  lemma EmptyHandedIsExact(run: seq<Label>, t: Tid, k: Key)
    requires Exec(run).Some? && DisciplinedRun(run) && t !in Exec(run).value.pcs
    ensures EmptyHanded(Exec(run).value, t) <==> forall op :: MapOperation(op) ==> CanReturn(run, t, op)
  {
    var s := Exec(run).value;
    if EmptyHanded(s, t) {
      forall op | MapOperation(op) ensures CanReturn(run, t, op) {
        ExtendOne(run, s, Invoke(t, op));
        var tail := PendingCallsCanReturn(run + [Invoke(t, op)], t);
        assert Returns(run + [Invoke(t, op)], tail, t);
      }
    } else if h :| h in s.handles && s.handles[h].owner == t {
      HandleBarsItsKey(run, t, h);
      assert MapOperation(Get(s.handles[h].key, Exclusive));
    } else {
      var i :| i in s.iters && s.iters[i].owner == t;
      IteratorBarsWriters(run, t, i, RemoveIf(k, _ => true));
      assert MapOperation(RemoveIf(k, _ => true));
    }
  }
}
