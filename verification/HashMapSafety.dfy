/**
 Safety of the per-key locking map: an invariant of every reachable state, for
 any number of threads and any interleaving.

 The delicate point is RemoveIf, which drains the node mutex, lets it go, and
 only then reads the value and erases the node.  The invariant shows why this
 is sound: new lockers of a node must first hold the map mutex.
 */
module HashMapSafety {
  import opened Status
  import opened HashMapProtocol

  /* ---------- what the program state says about lock objects ---------- */

  predicate HoldsMap(pc: Pc) {
    Keyed(pc.op) && !pc.stage.WantMap?
  }

  function NodeHeld(pc: Pc): Option<NodeId> {
    match pc.stage
    case HasNode(n) => Some(n)
    case Leaving(_, kept) => kept
    case _ => None
  }

  /** The lock a ticket must stand for, read off program counters, handles and iterators. */
  function Claim(s: State, tk: Ticket): Option<Held> {
    match tk
    case CallMap(t) =>
      if t in s.pcs && HoldsMap(s.pcs[t]) then Some(Held(MapMutex, MapMode(s.pcs[t].op))) else None
    case CallNode(t) =>
      if t in s.pcs && NodeHeld(s.pcs[t]).Some?
      then Some(Held(NodeMutex(NodeHeld(s.pcs[t]).value), NodeMode(s.pcs[t].op))) else None
    case HandleLock(h) =>
      if h in s.handles then Some(Held(NodeMutex(s.handles[h].node), s.handles[h].mode)) else None
    case IterMap(i) =>
      if i in s.iters && s.iters[i].open then Some(Held(MapMutex, Shared)) else None
    case IterNode(i) =>
      if i in s.iters && s.iters[i].cur.Some?
      then Some(Held(NodeMutex(s.iters[i].cur.value.node), Shared)) else None
  }

  ghost predicate LockMatches(s: State, tk: Ticket) {
    && (tk in s.locks <==> Claim(s, tk).Some?)
    && (tk in s.locks ==> s.locks[tk] == Claim(s, tk).value)
  }

  ghost predicate LocksMatch(s: State) {
    forall tk :: LockMatches(s, tk)
  }

  /** A mutex held exclusively has no other holder. */
  ghost predicate Exclusion(s: State) {
    forall a, b :: a in s.locks && b in s.locks && a != b && s.locks[a].mutex == s.locks[b].mutex ==>
      s.locks[a].mode == Shared && s.locks[b].mode == Shared
  }

  /* ---------- what each reference points at ---------- */

  /** `n` is the node stored for `k`: it has not been erased. */
  predicate Live(s: State, k: Key, n: NodeId) {
    k in s.contents && s.contents[k] == n
  }

  ghost predicate NoHolder(s: State, n: NodeId) {
    forall tk :: tk in s.locks ==> s.locks[tk].mutex != NodeMutex(n)
  }

  ghost predicate ContentsOk(s: State) {
    forall k :: k in s.contents ==> s.contents[k] in s.nodes && s.nodes[s.contents[k]].key == k
  }

  ghost predicate PcOk(s: State, t: Tid, pc: Pc) {
    match pc.stage
    case WantMap => Keyed(pc.op) || pc.op.Begin?
    case HasMap => Keyed(pc.op)
    case WantNode(n, early) =>
      && (Keyed(pc.op) || (pc.op.Deref? && OwnsOpenIter(s, t, pc.op.iter)))
      && Live(s, pc.op.key, n)
      && (early.Some? ==> pc.op.Put? && early.value == Inserted)
    case HasNode(n) => pc.op.RemoveIf? && Live(s, pc.op.key, n)
    case Drained(n) => pc.op.RemoveIf? && Live(s, pc.op.key, n) && NoHolder(s, n)
    case Erasing(n, seen) =>
      && pc.op.RemoveIf? && Live(s, pc.op.key, n) && NoHolder(s, n)
      && n in s.nodes && s.nodes[n].value == seen && pc.op.pred(seen)
    case Leaving(_, kept) =>
      && (Keyed(pc.op) || (pc.op.Deref? && OwnsOpenIter(s, t, pc.op.iter) && kept.Some?))
      && (kept.Some? ==> !pc.op.RemoveIf? && Live(s, pc.op.key, kept.value))
    case DropMap => pc.op.Destroy? && OwnsOpenIter(s, t, pc.op.iter)
    case DropNode => pc.op.Destroy? && ClosedIter(s, t, pc.op.iter)
  }

  predicate ClosedIter(s: State, t: Tid, i: IterId) {
    i in s.iters && s.iters[i].owner == t && !s.iters[i].open
  }

  ghost predicate PcsOk(s: State) {
    forall t :: t in s.pcs ==> PcOk(s, t, s.pcs[t])
  }

  ghost predicate HandlesOk(s: State) {
    forall h :: h in s.handles ==> Live(s, s.handles[h].key, s.handles[h].node)
  }

  ghost predicate IterOk(s: State, i: IterId)
    requires i in s.iters
  {
    var it := s.iters[i];
    && it.pos <= |it.order|
    && (it.cur.Some? ==> Live(s, it.cur.value.key, it.cur.value.node))
    && (it.open ==> Enumerates(it.order, s.contents))
    && (!it.open ==> it.owner in s.pcs && s.pcs[it.owner] == Pc(Destroy(i), DropNode))
  }

  ghost predicate ItersOk(s: State) {
    forall i :: i in s.iters ==> IterOk(s, i)
  }

  ghost predicate Inv(s: State) {
    LocksMatch(s) && Exclusion(s) && ContentsOk(s) && PcsOk(s) && HandlesOk(s) && ItersOk(s)
  }

  /* ---------- preservation ---------- */

  /** While a call holds the map mutex exclusively, no other call holds it and no iterator is open. */
  lemma MapToItself(s: State, t: Tid)
    requires Inv(s) && t in s.pcs && HoldsMap(s.pcs[t]) && MapMode(s.pcs[t].op) == Exclusive
    ensures forall u :: u in s.pcs && u != t ==> !HoldsMap(s.pcs[u])
    ensures forall i :: i in s.iters ==> !s.iters[i].open
  {
    assert LockMatches(s, CallMap(t));
    forall u | u in s.pcs && u != t ensures !HoldsMap(s.pcs[u]) {
      assert LockMatches(s, CallMap(u));
    }
    forall i | i in s.iters ensures !s.iters[i].open {
      assert LockMatches(s, IterMap(i));
    }
  }

  /** A call of RemoveIf that has drained its node and not yet erased it. */
  predicate PastDrain(pc: Pc) {
    pc.stage.Drained? || pc.stage.Erasing?
  }

  /** What a step of thread `t` must leave alone for all other calls to stay sound. */
  ghost predicate OthersUntouched(s: State, s': State, t: Tid) {
    && s'.contents == s.contents && s'.nodes == s.nodes
    && (forall u :: u in s'.pcs && u != t ==> u in s.pcs && s'.pcs[u] == s.pcs[u])
    && (forall i :: i in s.iters && s.iters[i].owner != t ==>
          i in s'.iters && s'.iters[i].owner == s.iters[i].owner && s'.iters[i].open == s.iters[i].open)
    && (forall u :: u in s.pcs && u != t && PastDrain(s.pcs[u]) && NoHolder(s, s.pcs[u].stage.node) ==>
          NoHolder(s', s.pcs[u].stage.node))
  }

  lemma OtherCallsKept(s: State, s': State, t: Tid)
    requires PcsOk(s) && OthersUntouched(s, s', t)
    ensures forall u :: u in s'.pcs && u != t ==> PcOk(s', u, s'.pcs[u])
  {
    forall u | u in s'.pcs && u != t ensures PcOk(s', u, s'.pcs[u]) { assert PcOk(s, u, s.pcs[u]); }
  }

  /** Iterators keep their entries when the table stays the same and no destructor moves. */
  lemma ItersKept(s: State, s': State, t: Tid)
    requires ItersOk(s) && s'.contents == s.contents && s'.iters == s.iters
    requires forall u :: u in s.pcs && u != t ==> u in s'.pcs && s'.pcs[u] == s.pcs[u]
    requires t in s.pcs ==> !s.pcs[t].op.Destroy?
    ensures ItersOk(s')
  {
    forall i | i in s'.iters ensures IterOk(s', i) { assert IterOk(s, i); }
  }

  /** A step that only moves one call, without gaining or losing a lock. */
  lemma MoveLocks(s: State, s': State, t: Tid, pc: Pc)
    requires LocksMatch(s) && Exclusion(s) && t in s.pcs
    requires pc.op == s.pcs[t].op && HoldsMap(pc) == HoldsMap(s.pcs[t]) && NodeHeld(pc) == NodeHeld(s.pcs[t])
    requires s'.pcs == s.pcs[t := pc]
    requires s'.locks == s.locks && s'.handles == s.handles && s'.iters == s.iters
    ensures LocksMatch(s') && Exclusion(s')
  {
    forall tk ensures LockMatches(s', tk) { assert LockMatches(s, tk); }
  }

  lemma InvokeLocks(s: State, t: Tid, op: Op)
    requires LocksMatch(s) && Exclusion(s) && CanInvoke(s, t, op)
    ensures LocksMatch(DoInvoke(s, t, op)) && Exclusion(DoInvoke(s, t, op))
  {
    var s' := DoInvoke(s, t, op);
    forall tk ensures LockMatches(s', tk) { assert LockMatches(s, tk); }
  }

  lemma InvokedOk(s: State, t: Tid, op: Op)
    requires ItersOk(s) && CanInvoke(s, t, op)
    ensures PcOk(DoInvoke(s, t, op), t, DoInvoke(s, t, op).pcs[t])
  {
    if op.Deref? { assert IterOk(s, op.iter); }
  }

  lemma InvokeKeeps(s: State, t: Tid, op: Op)
    requires Inv(s) && CanInvoke(s, t, op)
    ensures Inv(DoInvoke(s, t, op))
  {
    var s' := DoInvoke(s, t, op);
    InvokeLocks(s, t, op);
    OtherCallsKept(s, s', t);
    ItersKept(s, s', t);
    InvokedOk(s, t, op);
  }

  lemma LockMapLocks(s: State, t: Tid)
    requires LocksMatch(s) && Exclusion(s) && CanLockMap(s, t) && PcOk(s, t, s.pcs[t])
    ensures LocksMatch(DoLockMap(s, t)) && Exclusion(DoLockMap(s, t))
  {
    var s' := DoLockMap(s, t);
    forall tk ensures LockMatches(s', tk) { assert LockMatches(s, tk); }
  }

  lemma LockMapKeeps(s: State, t: Tid)
    requires Inv(s) && CanLockMap(s, t)
    ensures Inv(DoLockMap(s, t))
  {
    var s' := DoLockMap(s, t);
    assert PcOk(s, t, s.pcs[t]);
    LockMapLocks(s, t);
    OtherCallsKept(s, s', t);
    ItersKept(s, s', t);
  }

  lemma BeginLocks(s: State, t: Tid, i: IterId, order: seq<Entry>)
    requires LocksMatch(s) && Exclusion(s) && CanBegin(s, t, i, order)
    ensures LocksMatch(DoBegin(s, t, i, order)) && Exclusion(DoBegin(s, t, i, order))
  {
    forall tk ensures LockMatches(DoBegin(s, t, i, order), tk) { assert LockMatches(s, tk); }
  }

  lemma BeginIterKeeps(s: State, t: Tid, i: IterId, order: seq<Entry>)
    requires Inv(s) && CanBegin(s, t, i, order)
    ensures Inv(DoBegin(s, t, i, order))
  {
    var s' := DoBegin(s, t, i, order);
    BeginLocks(s, t, i, order);
    OtherCallsKept(s, s', t);
    forall j | j in s'.iters ensures IterOk(s', j) { if j != i { assert IterOk(s, j); } }
  }

  lemma FindKeeps(s: State, t: Tid)
    requires Inv(s) && CanFind(s, t)
    ensures Inv(DoFind(s, t))
  {
    var s' := DoFind(s, t);
    MoveLocks(s, s', t, s'.pcs[t]);
    OtherCallsKept(s, s', t);
    ItersKept(s, s', t);
  }

  lemma MissKeeps(s: State, t: Tid)
    requires Inv(s) && CanMiss(s, t)
    ensures Inv(DoMiss(s, t))
  {
    var s' := DoMiss(s, t);
    MoveLocks(s, s', t, s'.pcs[t]);
    OtherCallsKept(s, s', t);
    ItersKept(s, s', t);
  }

  /** Inserting happens under the exclusive map mutex, when nobody else relies on the table. */
  lemma InsertOthers(s: State, t: Tid, n: NodeId)
    requires PcsOk(s) && ItersOk(s) && CanInsert(s, t, n)
    requires forall u :: u in s.pcs && u != t ==> !HoldsMap(s.pcs[u])
    requires forall i :: i in s.iters ==> !s.iters[i].open
    ensures var s' := DoInsert(s, t, n);
      ItersOk(s') && forall u :: u in s'.pcs && u != t ==> PcOk(s', u, s'.pcs[u])
  {
    var s' := DoInsert(s, t, n);
    forall i | i in s'.iters ensures IterOk(s', i) { assert IterOk(s, i); }
    forall u | u in s'.pcs && u != t ensures PcOk(s', u, s'.pcs[u]) { assert PcOk(s, u, s.pcs[u]); }
  }

  lemma InsertKeeps(s: State, t: Tid, n: NodeId)
    requires Inv(s) && CanInsert(s, t, n)
    ensures Inv(DoInsert(s, t, n))
  {
    var s' := DoInsert(s, t, n);
    MapToItself(s, t);
    MoveLocks(s, s', t, s'.pcs[t]);
    InsertOthers(s, t, n);
  }

  /** While some thread waits for a node mutex, no RemoveIf is past its drain. */
  lemma NoDrainBesideWaiter(s: State, t: Tid)
    requires Inv(s) && t in s.pcs && s.pcs[t].stage.WantNode?
    ensures forall u :: u in s.pcs ==> !PastDrain(s.pcs[u])
  {
    assert PcOk(s, t, s.pcs[t]);
    forall u | u in s.pcs ensures !PastDrain(s.pcs[u]) {
      assert PcOk(s, u, s.pcs[u]);
      if u != t && HoldsMap(s.pcs[u]) && MapMode(s.pcs[u].op) == Exclusive { MapToItself(s, u); }
    }
  }

  lemma LockNodeLocks(s: State, t: Tid)
    requires LocksMatch(s) && Exclusion(s) && CanLockNode(s, t) && PcOk(s, t, s.pcs[t])
    ensures LocksMatch(DoLockNode(s, t)) && Exclusion(DoLockNode(s, t))
  {
    var s' := DoLockNode(s, t);
    forall tk ensures LockMatches(s', tk) { assert LockMatches(s, tk); }
  }

  lemma LockNodeKeeps(s: State, t: Tid)
    requires Inv(s) && CanLockNode(s, t)
    ensures Inv(DoLockNode(s, t))
  {
    var s' := DoLockNode(s, t);
    assert PcOk(s, t, s.pcs[t]);
    LockNodeLocks(s, t);
    NoDrainBesideWaiter(s, t);
    OtherCallsKept(s, s', t);
    ItersKept(s, s', t);
  }

  lemma LockDrainLocks(s: State, t: Tid)
    requires LocksMatch(s) && Exclusion(s) && CanLockDrain(s, t) && PcOk(s, t, s.pcs[t])
    ensures LocksMatch(DoLockDrain(s, t)) && Exclusion(DoLockDrain(s, t))
  {
    var s' := DoLockDrain(s, t);
    forall tk ensures LockMatches(s', tk) { assert LockMatches(s, tk); }
  }

  lemma LockDrainKeeps(s: State, t: Tid)
    requires Inv(s) && CanLockDrain(s, t)
    ensures Inv(DoLockDrain(s, t))
  {
    var s' := DoLockDrain(s, t);
    assert PcOk(s, t, s.pcs[t]);
    LockDrainLocks(s, t);
    NoDrainBesideWaiter(s, t);
    OtherCallsKept(s, s', t);
    ItersKept(s, s', t);
  }

  lemma DrainLocks(s: State, t: Tid)
    requires LocksMatch(s) && Exclusion(s) && CanDrain(s, t)
    ensures LocksMatch(DoDrain(s, t)) && Exclusion(DoDrain(s, t))
  {
    var s' := DoDrain(s, t);
    forall tk ensures LockMatches(s', tk) { assert LockMatches(s, tk); }
  }

  lemma DrainKeeps(s: State, t: Tid)
    requires Inv(s) && CanDrain(s, t)
    ensures Inv(DoDrain(s, t))
  {
    var s' := DoDrain(s, t);
    assert PcOk(s, t, s.pcs[t]);
    assert LockMatches(s, CallNode(t));
    DrainLocks(s, t);
    // The lock just released was exclusive, so nobody else was inside.
    assert NoHolder(s', s.pcs[t].stage.node);
    OtherCallsKept(s, s', t);
    ItersKept(s, s', t);
  }

  lemma AcceptKeeps(s: State, t: Tid)
    requires Inv(s) && CanAccept(s, t)
    ensures Inv(DoAccept(s, t))
  {
    var s' := DoAccept(s, t);
    assert PcOk(s, t, s.pcs[t]);
    MoveLocks(s, s', t, s'.pcs[t]);
    OtherCallsKept(s, s', t);
    ItersKept(s, s', t);
  }

  lemma RejectKeeps(s: State, t: Tid)
    requires Inv(s) && CanReject(s, t)
    ensures Inv(DoReject(s, t))
  {
    var s' := DoReject(s, t);
    MoveLocks(s, s', t, s'.pcs[t]);
    OtherCallsKept(s, s', t);
    ItersKept(s, s', t);
  }

  /** Erasing removes no entry that a handle, an iterator element or another call refers to. */
  lemma EraseOthers(s: State, t: Tid)
    requires Inv(s) && CanErase(s, t)
    ensures var s' := DoErase(s, t);
      && HandlesOk(s') && ItersOk(s')
      && forall u :: u in s'.pcs && u != t ==> PcOk(s', u, s'.pcs[u])
  {
    var s' := DoErase(s, t);
    assert PcOk(s, t, s.pcs[t]);
    MapToItself(s, t);
    forall i | i in s'.iters ensures IterOk(s', i) {
      assert IterOk(s, i) && LockMatches(s, IterNode(i));
    }
    forall u | u in s'.pcs && u != t ensures PcOk(s', u, s'.pcs[u]) { assert PcOk(s, u, s.pcs[u]); }
    forall h | h in s'.handles ensures Live(s', s'.handles[h].key, s'.handles[h].node) {
      assert LockMatches(s, HandleLock(h));
    }
  }

  lemma EraseKeeps(s: State, t: Tid)
    requires Inv(s) && CanErase(s, t)
    ensures Inv(DoErase(s, t))
  {
    var s' := DoErase(s, t);
    assert PcOk(s, t, s.pcs[t]);
    MoveLocks(s, s', t, s'.pcs[t]);
    EraseOthers(s, t);
  }

  lemma ReturnBareLocks(s: State, t: Tid)
    requires LocksMatch(s) && Exclusion(s) && CanReturnBare(s, t)
    ensures LocksMatch(DoReturnBare(s, t)) && Exclusion(DoReturnBare(s, t))
  {
    var s' := DoReturnBare(s, t);
    forall tk ensures LockMatches(s', tk) { assert LockMatches(s, tk); }
  }

  lemma ReturnBareKeeps(s: State, t: Tid)
    requires Inv(s) && CanReturnBare(s, t)
    ensures Inv(DoReturnBare(s, t))
  {
    var s' := DoReturnBare(s, t);
    ReturnBareLocks(s, t);
    OtherCallsKept(s, s', t);
    ItersKept(s, s', t);
  }

  lemma ReturnHandleLocks(s: State, t: Tid, h: HandleId)
    requires LocksMatch(s) && Exclusion(s) && CanReturnHandle(s, t, h)
    ensures LocksMatch(DoReturnHandle(s, t, h)) && Exclusion(DoReturnHandle(s, t, h))
    ensures forall n :: NoHolder(s, n) ==> NoHolder(DoReturnHandle(s, t, h), n)
  {
    var s' := DoReturnHandle(s, t, h);
    assert LockMatches(s, CallNode(t));
    forall tk ensures LockMatches(s', tk) { assert LockMatches(s, tk); }
  }

  lemma ReturnHandleKeeps(s: State, t: Tid, h: HandleId)
    requires Inv(s) && CanReturnHandle(s, t, h)
    ensures Inv(DoReturnHandle(s, t, h))
  {
    var s' := DoReturnHandle(s, t, h);
    assert PcOk(s, t, s.pcs[t]);
    ReturnHandleLocks(s, t, h);
    OtherCallsKept(s, s', t);
    ItersKept(s, s', t);
  }

  lemma ReturnElementLocks(s: State, t: Tid)
    requires LocksMatch(s) && Exclusion(s) && CanReturnElement(s, t)
    ensures LocksMatch(DoReturnElement(s, t)) && Exclusion(DoReturnElement(s, t))
    ensures forall n :: NoHolder(s, n) ==> NoHolder(DoReturnElement(s, t), n)
  {
    var s' := DoReturnElement(s, t);
    assert LockMatches(s, CallNode(t));
    forall tk ensures LockMatches(s', tk) { assert LockMatches(s, tk); }
  }

  lemma ReturnElementIters(s: State, t: Tid)
    requires ItersOk(s) && CanReturnElement(s, t) && PcOk(s, t, s.pcs[t])
    ensures ItersOk(DoReturnElement(s, t))
  {
    var s' := DoReturnElement(s, t);
    forall i | i in s'.iters ensures IterOk(s', i) { assert IterOk(s, i); }
  }

  lemma ReturnElementKeeps(s: State, t: Tid)
    requires Inv(s) && CanReturnElement(s, t)
    ensures Inv(DoReturnElement(s, t))
  {
    var s' := DoReturnElement(s, t);
    assert PcOk(s, t, s.pcs[t]);
    ReturnElementLocks(s, t);
    ReturnElementIters(s, t);
    OtherCallsKept(s, s', t);
  }

  lemma DropMapLocks(s: State, t: Tid)
    requires LocksMatch(s) && Exclusion(s) && CanDropMap(s, t)
    ensures LocksMatch(DoDropMap(s, t)) && Exclusion(DoDropMap(s, t))
  {
    forall tk ensures LockMatches(DoDropMap(s, t), tk) { assert LockMatches(s, tk); }
  }

  lemma DropMapIters(s: State, t: Tid)
    requires ItersOk(s) && CanDropMap(s, t) && PcOk(s, t, s.pcs[t])
    ensures ItersOk(DoDropMap(s, t))
  {
    var s' := DoDropMap(s, t);
    forall i | i in s'.iters ensures IterOk(s', i) { assert IterOk(s, i); }
  }

  lemma DropIterMapKeeps(s: State, t: Tid)
    requires Inv(s) && CanDropMap(s, t)
    ensures Inv(DoDropMap(s, t))
  {
    var s' := DoDropMap(s, t);
    assert PcOk(s, t, s.pcs[t]);
    DropMapLocks(s, t);
    DropMapIters(s, t);
    OtherCallsKept(s, s', t);
  }

  lemma DropNodeLocks(s: State, t: Tid)
    requires LocksMatch(s) && Exclusion(s) && CanDropNode(s, t) && PcOk(s, t, s.pcs[t])
    ensures LocksMatch(DoDropNode(s, t)) && Exclusion(DoDropNode(s, t))
  {
    var s' := DoDropNode(s, t);
    forall tk ensures LockMatches(s', tk) { assert LockMatches(s, tk); }
  }

  lemma DropIterNodeKeeps(s: State, t: Tid)
    requires Inv(s) && CanDropNode(s, t)
    ensures Inv(DoDropNode(s, t))
  {
    var s' := DoDropNode(s, t);
    assert PcOk(s, t, s.pcs[t]);
    DropNodeLocks(s, t);
    OtherCallsKept(s, s', t);
    forall i | i in s'.iters ensures IterOk(s', i) { assert IterOk(s, i); }
  }

  lemma AdvanceLocks(s: State, t: Tid, i: IterId)
    requires LocksMatch(s) && Exclusion(s) && CanAdvance(s, t, i)
    ensures LocksMatch(DoAdvance(s, i)) && Exclusion(DoAdvance(s, i))
  {
    var s' := DoAdvance(s, i);
    forall tk ensures LockMatches(s', tk) { assert LockMatches(s, tk); }
  }

  lemma AdvanceKeeps(s: State, t: Tid, i: IterId)
    requires Inv(s) && CanAdvance(s, t, i)
    ensures Inv(DoAdvance(s, i))
  {
    var s' := DoAdvance(s, i);
    AdvanceLocks(s, t, i);
    forall j | j in s'.iters ensures IterOk(s', j) { assert IterOk(s, j); }
    OtherCallsKept(s, s', t);
  }

  lemma ReleaseCurLocks(s: State, t: Tid, i: IterId)
    requires LocksMatch(s) && Exclusion(s) && CanReleaseCur(s, t, i)
    ensures LocksMatch(DoReleaseCur(s, i)) && Exclusion(DoReleaseCur(s, i))
  {
    var s' := DoReleaseCur(s, i);
    forall tk ensures LockMatches(s', tk) { assert LockMatches(s, tk); }
  }

  lemma ReleaseCurKeeps(s: State, t: Tid, i: IterId)
    requires Inv(s) && CanReleaseCur(s, t, i)
    ensures Inv(DoReleaseCur(s, i))
  {
    var s' := DoReleaseCur(s, i);
    ReleaseCurLocks(s, t, i);
    forall j | j in s'.iters ensures IterOk(s', j) { assert IterOk(s, j); }
    OtherCallsKept(s, s', t);
  }

  lemma ReleaseLocks(s: State, t: Tid, h: HandleId)
    requires LocksMatch(s) && Exclusion(s) && CanRelease(s, t, h)
    ensures LocksMatch(DoRelease(s, h)) && Exclusion(DoRelease(s, h))
  {
    var s' := DoRelease(s, h);
    forall tk ensures LockMatches(s', tk) { assert LockMatches(s, tk); }
  }

  lemma ReleaseKeeps(s: State, t: Tid, h: HandleId)
    requires Inv(s) && CanRelease(s, t, h)
    ensures Inv(DoRelease(s, h))
  {
    var s' := DoRelease(s, h);
    ReleaseLocks(s, t, h);
    forall j | j in s'.iters ensures IterOk(s', j) { assert IterOk(s, j); }
    OtherCallsKept(s, s', t);
  }

  lemma WriteLocks(s: State, t: Tid, h: HandleId, v: Value)
    requires LocksMatch(s) && Exclusion(s) && CanWrite(s, t, h)
    ensures LocksMatch(DoWrite(s, t, h, v)) && Exclusion(DoWrite(s, t, h, v))
  {
    var s' := DoWrite(s, t, h, v);
    forall tk ensures LockMatches(s', tk) { assert LockMatches(s, tk); }
  }

  /** A write goes through an exclusive handle, so never to a node some RemoveIf has drained. */
  lemma WriteKeeps(s: State, t: Tid, h: HandleId, v: Value)
    requires Inv(s) && CanWrite(s, t, h)
    ensures Inv(DoWrite(s, t, h, v))
  {
    var s' := DoWrite(s, t, h, v);
    assert LockMatches(s, HandleLock(h));
    WriteLocks(s, t, h, v);
    forall j | j in s'.iters ensures IterOk(s', j) { assert IterOk(s, j); }
    forall u | u in s'.pcs ensures PcOk(s', u, s'.pcs[u]) { assert PcOk(s, u, s.pcs[u]); }
  }

  lemma ReadLocks(s: State, t: Tid, h: HandleId)
    requires LocksMatch(s) && Exclusion(s) && CanRead(s, t, h)
    ensures LocksMatch(DoRead(s, t, h)) && Exclusion(DoRead(s, t, h))
  {
    var s' := DoRead(s, t, h);
    forall tk ensures LockMatches(s', tk) { assert LockMatches(s, tk); }
  }

  lemma ReadKeeps(s: State, t: Tid, h: HandleId)
    requires Inv(s) && CanRead(s, t, h)
    ensures Inv(DoRead(s, t, h))
  {
    var s' := DoRead(s, t, h);
    ReadLocks(s, t, h);
    forall j | j in s'.iters ensures IterOk(s', j) { assert IterOk(s, j); }
    OtherCallsKept(s, s', t);
  }

  lemma TakeLocks(s: State, t: Tid, i: IterId, h: HandleId)
    requires LocksMatch(s) && Exclusion(s) && CanTake(s, t, i, h)
    ensures LocksMatch(DoTake(s, t, i, h)) && Exclusion(DoTake(s, t, i, h))
    ensures forall n :: NoHolder(s, n) ==> NoHolder(DoTake(s, t, i, h), n)
  {
    var s' := DoTake(s, t, i, h);
    assert LockMatches(s, IterNode(i));
    forall tk ensures LockMatches(s', tk) { assert LockMatches(s, tk); }
  }

  lemma TakeKeeps(s: State, t: Tid, i: IterId, h: HandleId)
    requires Inv(s) && CanTake(s, t, i, h)
    ensures Inv(DoTake(s, t, i, h))
  {
    var s' := DoTake(s, t, i, h);
    assert IterOk(s, i);
    TakeLocks(s, t, i, h);
    forall j | j in s'.iters ensures IterOk(s', j) { assert IterOk(s, j); }
    OtherCallsKept(s, s', t);
  }

  lemma EarlyStepKeeps(s: State, l: Label)
    requires Inv(s) && EnabledEarly(s, l)
    ensures Inv(ApplyEarly(s, l))
  {
    match l
    case Invoke(t, op) => InvokeKeeps(s, t, op);
    case LockMap(t) => LockMapKeeps(s, t);
    case BeginIter(t, i, order) => BeginIterKeeps(s, t, i, order);
    case Find(t) => FindKeeps(s, t);
    case Insert(t, n) => InsertKeeps(s, t, n);
    case Miss(t) => MissKeeps(s, t);
    case LockNode(t) => LockNodeKeeps(s, t);
    case LockDrain(t) => LockDrainKeeps(s, t);
  }

  lemma LateStepKeeps(s: State, l: Label)
    requires Inv(s) && EnabledLate(s, l)
    ensures Inv(ApplyLate(s, l))
  {
    match l
    case Drain(t) => DrainKeeps(s, t);
    case Accept(t) => AcceptKeeps(s, t);
    case Reject(t) => RejectKeeps(s, t);
    case Erase(t) => EraseKeeps(s, t);
    case ReturnBare(t) => ReturnBareKeeps(s, t);
    case ReturnHandle(t, h) => ReturnHandleKeeps(s, t, h);
    case ReturnElement(t) => ReturnElementKeeps(s, t);
    case DropIterMap(t) => DropIterMapKeeps(s, t);
    case DropIterNode(t) => DropIterNodeKeeps(s, t);
  }

  lemma StepBetweenKeeps(s: State, l: Label)
    requires Inv(s) && EnabledBetween(s, l)
    ensures Inv(ApplyBetween(s, l))
  {
    match l
    case Advance(t, i) => AdvanceKeeps(s, t, i);
    case ReleaseCur(t, i) => ReleaseCurKeeps(s, t, i);
    case TakeElement(t, i, h) => TakeKeeps(s, t, i, h);
    case Release(t, h) => ReleaseKeeps(s, t, h);
    case Read(t, h) => ReadKeeps(s, t, h);
    case Write(t, h, v) => WriteKeeps(s, t, h, v);
  }

  lemma StepKeeps(s: State, l: Label)
    requires Inv(s) && Enabled(s, l)
    ensures Inv(Apply(s, l))
  {
    if BetweenCalls(l) {
      StepBetweenKeeps(s, l);
    } else if EarlyStep(l) {
      EarlyStepKeeps(s, l);
    } else {
      LateStepKeeps(s, l);
    }
  }

  /** Every state of every run satisfies the invariant. */
  lemma {:induction false} ReachableInv(run: seq<Label>)
    requires Exec(run).Some?
    ensures Inv(Exec(run).value)
  {
    if run != [] {
      var before := run[..|run| - 1];
      ReachableInv(before);
      StepKeeps(Exec(before).value, run[|run| - 1]);
    }
  }

  /* ---------- what users of the map rely on ---------- */

  ghost predicate Erased(s: State, n: NodeId) {
    n in s.nodes && forall k :: k in s.contents ==> s.contents[k] != n
  }

  /** No lock object holds an erased node's mutex, and no call refers to the node. */
  ghost predicate Abandoned(s: State, n: NodeId) {
    && NoHolder(s, n)
    && (forall t :: t in s.pcs && s.pcs[t].stage.WantNode? ==> s.pcs[t].stage.node != n)
    && (forall t :: t in s.pcs && s.pcs[t].stage.Leaving? ==> s.pcs[t].stage.kept != Some(n))
    && (forall h :: h in s.handles ==> s.handles[h].node != n)
    && (forall i :: i in s.iters && s.iters[i].cur.Some? ==> s.iters[i].cur.value.node != n)
    && (forall i, j :: i in s.iters && s.iters[i].open && 0 <= j < |s.iters[i].order| ==>
          s.iters[i].order[j].node != n)
  }

  lemma ErasedNodesAreAbandoned(run: seq<Label>, n: NodeId)
    requires Exec(run).Some? && Erased(Exec(run).value, n)
    ensures Abandoned(Exec(run).value, n)
  {
    var s := Exec(run).value;
    ReachableInv(run);
    forall tk | tk in s.locks ensures s.locks[tk].mutex != NodeMutex(n) {
      assert LockMatches(s, tk);
      match tk
      case CallNode(t) => assert PcOk(s, t, s.pcs[t]);
      case IterNode(i) => assert IterOk(s, i);
      case _ =>
    }
    forall t | t in s.pcs
      ensures s.pcs[t].stage.WantNode? ==> s.pcs[t].stage.node != n
      ensures s.pcs[t].stage.Leaving? ==> s.pcs[t].stage.kept != Some(n)
    {
      assert PcOk(s, t, s.pcs[t]);
    }
    forall i | i in s.iters
      ensures s.iters[i].cur.Some? ==> s.iters[i].cur.value.node != n
      ensures s.iters[i].open ==> forall j :: 0 <= j < |s.iters[i].order| ==> s.iters[i].order[j].node != n
    {
      assert IterOk(s, i);
    }
  }

  /** An unreleased handle always refers to the current entry of its key, and a
      mutable handle is the only holder of that entry's mutex. */
  lemma HandlesSeeCurrentEntry(run: seq<Label>, h: HandleId)
    requires Exec(run).Some? && h in Exec(run).value.handles
    ensures var s := Exec(run).value; var hd := s.handles[h];
      && Live(s, hd.key, hd.node) && hd.node in s.nodes && s.nodes[hd.node].key == hd.key
      && HandleLock(h) in s.locks
      && (hd.mode == Exclusive ==>
            forall tk :: tk in s.locks && tk != HandleLock(h) ==> s.locks[tk].mutex != NodeMutex(hd.node))
  {
    var s := Exec(run).value;
    ReachableInv(run);
    assert LockMatches(s, HandleLock(h));
  }

  /** An iterator that is still open walks exactly the entries the table holds now. */
  lemma OpenIteratorsListTheTable(run: seq<Label>, i: IterId)
    requires Exec(run).Some? && i in Exec(run).value.iters && Exec(run).value.iters[i].open
    ensures var s := Exec(run).value;
      Enumerates(s.iters[i].order, s.contents) && s.iters[i].pos <= |s.iters[i].order|
  {
    var s := Exec(run).value;
    ReachableInv(run);
    assert IterOk(s, i);
  }
}
