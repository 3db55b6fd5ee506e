/**
 Who may use the locking map at the same time: readers wait only for writers, waiting for
 an entry is waiting for a holder of the same key, and what a thread holds it can use.
 */
module HashMapSharing {
  import opened Status
  import opened HashMapProtocol
  import opened HashMapSafety
  import opened HashMapProgress

  /** CGet, begin() and the operations of iterators. */
  predicate Reads(op: Op) {
    match op
    case Get(_, mode) => mode.Shared?
    case Put(_, _) => false
    case RemoveIf(_, _) => false
    case _ => true
  }

  /** The operations that may change the table. */
  predicate ChangesMap(op: Op) {
    op.Put? || op.RemoveIf?
  }

  /** The operation whose call returned handle `h`; None when it came out of an iterator. */
  ghost function Origin(run: seq<Label>, h: HandleId): Option<Op> {
    if run == [] then None
    else
      var before, l := run[..|run| - 1], run[|run| - 1];
      if l.ReturnHandle? && l.h == h && Exec(before).Some? && l.t in Exec(before).value.pcs
      then Some(Exec(before).value.pcs[l.t].op)
      else if l.TakeElement? && l.h == h then None
      else Origin(before, h)
  }

  /* ---------- where handles come from ---------- */

  /** A handle that is there after a step was there before, or the step handed it out. */
  ghost predicate HandedOut(s: State, s': State, l: Label, h: HandleId) {
    h in s'.handles ==>
      if l.ReturnHandle? && l.h == h then l.t in s.pcs && s'.handles[h].mode == NodeMode(s.pcs[l.t].op)
      else if l.TakeElement? && l.h == h then s'.handles[h].mode == Shared
      else h in s.handles && s'.handles[h] == s.handles[h]
  }

  lemma EarlyStepHandsOut(s: State, l: Label, h: HandleId)
    requires EnabledEarly(s, l)
    ensures HandedOut(s, ApplyEarly(s, l), l, h)
  {
  }

  lemma LateStepHandsOut(s: State, l: Label, h: HandleId)
    requires EnabledLate(s, l)
    ensures HandedOut(s, ApplyLate(s, l), l, h)
  {
  }

  lemma StepBetweenHandsOut(s: State, l: Label, h: HandleId)
    requires EnabledBetween(s, l)
    ensures HandedOut(s, ApplyBetween(s, l), l, h)
  {
  }

  lemma StepHandsOut(s: State, l: Label, h: HandleId)
    requires Enabled(s, l)
    ensures HandedOut(s, Apply(s, l), l, h)
  {
    if BetweenCalls(l) {
      StepBetweenHandsOut(s, l, h);
    } else if EarlyStep(l) {
      EarlyStepHandsOut(s, l, h);
    } else {
      LateStepHandsOut(s, l, h);
    }
  }

  /** In every run a handle is mutable exactly when the operation that returned it does not read only. */
  lemma {:induction false} MutableFromWriters(run: seq<Label>, h: HandleId)
    requires Exec(run).Some? && h in Exec(run).value.handles
    ensures Exec(run).value.handles[h].mode == Exclusive <==> Origin(run, h).Some? && !Reads(Origin(run, h).value)
  {
    if run != [] {
      var before, l := run[..|run| - 1], run[|run| - 1];
      StepHandsOut(Exec(before).value, l, h);
      if !(l.ReturnHandle? && l.h == h) && !(l.TakeElement? && l.h == h) { MutableFromWriters(before, h); }
    }
  }

  /* ---------- whom a reader waits for ---------- */

  /** The lock object belongs to a call that may change the map or the entry, or to a handle that such a call returned. */
  ghost predicate OfWriter(run: seq<Label>, s: State, tk: Ticket) {
    match tk
    case CallMap(u) => u in s.pcs && ChangesMap(s.pcs[u].op)
    case CallNode(u) => u in s.pcs && !Reads(s.pcs[u].op)
    case HandleLock(h) => Origin(run, h).Some? && !Reads(Origin(run, h).value)
    case _ => false
  }

  /** In every run, whatever blocks a reader belongs to a writer: concurrent reads do not block. */
  lemma ReadersWaitOnlyForWriters(run: seq<Label>, t: Tid, tk: Ticket)
    requires Exec(run).Some? && Blocks(Exec(run).value, t, tk) && Reads(Exec(run).value.pcs[t].op)
    ensures OfWriter(run, Exec(run).value, tk)
  {
    var s := Exec(run).value;
    ReachableInv(run);
    assert LockMatches(s, tk) && PcOk(s, t, s.pcs[t]);
    match tk
    case CallNode(u) => assert PcOk(s, u, s.pcs[u]);
    case HandleLock(h) => MutableFromWriters(run, h);
    case _ =>
  }

  /* ---------- separate keys ---------- */

  /** The key of the entry that a lock object on a node belongs to. */
  ghost predicate LocksKey(s: State, tk: Ticket, k: Key) {
    match tk
    case CallNode(u) => u in s.pcs && (Keyed(s.pcs[u].op) || s.pcs[u].op.Deref?) && s.pcs[u].op.key == k
    case HandleLock(h) => h in s.handles && s.handles[h].key == k
    case IterNode(i) => i in s.iters && s.iters[i].cur.Some? && s.iters[i].cur.value.key == k
    case _ => false
  }

  lemma OneKeyPerNode(s: State, k: Key, j: Key, n: NodeId)
    requires ContentsOk(s) && Live(s, k, n) && Live(s, j, n)
    ensures k == j
  {
  }

  /** In every run, a call that waits for the entry of a key is blocked only by holders of that
      key's entry: values of separate keys can be used at the same time. */
  lemma SeparateKeysDoNotBlock(run: seq<Label>, t: Tid, tk: Ticket)
    requires Exec(run).Some? && Blocks(Exec(run).value, t, tk) && Exec(run).value.pcs[t].stage.WantNode?
    ensures Keyed(Exec(run).value.pcs[t].op) || Exec(run).value.pcs[t].op.Deref?
    ensures LocksKey(Exec(run).value, tk, Exec(run).value.pcs[t].op.key)
  {
    var s := Exec(run).value;
    ReachableInv(run);
    assert PcOk(s, t, s.pcs[t]) && LockMatches(s, tk);
    var k, n := s.pcs[t].op.key, s.pcs[t].stage.node;
    match tk
    case CallNode(u) =>
      assert PcOk(s, u, s.pcs[u]);
      OneKeyPerNode(s, k, s.pcs[u].op.key, n);
    case HandleLock(h) => OneKeyPerNode(s, k, s.handles[h].key, n);
    case IterNode(i) =>
      assert IterOk(s, i);
      OneKeyPerNode(s, k, s.iters[i].cur.value.key, n);
  }

  /* ---------- what one holds can be used ---------- */

  lemma HeldHandleWorks(s: State, t: Tid, h: HandleId, v: Value)
    requires t !in s.pcs && OwnsHandle(s, t, h) && s.handles[h].node in s.nodes
    ensures Enabled(s, Read(t, h)) && Enabled(s, Release(t, h))
    ensures Enabled(s, Write(t, h, v)) <==> s.handles[h].mode.Exclusive?
  {
    assert CanRead(s, t, h) && CanRelease(s, t, h);
  }

  /** In every run a thread outside any call can read through each of its handles and release it,
      and can write through it exactly when a writer returned it. */
  lemma OwnersCanUse(run: seq<Label>, t: Tid, h: HandleId, v: Value)
    requires Exec(run).Some? && t !in Exec(run).value.pcs && OwnsHandle(Exec(run).value, t, h)
    ensures Enabled(Exec(run).value, Read(t, h)) && Enabled(Exec(run).value, Release(t, h))
    ensures Enabled(Exec(run).value, Write(t, h, v)) <==> Origin(run, h).Some? && !Reads(Origin(run, h).value)
  {
    HandlesSeeCurrentEntry(run, h);
    MutableFromWriters(run, h);
    HeldHandleWorks(Exec(run).value, t, h, v);
  }
}
