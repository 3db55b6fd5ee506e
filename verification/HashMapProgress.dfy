/**
 Deadlock freedom of the per-key locking map.

 A pending call cannot step exactly when some lock object blocks it, and it then
 waits for the thread that holds the object.  A set of threads is deadlocked when
 each of its members waits for a member, and it then stays so forever.  When threads start map
 operations empty-handed, a chain of waiting threads never exceeds three waits, so
 no set of threads is ever deadlocked, whatever the other threads do.
 */
module HashMapProgress {
  import opened Status
  import opened HashMapProtocol
  import opened HashMapSafety

  /* ---------- who waits for whom ---------- */

  ghost predicate CanStep(s: State, t: Tid) {
    t in s.pcs && exists l :: Enabled(s, l) && l.t == t
  }

  /** The lock that a pending call asks for next. */
  function Wanted(pc: Pc): Option<Held> {
    if pc.stage.WantMap? then Some(Held(MapMutex, MapMode(pc.op)))
    else if pc.stage.WantNode? then Some(Held(NodeMutex(pc.stage.node), NodeMode(pc.op)))
    else None
  }

  predicate Waiting(s: State, t: Tid) {
    t in s.pcs && Wanted(s.pcs[t]).Some?
  }

  /** The lock object clashes with what the call of `t` asks for. */
  predicate Blocks(s: State, t: Tid, tk: Ticket) {
    && Waiting(s, t) && tk in s.locks && s.locks[tk].mutex == Wanted(s.pcs[t]).value.mutex
    && !(s.locks[tk].mode == Shared && Wanted(s.pcs[t]).value.mode == Shared)
  }

  predicate HeldBy(s: State, tk: Ticket, u: Tid) {
    match tk
    case CallMap(t) => t == u
    case CallNode(t) => t == u
    case HandleLock(h) => OwnsHandle(s, u, h)
    case IterMap(i) => i in s.iters && s.iters[i].owner == u
    case IterNode(i) => i in s.iters && s.iters[i].owner == u
  }

  ghost predicate WaitsFor(s: State, t: Tid, u: Tid) {
    exists tk :: Blocks(s, t, tk) && HeldBy(s, tk, u)
  }

  ghost predicate WaitsWithin(s: State, t: Tid, threads: set<Tid>) {
    exists u :: u in threads && WaitsFor(s, t, u)
  }

  ghost predicate DeadlockedSet(s: State, threads: set<Tid>) {
    threads != {} && forall t {:trigger WaitsWithin(s, t, threads)} :: t in threads ==> WaitsWithin(s, t, threads)
  }

  /** Every thread of the chain but the last waits for the next one. */
  ghost predicate Chain(s: State, path: seq<Tid>) {
    path != [] && forall i :: 0 <= i < |path| - 1 ==> WaitsFor(s, path[i], path[i + 1])
  }

  /** A thread that nobody keeps from moving: outside any call, or able to step. */
  ghost predicate Free(s: State, u: Tid) {
    u !in s.pcs || CanStep(s, u)
  }

  /* ---------- a call that is not blocked can step ---------- */

  lemma {:induction false} NatBound(xs: set<nat>) returns (b: nat)
    ensures forall x :: x in xs ==> x < b
    decreases |xs|
  {
    if xs == {} {
      b := 0;
    } else {
      var x :| x in xs;
      var c := NatBound(xs - {x});
      b := if c <= x then x + 1 else c;
      forall y | y in xs ensures y < b { if y != x { assert y in xs - {x}; } }
    }
  }

  lemma {:induction false} SomeListing(contents: map<Key, NodeId>) returns (order: seq<Entry>)
    ensures Enumerates(order, contents)
    decreases |contents|
  {
    if contents == map[] {
      order := [];
    } else {
      var k :| k in contents;
      var rest := contents - {k};
      assert |rest.Keys| < |contents.Keys| by { assert rest.Keys == contents.Keys - {k}; }
      var tail := SomeListing(rest);
      order := [Entry(k, contents[k])] + tail;
      forall k' | k' in contents ensures Entry(k', contents[k']) in order {
        if k' != k { assert k' in rest && Entry(k', rest[k']) in tail; }
      }
    }
  }

  lemma Steps(s: State, l: Label)
    requires Enabled(s, l) && l.t in s.pcs
    ensures CanStep(s, l.t)
  {
  }

  lemma RunningCallSteps(s: State, t: Tid)
    requires ContentsOk(s) && t in s.pcs && PcOk(s, t, s.pcs[t]) && !Waiting(s, t)
    ensures CanStep(s, t)
  {
    match s.pcs[t].stage
    case HasMap => LookUpSteps(s, t);
    case HasNode(_) => Steps(s, Drain(t));
    case Drained(n) =>
      if s.pcs[t].op.pred(s.nodes[n].value) { Steps(s, Accept(t)); } else { Steps(s, Reject(t)); }
    case Erasing(_, _) => Steps(s, Erase(t));
    case Leaving(_, _) => LeavingSteps(s, t);
    case DropMap => Steps(s, DropIterMap(t));
    case DropNode => Steps(s, DropIterNode(t));
  }

  lemma LookUpSteps(s: State, t: Tid)
    requires t in s.pcs && PcOk(s, t, s.pcs[t]) && s.pcs[t].stage.HasMap?
    ensures CanStep(s, t)
  {
    if s.pcs[t].op.key in s.contents {
      Steps(s, Find(t));
    } else if s.pcs[t].op.Put? {
      var n := NatBound(s.nodes.Keys);
      assert n !in s.nodes.Keys;
      Steps(s, Insert(t, n));
    } else {
      Steps(s, Miss(t));
    }
  }

  lemma LeavingSteps(s: State, t: Tid)
    requires t in s.pcs && PcOk(s, t, s.pcs[t]) && s.pcs[t].stage.Leaving?
    ensures CanStep(s, t)
  {
    if s.pcs[t].op.Deref? {
      Steps(s, ReturnElement(t));
    } else if s.pcs[t].stage.kept.Some? {
      var h := NatBound(s.handles.Keys);
      assert h !in s.handles.Keys;
      Steps(s, ReturnHandle(t, h));
    } else {
      Steps(s, ReturnBare(t));
    }
  }

  lemma MapWaiterSteps(s: State, t: Tid)
    requires t in s.pcs && PcOk(s, t, s.pcs[t]) && s.pcs[t].stage.WantMap?
    requires forall tk :: !Blocks(s, t, tk)
    ensures CanStep(s, t)
  {
    assert Compatible(s, MapMutex, MapMode(s.pcs[t].op)) by {
      forall tk | tk in s.locks && s.locks[tk].mutex == MapMutex
        ensures MapMode(s.pcs[t].op) == Shared && s.locks[tk].mode == Shared
      {
        assert !Blocks(s, t, tk);
      }
    }
    if s.pcs[t].op.Begin? {
      var i := NatBound(s.iters.Keys);
      assert i !in s.iters.Keys;
      var order := SomeListing(s.contents);
      Steps(s, BeginIter(t, i, order));
    } else {
      Steps(s, LockMap(t));
    }
  }

  lemma NodeWaiterSteps(s: State, t: Tid)
    requires ContentsOk(s) && t in s.pcs && PcOk(s, t, s.pcs[t]) && s.pcs[t].stage.WantNode?
    requires forall tk :: !Blocks(s, t, tk)
    ensures CanStep(s, t)
  {
    var n := s.pcs[t].stage.node;
    assert Compatible(s, NodeMutex(n), NodeMode(s.pcs[t].op)) by {
      forall tk | tk in s.locks && s.locks[tk].mutex == NodeMutex(n)
        ensures NodeMode(s.pcs[t].op) == Shared && s.locks[tk].mode == Shared
      {
        assert !Blocks(s, t, tk);
      }
    }
    if s.pcs[t].op.RemoveIf? { Steps(s, LockDrain(t)); } else { Steps(s, LockNode(t)); }
  }

  lemma BlockedCannotStep(s: State, l: Label, tk: Ticket)
    requires Blocks(s, l.t, tk)
    ensures !Enabled(s, l)
  {
  }

  /** A pending call can step exactly when no lock object blocks it. */
  lemma StepsUnlessBlocked(s: State, t: Tid)
    requires Inv(s) && t in s.pcs
    ensures CanStep(s, t) <==> forall tk :: !Blocks(s, t, tk)
  {
    assert PcOk(s, t, s.pcs[t]);
    if forall tk :: !Blocks(s, t, tk) {
      if !Waiting(s, t) {
        RunningCallSteps(s, t);
      } else if s.pcs[t].stage.WantMap? {
        MapWaiterSteps(s, t);
      } else {
        NodeWaiterSteps(s, t);
      }
    } else {
      var tk :| Blocks(s, t, tk);
      forall l: Label | l.t == t ensures !Enabled(s, l) { BlockedCannotStep(s, l, tk); }
    }
  }

  /** Every lock object is held by some thread. */
  lemma HolderOf(s: State, tk: Ticket) returns (u: Tid)
    requires LocksMatch(s) && tk in s.locks
    ensures HeldBy(s, tk, u)
  {
    assert LockMatches(s, tk);
    u := match tk
      case CallMap(t) => t
      case CallNode(t) => t
      case HandleLock(h) => s.handles[h].owner
      case IterMap(i) => s.iters[i].owner
      case IterNode(i) => s.iters[i].owner;
  }

  /* ---------- a deadlock is forever ---------- */

  /** A step of `t` leaves the calls, handles, iterators and locks of all others alone. */
  ghost predicate LeavesOthers(s: State, s': State, t: Tid) {
    && (forall u :: u in s.pcs && u != t ==> u in s'.pcs && s'.pcs[u] == s.pcs[u])
    && (forall h :: h in s.handles && s.handles[h].owner != t ==> h in s'.handles && s'.handles[h] == s.handles[h])
    && (forall i :: i in s.iters && s.iters[i].owner != t ==> i in s'.iters && s'.iters[i] == s.iters[i])
    && (forall tk, u :: tk in s.locks && HeldBy(s, tk, u) && u != t ==> tk in s'.locks && s'.locks[tk] == s.locks[tk])
  }

  /** A step that changes nothing but the call of `t` and that call's own locks. */
  ghost predicate OwnCallOnly(s: State, s': State, t: Tid) {
    && (forall u :: u in s.pcs && u != t ==> u in s'.pcs && s'.pcs[u] == s.pcs[u])
    && s'.handles == s.handles && s'.iters == s.iters
    && (forall tk :: tk in s.locks && tk != CallMap(t) && tk != CallNode(t) ==>
          tk in s'.locks && s'.locks[tk] == s.locks[tk])
  }

  lemma OwnCallLeavesOthers(s: State, s': State, t: Tid)
    requires OwnCallOnly(s, s', t)
    ensures LeavesOthers(s, s', t)
  {
  }

  lemma BeginLeavesOthers(s: State, t: Tid, i: IterId, order: seq<Entry>)
    requires CanBegin(s, t, i, order) && LockMatches(s, IterMap(i))
    ensures LeavesOthers(s, DoBegin(s, t, i, order), t)
  {
  }

  lemma EarlyStepLeavesOthers(s: State, l: Label)
    requires EnabledEarly(s, l) && LocksMatch(s)
    ensures LeavesOthers(s, ApplyEarly(s, l), l.t)
  {
    if l.BeginIter? {
      assert LockMatches(s, IterMap(l.i));
      BeginLeavesOthers(s, l.t, l.i, l.order);
    } else {
      OwnCallLeavesOthers(s, ApplyEarly(s, l), l.t);
    }
  }

  lemma ReturnHandleLeavesOthers(s: State, t: Tid, h: HandleId)
    requires CanReturnHandle(s, t, h) && LockMatches(s, HandleLock(h))
    ensures LeavesOthers(s, DoReturnHandle(s, t, h), t)
  {
  }

  lemma ReturnElementLeavesOthers(s: State, t: Tid)
    requires CanReturnElement(s, t) && PcOk(s, t, s.pcs[t])
    ensures LeavesOthers(s, DoReturnElement(s, t), t)
  {
  }

  lemma DropMapLeavesOthers(s: State, t: Tid)
    requires CanDropMap(s, t) && PcOk(s, t, s.pcs[t])
    ensures LeavesOthers(s, DoDropMap(s, t), t)
  {
  }

  lemma DropNodeLeavesOthers(s: State, t: Tid)
    requires CanDropNode(s, t) && PcOk(s, t, s.pcs[t])
    ensures LeavesOthers(s, DoDropNode(s, t), t)
  {
  }

  lemma LateStepLeavesOthers(s: State, l: Label)
    requires EnabledLate(s, l) && LocksMatch(s) && PcOk(s, l.t, s.pcs[l.t])
    ensures LeavesOthers(s, ApplyLate(s, l), l.t)
  {
    if l.ReturnHandle? {
      assert LockMatches(s, HandleLock(l.h));
      ReturnHandleLeavesOthers(s, l.t, l.h);
    } else if l.ReturnElement? {
      ReturnElementLeavesOthers(s, l.t);
    } else if l.DropIterMap? {
      DropMapLeavesOthers(s, l.t);
    } else if l.DropIterNode? {
      DropNodeLeavesOthers(s, l.t);
    } else {
      OwnCallLeavesOthers(s, ApplyLate(s, l), l.t);
    }
  }

  lemma StepBetweenLeavesOthers(s: State, l: Label)
    requires EnabledBetween(s, l) && LocksMatch(s)
    ensures LeavesOthers(s, ApplyBetween(s, l), l.t)
  {
    if l.TakeElement? { assert LockMatches(s, HandleLock(l.h)); }
  }

  lemma StepLeavesOthers(s: State, l: Label)
    requires Inv(s) && Enabled(s, l)
    ensures LeavesOthers(s, Apply(s, l), l.t)
  {
    if BetweenCalls(l) {
      StepBetweenLeavesOthers(s, l);
    } else if EarlyStep(l) {
      EarlyStepLeavesOthers(s, l);
    } else {
      assert PcOk(s, l.t, s.pcs[l.t]);
      LateStepLeavesOthers(s, l);
    }
  }

  lemma StillWaits(s: State, s': State, t: Tid, u: Tid, mover: Tid)
    requires LeavesOthers(s, s', mover) && WaitsFor(s, t, u) && t != mover && u != mover
    ensures WaitsFor(s', t, u)
  {
    var tk :| Blocks(s, t, tk) && HeldBy(s, tk, u);
    assert Blocks(s', t, tk) && HeldBy(s', tk, u);
  }

  lemma StepKeepsDeadlock(s: State, l: Label, threads: set<Tid>)
    requires Inv(s) && Enabled(s, l) && DeadlockedSet(s, threads)
    ensures DeadlockedSet(Apply(s, l), threads)
  {
    if l.t in threads {
      assert WaitsWithin(s, l.t, threads);
      var u :| u in threads && WaitsFor(s, l.t, u);
      var tk :| Blocks(s, l.t, tk) && HeldBy(s, tk, u);
      BlockedCannotStep(s, l, tk);
    } else {
      StepLeavesOthers(s, l);
      OthersKeepDeadlock(s, Apply(s, l), l.t, threads);
    }
  }

  lemma OthersKeepDeadlock(s: State, s': State, mover: Tid, threads: set<Tid>)
    requires LeavesOthers(s, s', mover) && mover !in threads && DeadlockedSet(s, threads)
    ensures DeadlockedSet(s', threads)
  {
    forall t | t in threads ensures WaitsWithin(s', t, threads) {
      assert WaitsWithin(s, t, threads);
      var u :| u in threads && WaitsFor(s, t, u);
      StillWaits(s, s', t, u, mover);
    }
  }

  /** Deadlocked threads stay deadlocked in every continuation of the run. */
  lemma {:induction false} DeadlockIsForever(run: seq<Label>, tail: seq<Label>, threads: set<Tid>)
    requires Exec(run).Some? && DeadlockedSet(Exec(run).value, threads) && Exec(run + tail).Some?
    ensures DeadlockedSet(Exec(run + tail).value, threads)
  {
    if tail == [] {
      assert run + tail == run;
    } else {
      var before := tail[..|tail| - 1];
      assert (run + tail)[..|run + tail| - 1] == run + before;
      DeadlockIsForever(run, before, threads);
      ReachableInv(run + before);
      StepKeepsDeadlock(Exec(run + before).value, tail[|tail| - 1], threads);
    }
  }

  /* ---------- the usage rule as an invariant ---------- */

  /** Map operations, as opposed to operations on an iterator one already has. */
  predicate MapOperation(op: Op) {
    !op.Deref? && !op.Destroy?
  }

  /** Map operations run empty-handed, and beside an iterator a thread has only
      read-only handles: elements taken out of an iterator. */
  ghost predicate RuleInv(s: State) {
    && (forall t :: t in s.pcs && MapOperation(s.pcs[t].op) ==> EmptyHanded(s, t))
    && (forall h, i :: h in s.handles && i in s.iters && s.handles[h].owner == s.iters[i].owner ==>
          s.handles[h].mode == Shared)
  }

  /** No call changes its operation, and nothing new is handed out. */
  ghost predicate HandsOutNothing(s: State, s': State) {
    && (forall t :: t in s'.pcs ==> t in s.pcs && s'.pcs[t].op == s.pcs[t].op)
    && (forall h :: h in s'.handles ==> h in s.handles && s'.handles[h] == s.handles[h])
    && (forall i :: i in s'.iters ==> i in s.iters && s'.iters[i].owner == s.iters[i].owner)
  }

  lemma RuleKept(s: State, s': State)
    requires RuleInv(s) && HandsOutNothing(s, s')
    ensures RuleInv(s')
  {
  }

  lemma InvokeKeepsRule(s: State, t: Tid, op: Op)
    requires RuleInv(s) && CanInvoke(s, t, op) && Disciplined(s, Invoke(t, op))
    ensures RuleInv(DoInvoke(s, t, op))
  {
  }

  lemma BeginKeepsRule(s: State, t: Tid, i: IterId, order: seq<Entry>)
    requires RuleInv(s) && CanBegin(s, t, i, order)
    ensures RuleInv(DoBegin(s, t, i, order))
  {
    assert EmptyHanded(s, t);
  }

  lemma ReturnHandleKeepsRule(s: State, t: Tid, h: HandleId)
    requires RuleInv(s) && CanReturnHandle(s, t, h)
    ensures RuleInv(DoReturnHandle(s, t, h))
  {
    assert EmptyHanded(s, t);
  }

  lemma TakeKeepsRule(s: State, t: Tid, i: IterId, h: HandleId)
    requires RuleInv(s) && CanTake(s, t, i, h)
    ensures RuleInv(DoTake(s, t, i, h))
  {
  }

  lemma EarlyStepHandsOutNothing(s: State, l: Label)
    requires EnabledEarly(s, l) && !l.Invoke? && !l.BeginIter?
    ensures HandsOutNothing(s, ApplyEarly(s, l))
  {
  }

  lemma LateStepHandsOutNothing(s: State, l: Label)
    requires EnabledLate(s, l) && !l.ReturnHandle?
    ensures HandsOutNothing(s, ApplyLate(s, l))
  {
  }

  lemma EarlyStepKeepsRule(s: State, l: Label)
    requires RuleInv(s) && EnabledEarly(s, l) && Disciplined(s, l)
    ensures RuleInv(ApplyEarly(s, l))
  {
    if l.Invoke? {
      InvokeKeepsRule(s, l.t, l.op);
    } else if l.BeginIter? {
      BeginKeepsRule(s, l.t, l.i, l.order);
    } else {
      EarlyStepHandsOutNothing(s, l);
      RuleKept(s, ApplyEarly(s, l));
    }
  }

  lemma LateStepKeepsRule(s: State, l: Label)
    requires RuleInv(s) && EnabledLate(s, l)
    ensures RuleInv(ApplyLate(s, l))
  {
    if l.ReturnHandle? {
      ReturnHandleKeepsRule(s, l.t, l.h);
    } else {
      LateStepHandsOutNothing(s, l);
      RuleKept(s, ApplyLate(s, l));
    }
  }

  lemma StepBetweenKeepsRule(s: State, l: Label)
    requires RuleInv(s) && EnabledBetween(s, l)
    ensures RuleInv(ApplyBetween(s, l))
  {
    if l.TakeElement? { TakeKeepsRule(s, l.t, l.i, l.h); } else { RuleKept(s, ApplyBetween(s, l)); }
  }

  lemma StepKeepsRule(s: State, l: Label)
    requires RuleInv(s) && Enabled(s, l) && Disciplined(s, l)
    ensures RuleInv(Apply(s, l))
  {
    if BetweenCalls(l) {
      StepBetweenKeepsRule(s, l);
    } else if EarlyStep(l) {
      EarlyStepKeepsRule(s, l);
    } else {
      LateStepKeepsRule(s, l);
    }
  }

  lemma {:induction false} ReachableRule(run: seq<Label>)
    requires Exec(run).Some? && DisciplinedRun(run)
    ensures RuleInv(Exec(run).value)
  {
    if run != [] {
      ReachableRule(run[..|run| - 1]);
      StepKeepsRule(Exec(run[..|run| - 1]).value, run[|run| - 1]);
    }
  }

  /* ---------- chains of waiting threads are short ---------- */

  /** A thread that holds something while it waits, waits for a node; and if what it
      holds is a node, it holds it shared and is dereferencing an iterator. */
  lemma WaitingHolder(s: State, tk: Ticket, u: Tid)
    requires Inv(s) && RuleInv(s) && tk in s.locks && HeldBy(s, tk, u) && Waiting(s, u)
    ensures s.pcs[u].stage.WantNode?
    ensures s.locks[tk].mutex.NodeMutex? ==> s.pcs[u].op.Deref? && s.locks[tk].mode == Shared
  {
    assert LockMatches(s, tk) && PcOk(s, u, s.pcs[u]);
  }

  /** Three waits at most: for the map mutex, for a node, and for a node that an
      iterator's owner waits to read. */
  lemma ChainsAreShort(s: State, path: seq<Tid>)
    requires Inv(s) && RuleInv(s) && Chain(s, path)
    ensures |path| <= 4
  {
    if |path| > 4 {
      assert WaitsFor(s, path[0], path[1]) && WaitsFor(s, path[1], path[2]);
      assert WaitsFor(s, path[2], path[3]) && WaitsFor(s, path[3], path[4]);
      var a :| Blocks(s, path[0], a) && HeldBy(s, a, path[1]);
      var b :| Blocks(s, path[1], b) && HeldBy(s, b, path[2]);
      var c :| Blocks(s, path[2], c) && HeldBy(s, c, path[3]);
      WaitingHolder(s, a, path[1]);
      WaitingHolder(s, b, path[2]);
      WaitingHolder(s, c, path[3]);
      assert false;
    }
  }

  /** Main theorem: no set of threads is deadlocked in any state of a run that keeps the rule. */
  lemma DisciplinedRunsNeverDeadlock(run: seq<Label>, threads: set<Tid>)
    requires Exec(run).Some? && DisciplinedRun(run)
    ensures !DeadlockedSet(Exec(run).value, threads)
  {
    var s := Exec(run).value;
    ReachableInv(run);
    ReachableRule(run);
    if DeadlockedSet(s, threads) {
      var path := WaitInside(s, threads, 5);
      ChainsAreShort(s, path);
    }
  }

  /** Inside a deadlocked set there are chains of any length. */
  lemma {:induction false} WaitInside(s: State, threads: set<Tid>, length: nat) returns (path: seq<Tid>)
    requires DeadlockedSet(s, threads) && length > 0
    ensures Chain(s, path) && |path| == length && path[length - 1] in threads
  {
    if length == 1 {
      var t :| t in threads;
      path := [t];
    } else {
      var start := WaitInside(s, threads, length - 1);
      var last := start[length - 2];
      assert WaitsWithin(s, last, threads);
      var u :| u in threads && WaitsFor(s, last, u);
      path := start + [u];
    }
  }

  /** Following the waits from the end of a chain leads to a thread that is free to move. */
  lemma FollowWaits(s: State, path: seq<Tid>) returns (full: seq<Tid>)
    requires Inv(s) && RuleInv(s) && Chain(s, path)
    ensures Chain(s, full) && path <= full && Free(s, full[|full| - 1])
    decreases 5 - |path|
  {
    var t := path[|path| - 1];
    ChainsAreShort(s, path);
    if Free(s, t) {
      full := path;
    } else {
      StepsUnlessBlocked(s, t);
      var tk :| Blocks(s, t, tk);
      var u := HolderOf(s, tk);
      assert WaitsFor(s, t, u);
      full := FollowWaits(s, path + [u]);
    }
  }

  /** Per thread: whoever waits, waits along at most three waits for a thread that is
      free to move. */
  lemma EveryWaitEnds(run: seq<Label>, t: Tid) returns (path: seq<Tid>)
    requires Exec(run).Some? && DisciplinedRun(run)
    ensures Chain(Exec(run).value, path) && path[0] == t && |path| <= 4
    ensures Free(Exec(run).value, path[|path| - 1])
  {
    ReachableInv(run);
    ReachableRule(run);
    path := FollowWaits(Exec(run).value, [t]);
    ChainsAreShort(Exec(run).value, path);
  }
}
