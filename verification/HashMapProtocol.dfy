/**
 The per-key locking map of components/container/thread_safe_hash_map.h as a
 labelled transition system.

 Any number of threads share one reader/writer map mutex, one reader/writer
 mutex per node, and the table itself.  Each thread runs at most one call at a
 time; between calls it may keep any number of locked node pointers ("handles")
 and iterators.  A step acquires or releases one mutex, or reads or changes
 shared data; a mutex is granted whenever the request is compatible with every
 lock object that currently holds it.
 */
module HashMapProtocol {
  import opened Status

  type Key(==, !new)
  type Value(==, !new)
  type Tid = nat
  type NodeId = nat
  type HandleId = nat
  type IterId = nat

  /* ---------- locks ---------- */

  datatype Mode = Shared | Exclusive

  datatype Mutex = MapMutex | NodeMutex(node: NodeId)

  /** A lock object: where the program keeps it says who will release it.
      Moving a `unique_ptr` to a lock object from a call into the handle or
      iterator that the call returns renames the ticket. */
  datatype Ticket =
    | CallMap(t: Tid)
    | CallNode(t: Tid)
    | HandleLock(h: HandleId)
    | IterMap(i: IterId)
    | IterNode(i: IterId)

  datatype Held = Held(mutex: Mutex, mode: Mode)

  /* ---------- calls ---------- */

  datatype Op =
    | Get(key: Key, mode: Mode)  // CGet is Shared, Get is Exclusive
    | Put(key: Key, value: Value)
    | RemoveIf(key: Key, pred: Value -> bool)
    | Begin
    | Deref(iter: IterId, key: Key)
    | Destroy(iter: IterId)

  datatype Answer =
    | Missing
    | Present(v: Value)
    | Inserted
    | Existing(v: Value)
    | Removed(v: Value)
    | Kept(v: Value)
    | Listing(keys: seq<Key>)
    | Finished

  /** Where a call stands; `Leaving` calls have taken effect and still hold the map mutex. */
  datatype Stage =
    | WantMap
    | HasMap
    | WantNode(node: NodeId, early: Option<Answer>)
    | HasNode(node: NodeId)
    | Drained(node: NodeId)
    | Erasing(node: NodeId, seen: Value)
    | Leaving(res: Answer, kept: Option<NodeId>)
    | DropMap
    | DropNode

  datatype Pc = Pc(op: Op, stage: Stage)

  datatype Node = Node(key: Key, value: Value)

  datatype Entry = Entry(key: Key, node: NodeId)

  /** An unreleased locked node pointer. */
  datatype Handle = Handle(owner: Tid, key: Key, node: NodeId, mode: Mode)

  /** `open` says that the iterator still owns its lock on the map mutex. */
  datatype Iter = Iter(owner: Tid, order: seq<Entry>, pos: nat, cur: Option<Entry>, open: bool)

  /** `Completed` is an effect and a return in one step. */
  datatype Event =
    | Invoked(t: Tid, op: Op)
    | Effect(t: Tid, op: Op, res: Answer)
    | Returned(t: Tid, op: Op, res: Answer)
    | Completed(t: Tid, op: Op, res: Answer)
    | ReadValue(t: Tid, key: Key, v: Value)
    | WroteValue(t: Tid, key: Key, v: Value)

  /** `nodes` keeps every node ever allocated; erasing only takes it out of `contents`. */
  datatype State = State(
    contents: map<Key, NodeId>,
    nodes: map<NodeId, Node>,
    locks: map<Ticket, Held>,
    pcs: map<Tid, Pc>,
    handles: map<HandleId, Handle>,
    iters: map<IterId, Iter>,
    trace: seq<Event>)

  const Init: State := State(map[], map[], map[], map[], map[], map[], [])

  /* ---------- labels ---------- */

  datatype Label =
    | Invoke(t: Tid, op: Op)
    | LockMap(t: Tid)
    | BeginIter(t: Tid, i: IterId, order: seq<Entry>)
    | Find(t: Tid)
    | Insert(t: Tid, n: NodeId)
    | Miss(t: Tid)
    | LockNode(t: Tid)
    | LockDrain(t: Tid)
    | Drain(t: Tid)
    | Accept(t: Tid)
    | Reject(t: Tid)
    | Erase(t: Tid)
    | ReturnBare(t: Tid)
    | ReturnHandle(t: Tid, h: HandleId)
    | ReturnElement(t: Tid)
    | DropIterMap(t: Tid)
    | DropIterNode(t: Tid)
    | Advance(t: Tid, i: IterId)
    | ReleaseCur(t: Tid, i: IterId)
    | TakeElement(t: Tid, i: IterId, h: HandleId)
    | Release(t: Tid, h: HandleId)
    | Read(t: Tid, h: HandleId)
    | Write(t: Tid, h: HandleId, v: Value)

  function MapMode(op: Op): Mode {
    if op.Put? || op.RemoveIf? then Exclusive else Shared
  }

  function NodeMode(op: Op): Mode {
    match op
    case Get(_, m) => m
    case Put(_, _) => Exclusive
    case RemoveIf(_, _) => Exclusive
    case _ => Shared
  }

  /** Calls that look a key up under the map mutex. */
  predicate Keyed(op: Op) {
    op.Get? || op.Put? || op.RemoveIf?
  }

  ghost predicate Compatible(s: State, mutex: Mutex, mode: Mode) {
    forall tk :: tk in s.locks && s.locks[tk].mutex == mutex ==>
      mode == Shared && s.locks[tk].mode == Shared
  }

  ghost predicate Enumerates(order: seq<Entry>, contents: map<Key, NodeId>) {
    && (forall j :: 0 <= j < |order| ==>
          order[j].key in contents && contents[order[j].key] == order[j].node)
    && (forall j, l :: 0 <= j < l < |order| ==> order[j].key != order[l].key)
    && (forall k :: k in contents ==> Entry(k, contents[k]) in order)
  }

  function Keys(order: seq<Entry>): (r: seq<Key>)
    ensures |r| == |order|
    ensures forall j :: 0 <= j < |r| ==> r[j] == order[j].key
  {
    seq(|order|, j requires 0 <= j < |order| => order[j].key)
  }

  predicate OwnsOpenIter(s: State, t: Tid, i: IterId) {
    i in s.iters && s.iters[i].owner == t && s.iters[i].open
  }

  predicate OwnsHandle(s: State, t: Tid, h: HandleId) {
    h in s.handles && s.handles[h].owner == t
  }

  function Goto(s: State, t: Tid, stage: Stage): State
    requires t in s.pcs
  {
    s.(pcs := s.pcs[t := s.pcs[t].(stage := stage)])
  }

  /** The call of `t` takes effect with answer `res` and moves to `stage`. */
  function TakeEffect(s: State, t: Tid, res: Answer, stage: Stage): State
    requires t in s.pcs
  {
    Goto(s, t, stage).(trace := s.trace + [Effect(t, s.pcs[t].op, res)])
  }

  function Finish(s: State, t: Tid, res: Answer): State
    requires t in s.pcs
  {
    s.(pcs := s.pcs - {t}, trace := s.trace + [Returned(t, s.pcs[t].op, res)])
  }

  /* ---------- steps inside a call ---------- */

  predicate CanInvoke(s: State, t: Tid, op: Op) {
    && t !in s.pcs
    && (op.Deref? ==>
          && OwnsOpenIter(s, t, op.iter) && s.iters[op.iter].pos < |s.iters[op.iter].order|
          && s.iters[op.iter].order[s.iters[op.iter].pos].key == op.key)
    && (op.Destroy? ==> OwnsOpenIter(s, t, op.iter))
  }

  function DoInvoke(s: State, t: Tid, op: Op): State
    requires CanInvoke(s, t, op)
  {
    var stage :=
      match op
      case Deref(i, _) => WantNode(s.iters[i].order[s.iters[i].pos].node, None)
      case Destroy(_) => DropMap
      case _ => WantMap;
    s.(pcs := s.pcs[t := Pc(op, stage)], trace := s.trace + [Invoked(t, op)])
  }

  ghost predicate CanLockMap(s: State, t: Tid) {
    && t in s.pcs && s.pcs[t].stage.WantMap? && !s.pcs[t].op.Begin?
    && Compatible(s, MapMutex, MapMode(s.pcs[t].op))
  }

  function DoLockMap(s: State, t: Tid): State
    requires t in s.pcs
  {
    Goto(s, t, HasMap).(locks := s.locks[CallMap(t) := Held(MapMutex, MapMode(s.pcs[t].op))])
  }

  ghost predicate CanBegin(s: State, t: Tid, i: IterId, order: seq<Entry>) {
    && t in s.pcs && s.pcs[t].stage.WantMap? && s.pcs[t].op.Begin?
    && Compatible(s, MapMutex, Shared) && i !in s.iters && Enumerates(order, s.contents)
  }

  function DoBegin(s: State, t: Tid, i: IterId, order: seq<Entry>): State {
    var res := Listing(Keys(order));
    s.(pcs := s.pcs - {t},
       locks := s.locks[IterMap(i) := Held(MapMutex, Shared)],
       iters := s.iters[i := Iter(t, order, 0, None, true)],
       trace := s.trace + [Completed(t, Begin, res)])
  }

  predicate CanFind(s: State, t: Tid) {
    t in s.pcs && s.pcs[t].stage.HasMap? && Keyed(s.pcs[t].op) && s.pcs[t].op.key in s.contents
  }

  function DoFind(s: State, t: Tid): State
    requires CanFind(s, t)
  {
    Goto(s, t, WantNode(s.contents[s.pcs[t].op.key], None))
  }

  predicate CanInsert(s: State, t: Tid, n: NodeId) {
    && t in s.pcs && s.pcs[t].stage.HasMap? && s.pcs[t].op.Put? && s.pcs[t].op.key !in s.contents
    && n !in s.nodes
  }

  function DoInsert(s: State, t: Tid, n: NodeId): State
    requires CanInsert(s, t, n)
  {
    var op := s.pcs[t].op;
    TakeEffect(s, t, Inserted, WantNode(n, Some(Inserted)))
      .(contents := s.contents[op.key := n], nodes := s.nodes[n := Node(op.key, op.value)])
  }

  predicate CanMiss(s: State, t: Tid) {
    && t in s.pcs && s.pcs[t].stage.HasMap? && (s.pcs[t].op.Get? || s.pcs[t].op.RemoveIf?)
    && s.pcs[t].op.key !in s.contents
  }

  function DoMiss(s: State, t: Tid): State
    requires CanMiss(s, t)
  {
    TakeEffect(s, t, Missing, Leaving(Missing, None))
  }

  ghost predicate CanLockNode(s: State, t: Tid) {
    && t in s.pcs && s.pcs[t].stage.WantNode? && !s.pcs[t].op.RemoveIf?
    && s.pcs[t].stage.node in s.nodes
    && Compatible(s, NodeMutex(s.pcs[t].stage.node), NodeMode(s.pcs[t].op))
  }

  function NodeAnswer(op: Op, early: Option<Answer>, v: Value): Answer {
    if early.Some? then early.value else if op.Put? then Existing(v) else Present(v)
  }

  ghost function DoLockNode(s: State, t: Tid): State
    requires CanLockNode(s, t)
  {
    var Pc(op, WantNode(n, early)) := s.pcs[t];
    var res := NodeAnswer(op, early, s.nodes[n].value);
    s.(pcs := s.pcs[t := Pc(op, Leaving(res, Some(n)))],
       locks := s.locks[CallNode(t) := Held(NodeMutex(n), NodeMode(op))],
       trace := if early.Some? then s.trace else s.trace + [Effect(t, op, res)])
  }

  ghost predicate CanLockDrain(s: State, t: Tid) {
    && t in s.pcs && s.pcs[t].stage.WantNode? && s.pcs[t].op.RemoveIf?
    && Compatible(s, NodeMutex(s.pcs[t].stage.node), Exclusive)
  }

  ghost function DoLockDrain(s: State, t: Tid): State
    requires CanLockDrain(s, t)
  {
    var n := s.pcs[t].stage.node;
    Goto(s, t, HasNode(n)).(locks := s.locks[CallNode(t) := Held(NodeMutex(n), Exclusive)])
  }

  predicate CanDrain(s: State, t: Tid) {
    t in s.pcs && s.pcs[t].stage.HasNode?
  }

  function DoDrain(s: State, t: Tid): State
    requires CanDrain(s, t)
  {
    Goto(s, t, Drained(s.pcs[t].stage.node)).(locks := s.locks - {CallNode(t)})
  }

  predicate CanDecide(s: State, t: Tid) {
    t in s.pcs && s.pcs[t].stage.Drained? && s.pcs[t].op.RemoveIf? && s.pcs[t].stage.node in s.nodes
  }

  /** The predicate accepts the value read without the node lock. */
  predicate CanAccept(s: State, t: Tid) {
    CanDecide(s, t) && s.pcs[t].op.pred(s.nodes[s.pcs[t].stage.node].value)
  }

  function DoAccept(s: State, t: Tid): State
    requires CanAccept(s, t)
  {
    var n := s.pcs[t].stage.node;
    Goto(s, t, Erasing(n, s.nodes[n].value))
  }

  predicate CanReject(s: State, t: Tid) {
    CanDecide(s, t) && !s.pcs[t].op.pred(s.nodes[s.pcs[t].stage.node].value)
  }

  function DoReject(s: State, t: Tid): State
    requires CanReject(s, t)
  {
    var v := s.nodes[s.pcs[t].stage.node].value;
    TakeEffect(s, t, Kept(v), Leaving(Kept(v), None))
  }

  predicate CanErase(s: State, t: Tid) {
    t in s.pcs && s.pcs[t].stage.Erasing? && s.pcs[t].op.RemoveIf?
  }

  function DoErase(s: State, t: Tid): State
    requires CanErase(s, t)
  {
    var v := s.pcs[t].stage.seen;
    TakeEffect(s, t, Removed(v), Leaving(Removed(v), None)).(contents := s.contents - {s.pcs[t].op.key})
  }

  /** A call that returns no node only lets go of the map mutex. */
  predicate CanReturnBare(s: State, t: Tid) {
    t in s.pcs && s.pcs[t].stage.Leaving? && s.pcs[t].stage.kept.None? && Keyed(s.pcs[t].op)
  }

  function DoReturnBare(s: State, t: Tid): State
    requires CanReturnBare(s, t)
  {
    Finish(s, t, s.pcs[t].stage.res).(locks := s.locks - {CallMap(t)})
  }

  /** The node lock moves into the returned handle; the map mutex is let go. */
  predicate CanReturnHandle(s: State, t: Tid, h: HandleId) {
    && t in s.pcs && s.pcs[t].stage.Leaving? && s.pcs[t].stage.kept.Some? && Keyed(s.pcs[t].op)
    && h !in s.handles
  }

  function DoReturnHandle(s: State, t: Tid, h: HandleId): State
    requires CanReturnHandle(s, t, h)
  {
    var Pc(op, Leaving(res, kept)) := s.pcs[t];
    Finish(s, t, res)
      .(locks := (s.locks - {CallMap(t), CallNode(t)})
                   [HandleLock(h) := Held(NodeMutex(kept.value), NodeMode(op))],
        handles := s.handles[h := Handle(t, op.key, kept.value, NodeMode(op))])
  }

  /** The new element's lock replaces the previous one inside the iterator. */
  predicate CanReturnElement(s: State, t: Tid) {
    && t in s.pcs && s.pcs[t].stage.Leaving? && s.pcs[t].stage.kept.Some? && s.pcs[t].op.Deref?
    && s.pcs[t].op.iter in s.iters
  }

  function DoReturnElement(s: State, t: Tid): State
    requires CanReturnElement(s, t)
  {
    var Pc(op, Leaving(res, kept)) := s.pcs[t];
    Finish(s, t, res)
      .(locks := (s.locks - {CallNode(t)})[IterNode(op.iter) := Held(NodeMutex(kept.value), Shared)],
        iters := s.iters[op.iter := s.iters[op.iter].(cur := Some(Entry(op.key, kept.value)))])
  }

  /** An iterator's destructor lets go of the map mutex first, then of the element. */
  predicate CanDropMap(s: State, t: Tid) {
    t in s.pcs && s.pcs[t].stage.DropMap? && s.pcs[t].op.Destroy? && s.pcs[t].op.iter in s.iters
  }

  function DoDropMap(s: State, t: Tid): State
    requires CanDropMap(s, t)
  {
    var i := s.pcs[t].op.iter;
    TakeEffect(s, t, Finished, DropNode)
      .(locks := s.locks - {IterMap(i)}, iters := s.iters[i := s.iters[i].(open := false)])
  }

  predicate CanDropNode(s: State, t: Tid) {
    t in s.pcs && s.pcs[t].stage.DropNode? && s.pcs[t].op.Destroy?
  }

  function DoDropNode(s: State, t: Tid): State
    requires CanDropNode(s, t)
  {
    var i := s.pcs[t].op.iter;
    Finish(s, t, Finished).(locks := s.locks - {IterNode(i)}, iters := s.iters - {i})
  }

  /* ---------- steps between calls ---------- */

  predicate CanAdvance(s: State, t: Tid, i: IterId) {
    t !in s.pcs && OwnsOpenIter(s, t, i) && s.iters[i].pos < |s.iters[i].order|
  }

  function DoAdvance(s: State, i: IterId): State
    requires i in s.iters
  {
    s.(iters := s.iters[i := s.iters[i].(pos := s.iters[i].pos + 1)])
  }

  predicate CanReleaseCur(s: State, t: Tid, i: IterId) {
    t !in s.pcs && OwnsOpenIter(s, t, i) && s.iters[i].cur.Some?
  }

  function DoReleaseCur(s: State, i: IterId): State
    requires i in s.iters
  {
    s.(iters := s.iters[i := s.iters[i].(cur := None)], locks := s.locks - {IterNode(i)})
  }

  /** An iterator's current element can be moved out of it, and lives on as a handle. */
  predicate CanTake(s: State, t: Tid, i: IterId, h: HandleId) {
    t !in s.pcs && OwnsOpenIter(s, t, i) && s.iters[i].cur.Some? && h !in s.handles
  }

  function DoTake(s: State, t: Tid, i: IterId, h: HandleId): State
    requires CanTake(s, t, i, h)
  {
    var e := s.iters[i].cur.value;
    s.(iters := s.iters[i := s.iters[i].(cur := None)],
       locks := (s.locks - {IterNode(i)})[HandleLock(h) := Held(NodeMutex(e.node), Shared)],
       handles := s.handles[h := Handle(t, e.key, e.node, Shared)])
  }

  predicate CanRelease(s: State, t: Tid, h: HandleId) {
    t !in s.pcs && OwnsHandle(s, t, h)
  }

  function DoRelease(s: State, h: HandleId): State {
    s.(handles := s.handles - {h}, locks := s.locks - {HandleLock(h)})
  }

  predicate CanRead(s: State, t: Tid, h: HandleId) {
    t !in s.pcs && OwnsHandle(s, t, h) && s.handles[h].node in s.nodes
  }

  function DoRead(s: State, t: Tid, h: HandleId): State
    requires CanRead(s, t, h)
  {
    s.(trace := s.trace + [ReadValue(t, s.handles[h].key, s.nodes[s.handles[h].node].value)])
  }

  predicate CanWrite(s: State, t: Tid, h: HandleId) {
    CanRead(s, t, h) && s.handles[h].mode.Exclusive?
  }

  function DoWrite(s: State, t: Tid, h: HandleId, v: Value): State
    requires CanWrite(s, t, h)
  {
    var n := s.handles[h].node;
    s.(nodes := s.nodes[n := s.nodes[n].(value := v)],
       trace := s.trace + [WroteValue(t, s.handles[h].key, v)])
  }

  /* ---------- the transition system ---------- */

  /** Steps of a thread that is outside any call. */
  predicate BetweenCalls(l: Label) {
    l.Advance? || l.ReleaseCur? || l.TakeElement? || l.Release? || l.Read? || l.Write?
  }

  /** Steps of a call up to its getting hold of a node; the remaining steps lead to its return. */
  predicate EarlyStep(l: Label) {
    || l.Invoke? || l.LockMap? || l.BeginIter? || l.Find? || l.Insert? || l.Miss? || l.LockNode? || l.LockDrain?
  }

  ghost predicate EnabledEarly(s: State, l: Label) {
    match l
    case Invoke(t, op) => CanInvoke(s, t, op)
    case LockMap(t) => CanLockMap(s, t)
    case BeginIter(t, i, order) => CanBegin(s, t, i, order)
    case Find(t) => CanFind(s, t)
    case Insert(t, n) => CanInsert(s, t, n)
    case Miss(t) => CanMiss(s, t)
    case LockNode(t) => CanLockNode(s, t)
    case LockDrain(t) => CanLockDrain(s, t)
    case _ => false
  }

  predicate EnabledLate(s: State, l: Label) {
    match l
    case Drain(t) => CanDrain(s, t)
    case Accept(t) => CanAccept(s, t)
    case Reject(t) => CanReject(s, t)
    case Erase(t) => CanErase(s, t)
    case ReturnBare(t) => CanReturnBare(s, t)
    case ReturnHandle(t, h) => CanReturnHandle(s, t, h)
    case ReturnElement(t) => CanReturnElement(s, t)
    case DropIterMap(t) => CanDropMap(s, t)
    case DropIterNode(t) => CanDropNode(s, t)
    case _ => false
  }

  predicate EnabledBetween(s: State, l: Label) {
    match l
    case Advance(t, i) => CanAdvance(s, t, i)
    case ReleaseCur(t, i) => CanReleaseCur(s, t, i)
    case TakeElement(t, i, h) => CanTake(s, t, i, h)
    case Release(t, h) => CanRelease(s, t, h)
    case Read(t, h) => CanRead(s, t, h)
    case Write(t, h, v) => CanWrite(s, t, h)
    case _ => false
  }

  ghost predicate Enabled(s: State, l: Label) {
    if BetweenCalls(l) then EnabledBetween(s, l)
    else if EarlyStep(l) then EnabledEarly(s, l)
    else EnabledLate(s, l)
  }

  ghost function ApplyEarly(s: State, l: Label): State
    requires EnabledEarly(s, l)
  {
    match l
    case Invoke(t, op) => DoInvoke(s, t, op)
    case LockMap(t) => DoLockMap(s, t)
    case BeginIter(t, i, order) => DoBegin(s, t, i, order)
    case Find(t) => DoFind(s, t)
    case Insert(t, n) => DoInsert(s, t, n)
    case Miss(t) => DoMiss(s, t)
    case LockNode(t) => DoLockNode(s, t)
    case LockDrain(t) => DoLockDrain(s, t)
  }

  function ApplyLate(s: State, l: Label): State
    requires EnabledLate(s, l)
  {
    match l
    case Drain(t) => DoDrain(s, t)
    case Accept(t) => DoAccept(s, t)
    case Reject(t) => DoReject(s, t)
    case Erase(t) => DoErase(s, t)
    case ReturnBare(t) => DoReturnBare(s, t)
    case ReturnHandle(t, h) => DoReturnHandle(s, t, h)
    case ReturnElement(t) => DoReturnElement(s, t)
    case DropIterMap(t) => DoDropMap(s, t)
    case DropIterNode(t) => DoDropNode(s, t)
  }

  function ApplyBetween(s: State, l: Label): State
    requires EnabledBetween(s, l)
  {
    match l
    case Advance(t, i) => DoAdvance(s, i)
    case ReleaseCur(t, i) => DoReleaseCur(s, i)
    case TakeElement(t, i, h) => DoTake(s, t, i, h)
    case Release(t, h) => DoRelease(s, h)
    case Read(t, h) => DoRead(s, t, h)
    case Write(t, h, v) => DoWrite(s, t, h, v)
  }

  ghost function Apply(s: State, l: Label): State
    requires Enabled(s, l)
  {
    if BetweenCalls(l) then ApplyBetween(s, l)
    else if EarlyStep(l) then ApplyEarly(s, l)
    else ApplyLate(s, l)
  }

  /* ---------- runs ---------- */

  /** A usage rule: a map operation is started only by a thread that holds no handle
      and no iterator.  The header comment only warns against asking for a key that
      the thread itself holds, which is not enough to rule out deadlock. */
  ghost predicate Disciplined(s: State, l: Label) {
    l.Invoke? && !l.op.Deref? && !l.op.Destroy? ==> EmptyHanded(s, l.t)
  }

  ghost predicate EmptyHanded(s: State, t: Tid) {
    && (forall h :: h in s.handles ==> s.handles[h].owner != t)
    && (forall i :: i in s.iters ==> s.iters[i].owner != t)
  }

  /** The state after a run, or None when some label of it was not enabled. */
  ghost function Exec(run: seq<Label>): Option<State> {
    if run == [] then Some(Init)
    else
      var before := Exec(run[..|run| - 1]);
      var l := run[|run| - 1];
      if before.Some? && Enabled(before.value, l) then Some(Apply(before.value, l)) else None
  }

  /** Every label of the run obeys the usage rule in the state it is taken from. */
  ghost predicate DisciplinedRun(run: seq<Label>) {
    run == [] ||
    (DisciplinedRun(run[..|run| - 1]) &&
     (Exec(run[..|run| - 1]).Some? ==> Disciplined(Exec(run[..|run| - 1]).value, run[|run| - 1])))
  }
}
