/**
 Every run of the locking map linearises to a plain sequential map.

 The trace of a run records when each call is invoked, when it takes effect and
 when it returns, plus every value read or written through a handle.  Two facts
 are proved of the trace of every run: each thread's events form the pattern
 invoke, effect, return with one answer, and replaying all the effects in
 order on an ordinary map is legal and ends in the current table.
 */
module HashMapLinearization {
  import opened Status
  import opened HashMapProtocol
  import opened HashMapSafety

  type Table = map<Key, Value>

  /* ---------- the sequential map ---------- */

  ghost predicate Answers(m: Table, op: Op, res: Answer) {
    match op
    case Get(k, _) => res == if k in m then Present(m[k]) else Missing
    case Put(k, _) => res == if k in m then Existing(m[k]) else Inserted
    case RemoveIf(k, p) =>
      res == if k !in m then Missing else if p(m[k]) then Removed(m[k]) else Kept(m[k])
    case Begin =>
      && res.Listing?
      && (forall j, l :: 0 <= j < l < |res.keys| ==> res.keys[j] != res.keys[l])
      && (forall k :: k in res.keys <==> k in m)
    case Deref(_, k) => k in m && res == Present(m[k])
    case Destroy(_) => res == Finished
  }

  function After(m: Table, op: Op): Table {
    match op
    case Put(k, v) => if k in m then m else m[k := v]
    case RemoveIf(k, p) => if k in m && p(m[k]) then m - {k} else m
    case _ => m
  }

  ghost function ReplayOne(m: Table, e: Event): Option<Table> {
    match e
    case Effect(_, op, res) => if Answers(m, op, res) then Some(After(m, op)) else None
    case Completed(_, op, res) => if Answers(m, op, res) then Some(After(m, op)) else None
    case ReadValue(_, k, v) => if k in m && m[k] == v then Some(m) else None
    case WroteValue(_, k, v) => if k in m then Some(m[k := v]) else None
    case _ => Some(m)
  }

  /** The table that the effects lead to one after the other, or None when one
      of them gives an answer the sequential map would not give. */
  ghost function Replay(trace: seq<Event>): Option<Table> {
    if trace == [] then Some(map[])
    else
      var before := Replay(trace[..|trace| - 1]);
      if before.None? then None else ReplayOne(before.value, trace[|trace| - 1])
  }

  function TableOf(contents: map<Key, NodeId>, nodes: map<NodeId, Node>): Table {
    map k | k in contents && contents[k] in nodes :: nodes[contents[k]].value
  }

  function Abs(s: State): Table {
    TableOf(s.contents, s.nodes)
  }

  /* ---------- the shape of one thread's events ---------- */

  datatype Phase = Quiet | Started(op: Op) | Decided(op: Op, res: Answer) | Broken

  ghost function PhaseStep(p: Phase, e: Event): Phase {
    match e
    case Invoked(_, op) => if p == Quiet then Started(op) else Broken
    case Effect(_, op, res) => if p == Started(op) then Decided(op, res) else Broken
    case Returned(_, op, res) => if p == Decided(op, res) then Quiet else Broken
    case Completed(_, op, _) => if p == Started(op) then Quiet else Broken
    case _ => if p == Quiet then Quiet else Broken
  }

  /** Where thread `t` stands after the trace; Broken once its events leave the pattern. */
  ghost function PhaseOf(trace: seq<Event>, t: Tid): Phase {
    if trace == [] then Quiet
    else
      var before := PhaseOf(trace[..|trace| - 1], t);
      if trace[|trace| - 1].t == t then PhaseStep(before, trace[|trace| - 1]) else before
  }

  function CurrentPhase(s: State, t: Tid): Phase {
    if t !in s.pcs then Quiet
    else
      var Pc(op, stage) := s.pcs[t];
      match stage
      case WantNode(_, early) => if early.Some? then Decided(op, early.value) else Started(op)
      case Leaving(res, _) => Decided(op, res)
      case DropNode => Decided(op, Finished)
      case _ => Started(op)
  }

  ghost predicate PhasesMatch(s: State) {
    forall t {:trigger PhaseOf(s.trace, t)} :: PhaseOf(s.trace, t) == CurrentPhase(s, t)
  }

  ghost predicate Linear(s: State) {
    PhasesMatch(s) && Replay(s.trace) == Some(Abs(s))
  }

  /* ---------- preservation ---------- */

  lemma PhaseExtend(trace: seq<Event>, e: Event, t: Tid)
    ensures PhaseOf(trace + [e], t) ==
            if e.t == t then PhaseStep(PhaseOf(trace, t), e) else PhaseOf(trace, t)
  {
    assert (trace + [e])[..|trace + [e]| - 1] == trace;
  }

  lemma ReplayExtend(trace: seq<Event>, e: Event, m: Table, m': Table)
    requires Replay(trace) == Some(m) && ReplayOne(m, e) == Some(m')
    ensures Replay(trace + [e]) == Some(m')
  {
    assert (trace + [e])[..|trace + [e]| - 1] == trace;
  }

  /** Only the call of `t` moves. */
  ghost predicate OnlyMoves(s: State, s': State, t: Tid) {
    forall u :: u != t ==> (u in s'.pcs <==> u in s.pcs) && (u in s.pcs ==> s'.pcs[u] == s.pcs[u])
  }

  /** A step that records nothing and moves no call past its effect changes nothing abstractly. */
  lemma Silent(s: State, s': State, t: Tid)
    requires Linear(s) && s'.trace == s.trace && Abs(s') == Abs(s)
    requires OnlyMoves(s, s', t) && CurrentPhase(s', t) == CurrentPhase(s, t)
    ensures Linear(s')
  {
    assert forall u :: CurrentPhase(s', u) == CurrentPhase(s, u);
  }

  /** A step that records one event. */
  lemma Recorded(s: State, s': State, e: Event)
    requires Linear(s) && s'.trace == s.trace + [e]
    requires ReplayOne(Abs(s), e) == Some(Abs(s'))
    requires CurrentPhase(s', e.t) == PhaseStep(CurrentPhase(s, e.t), e)
    requires OnlyMoves(s, s', e.t)
    ensures Linear(s')
  {
    ReplayExtend(s.trace, e, Abs(s), Abs(s'));
    RecordedPhases(s, s', e);
  }

  lemma RecordedPhases(s: State, s': State, e: Event)
    requires PhasesMatch(s) && s'.trace == s.trace + [e]
    requires CurrentPhase(s', e.t) == PhaseStep(CurrentPhase(s, e.t), e)
    requires OnlyMoves(s, s', e.t)
    ensures PhasesMatch(s')
  {
    forall u ensures PhaseOf(s'.trace, u) == CurrentPhase(s', u) {
      PhaseExtend(s.trace, e, u);
      assert PhaseOf(s.trace, u) == CurrentPhase(s, u);
    }
  }

  /** A call returns the answer it took effect with. */
  lemma ReturnedLinear(s: State, s': State, t: Tid, res: Answer)
    requires Linear(s) && t in s.pcs && CurrentPhase(s, t) == Decided(s.pcs[t].op, res)
    requires s'.trace == s.trace + [Returned(t, s.pcs[t].op, res)] && s'.pcs == s.pcs - {t}
    requires s'.contents == s.contents && s'.nodes == s.nodes
    ensures Linear(s')
  {
    Recorded(s, s', Returned(t, s.pcs[t].op, res));
  }

  /** A call takes effect with an answer the sequential map gives, and the table changes as the map does. */
  lemma EffectLinear(s: State, s': State, t: Tid, res: Answer, stage: Stage)
    requires Linear(s) && t in s.pcs && CurrentPhase(s, t) == Started(s.pcs[t].op)
    requires s'.trace == s.trace + [Effect(t, s.pcs[t].op, res)]
    requires s'.pcs == s.pcs[t := s.pcs[t].(stage := stage)]
    requires CurrentPhase(s', t) == Decided(s.pcs[t].op, res)
    requires Answers(Abs(s), s.pcs[t].op, res) && Abs(s') == After(Abs(s), s.pcs[t].op)
    ensures Linear(s')
  {
    Recorded(s, s', Effect(t, s.pcs[t].op, res));
  }

  lemma BeginLinear(s: State, t: Tid, i: IterId, order: seq<Entry>)
    requires ContentsOk(s) && Linear(s) && CanBegin(s, t, i, order)
    ensures Linear(DoBegin(s, t, i, order))
  {
    BeginAnswer(s, order);
    CompletedLinear(s, DoBegin(s, t, i, order), t, Listing(Keys(order)));
  }

  lemma CompletedLinear(s: State, s': State, t: Tid, res: Answer)
    requires Linear(s) && t in s.pcs && CurrentPhase(s, t) == Started(s.pcs[t].op)
    requires s'.trace == s.trace + [Completed(t, s.pcs[t].op, res)] && s'.pcs == s.pcs - {t}
    requires Answers(Abs(s), s.pcs[t].op, res) && Abs(s') == After(Abs(s), s.pcs[t].op)
    ensures Linear(s')
  {
    Recorded(s, s', Completed(t, s.pcs[t].op, res));
  }

  lemma BeginAnswer(s: State, order: seq<Entry>)
    requires ContentsOk(s) && Enumerates(order, s.contents)
    ensures Answers(Abs(s), Begin, Listing(Keys(order)))
  {
    ListsKeys(order, s.contents);
  }

  lemma ListsKeys(order: seq<Entry>, contents: map<Key, NodeId>)
    requires Enumerates(order, contents)
    ensures forall k :: k in Keys(order) <==> k in contents
  {
    forall k | k in contents ensures k in Keys(order) {
      var j :| 0 <= j < |order| && order[j] == Entry(k, contents[k]);
      assert Keys(order)[j] == k;
    }
  }

  lemma InsertTable(contents: map<Key, NodeId>, nodes: map<NodeId, Node>, k: Key, v: Value, n: NodeId)
    requires k !in contents && n !in nodes && forall j :: j in contents ==> contents[j] in nodes
    ensures TableOf(contents[k := n], nodes[n := Node(k, v)]) == TableOf(contents, nodes)[k := v]
  {
  }

  lemma InsertLinear(s: State, t: Tid, n: NodeId)
    requires ContentsOk(s) && Linear(s) && CanInsert(s, t, n)
    ensures Linear(DoInsert(s, t, n))
  {
    var op := s.pcs[t].op;
    InsertTable(s.contents, s.nodes, op.key, op.value, n);
    EffectLinear(s, DoInsert(s, t, n), t, Inserted, WantNode(n, Some(Inserted)));
  }

  lemma MissLinear(s: State, t: Tid)
    requires ContentsOk(s) && Linear(s) && CanMiss(s, t)
    ensures Linear(DoMiss(s, t))
  {
    EffectLinear(s, DoMiss(s, t), t, Missing, Leaving(Missing, None));
  }

  /** The call takes effect when it gets the node mutex: the entry is still the current one. */
  lemma LockNodeLinear(s: State, t: Tid)
    requires ContentsOk(s) && Linear(s) && CanLockNode(s, t) && PcOk(s, t, s.pcs[t])
    ensures Linear(DoLockNode(s, t))
  {
    var s' := DoLockNode(s, t);
    var Pc(op, WantNode(n, early)) := s.pcs[t];
    if early.Some? {
      Silent(s, s', t);
    } else {
      Recorded(s, s', Effect(t, op, NodeAnswer(op, early, s.nodes[n].value)));
    }
  }

  lemma RejectLinear(s: State, t: Tid)
    requires ContentsOk(s) && Linear(s) && CanReject(s, t) && PcOk(s, t, s.pcs[t])
    ensures Linear(DoReject(s, t))
  {
    Recorded(s, DoReject(s, t), Effect(t, s.pcs[t].op, Kept(s.nodes[s.pcs[t].stage.node].value)));
  }

  /** The value RemoveIf decided on is still the current value when it erases the entry. */
  lemma EraseLinear(s: State, t: Tid)
    requires ContentsOk(s) && Linear(s) && CanErase(s, t) && PcOk(s, t, s.pcs[t])
    ensures Linear(DoErase(s, t))
  {
    var s' := DoErase(s, t);
    var Pc(op, Erasing(n, v)) := s.pcs[t];
    assert Abs(s') == Abs(s) - {op.key};
    Recorded(s, s', Effect(t, op, Removed(v)));
  }

  /** A call that has taken effect is over, and records its return. */
  ghost predicate Leaves(s: State, s': State, t: Tid)
    requires t in s.pcs && s.pcs[t].stage.Leaving?
  {
    && s'.trace == s.trace + [Returned(t, s.pcs[t].op, s.pcs[t].stage.res)] && s'.pcs == s.pcs - {t}
    && s'.contents == s.contents && s'.nodes == s.nodes
  }

  lemma LeavingLinear(s: State, s': State, t: Tid)
    requires Linear(s) && t in s.pcs && s.pcs[t].stage.Leaving? && Leaves(s, s', t)
    ensures Linear(s')
  {
    ReturnedLinear(s, s', t, s.pcs[t].stage.res);
  }

  lemma ReturnBareLeaves(s: State, t: Tid)
    requires CanReturnBare(s, t)
    ensures Leaves(s, DoReturnBare(s, t), t)
  {
  }

  lemma ReturnHandleLeaves(s: State, t: Tid, h: HandleId)
    requires CanReturnHandle(s, t, h)
    ensures Leaves(s, DoReturnHandle(s, t, h), t)
  {
  }

  lemma ReturnElementLeaves(s: State, t: Tid)
    requires CanReturnElement(s, t)
    ensures Leaves(s, DoReturnElement(s, t), t)
  {
  }

  lemma ReturnBareLinear(s: State, t: Tid)
    requires Linear(s) && CanReturnBare(s, t)
    ensures Linear(DoReturnBare(s, t))
  {
    ReturnBareLeaves(s, t);
    LeavingLinear(s, DoReturnBare(s, t), t);
  }

  lemma ReturnHandleLinear(s: State, t: Tid, h: HandleId)
    requires Linear(s) && CanReturnHandle(s, t, h)
    ensures Linear(DoReturnHandle(s, t, h))
  {
    ReturnHandleLeaves(s, t, h);
    LeavingLinear(s, DoReturnHandle(s, t, h), t);
  }

  lemma ReturnElementLinear(s: State, t: Tid)
    requires Linear(s) && CanReturnElement(s, t)
    ensures Linear(DoReturnElement(s, t))
  {
    ReturnElementLeaves(s, t);
    LeavingLinear(s, DoReturnElement(s, t), t);
  }

  lemma DropMapLinear(s: State, t: Tid)
    requires Linear(s) && CanDropMap(s, t)
    ensures Linear(DoDropMap(s, t))
  {
    EffectLinear(s, DoDropMap(s, t), t, Finished, DropNode);
  }

  lemma DropNodeLinear(s: State, t: Tid)
    requires Linear(s) && CanDropNode(s, t)
    ensures Linear(DoDropNode(s, t))
  {
    ReturnedLinear(s, DoDropNode(s, t), t, Finished);
  }

  lemma InvokeLinear(s: State, t: Tid, op: Op)
    requires Linear(s) && CanInvoke(s, t, op)
    ensures Linear(DoInvoke(s, t, op))
  {
    Recorded(s, DoInvoke(s, t, op), Invoked(t, op));
  }

  /** Reads through a handle see, and writes through a handle set, the table's own entry. */
  lemma ReadLinear(s: State, t: Tid, h: HandleId)
    requires ContentsOk(s) && HandlesOk(s) && Linear(s) && CanRead(s, t, h)
    ensures Linear(DoRead(s, t, h))
  {
    Recorded(s, DoRead(s, t, h), ReadValue(t, s.handles[h].key, s.nodes[s.handles[h].node].value));
  }

  lemma WriteLinear(s: State, t: Tid, h: HandleId, v: Value)
    requires ContentsOk(s) && HandlesOk(s) && Linear(s) && CanWrite(s, t, h)
    ensures Linear(DoWrite(s, t, h, v))
  {
    var s' := DoWrite(s, t, h, v);
    var k := s.handles[h].key;
    assert Live(s, k, s.handles[h].node);
    forall k' | k' in Abs(s) && k' != k ensures Abs(s')[k'] == Abs(s)[k'] {
      assert s.nodes[s.contents[k']].key == k';
    }
    assert Abs(s') == Abs(s)[k := v];
    Recorded(s, s', WroteValue(t, k, v));
  }

  lemma LockMapLinear(s: State, t: Tid)
    requires Linear(s) && CanLockMap(s, t)
    ensures Linear(DoLockMap(s, t))
  {
    Silent(s, DoLockMap(s, t), t);
  }

  lemma FindLinear(s: State, t: Tid)
    requires Linear(s) && CanFind(s, t)
    ensures Linear(DoFind(s, t))
  {
    Silent(s, DoFind(s, t), t);
  }

  lemma LockDrainLinear(s: State, t: Tid)
    requires Linear(s) && CanLockDrain(s, t) && PcOk(s, t, s.pcs[t])
    ensures Linear(DoLockDrain(s, t))
  {
    Silent(s, DoLockDrain(s, t), t);
  }

  lemma DrainLinear(s: State, t: Tid)
    requires Linear(s) && CanDrain(s, t)
    ensures Linear(DoDrain(s, t))
  {
    Silent(s, DoDrain(s, t), t);
  }

  lemma AcceptLinear(s: State, t: Tid)
    requires Linear(s) && CanAccept(s, t)
    ensures Linear(DoAccept(s, t))
  {
    Silent(s, DoAccept(s, t), t);
  }

  lemma EarlyStepLinear(s: State, l: Label)
    requires ContentsOk(s) && (l.t in s.pcs ==> PcOk(s, l.t, s.pcs[l.t]))
    requires Linear(s) && EnabledEarly(s, l)
    ensures Linear(ApplyEarly(s, l))
  {
    match l
    case Invoke(t, op) => InvokeLinear(s, t, op);
    case LockMap(t) => LockMapLinear(s, t);
    case BeginIter(t, i, order) => BeginLinear(s, t, i, order);
    case Find(t) => FindLinear(s, t);
    case Insert(t, n) => InsertLinear(s, t, n);
    case Miss(t) => MissLinear(s, t);
    case LockNode(t) => LockNodeLinear(s, t);
    case LockDrain(t) => LockDrainLinear(s, t);
  }

  lemma LateStepLinear(s: State, l: Label)
    requires ContentsOk(s) && (l.t in s.pcs ==> PcOk(s, l.t, s.pcs[l.t]))
    requires Linear(s) && EnabledLate(s, l)
    ensures Linear(ApplyLate(s, l))
  {
    match l
    case Drain(t) => DrainLinear(s, t);
    case Accept(t) => AcceptLinear(s, t);
    case Reject(t) => RejectLinear(s, t);
    case Erase(t) => EraseLinear(s, t);
    case ReturnBare(t) => ReturnBareLinear(s, t);
    case ReturnHandle(t, h) => ReturnHandleLinear(s, t, h);
    case ReturnElement(t) => ReturnElementLinear(s, t);
    case DropIterMap(t) => DropMapLinear(s, t);
    case DropIterNode(t) => DropNodeLinear(s, t);
  }

  lemma StepBetweenLinear(s: State, l: Label)
    requires ContentsOk(s) && HandlesOk(s) && Linear(s) && EnabledBetween(s, l)
    ensures Linear(ApplyBetween(s, l))
  {
    match l
    case Advance(t, i) => Silent(s, DoAdvance(s, i), t);
    case ReleaseCur(t, i) => Silent(s, DoReleaseCur(s, i), t);
    case TakeElement(t, i, h) => Silent(s, DoTake(s, t, i, h), t);
    case Release(t, h) => Silent(s, DoRelease(s, h), t);
    case Read(t, h) => ReadLinear(s, t, h);
    case Write(t, h, v) => WriteLinear(s, t, h, v);
  }

  lemma StepLinear(s: State, l: Label)
    requires ContentsOk(s) && HandlesOk(s) && (l.t in s.pcs ==> PcOk(s, l.t, s.pcs[l.t]))
    requires Linear(s) && Enabled(s, l)
    ensures Linear(Apply(s, l))
  {
    if BetweenCalls(l) {
      StepBetweenLinear(s, l);
    } else if EarlyStep(l) {
      EarlyStepLinear(s, l);
    } else {
      LateStepLinear(s, l);
    }
  }

  lemma {:induction false} ReachableLinear(run: seq<Label>)
    requires Exec(run).Some?
    ensures Linear(Exec(run).value)
  {
    if run == [] {
      assert Abs(Init) == map[];
    } else {
      var before := run[..|run| - 1];
      ReachableLinear(before);
      ReachableInv(before);
      StepLinear(Exec(before).value, run[|run| - 1]);
    }
  }

  /** Main theorem: every run replays legally on a sequential map, to the table it
      ends in, and no thread's events ever leave the invoke-effect-return pattern. */
  lemma RunsLinearize(run: seq<Label>)
    requires Exec(run).Some?
    ensures Replay(Exec(run).value.trace) == Some(Abs(Exec(run).value))
    ensures forall t :: PhaseOf(Exec(run).value.trace, t) == CurrentPhase(Exec(run).value, t)
    ensures forall t :: PhaseOf(Exec(run).value.trace, t) != Broken
  {
    ReachableLinear(run);
    LinearMeans(Exec(run).value);
  }

  lemma LinearMeans(s: State)
    requires Linear(s)
    ensures Replay(s.trace) == Some(Abs(s))
    ensures forall t :: PhaseOf(s.trace, t) == CurrentPhase(s, t)
    ensures forall t :: PhaseOf(s.trace, t) != Broken
  {
    forall t ensures PhaseOf(s.trace, t) != Broken {
      assert PhaseOf(s.trace, t) == CurrentPhase(s, t);
    }
  }

  /* ---------- consequences for one key ---------- */

  /** Insertions of `k` minus erasures of `k` along a trace. */
  function Balance(trace: seq<Event>, k: Key): int {
    if trace == [] then 0
    else
      var e := trace[|trace| - 1];
      Balance(trace[..|trace| - 1], k) +
      if (e.Effect? || e.Completed?) && Keyed(e.op) && e.op.key == k then
        (if e.res.Inserted? then 1 else if e.res.Removed? then -1 else 0)
      else 0
  }

  lemma {:induction false} BalanceIsPresence(trace: seq<Event>, k: Key)
    requires Replay(trace).Some?
    ensures Balance(trace, k) == if k in Replay(trace).value then 1 else 0
  {
    if trace != [] { BalanceIsPresence(trace[..|trace| - 1], k); }
  }

  /** The last value inserted or written for `k`, if no erasure came after it. */
  function LastWritten(trace: seq<Event>, k: Key): Option<Value> {
    if trace == [] then None
    else
      var e := trace[|trace| - 1];
      var before := LastWritten(trace[..|trace| - 1], k);
      match e
      case Effect(_, Put(k', v), Inserted) => if k' == k then Some(v) else before
      case Completed(_, Put(k', v), Inserted) => if k' == k then Some(v) else before
      case Effect(_, RemoveIf(k', _), Removed(_)) => if k' == k then None else before
      case Completed(_, RemoveIf(k', _), Removed(_)) => if k' == k then None else before
      case WroteValue(_, k', v) => if k' == k then Some(v) else before
      case _ => before
  }

  lemma {:induction false} ReplayKeepsLastWritten(trace: seq<Event>, k: Key)
    requires Replay(trace).Some?
    ensures LastWritten(trace, k) ==
            if k in Replay(trace).value then Some(Replay(trace).value[k]) else None
  {
    if trace != [] { ReplayKeepsLastWritten(trace[..|trace| - 1], k); }
  }

  lemma {:induction false} ReplayPrefix(trace: seq<Event>, n: nat)
    requires Replay(trace).Some? && n <= |trace|
    ensures Replay(trace[..n]).Some?
  {
    if n < |trace| {
      ReplayPrefix(trace[..|trace| - 1], n);
      assert trace[..|trace| - 1][..n] == trace[..n];
    } else {
      assert trace[..n] == trace;
    }
  }

  /** What the last values written so far determine as the answer of an operation. */
  ghost predicate AnswersFromLast(trace: seq<Event>, op: Op, res: Answer) {
    match op
    case Get(k, _) =>
      var last := LastWritten(trace, k);
      res == if last.Some? then Present(last.value) else Missing
    case Put(k, _) =>
      var last := LastWritten(trace, k);
      res == if last.Some? then Existing(last.value) else Inserted
    case RemoveIf(k, p) =>
      var last := LastWritten(trace, k);
      res == if last.None? then Missing else if p(last.value) then Removed(last.value) else Kept(last.value)
    case Begin =>
      && res.Listing?
      && (forall j, l :: 0 <= j < l < |res.keys| ==> res.keys[j] != res.keys[l])
      && (forall k :: k in res.keys <==> LastWritten(trace, k).Some?)
    case Deref(_, k) =>
      var last := LastWritten(trace, k);
      last.Some? && res == Present(last.value)
    case Destroy(_) => res == Finished
  }

  lemma ReplayStepAt(trace: seq<Event>, j: nat)
    requires Replay(trace).Some? && j < |trace|
    ensures Replay(trace[..j]).Some? && ReplayOne(Replay(trace[..j]).value, trace[j]).Some?
  {
    ReplayPrefix(trace, j);
    ReplayPrefix(trace, j + 1);
    assert trace[..j + 1][..j] == trace[..j];
  }

  lemma AnswersAreFromLast(trace: seq<Event>, op: Op, res: Answer)
    requires Replay(trace).Some? && Answers(Replay(trace).value, op, res)
    ensures AnswersFromLast(trace, op, res)
  {
    forall k ensures LastWritten(trace, k) == if k in Replay(trace).value then Some(Replay(trace).value[k]) else None {
      ReplayKeepsLastWritten(trace, k);
    }
  }

  /** What an event must be, given the last values written before it. */
  ghost predicate FromLast(before: seq<Event>, e: Event) {
    && (e.Effect? || e.Completed? ==> AnswersFromLast(before, e.op, e.res))
    && (e.ReadValue? ==> LastWritten(before, e.key) == Some(e.v))
    && (e.WroteValue? ==> LastWritten(before, e.key).Some?)
  }

  lemma EventsAreFromLast(before: seq<Event>, e: Event)
    requires Replay(before).Some? && ReplayOne(Replay(before).value, e).Some?
    ensures FromLast(before, e)
  {
    if e.Effect? || e.Completed? {
      AnswersAreFromLast(before, e.op, e.res);
    } else if e.ReadValue? || e.WroteValue? {
      ReplayKeepsLastWritten(before, e.key);
    }
  }

  /** In every run, every operation answers with the last values that were written before it took
      effect, and so does every read through a handle. */
  lemma AnswersAreLastValues(run: seq<Label>, j: nat)
    requires Exec(run).Some? && j < |Exec(run).value.trace|
    ensures FromLast(Exec(run).value.trace[..j], Exec(run).value.trace[j])
  {
    var trace := Exec(run).value.trace;
    RunsLinearize(run);
    ReplayStepAt(trace, j);
    EventsAreFromLast(trace[..j], trace[j]);
  }

  /** In every run, whatever RemoveIf erased was the last value written for the key
      and satisfied the predicate; whatever it kept was the last value and did not. */
  lemma RemoveIfActsOnLastValue(run: seq<Label>, j: nat)
    requires Exec(run).Some? && j < |Exec(run).value.trace|
    requires Exec(run).value.trace[j].Effect? && Exec(run).value.trace[j].op.RemoveIf?
    ensures var trace := Exec(run).value.trace; var e := trace[j];
      var last := LastWritten(trace[..j], e.op.key);
      && (e.res.Removed? <==> last.Some? && e.op.pred(last.value)) && (e.res.Removed? ==> last == Some(e.res.v))
      && (e.res.Kept? <==> last.Some? && !e.op.pred(last.value)) && (e.res.Kept? ==> last == Some(e.res.v))
      && (e.res.Missing? <==> last.None?)
  {
    AnswersAreLastValues(run, j);
  }

  /* ---------- effects lie inside their calls ---------- */

  /** No event of thread `t` lies strictly between two places of a trace. */
  ghost predicate Silence(trace: seq<Event>, t: Tid, i: int, j: int) {
    forall k :: 0 <= k < |trace| && i < k < j ==> trace[k].t != t
  }

  lemma {:induction false} BrokenForGood(trace: seq<Event>, n: nat, t: Tid)
    requires n <= |trace| && PhaseOf(trace[..n], t) == Broken
    ensures PhaseOf(trace, t) == Broken
  {
    if n < |trace| {
      var k := |trace| - 1;
      assert trace[..k][..n] == trace[..n];
      BrokenForGood(trace[..k], n, t);
    } else {
      assert trace[..n] == trace;
    }
  }

  /** A thread whose call has started has invoked it, and done nothing since. */
  lemma {:induction false} StartedSince(trace: seq<Event>, t: Tid) returns (i: nat)
    requires PhaseOf(trace, t).Started?
    ensures i < |trace| && trace[i] == Invoked(t, PhaseOf(trace, t).op) && Silence(trace, t, i, |trace|)
  {
    var k := |trace| - 1;
    if trace[k].t == t {
      i := k;
    } else {
      i := StartedSince(trace[..k], t);
      assert trace[..k][i] == trace[i];
      forall j | i < j < |trace| ensures trace[j].t != t { if j < k { assert trace[..k][j] == trace[j]; } }
    }
  }

  /** A thread whose call has taken effect has done nothing since, and before that only invoked it. */
  lemma {:induction false} DecidedSince(trace: seq<Event>, t: Tid) returns (i: nat, j: nat)
    requires PhaseOf(trace, t).Decided?
    ensures i < j < |trace| && trace[i] == Invoked(t, PhaseOf(trace, t).op) && Silence(trace, t, i, j)
    ensures trace[j] == Effect(t, PhaseOf(trace, t).op, PhaseOf(trace, t).res) && Silence(trace, t, j, |trace|)
  {
    var k := |trace| - 1;
    if trace[k].t == t {
      j := k;
      i := StartedSince(trace[..k], t);
      assert trace[..k][i] == trace[i];
      forall m | i < m < j ensures trace[m].t != t { assert trace[..k][m] == trace[m]; }
    } else {
      i, j := DecidedSince(trace[..k], t);
      assert trace[..k][i] == trace[i] && trace[..k][j] == trace[j];
      forall m | i < m < j ensures trace[m].t != t { assert trace[..k][m] == trace[m]; }
      forall m | j < m < |trace| ensures trace[m].t != t { if m < k { assert trace[..k][m] == trace[m]; } }
    }
  }

  lemma UnbrokenStep(trace: seq<Event>, n: nat)
    requires n < |trace| && PhaseOf(trace, trace[n].t) != Broken
    ensures PhaseStep(PhaseOf(trace[..n], trace[n].t), trace[n]) != Broken
  {
    assert trace[..n + 1][..n] == trace[..n];
    if PhaseOf(trace[..n + 1], trace[n].t) == Broken { BrokenForGood(trace, n + 1, trace[n].t); }
  }

  lemma PhaseBefore(run: seq<Label>, n: nat)
    requires Exec(run).Some? && n < |Exec(run).value.trace|
    ensures var trace := Exec(run).value.trace; var e := trace[n];
      PhaseStep(PhaseOf(trace[..n], e.t), e) != Broken
  {
    RunsLinearize(run);
    UnbrokenStep(Exec(run).value.trace, n);
  }

  /** In every run a call that returns has taken effect, with the answer it returns, after it was
      invoked, and its thread did nothing else in between. */
  lemma EffectsInsideCalls(run: seq<Label>, n: nat) returns (i: nat, j: nat)
    requires Exec(run).Some? && n < |Exec(run).value.trace| && Exec(run).value.trace[n].Returned?
    ensures var trace := Exec(run).value.trace; var e := trace[n];
      && i < j < n && trace[i] == Invoked(e.t, e.op) && trace[j] == Effect(e.t, e.op, e.res)
      && Silence(trace, e.t, i, j) && Silence(trace, e.t, j, n)
  {
    var trace := Exec(run).value.trace;
    var t := trace[n].t;
    PhaseBefore(run, n);
    i, j := DecidedSince(trace[..n], t);
    assert trace[..n][i] == trace[i] && trace[..n][j] == trace[j];
    forall m | i < m < j ensures trace[m].t != t { assert trace[..n][m] == trace[m]; }
    forall m | j < m < n ensures trace[m].t != t { assert trace[..n][m] == trace[m]; }
  }

  /** Per key, successful insertions exceed erasures by one exactly while the key is present. */
  lemma InsertionsMinusErasures(run: seq<Label>, k: Key)
    requires Exec(run).Some?
    ensures Balance(Exec(run).value.trace, k) == if k in Exec(run).value.contents then 1 else 0
  {
    RunsLinearize(run);
    ReachableInv(run);
    BalanceIsPresence(Exec(run).value.trace, k);
  }
}
