/**
 What an iterator of the locking map visits.  The statements are about the labels of a
 run and the listing that the call of begin() answered with: an iterator stands as far along
 that listing as it has been advanced, and dereferences the key that stands there.
 */
module HashMapIteration {
  import opened Status
  import opened HashMapProtocol
  import opened HashMapSafety

  /* ---------- read off the run ---------- */

  predicate Begins(l: Label, i: IterId) {
    l.BeginIter? && l.i == i
  }

  predicate Advances(l: Label, i: IterId) {
    l.Advance? && l.i == i
  }

  predicate Dereferences(l: Label, i: IterId) {
    l.Invoke? && l.op.Deref? && l.op.iter == i
  }

  /** How often iterator `i` has been advanced since it began. */
  ghost function Advanced(run: seq<Label>, i: IterId): nat {
    if run == [] then 0
    else
      var before, l := Advanced(run[..|run| - 1], i), run[|run| - 1];
      if Begins(l, i) then 0 else if Advances(l, i) then before + 1 else before
  }

  /** The keys that iterator `i` has been dereferenced at since it began, in order. */
  ghost function Visited(run: seq<Label>, i: IterId): seq<Key> {
    if run == [] then []
    else
      var before, l := Visited(run[..|run| - 1], i), run[|run| - 1];
      if Begins(l, i) then [] else if Dereferences(l, i) then before + [l.op.key] else before
  }

  /** The keys in the answer that a state's last event records, if it is a listing. */
  ghost function LastListing(s: State): seq<Key> {
    if s.trace != [] && s.trace[|s.trace| - 1].Completed? && s.trace[|s.trace| - 1].res.Listing?
    then s.trace[|s.trace| - 1].res.keys else []
  }

  /** The listing that begin() answered with when iterator `i` began. */
  ghost function Promised(run: seq<Label>, i: IterId): seq<Key> {
    if run == [] then []
    else if Begins(run[|run| - 1], i) && Exec(run).Some? then LastListing(Exec(run).value)
    else Promised(run[..|run| - 1], i)
  }

  /* ---------- steps and positions ---------- */

  /** What a step does to an iterator that is there afterwards. */
  ghost predicate Steps(s: State, s': State, l: Label, i: IterId) {
    i in s'.iters ==>
      if Begins(l, i) then s'.iters[i].pos == 0 && Keys(s'.iters[i].order) == LastListing(s')
      else
        && i in s.iters && s'.iters[i].order == s.iters[i].order
        && s'.iters[i].pos == s.iters[i].pos + if Advances(l, i) then 1 else 0
  }

  lemma BeginSteps(s: State, t: Tid, j: IterId, order: seq<Entry>, i: IterId)
    requires CanBegin(s, t, j, order)
    ensures Steps(s, DoBegin(s, t, j, order), BeginIter(t, j, order), i)
  {
  }

  lemma EarlyStepSteps(s: State, l: Label, i: IterId)
    requires EnabledEarly(s, l)
    ensures Steps(s, ApplyEarly(s, l), l, i)
  {
    if l.BeginIter? { BeginSteps(s, l.t, l.i, l.order, i); } else { assert ApplyEarly(s, l).iters == s.iters; }
  }

  lemma LateStepSteps(s: State, l: Label, i: IterId)
    requires EnabledLate(s, l)
    ensures Steps(s, ApplyLate(s, l), l, i)
  {
  }

  lemma StepBetweenSteps(s: State, l: Label, i: IterId)
    requires EnabledBetween(s, l)
    ensures Steps(s, ApplyBetween(s, l), l, i)
  {
  }

  lemma StepSteps(s: State, l: Label, i: IterId)
    requires Enabled(s, l)
    ensures Steps(s, Apply(s, l), l, i)
  {
    if BetweenCalls(l) {
      StepBetweenSteps(s, l, i);
    } else if EarlyStep(l) {
      EarlyStepSteps(s, l, i);
    } else {
      LateStepSteps(s, l, i);
    }
  }

  /** In every run an iterator stands as far along its listing as it has been advanced. */
  lemma {:induction false} PositionIsAdvances(run: seq<Label>, i: IterId)
    requires Exec(run).Some? && i in Exec(run).value.iters
    ensures Exec(run).value.iters[i].pos == Advanced(run, i)
    ensures Keys(Exec(run).value.iters[i].order) == Promised(run, i)
  {
    if run != [] {
      var before, l := run[..|run| - 1], run[|run| - 1];
      StepSteps(Exec(before).value, l, i);
      if !Begins(l, i) { PositionIsAdvances(before, i); }
    }
  }

  /** In every run the owner of an open iterator, outside any call, can dereference it exactly at
      the key that its listing has after as many keys as it was advanced, and can advance it
      exactly while there is such a key. */
  lemma IteratorAtPromisedKey(run: seq<Label>, t: Tid, i: IterId)
    requires Exec(run).Some? && t !in Exec(run).value.pcs && OwnsOpenIter(Exec(run).value, t, i)
    ensures forall k :: Enabled(Exec(run).value, Invoke(t, Deref(i, k))) <==>
      Advanced(run, i) < |Promised(run, i)| && k == Promised(run, i)[Advanced(run, i)]
    ensures Enabled(Exec(run).value, Advance(t, i)) <==> Advanced(run, i) < |Promised(run, i)|
  {
    PositionIsAdvances(run, i);
  }

  /** While an iterator is open, its listing is that of the present keys, each once. */
  lemma ListingIsTable(run: seq<Label>, i: IterId)
    requires Exec(run).Some? && i in Exec(run).value.iters && Exec(run).value.iters[i].open
    ensures forall j, l :: 0 <= j < l < |Promised(run, i)| ==> Promised(run, i)[j] != Promised(run, i)[l]
    ensures forall k :: k in Promised(run, i) <==> k in Exec(run).value.contents
  {
    var s := Exec(run).value;
    PositionIsAdvances(run, i);
    OpenIteratorsListTheTable(run, i);
    KeysOfTable(s.iters[i].order, s.contents);
  }

  lemma KeysOfTable(order: seq<Entry>, contents: map<Key, NodeId>)
    requires Enumerates(order, contents)
    ensures forall j, l :: 0 <= j < l < |order| ==> Keys(order)[j] != Keys(order)[l]
    ensures forall k :: k in Keys(order) <==> k in contents
  {
    forall k | k in contents ensures k in Keys(order) {
      var j :| 0 <= j < |order| && order[j] == Entry(k, contents[k]);
      assert Keys(order)[j] == k;
    }
  }

  /* ---------- a traversal ---------- */

  /** Dereferences and advances of iterator `i` take turns, beginning with a dereference. */
  ghost predicate InTurn(run: seq<Label>, i: IterId) {
    run != [] ==>
      var before, l := run[..|run| - 1], run[|run| - 1];
      && InTurn(before, i)
      && (Dereferences(l, i) ==> |Visited(before, i)| == Advanced(before, i))
      && (Advances(l, i) ==> |Visited(before, i)| == Advanced(before, i) + 1)
  }

  lemma {:induction false} VisitsFollowListing(run: seq<Label>, i: IterId)
    requires Exec(run).Some? && i in Exec(run).value.iters && InTurn(run, i)
    ensures Advanced(run, i) <= |Visited(run, i)| <= Advanced(run, i) + 1 && |Visited(run, i)| <= |Promised(run, i)|
    ensures Visited(run, i) == Promised(run, i)[..|Visited(run, i)|]
  {
    if run != [] {
      var before, l := run[..|run| - 1], run[|run| - 1];
      StepSteps(Exec(before).value, l, i);
      if !Begins(l, i) {
        VisitsFollowListing(before, i);
        if Dereferences(l, i) { NextVisit(before, l, i); }
      }
    }
  }

  lemma NextVisit(before: seq<Label>, l: Label, i: IterId)
    requires Exec(before).Some? && i in Exec(before).value.iters && Enabled(Exec(before).value, l) && Dereferences(l, i)
    ensures Advanced(before, i) < |Promised(before, i)| && l.op.key == Promised(before, i)[Advanced(before, i)]
  {
    PositionIsAdvances(before, i);
  }

  /** A run that dereferences and advances an iterator in turn, until it can be advanced no
      more, has dereferenced every present key exactly once. */
  lemma TraversalVisitsEveryKeyOnce(run: seq<Label>, t: Tid, i: IterId)
    requires Exec(run).Some? && InTurn(run, i) && t !in Exec(run).value.pcs && OwnsOpenIter(Exec(run).value, t, i)
    requires !Enabled(Exec(run).value, Advance(t, i))
    ensures Visited(run, i) == Promised(run, i)
    ensures forall j, l :: 0 <= j < l < |Visited(run, i)| ==> Visited(run, i)[j] != Visited(run, i)[l]
    ensures forall k :: k in Visited(run, i) <==> k in Exec(run).value.contents
  {
    IteratorAtPromisedKey(run, t, i);
    VisitsFollowListing(run, i);
    assert Promised(run, i)[..|Promised(run, i)|] == Promised(run, i);
    ListingIsTable(run, i);
  }
}
