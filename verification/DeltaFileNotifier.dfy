/**
 The polling watcher for delta files (components/data/blob_storage/delta_file_notifier.cc),
 run on a script of turns.
 */
module DeltaFileNotifier {
  import opened Status
  import opened FileNames
  import opened DeltaFileBooks
  import opened DeltaFileRuns

  method WaitForNotification(changes: Result<seq<string>>) returns (r: Result<string>)
    ensures changes.Err? ==> r == Err(changes.error)
    ensures changes.Ok? ==> r.Ok? && IsLargest(r.value, changes.value)
  {
    if changes.Err? {
      return Err(changes.error);
    }
    var maxChange := "";
    for i := 0 to |changes.value|
      invariant IsLargest(maxChange, changes.value[..i])
    {
      var change := changes.value[i];
      assert changes.value[..i + 1] == changes.value[..i] + [change];
      var blob := ParseBlobName(change);
      if Less(maxChange, change) && IsDeltaFilename(blob.key) {
        forall c | c in changes.value[..i] && DeltaChange(c) ensures Less(c, change) {
          if c != maxChange { LessTransitive(c, maxChange, change); }
        }
        maxChange := change;
      } else {
        LessTotal(maxChange, change);
      }
    }
    assert changes.value[..|changes.value|] == changes.value;
    r := Ok(maxChange);
  }

  class Watcher {
    const allowlist: set<string>
    const pollFrequency: nat
    const backoff: nat -> nat
    ghost const initial: map<string, string>
    ghost const created: int

    var startAfter: map<string, string>
    var now: int
    var expiry: int
    var sequentialFailures: nat
    var callbacks: seq<string>

    ghost var reported: seq<BlobName>
    /** For each prefix, the last turn whose pass listed it. */
    ghost var listedAt: map<string, nat>
    /** The moment before each turn so far, and the present one. */
    ghost var history: seq<Moment>

    constructor (allowlist: set<string>, pollFrequency: nat, backoff: nat -> nat,
                 startAfter: map<string, string>, now: int)
      ensures this.allowlist == allowlist && this.pollFrequency == pollFrequency && this.initial == startAfter
      ensures this.backoff == backoff && this.created == this.now == expiry == now && sequentialFailures == 0
      ensures Valid() && callbacks == [] && listedAt == map[] && this.startAfter == startAfter && reported == []
      ensures history == [Present()]
    {
      this.allowlist, this.pollFrequency, this.backoff := allowlist, pollFrequency, backoff;
      this.initial, this.startAfter := startAfter, startAfter;
      // The flag starts expired, which forces an initial poll.
      this.now, this.expiry, this.sequentialFailures := now, now, 0;
      this.callbacks, this.reported, this.listedAt := [], [], map[];
      this.created, this.history := now, [Moment(Clock(now, now, 0), Book(startAfter, []))];
    }

    ghost function Books(): Book
      reads `startAfter, `reported
    {
      Book(startAfter, reported)
    }

    ghost function Config(): Config {
      DeltaFileRuns.Config(allowlist, pollFrequency, backoff)
    }

    ghost function Present(): Moment
      reads `startAfter, `reported, `now, `expiry, `sequentialFailures
    {
      Moment(Clock(now, expiry, sequentialFailures), Books())
    }

    ghost predicate CallbacksMatch()
      reads `callbacks, `reported
    {
      |callbacks| == |reported| && forall i :: 0 <= i < |reported| ==> callbacks[i] == Join(reported[i])
    }

    /** The promises for every prefix, and that the callback got the joined names. */
    ghost predicate Valid()
      reads `startAfter, `reported, `callbacks, `listedAt
    {
      SoundBook(Books(), initial, allowlist) && NothingUnlisted(Books(), listedAt) && CallbacksMatch()
    }

    /** ExpiringFlag::GetTimeRemaining. */
    function TimeRemaining(): (r: int)
      reads this
      ensures r >= 0 && (now < expiry ==> now + r == expiry)
    {
      Max(0, expiry - now)
    }

    /** Lists at once when the flag has expired; otherwise waits, but never past the expiry. */
    method ShouldListBlobs(turn: Turn) returns (r: Result<bool>)
      modifies this`now
      ensures old(now) <= now <= Max(old(now), expiry)
      ensures old(now) >= expiry ==> r == Ok(true) && now == old(now)
      ensures old(now) < expiry ==> now == old(now) + Min(turn.waitTook, expiry - old(now))
      ensures old(now) < expiry ==>
        match turn.changes
        case Err(e) => if e.code == DeadlineExceeded then r == Ok(true) else r == Err(e)
        case Ok(changes) => exists c :: IsLargest(c, changes) && r == Ok(CallsForListing(c, allowlist, startAfter))
    {
      if !(now < expiry) {
        return Ok(true);
      }
      now := now + Min(turn.waitTook, TimeRemaining());
      var key := WaitForNotification(turn.changes);
      if key.Err? && key.error.code == DeadlineExceeded {
        return Ok(true);
      }
      if key.Err? {
        return Err(key.error);
      }
      var blob := ParseBlobName(key.value);
      if blob.prefix in startAfter && Less(blob.key, startAfter[blob.prefix]) {
        assert !CallsForListing(key.value, allowlist, startAfter);
        return Ok(false);
      }
      r := Ok(blob.prefix in allowlist && IsDeltaFilename(blob.key));
    }

    method ListPrefixDeltaFiles(turn: Turn) returns (m: map<string, seq<string>>)
      ensures forall p :: p in m <==>
        p in allowlist && turn.list(p, After(startAfter, p)).Ok? && turn.list(p, After(startAfter, p)).value != []
      ensures forall p :: p in m ==> Ok(m[p]) == turn.list(p, After(startAfter, p))
    {
      m := map[];
      var todo := allowlist;
      while todo != {}
        invariant todo <= allowlist
        invariant forall p :: p in m <==>
          && p in allowlist - todo && turn.list(p, After(startAfter, p)).Ok?
          && turn.list(p, After(startAfter, p)).value != []
        invariant forall p :: p in m ==> Ok(m[p]) == turn.list(p, After(startAfter, p))
        decreases todo
      {
        var prefix :| prefix in todo;
        todo := todo - {prefix};
        var result := turn.list(prefix, After(startAfter, prefix));
        if result.Err? {
          continue;
        }
        if result.value == [] {
          continue;
        }
        m := m[prefix := result.value];
      }
    }

    /** The inner loop: passes the delta names of one prefix on, moving its watermark along. */
    method ReportPrefix(prefix: string, blobs: seq<string>)
      requires CallbacksMatch()
      modifies this`startAfter, this`callbacks, this`reported
      ensures CallbacksMatch() && Books() == ReportBlobs(old(Books()), prefix, blobs)
    {
      for i := 0 to |blobs|
        invariant CallbacksMatch() && Books() == ReportBlobs(old(Books()), prefix, blobs[..i])
      {
        var blob := blobs[i];
        assert blobs[..i + 1][..i] == blobs[..i] && blobs[..i + 1][i] == blob;
        if !IsDeltaFilename(blob) {
          continue;
        }
        callbacks := callbacks + [if prefix == "" then blob else prefix + "/" + blob];
        reported := reported + [BlobName(prefix, blob)];
        startAfter := startAfter[prefix := blob];
      }
      assert blobs[..|blobs|] == blobs;
    }

    /** One pass over all prefixes, in any order. */
    method ReportAll(turn: Turn)
      requires CallbacksMatch()
      modifies this`startAfter, this`callbacks, this`reported
      ensures CallbacksMatch() && Partway(old(Books()), Books(), turn, allowlist, allowlist)
    {
      var m := ListPrefixDeltaFiles(turn);
      ghost var before := Books();
      var todo := m.Keys;
      while todo != {}
        invariant todo <= m.Keys && CallbacksMatch()
        invariant Partway(before, Books(), turn, allowlist, m.Keys - todo)
        decreases todo
      {
        var prefix :| prefix in todo;
        OneMorePrefix(before, Books(), turn, allowlist, m.Keys - todo, prefix, m[prefix]);
        ReportPrefix(prefix, m[prefix]);
        assert m.Keys - todo + {prefix} == m.Keys - (todo - {prefix});
        todo := todo - {prefix};
      }
      assert m.Keys - todo == m.Keys;
      NothingElseListed(before, Books(), turn, allowlist, m.Keys);
    }

    /** Every turn before `i` has been dealt with. */
    ghost predicate Caught(script: seq<Turn>, i: nat)
      reads `startAfter, `reported, `listedAt
    {
      CaughtUp(Books(), initial, script, listedAt, i)
    }

    /** Lists and reports, and notes which prefixes could be listed. */
    method ListAndReport(script: seq<Turn>, i: nat)
      requires i < |script| && Honest(script[i]) && Valid() && Caught(script, i)
      modifies this`startAfter, this`callbacks, this`reported, this`listedAt
      ensures Valid() && Caught(script, i + 1) && Forward(old(startAfter), startAfter)
      ensures Partway(old(Books()), Books(), script[i], allowlist, allowlist)
      ensures listedAt == MarkListed(old(listedAt), Listed(old(startAfter), script[i], allowlist), i)
    {
      ghost var before := Books();
      ReportAll(script[i]);
      PassKeepsPromises(before, Books(), initial, allowlist, script, listedAt, i);
      listedAt := MarkListed(listedAt, Listed(before.startAfter, script[i], allowlist), i);
    }

    /** Sets the flag, then lists and reports. */
    method Pass(script: seq<Turn>, i: nat)
      requires i < |script| && Honest(script[i]) && Valid() && Caught(script, i)
      modifies `startAfter, `callbacks, `reported, `listedAt, `now, `expiry
      ensures Valid() && Caught(script, i + 1) && Forward(old(startAfter), startAfter)
      ensures Partway(old(Books()), Books(), script[i], allowlist, allowlist)
      ensures listedAt == MarkListed(old(listedAt), Listed(old(startAfter), script[i], allowlist), i)
      ensures expiry == old(now) + pollFrequency && now == old(now) + script[i].passTook
    {
      expiry := now + pollFrequency;
      ListAndReport(script, i);
      now := now + script[i].passTook;
    }

    /** A failed wait backs off, but not past the expiry. */
    method BackOff(turn: Turn)
      modifies this`now, this`sequentialFailures
      ensures sequentialFailures == old(sequentialFailures) + 1
      ensures now == old(now) + Min(turn.sleepTook, Min(old(TimeRemaining()), backoff(sequentialFailures)))
    {
      sequentialFailures := sequentialFailures + 1;
      var backoffTime := Min(TimeRemaining(), backoff(sequentialFailures));
      now := now + Min(turn.sleepTook, backoffTime);
    }

    /** The first half of a turn: waits, decides, and backs off or forgets past failures. */
    method Decide(turn: Turn) returns (list: bool)
      modifies `now, `sequentialFailures
      ensures list <==> DueToList(old(Present()), turn, allowlist)
      ensures list ==> now == WaitEnd(old(Present()).clock, turn) && sequentialFailures == 0
      ensures !list ==> Present().clock == Tick(old(Present()).clock, false, turn, Config())
    {
      var should := ShouldListBlobs(turn);
      if turn.changes.Ok? {
        forall c, c' | IsLargest(c, turn.changes.value) && IsLargest(c', turn.changes.value) ensures c == c' {
          LargestUnique(c, c', turn.changes.value);
        }
      }
      if should.Err? {
        BackOff(turn);
        return false;
      }
      sequentialFailures := 0;
      list := should.value;
    }

    /** The body of the watch loop. */
    method Act(script: seq<Turn>, i: nat)
      requires i < |script| && Honest(script[i]) && Valid() && Caught(script, i)
      modifies `startAfter, `callbacks, `reported, `listedAt, `now, `expiry, `sequentialFailures
      ensures Valid() && Caught(script, i + 1) && Forward(old(startAfter), startAfter)
      ensures Turned(old(Present()), Present(), script[i], Config())
      ensures listedAt == if DueToList(old(Present()), script[i], allowlist)
        then MarkListed(old(listedAt), Listed(old(startAfter), script[i], allowlist), i) else old(listedAt)
    {
      var list := Decide(script[i]);
      if list {
        Pass(script, i);
      }
    }

    /** The history begins when the watcher was created, tells every turn so far, and
        ends in the present. */
    ghost predicate Logged(script: seq<Turn>)
      reads `history, `listedAt, `startAfter, `reported, `now, `expiry, `sequentialFailures
    {
      && Chained(history, script, Config()) && Followed(history, script, Config(), listedAt)
      && history[0] == Moment(Clock(created, created, 0), Book(initial, []))
      && history[|history| - 1] == Present() && Caught(script, |history| - 1)
    }

    /** One turn, and its place in the history. */
    method TakeTurn(script: seq<Turn>, i: nat)
      requires Valid() && Logged(script) && |history| == i + 1 <= |script| && Honest(script[i])
      modifies this
      ensures Valid() && Logged(script) && Forward(old(startAfter), startAfter)
      ensures history == old(history) + [Present()]
    {
      ghost var marks := listedAt;
      Act(script, i);
      ChainGrows(history, script, Config(), Present());
      FollowedGrows(history, script, Config(), Present(), marks, listedAt);
      history := history + [Present()];
    }

    /** The whole loop, from turn `first` on to the end of the script.  Valid() carries the
        safety promises for every prefix, Logged() what every turn did and when. */
    method Watch(script: seq<Turn>, first: nat)
      requires Valid() && Logged(script) && |history| == first + 1
      requires forall i :: 0 <= i < |script| ==> Honest(script[i])
      modifies this
      ensures Valid() && Logged(script) && |history| == |script| + 1 && old(history) <= history
      ensures Forward(old(startAfter), startAfter) && OnSchedule(history, script, Config())
      ensures forall p :: p in listedAt ==> listedAt[p] < |script|
      ensures AppendOnly(script) ==> UpToDate(Books(), initial, script, listedAt)
      ensures forall p, n :: Lost(old(Books()), p, n) ==> Lost(Books(), p, n)
    {
      for i := first to |script|
        invariant Valid() && Logged(script) && |history| == i + 1 && old(history) <= history
        invariant Forward(old(startAfter), startAfter)
      {
        ghost var watermarks := startAfter;
        TakeTurn(script, i);
        ForwardTransitive(old(startAfter), watermarks, startAfter);
      }
      RunsKeepSchedule(history, script, Config());
      forall p, n | Lost(old(Books()), p, n) ensures Lost(Books(), p, n) {
        LostForever(history, script, Config(), first, |script|, p, n);
      }
    }
  }

  /** A watcher on that script: the lower name is in the bucket and was never reported. */
  method WatchLateScript(low: string, high: string) returns (w: Watcher)
    requires IsDeltaFilename(low) && IsDeltaFilename(high) && Less(low, high)
    ensures fresh(w) && w.Valid() && low in LateScript(low, high)[1].bucket("")
    ensures ReportedFor(w.reported, "") == [high] && Lost(w.Books(), "", low)
  {
    w := new Watcher({""}, 1, _ => 0, map[], 0);
    LateScriptIsHonest(low, high);
    w.Watch(LateScript(low, high), 0);
    LateNameIsLost(low, high, w.history, w.Config());
  }
}
