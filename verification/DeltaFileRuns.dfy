/**
 Whole runs of the delta file watcher (components/data/blob_storage/delta_file_notifier.cc):
 the clock and the books before every turn, how a turn changes them, how late a listing
 can be, and which names are lost for good.
 */
module DeltaFileRuns {
  import opened Status
  import opened FileNames
  import opened DeltaFileBooks

  /* ---------- one turn ---------- */

  datatype Config = Config(allowlist: set<string>, pollFrequency: nat, backoff: nat -> nat)

  /** The time, when the expiring flag runs out, and how many waits in a row have failed. */
  datatype Clock = Clock(now: int, expiry: int, failures: nat)

  datatype Moment = Moment(clock: Clock, book: Book)

  function Min(a: int, b: int): int {
    if a < b then a else b
  }

  function Max(a: int, b: int): int {
    if a < b then b else a
  }

  /** The decision rule: an expired flag, a wait that ran out, or a batch whose largest
      delta change is new in an allowed prefix. */
  ghost predicate DueToList(m: Moment, turn: Turn, allowlist: set<string>) {
    || m.clock.now >= m.clock.expiry
    || match turn.changes
       case Err(e) => e.code == DeadlineExceeded
       case Ok(changes) => exists c :: IsLargest(c, changes) && CallsForListing(c, allowlist, m.book.startAfter)
  }

  /** When the wait of a turn is over, and its listing begins if there is one. */
  function WaitEnd(c: Clock, turn: Turn): (t: int)
    ensures c.now <= t <= Max(c.now, c.expiry)
  {
    if c.now >= c.expiry then c.now else c.now + Min(turn.waitTook, c.expiry - c.now)
  }

  predicate WaitFails(c: Clock, turn: Turn) {
    c.now < c.expiry && turn.changes.Err? && turn.changes.error.code != DeadlineExceeded
  }

  /** The clock after a turn: a listing sets the flag and takes its time, and a failed wait
      backs off within the time the flag has left. */
  function Tick(c: Clock, listed: bool, turn: Turn, cfg: Config): (c': Clock)
    ensures c'.now >= c.now
  {
    var waited := WaitEnd(c, turn);
    if listed then Clock(waited + turn.passTook, waited + cfg.pollFrequency, 0)
    else if WaitFails(c, turn) then
      var pause := Min(Max(0, c.expiry - waited), cfg.backoff(c.failures + 1));
      Clock(waited + Min(turn.sleepTook, pause), c.expiry, c.failures + 1)
    else Clock(waited, c.expiry, 0)
  }

  /** What a turn does to the books. */
  ghost predicate TurnBooks(b: Book, b': Book, listed: bool, turn: Turn, allowlist: set<string>) {
    if listed then Partway(b, b', turn, allowlist, allowlist) else b' == b
  }

  ghost predicate Turned(m: Moment, m': Moment, turn: Turn, cfg: Config) {
    var due := DueToList(m, turn, cfg.allowlist);
    TurnBooks(m.book, m'.book, due, turn, cfg.allowlist) && m'.clock == Tick(m.clock, due, turn, cfg)
  }

  /* ---------- runs ---------- */

  /** `history` holds the moment before each turn of a run, and the one after the last turn. */
  ghost predicate Chained(history: seq<Moment>, script: seq<Turn>, cfg: Config) {
    && 0 < |history| <= |script| + 1
    && forall i :: 0 <= i < |history| - 1 ==> Turned(history[i], history[i + 1], script[i], cfg)
  }

  lemma ChainGrows(history: seq<Moment>, script: seq<Turn>, cfg: Config, m: Moment)
    requires Chained(history, script, cfg) && |history| <= |script|
    requires Turned(history[|history| - 1], m, script[|history| - 1], cfg)
    ensures Chained(history + [m], script, cfg)
  {
    var longer := history + [m];
    forall i | 0 <= i < |longer| - 1 ensures Turned(longer[i], longer[i + 1], script[i], cfg) {
      if i < |history| - 1 { assert longer[i] == history[i] && longer[i + 1] == history[i + 1]; }
    }
  }

  ghost predicate ListsAt(history: seq<Moment>, script: seq<Turn>, cfg: Config, i: nat)
    requires i < |history| && i < |script|
  {
    DueToList(history[i], script[i], cfg.allowlist)
  }

  /** A prefix that a pass could list was not last listed before that turn. */
  ghost predicate Followed(history: seq<Moment>, script: seq<Turn>, cfg: Config, listedAt: map<string, nat>)
    requires Chained(history, script, cfg)
  {
    forall i, p :: 0 <= i < |history| - 1 && ListsAt(history, script, cfg, i) &&
                   p in Listed(history[i].book.startAfter, script[i], cfg.allowlist) ==>
      p in listedAt && i <= listedAt[p]
  }

  lemma FollowedGrows(history: seq<Moment>, script: seq<Turn>, cfg: Config, m: Moment,
                      listedAt: map<string, nat>, listedAt': map<string, nat>)
    requires Chained(history, script, cfg) && Chained(history + [m], script, cfg)
    requires Followed(history, script, cfg, listedAt)
    requires var i := |history| - 1;
      listedAt' == if ListsAt(history, script, cfg, i)
                   then MarkListed(listedAt, Listed(history[i].book.startAfter, script[i], cfg.allowlist), i)
                   else listedAt
    ensures Followed(history + [m], script, cfg, listedAt')
  {
    var longer := history + [m];
    forall i, p | 0 <= i < |longer| - 1 && ListsAt(longer, script, cfg, i) &&
                  p in Listed(longer[i].book.startAfter, script[i], cfg.allowlist)
      ensures p in listedAt' && i <= listedAt'[p]
    {
      assert longer[i] == history[i];
      if i < |history| - 1 { assert ListsAt(history, script, cfg, i) && p in listedAt && i <= listedAt[p]; }
    }
  }

  /* ---------- which turns list ---------- */

  /** The change `c` is about delta file `n` in the allowed prefix `p`, is the largest of the batch's
      changes about delta files, and is not about a file earlier than the prefix's watermark. */
  ghost predicate TellsOf(c: string, p: string, n: string, changes: seq<string>, allowlist: set<string>,
                          startAfter: map<string, string>) {
    && c in changes && (c == Join(BlobName(p, n)) || (p == "" && c == "/" + n))
    && p in allowlist && IsDeltaFilename(n)
    && (forall d :: d in changes && IsDeltaFilename(ParseName(d).key) ==> d == c || Less(d, c))
    && (p in startAfter ==>
          if IsDeltaFilename(startAfter[p]) then LogicalTime(startAfter[p]) <= LogicalTime(n)
          else !Less(n, startAfter[p]))
  }

  lemma TellsWhenCalled(c: string, changes: seq<string>, allowlist: set<string>, startAfter: map<string, string>)
    requires IsLargest(c, changes) && CallsForListing(c, allowlist, startAfter)
    ensures TellsOf(c, ParseName(c).prefix, ParseName(c).key, changes, allowlist, startAfter)
  {
    var b := ParseName(c);
    ParsedForms(c);
    if b.prefix in startAfter && IsDeltaFilename(startAfter[b.prefix]) { LessIsEarlier(b.key, startAfter[b.prefix]); }
  }

  lemma CalledWhenTold(c: string, p: string, n: string, changes: seq<string>, allowlist: set<string>,
                       startAfter: map<string, string>)
    requires TellsOf(c, p, n, changes, allowlist, startAfter)
    ensures IsLargest(c, changes) && CallsForListing(c, allowlist, startAfter)
  {
    NoSlashInDelta(n);
    ParseUndoesJoin(BlobName(p, n));
    LeadingSlashExample(n);
    if p in startAfter && IsDeltaFilename(startAfter[p]) { LessIsEarlier(n, startAfter[p]); }
  }

  /** Which turns of a run list.  An expired flag or a wait that ran out does, another failure does not, and a
      batch of changes does exactly when its largest change about a delta file is in an allowed
      prefix and not earlier than what was last reported there. */
  lemma TurnsThatList(history: seq<Moment>, script: seq<Turn>, cfg: Config, i: nat)
    requires Chained(history, script, cfg) && i < |history| && i < |script|
    ensures history[i].clock.now >= history[i].clock.expiry ==> ListsAt(history, script, cfg, i)
    ensures history[i].clock.now < history[i].clock.expiry && script[i].changes.Err? ==>
      (ListsAt(history, script, cfg, i) <==> script[i].changes.error.code == DeadlineExceeded)
    ensures history[i].clock.now < history[i].clock.expiry && script[i].changes.Ok? ==>
      (ListsAt(history, script, cfg, i) <==>
       exists c, p, n :: TellsOf(c, p, n, script[i].changes.value, cfg.allowlist, history[i].book.startAfter))
  {
    if history[i].clock.now < history[i].clock.expiry && script[i].changes.Ok? {
      var changes, marks := script[i].changes.value, history[i].book.startAfter;
      if ListsAt(history, script, cfg, i) {
        var c :| IsLargest(c, changes) && CallsForListing(c, cfg.allowlist, marks);
        TellsWhenCalled(c, changes, cfg.allowlist, marks);
      }
      if c, p, n :| TellsOf(c, p, n, changes, cfg.allowlist, marks) {
        CalledWhenTold(c, p, n, changes, cfg.allowlist, marks);
      }
    }
  }

  /** A notification of a new file, if it is the largest of its batch, has the file reported in that
      very turn, provided that the prefix can be listed. */
  lemma NotifiedFileIsReported(history: seq<Moment>, script: seq<Turn>, cfg: Config, i: nat, p: string, n: string)
    requires Chained(history, script, cfg) && i + 1 < |history| && Honest(script[i]) && script[i].changes.Ok?
    requires p in cfg.allowlist && IsDeltaFilename(n) && Join(BlobName(p, n)) in script[i].changes.value
    requires forall d :: d in script[i].changes.value && IsDeltaFilename(ParseName(d).key) ==>
      d == Join(BlobName(p, n)) || Less(d, Join(BlobName(p, n)))
    requires Less(After(history[i].book.startAfter, p), n) && n in script[i].bucket(p)
    requires script[i].list(p, After(history[i].book.startAfter, p)).Ok?
    ensures ListsAt(history, script, cfg, i) && n in ReportedFor(history[i + 1].book.reported, p)
  {
    NewChangeTells(script[i].changes.value, cfg.allowlist, history[i].book.startAfter, p, n);
    TurnsThatList(history, script, cfg, i);
    assert Turned(history[i], history[i + 1], script[i], cfg);
    assert PartwayFor(history[i].book, history[i + 1].book, script[i], cfg.allowlist, cfg.allowlist, p);
    DeltaHasPrefix(n);
    DeltasMembers(script[i].list(p, After(history[i].book.startAfter, p)).value);
  }

  lemma NewChangeTells(changes: seq<string>, allowlist: set<string>, startAfter: map<string, string>, p: string, n: string)
    requires p in allowlist && IsDeltaFilename(n) && Join(BlobName(p, n)) in changes
    requires forall d :: d in changes && IsDeltaFilename(ParseName(d).key) ==>
      d == Join(BlobName(p, n)) || Less(d, Join(BlobName(p, n)))
    requires Less(After(startAfter, p), n)
    ensures TellsOf(Join(BlobName(p, n)), p, n, changes, allowlist, startAfter)
  {
    if p in startAfter {
      if IsDeltaFilename(startAfter[p]) { LessIsEarlier(startAfter[p], n); }
      NotBelow(startAfter[p], n);
    }
  }

  /* ---------- how late a listing can be ---------- */

  function ListStart(history: seq<Moment>, script: seq<Turn>, i: nat): int
    requires i < |history| && i < |script|
  {
    WaitEnd(history[i].clock, script[i])
  }

  /** Turn `j` lists, and no turn after it and before `k` does. */
  ghost predicate LastListing(history: seq<Moment>, script: seq<Turn>, cfg: Config, j: nat, k: nat)
    requires Chained(history, script, cfg)
  {
    && j < k < |history| && ListsAt(history, script, cfg, j)
    && forall i :: j < i < k ==> !ListsAt(history, script, cfg, i)
  }

  /** Until the next listing the flag stays as the last one set it, and the time does
      not pass both its expiry and the end of the last pass. */
  lemma {:induction false} NeverLate(history: seq<Moment>, script: seq<Turn>, cfg: Config, j: nat, k: nat)
    requires Chained(history, script, cfg) && LastListing(history, script, cfg, j, k)
    ensures history[k].clock.expiry == ListStart(history, script, j) + cfg.pollFrequency
    ensures history[j + 1].clock.now == ListStart(history, script, j) + script[j].passTook
    ensures history[k].clock.now <= Max(history[k].clock.expiry, history[j + 1].clock.now)
    decreases k
  {
    assert Turned(history[j], history[j + 1], script[j], cfg);
    if j + 1 < k {
      NeverLate(history, script, cfg, j, k - 1);
      assert Turned(history[k - 1], history[k], script[k - 1], cfg) && !ListsAt(history, script, cfg, k - 1);
    }
  }

  /** Every listing begins by a poll interval after the one before it began, or, if
      that one took longer, as soon as it was over. */
  lemma ListingsOnTime(history: seq<Moment>, script: seq<Turn>, cfg: Config, j: nat, k: nat)
    requires Chained(history, script, cfg) && LastListing(history, script, cfg, j, k)
    requires k < |script| && ListsAt(history, script, cfg, k)
    ensures ListStart(history, script, k) <=
            ListStart(history, script, j) + Max(cfg.pollFrequency, script[j].passTook)
  {
    NeverLate(history, script, cfg, j, k);
  }

  /** A run of a new watcher begins with a listing. */
  ghost predicate StartsExpired(history: seq<Moment>) {
    history != [] && history[0].clock.now == history[0].clock.expiry
  }

  /** At no moment of a run is the last listing more than a poll interval ago, unless its
      pass was still going on then. */
  lemma {:induction false} PollsKeepComing(history: seq<Moment>, script: seq<Turn>, cfg: Config, k: nat) returns (j: nat)
    requires Chained(history, script, cfg) && StartsExpired(history) && 0 < k < |history|
    ensures ListsAt(history, script, cfg, 0) && ListStart(history, script, 0) == history[0].clock.now
    ensures LastListing(history, script, cfg, j, k)
    ensures history[k].clock.now <= ListStart(history, script, j) + Max(cfg.pollFrequency, script[j].passTook)
  {
    if k == 1 || ListsAt(history, script, cfg, k - 1) {
      j := k - 1;
    } else {
      j := PollsKeepComing(history, script, cfg, k - 1);
      assert LastListing(history, script, cfg, j, k);
    }
    NeverLate(history, script, cfg, j, k);
  }

  ghost predicate ListedBefore(history: seq<Moment>, script: seq<Turn>, cfg: Config, k: nat)
    requires Chained(history, script, cfg)
  {
    exists j: nat :: LastListing(history, script, cfg, j, k)
  }

  /** A run keeps to its schedule: it begins with a listing, at every later moment the last
      listing began at most a poll interval ago or was just over, and so when the next one begins. */
  ghost predicate OnSchedule(history: seq<Moment>, script: seq<Turn>, cfg: Config)
    requires Chained(history, script, cfg)
  {
    && (|history| > 1 ==> ListsAt(history, script, cfg, 0) && ListStart(history, script, 0) == history[0].clock.now)
    && (forall k: nat :: 0 < k < |history| ==> ListedBefore(history, script, cfg, k))
    && (forall j: nat, k: nat :: LastListing(history, script, cfg, j, k) ==>
          history[k].clock.now <= ListStart(history, script, j) + Max(cfg.pollFrequency, script[j].passTook))
    && (forall j: nat, k: nat :: LastListing(history, script, cfg, j, k) && k < |script| && ListsAt(history, script, cfg, k) ==>
          ListStart(history, script, k) <= ListStart(history, script, j) + Max(cfg.pollFrequency, script[j].passTook))
  }

  lemma RunsKeepSchedule(history: seq<Moment>, script: seq<Turn>, cfg: Config)
    requires Chained(history, script, cfg) && StartsExpired(history)
    ensures OnSchedule(history, script, cfg)
  {
    if |history| > 1 { var _ := PollsKeepComing(history, script, cfg, 1); }
    forall k: nat | 0 < k < |history| ensures ListedBefore(history, script, cfg, k) {
      var j := PollsKeepComing(history, script, cfg, k);
    }
    forall j: nat, k: nat | LastListing(history, script, cfg, j, k)
      ensures history[k].clock.now <= ListStart(history, script, j) + Max(cfg.pollFrequency, script[j].passTook)
    {
      NeverLate(history, script, cfg, j, k);
    }
    forall j: nat, k: nat | LastListing(history, script, cfg, j, k) && k < |script| && ListsAt(history, script, cfg, k)
      ensures ListStart(history, script, k) <=
              ListStart(history, script, j) + Max(cfg.pollFrequency, script[j].passTook)
    {
      ListingsOnTime(history, script, cfg, j, k);
    }
  }

  /** Time does not run backwards. */
  lemma {:induction false} ClockMovesForward(history: seq<Moment>, script: seq<Turn>, cfg: Config, i: nat, k: nat)
    requires Chained(history, script, cfg) && i <= k < |history|
    ensures history[i].clock.now <= history[k].clock.now
    decreases k
  {
    if i < k {
      ClockMovesForward(history, script, cfg, i, k - 1);
      assert Turned(history[k - 1], history[k], script[k - 1], cfg);
    }
  }

  /* ---------- names that are lost for good ---------- */

  /** A name that has not been reported and that the watermark has reached or passed. */
  ghost predicate Lost(b: Book, p: string, n: string) {
    n !in ReportedFor(b.reported, p) && !Less(After(b.startAfter, p), n)
  }

  /** No pass brings a lost name back, whatever the bucket does. */
  lemma PassKeepsLost(b: Book, b': Book, turn: Turn, allowlist: set<string>, p: string, n: string)
    requires Honest(turn) && Partway(b, b', turn, allowlist, allowlist) && Lost(b, p, n)
    ensures Lost(b', p, n)
  {
    assert PartwayFor(b, b', turn, allowlist, allowlist, p);
    var mark := After(b.startAfter, p);
    var listing := turn.list(p, mark);
    if p in allowlist && listing.Ok? {
      var news := Deltas(listing.value);
      DeltasMembers(listing.value);
      if news != [] {
        var last := news[|news| - 1];
        assert last in news && Less(mark, last);
        if Less(last, n) { LessTransitive(mark, last, n); }
      }
    }
  }

  /** A name that is lost before some turn of a run stays lost in every later one. */
  lemma {:induction false} LostForever(history: seq<Moment>, script: seq<Turn>, cfg: Config,
                                       i: nat, j: nat, p: string, n: string)
    requires Chained(history, script, cfg) && i <= j < |history| && Lost(history[i].book, p, n)
    requires forall k :: 0 <= k < |script| ==> Honest(script[k])
    ensures Lost(history[j].book, p, n)
    decreases j
  {
    if i < j {
      LostForever(history, script, cfg, i, j - 1, p, n);
      assert Turned(history[j - 1], history[j], script[j - 1], cfg);
      if ListsAt(history, script, cfg, j - 1) {
        PassKeepsLost(history[j - 1].book, history[j].book, script[j - 1], cfg.allowlist, p, n);
      }
    }
  }

  function OneAfter(a: string, n: string): seq<string> {
    if Less(a, n) then [n] else []
  }

  /** Two polls of a bucket: it first holds `high`, and then a lower name as well. */
  function LateScript(low: string, high: string): seq<Turn> {
    var timeout := Err(Error(DeadlineExceeded, ""));
    [Turn(0, timeout, 0, p => if p == "" then {high} else {},
          (p, a) => if p == "" then Ok(OneAfter(a, high)) else Ok([]), 0),
     Turn(0, timeout, 0, p => if p == "" then {low, high} else {},
          (p, a) => if p == "" then Ok(OneAfter(a, low) + OneAfter(a, high)) else Ok([]), 0)]
  }

  lemma OneListed(a: string, n: string)
    requires IsDeltaFilename(n)
    ensures Lists(OneAfter(a, n), {n}, a)
  {
    DeltaHasPrefix(n);
  }

  lemma TwoListed(a: string, low: string, high: string)
    requires IsDeltaFilename(low) && IsDeltaFilename(high) && Less(low, high)
    ensures Lists(OneAfter(a, low) + OneAfter(a, high), {low, high}, a)
  {
    DeltaHasPrefix(low);
    DeltaHasPrefix(high);
    if Less(a, low) {
      LessTransitive(a, low, high);
      assert OneAfter(a, low) + OneAfter(a, high) == [low, high];
    } else {
      assert OneAfter(a, low) + OneAfter(a, high) == OneAfter(a, high);
    }
  }

  lemma NoneListed(a: string)
    ensures Lists([], {}, a)
  {
  }

  lemma LateScriptIsHonest(low: string, high: string)
    requires IsDeltaFilename(low) && IsDeltaFilename(high) && Less(low, high)
    ensures Honest(LateScript(low, high)[0]) && Honest(LateScript(low, high)[1])
  {
    var first, second := LateScript(low, high)[0], LateScript(low, high)[1];
    forall p, a ensures Lists(first.list(p, a).value, first.bucket(p), a)
      ensures Lists(second.list(p, a).value, second.bucket(p), a)
    {
      OneListed(a, high);
      TwoListed(a, low, high);
      NoneListed(a);
    }
  }

  lemma DeltasOfOne(n: string)
    requires IsDeltaFilename(n)
    ensures Deltas([n]) == [n]
  {
    assert [n][..0] == [];
  }

  /** A poll that brings one new name, or none, after the watermark. */
  lemma PollOfOne(b: Book, b': Book, turn: Turn, n: string)
    requires Partway(b, b', turn, {""}, {""}) && IsDeltaFilename(n)
    requires turn.list("", After(b.startAfter, "")) == Ok([n])
    ensures ReportedFor(b'.reported, "") == ReportedFor(b.reported, "") + [n] && After(b'.startAfter, "") == n
  {
    assert PartwayFor(b, b', turn, {""}, {""}, "");
    DeltasOfOne(n);
  }

  lemma PollOfNone(b: Book, b': Book, turn: Turn)
    requires Partway(b, b', turn, {""}, {""}) && turn.list("", After(b.startAfter, "")) == Ok([])
    ensures ReportedFor(b'.reported, "") == ReportedFor(b.reported, "")
    ensures After(b'.startAfter, "") == After(b.startAfter, "")
  {
    assert PartwayFor(b, b', turn, {""}, {""}, "");
  }

  lemma NotBelow(low: string, high: string)
    requires Less(low, high)
    ensures !Less(high, high) && !Less(high, low) && low != high
  {
    LessIrreflexive(high);
    LessIrreflexive(low);
    if Less(high, low) { LessTransitive(low, high, low); }
  }

  /** On this script the lower name ends unreported although both polls succeed, and is lost. */
  lemma LateNameIsLost(low: string, high: string, history: seq<Moment>, cfg: Config)
    requires IsDeltaFilename(low) && IsDeltaFilename(high) && Less(low, high)
    requires Chained(history, LateScript(low, high), cfg) && cfg.allowlist == {""}
    requires |history| == 3 && history[0].book == Book(map[], [])
    ensures low in LateScript(low, high)[1].bucket("")
    ensures ReportedFor(history[2].book.reported, "") == [high] && Lost(history[2].book, "", low)
  {
    var script := LateScript(low, high);
    NotBelow(low, high);
    assert Turned(history[0], history[1], script[0], cfg);
    PollOfOne(history[0].book, history[1].book, script[0], high);
    assert Turned(history[1], history[2], script[1], cfg);
    assert OneAfter(high, low) + OneAfter(high, high) == [];
    PollOfNone(history[1].book, history[2].book, script[1]);
  }
}
