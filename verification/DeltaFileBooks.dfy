/**
 What the delta file watcher (components/data/blob_storage/delta_file_notifier.cc) has
 reported, and what that is worth: the promises for one prefix, and what a pass over all
 prefixes does to them.

 A script of turns stands for the environment: what each wait for notifications
 brings and how long it takes, how long a sleep lasts, what the bucket holds and
 which listings fail.  Listings keep the contract of blob_storage_client.h:
 sorted, and strictly after the given name.
 */
module DeltaFileBooks {
  import opened Status
  import opened FileNames

  /* ---------- the environment ---------- */

  /** One turn of the watch loop.  Only the parts the turn gets to are used. */
  datatype Turn = Turn(
    waitTook: nat,
    changes: Result<seq<string>>,
    sleepTook: nat,
    bucket: string -> set<string>,
    list: (string, string) -> Result<seq<string>>,
    passTook: nat)

  predicate HasDeltaPrefix(n: string) {
    "DELTA" <= n
  }

  ghost predicate Sorted(v: seq<string>) {
    forall i, j :: 0 <= i < j < |v| ==> Less(v[i], v[j])
  }

  /** `v` lists the delta-like names that come after `after`, in order. */
  ghost predicate Lists(v: seq<string>, names: set<string>, after: string) {
    Sorted(v) && forall n :: n in v <==> n in names && HasDeltaPrefix(n) && Less(after, n)
  }

  ghost predicate Honest(turn: Turn) {
    forall p, a :: turn.list(p, a).Ok? ==> Lists(turn.list(p, a).value, turn.bucket(p), a)
  }

  /** Nothing disappears, and new delta names sort after the delta names already there. */
  ghost predicate AppendsAfter(names: set<string>, names': set<string>) {
    && names <= names'
    && forall m, n :: m in names && n in names' - names && IsDeltaFilename(m) && IsDeltaFilename(n) ==> Less(m, n)
  }

  ghost predicate AppendOnly(script: seq<Turn>) {
    forall i, j, p :: 0 <= i < j < |script| ==> AppendsAfter(script[i].bucket(p), script[j].bucket(p))
  }

  /* ---------- what has been reported for one prefix ---------- */

  function After(startAfter: map<string, string>, prefix: string): string {
    if prefix in startAfter then startAfter[prefix] else ""
  }

  function ReportedFor(reported: seq<BlobName>, prefix: string): seq<string> {
    if reported == [] then []
    else
      var last := reported[|reported| - 1];
      ReportedFor(reported[..|reported| - 1], prefix) + (if last.prefix == prefix then [last.key] else [])
  }

  lemma ReportedSnoc(reported: seq<BlobName>, b: BlobName, prefix: string)
    ensures ReportedFor(reported + [b], prefix) ==
            ReportedFor(reported, prefix) + (if b.prefix == prefix then [b.key] else [])
  {
    assert (reported + [b])[..|reported + [b]| - 1] == reported;
  }

  /** The names of a listing that the loop passes on. */
  function Deltas(v: seq<string>): seq<string> {
    if v == [] then []
    else Deltas(v[..|v| - 1]) + (if IsDeltaFilename(v[|v| - 1]) then [v[|v| - 1]] else [])
  }

  lemma {:induction false} DeltasMembers(v: seq<string>)
    ensures forall n :: n in Deltas(v) <==> n in v && IsDeltaFilename(n)
    ensures Sorted(v) ==> Sorted(Deltas(v))
  {
    if v != [] {
      var k := |v| - 1;
      DeltasMembers(v[..k]);
      assert v == v[..k] + [v[k]];
      if Sorted(v) {
        assert Sorted(v[..k]);
        forall n | n in v[..k] ensures Less(n, v[k]) { }
      }
    }
  }

  function Last(v: seq<string>, otherwise: string): string {
    if v == [] then otherwise else v[|v| - 1]
  }

  /** The safety promise for one prefix: the names reported so far increase, lie
      beyond the starting point, are delta names of an allowed prefix, and the
      watermark is the last of them. */
  ghost predicate Sound(reported: seq<string>, start: string, watermark: string, allowed: bool) {
    && Sorted(reported)
    && (forall n :: n in reported ==> IsDeltaFilename(n) && Less(start, n))
    && (reported != [] ==> allowed)
    && watermark == Last(reported, start)
  }

  /** The completeness promise: exactly the delta names beyond the starting point. */
  ghost predicate Complete(reported: seq<string>, names: set<string>, start: string) {
    forall n :: n in reported <==> n in names && IsDeltaFilename(n) && Less(start, n)
  }

  /** Reporting a listing taken after the watermark keeps the promise. */
  lemma ReportingIsSound(reported: seq<string>, start: string, watermark: string, listing: seq<string>, names: set<string>)
    requires Sound(reported, start, watermark, true) && Lists(listing, names, watermark)
    ensures Sound(reported + Deltas(listing), start, Last(Deltas(listing), watermark), true)
    ensures watermark == Last(Deltas(listing), watermark) || Less(watermark, Last(Deltas(listing), watermark))
  {
    var news := Deltas(listing);
    DeltasMembers(listing);
    forall m, n | m in reported && n in news ensures Less(m, n) { UpToWatermark(reported, start, watermark, m, n); }
    forall n | n in news ensures Less(start, n) {
      assert Less(watermark, n);
      if reported != [] { LessTransitive(start, watermark, n); }
    }
    if news != [] { assert news[|news| - 1] in news; }
  }

  lemma UpToWatermark(reported: seq<string>, start: string, watermark: string, m: string, n: string)
    requires Sound(reported, start, watermark, true) && m in reported && Less(watermark, n)
    ensures Less(m, n)
  {
    var i :| 0 <= i < |reported| && reported[i] == m;
    if i < |reported| - 1 { LessTransitive(m, watermark, n); }
  }

  /** An unreported delta name that a watermark has overtaken. */
  ghost predicate Overtaken(n: string, reported: seq<string>, names: set<string>, start: string, watermark: string) {
    n in names && IsDeltaFilename(n) && Less(start, n) && n !in reported && !Less(watermark, n)
  }

  /** A listing brings the reports up to date exactly when nothing that was reported
      has been deleted and no name was overtaken. */
  lemma CompleteUnlessOvertaken(reported: seq<string>, start: string, watermark: string, listing: seq<string>, names: set<string>)
    requires Sound(reported, start, watermark, true) && Lists(listing, names, watermark)
    ensures Complete(reported + Deltas(listing), names, start) <==>
            && (forall n :: n in reported ==> n in names)
            && (forall n :: !Overtaken(n, reported, names, start, watermark))
  {
    DeltasMembers(listing);
    ReportingIsSound(reported, start, watermark, listing, names);
    forall n | IsDeltaFilename(n) ensures HasDeltaPrefix(n) { DeltaHasPrefix(n); }
    if (forall n :: n in reported ==> n in names) && (forall n :: !Overtaken(n, reported, names, start, watermark)) {
      forall n | n in names && IsDeltaFilename(n) && Less(start, n) ensures n in reported + Deltas(listing) {
        assert !Overtaken(n, reported, names, start, watermark);
      }
    }
    if n :| Overtaken(n, reported, names, start, watermark) {
      assert n !in reported + Deltas(listing);
    }
    if n :| n in reported && n !in names {
      assert n in reported + Deltas(listing);
    }
  }

  /** Whatever was listed before, the next listing of a bucket that only grew at
      the end brings the reports up to date with it. */
  lemma ReportingIsComplete(reported: seq<string>, start: string, watermark: string, listing: seq<string>,
                            before: set<string>, names: set<string>)
    requires Sound(reported, start, watermark, true) && Lists(listing, names, watermark)
    requires reported == [] || (Complete(reported, before, start) && AppendsAfter(before, names))
    ensures Complete(reported + Deltas(listing), names, start)
  {
    CompleteUnlessOvertaken(reported, start, watermark, listing, names);
    forall n ensures !Overtaken(n, reported, names, start, watermark) {
      if reported != [] { assert watermark in reported; }
    }
  }

  /* ---------- the same promises in terms of logical time ---------- */

  /** The reports of a prefix come in the order of their logical times, and the
      watermark carries the largest of them. */
  lemma ReportsInTimeOrder(reported: seq<string>, start: string, watermark: string, allowed: bool)
    requires Sound(reported, start, watermark, allowed)
    ensures forall n :: n in reported ==> IsDeltaFilename(n)
    ensures forall i, j :: 0 <= i < j < |reported| ==> LogicalTime(reported[i]) < LogicalTime(reported[j])
    ensures reported != [] ==> IsDeltaFilename(watermark)
    ensures forall n :: n in reported ==> LogicalTime(n) <= LogicalTime(watermark)
  {
    forall i, j | 0 <= i < j < |reported| ensures LogicalTime(reported[i]) < LogicalTime(reported[j]) {
      LessIsEarlier(reported[i], reported[j]);
    }
  }

  /** Nothing disappears, and new delta files have later times than those already there. */
  ghost predicate TimesGrow(names: set<string>, names': set<string>) {
    && names <= names'
    && forall m, n :: m in names && n in names' - names && IsDeltaFilename(m) && IsDeltaFilename(n) ==>
         LogicalTime(m) < LogicalTime(n)
  }

  lemma LaterFilesAppend(names: set<string>, names': set<string>)
    ensures AppendsAfter(names, names') <==> TimesGrow(names, names')
  {
    forall m, n | m in names && n in names' - names && IsDeltaFilename(m) && IsDeltaFilename(n)
      ensures Less(m, n) <==> LogicalTime(m) < LogicalTime(n)
    {
      LessIsEarlier(m, n);
    }
  }

  /** A bucket is append-only exactly when files come in the order of their logical times. */
  lemma AppendOnlyIsTimeOrder(script: seq<Turn>)
    ensures AppendOnly(script) <==>
            forall i, j, p :: 0 <= i < j < |script| ==> TimesGrow(script[i].bucket(p), script[j].bucket(p))
  {
    forall i, j, p | 0 <= i < j < |script|
      ensures AppendsAfter(script[i].bucket(p), script[j].bucket(p)) <==> TimesGrow(script[i].bucket(p), script[j].bucket(p))
    {
      LaterFilesAppend(script[i].bucket(p), script[j].bucket(p));
    }
  }

  lemma DeltaHasPrefix(n: string)
    requires IsDeltaFilename(n)
    ensures HasDeltaPrefix(n)
  {
    assert n[..5] == n[..6][..5] == "DELTA";
  }

  /* ---------- notifications ---------- */

  /** A notification that names a delta file in some prefix. */
  predicate DeltaChange(change: string) {
    IsDeltaFilename(ParseName(change).key)
  }

  /** The largest delta change of a batch, or "" when it has none. */
  ghost predicate IsLargest(r: string, changes: seq<string>) {
    && (r == "" || (r in changes && DeltaChange(r)))
    && (forall c :: c in changes && DeltaChange(c) ==> c == r || Less(c, r))
  }

  /** Whether a batch whose largest change is `change` calls for a listing. */
  predicate CallsForListing(change: string, allowlist: set<string>, startAfter: map<string, string>) {
    var b := ParseName(change);
    && !(b.prefix in startAfter && Less(b.key, startAfter[b.prefix]))
    && b.prefix in allowlist && IsDeltaFilename(b.key)
  }

  /* ---------- the watcher's books ---------- */

  /** The watermarks and everything passed to the callback so far. */
  datatype Book = Book(startAfter: map<string, string>, reported: seq<BlobName>)

  function ReportOne(b: Book, prefix: string, blob: string): Book {
    if IsDeltaFilename(blob) then
      Book(b.startAfter[prefix := blob], b.reported + [BlobName(prefix, blob)])
    else b
  }

  function ReportBlobs(b: Book, prefix: string, blobs: seq<string>): Book {
    if blobs == [] then b
    else ReportOne(ReportBlobs(b, prefix, blobs[..|blobs| - 1]), prefix, blobs[|blobs| - 1])
  }

  /** What reporting one blob changes, prefix by prefix. */
  lemma ReportOneFor(b: Book, prefix: string, blob: string, p: string)
    ensures var b' := ReportOne(b, prefix, blob);
      if p == prefix && IsDeltaFilename(blob)
      then ReportedFor(b'.reported, p) == ReportedFor(b.reported, p) + [blob] && After(b'.startAfter, p) == blob
      else ReportedFor(b'.reported, p) == ReportedFor(b.reported, p) && After(b'.startAfter, p) == After(b.startAfter, p)
  {
    ReportedSnoc(b.reported, BlobName(prefix, blob), p);
  }

  /** What reporting one prefix's blobs changes for that prefix. */
  lemma {:induction false} ReportBlobsOwn(b: Book, prefix: string, blobs: seq<string>)
    ensures var b' := ReportBlobs(b, prefix, blobs);
      && ReportedFor(b'.reported, prefix) == ReportedFor(b.reported, prefix) + Deltas(blobs)
      && After(b'.startAfter, prefix) == Last(Deltas(blobs), After(b.startAfter, prefix))
  {
    if blobs != [] {
      var k := |blobs| - 1;
      var r, d := ReportedFor(b.reported, prefix), Deltas(blobs[..k]);
      ReportBlobsOwn(b, prefix, blobs[..k]);
      ReportOneFor(ReportBlobs(b, prefix, blobs[..k]), prefix, blobs[k], prefix);
      assert (r + d) + [blobs[k]] == r + (d + [blobs[k]]);
    }
  }

  /** Reporting one prefix's blobs changes nothing for the others. */
  lemma {:induction false} ReportBlobsOther(b: Book, prefix: string, blobs: seq<string>, p: string)
    requires p != prefix
    ensures var b' := ReportBlobs(b, prefix, blobs);
      ReportedFor(b'.reported, p) == ReportedFor(b.reported, p) && After(b'.startAfter, p) == After(b.startAfter, p)
  {
    if blobs != [] {
      var k := |blobs| - 1;
      ReportBlobsOther(b, prefix, blobs[..k], p);
      ReportOneFor(ReportBlobs(b, prefix, blobs[..k]), prefix, blobs[k], p);
    }
  }

  /** The names a pass reports for a prefix: those of its listing after the watermark. */
  function News(b: Book, turn: Turn, allowlist: set<string>, prefix: string): seq<string> {
    var listing := turn.list(prefix, After(b.startAfter, prefix));
    if prefix in allowlist && listing.Ok? then Deltas(listing.value) else []
  }

  /** Prefixes in `done` have been reported, the others are as before. */
  ghost predicate Partway(b: Book, b': Book, turn: Turn, allowlist: set<string>, done: set<string>) {
    forall p :: PartwayFor(b, b', turn, allowlist, done, p)
  }

  ghost predicate PartwayFor(b: Book, b': Book, turn: Turn, allowlist: set<string>, done: set<string>, p: string) {
    var news := if p in done then News(b, turn, allowlist, p) else [];
    && ReportedFor(b'.reported, p) == ReportedFor(b.reported, p) + news
    && After(b'.startAfter, p) == Last(news, After(b.startAfter, p))
  }

  lemma OneMorePrefix(b: Book, b': Book, turn: Turn, allowlist: set<string>, done: set<string>, prefix: string, blobs: seq<string>)
    requires Partway(b, b', turn, allowlist, done) && prefix !in done && prefix in allowlist
    requires turn.list(prefix, After(b.startAfter, prefix)) == Ok(blobs)
    ensures Partway(b, ReportBlobs(b', prefix, blobs), turn, allowlist, done + {prefix})
  {
    forall p ensures PartwayFor(b, ReportBlobs(b', prefix, blobs), turn, allowlist, done + {prefix}, p) {
      assert PartwayFor(b, b', turn, allowlist, done, p);
      if p == prefix { ReportBlobsOwn(b', prefix, blobs); } else { ReportBlobsOther(b', prefix, blobs, p); }
    }
  }

  ghost predicate SoundFor(b: Book, initial: map<string, string>, allowlist: set<string>, p: string) {
    Sound(ReportedFor(b.reported, p), After(initial, p), After(b.startAfter, p), p in allowlist)
  }

  ghost predicate SoundBook(b: Book, initial: map<string, string>, allowlist: set<string>) {
    forall p :: SoundFor(b, initial, allowlist, p)
  }

  /** The watermark of no prefix moves back. */
  ghost predicate Forward(a: map<string, string>, b: map<string, string>) {
    forall p :: After(a, p) == After(b, p) || Less(After(a, p), After(b, p))
  }

  /** A pass keeps the books sound and moves watermarks only forward. */
  lemma PassIsSound(b: Book, b': Book, turn: Turn, initial: map<string, string>, allowlist: set<string>)
    requires SoundBook(b, initial, allowlist) && Honest(turn) && Partway(b, b', turn, allowlist, allowlist)
    ensures SoundBook(b', initial, allowlist) && Forward(b.startAfter, b'.startAfter)
  {
    forall p
      ensures SoundFor(b', initial, allowlist, p)
      ensures After(b.startAfter, p) == After(b'.startAfter, p) || Less(After(b.startAfter, p), After(b'.startAfter, p))
    {
      assert SoundFor(b, initial, allowlist, p) && PartwayFor(b, b', turn, allowlist, allowlist, p);
      var listing := turn.list(p, After(b.startAfter, p));
      if p in allowlist && listing.Ok? {
        ReportingIsSound(ReportedFor(b.reported, p), After(initial, p), After(b.startAfter, p), listing.value, turn.bucket(p));
      }
    }
  }

  /** Prefix `p` was last listed in turn `listedAt[p]`, and has been reported as of then. */
  ghost predicate UpToDate(b: Book, initial: map<string, string>, script: seq<Turn>, listedAt: map<string, nat>) {
    forall p :: p in listedAt ==> UpToDateFor(b, initial, script, listedAt, p)
  }

  ghost predicate UpToDateFor(b: Book, initial: map<string, string>, script: seq<Turn>, listedAt: map<string, nat>, p: string)
    requires p in listedAt
  {
    listedAt[p] < |script| && Complete(ReportedFor(b.reported, p), script[listedAt[p]].bucket(p), After(initial, p))
  }

  /** The prefixes that a pass with these watermarks manages to list. */
  function Listed(startAfter: map<string, string>, turn: Turn, allowlist: set<string>): set<string> {
    set p | p in allowlist && turn.list(p, After(startAfter, p)).Ok?
  }

  function MarkListed(listedAt: map<string, nat>, listed: set<string>, i: nat): map<string, nat> {
    listedAt + map p | p in listed :: i
  }

  /** Prefixes never listed have had nothing reported. */
  ghost predicate NothingUnlisted(b: Book, listedAt: map<string, nat>) {
    forall p :: p !in listedAt ==> ReportedFor(b.reported, p) == []
  }

  /** In an append-only bucket a pass brings every prefix it lists up to date, and
      leaves the others as up to date as they were. */
  lemma PassIsComplete(b: Book, b': Book, initial: map<string, string>, allowlist: set<string>,
                       script: seq<Turn>, listedAt: map<string, nat>, i: nat)
    requires i < |script| && Honest(script[i]) && AppendOnly(script)
    requires SoundBook(b, initial, allowlist) && NothingUnlisted(b, listedAt)
    requires UpToDate(b, initial, script, listedAt) && (forall p :: p in listedAt ==> listedAt[p] < i)
    requires Partway(b, b', script[i], allowlist, allowlist)
    ensures UpToDate(b', initial, script, MarkListed(listedAt, Listed(b.startAfter, script[i], allowlist), i))
  {
    var turn := script[i];
    var listed := Listed(b.startAfter, turn, allowlist);
    var marked := MarkListed(listedAt, listed, i);
    forall p | p in marked ensures UpToDateFor(b', initial, script, marked, p) {
      assert SoundFor(b, initial, allowlist, p) && PartwayFor(b, b', turn, allowlist, allowlist, p);
      if p in listed {
        var before := {};
        if p in listedAt {
          assert UpToDateFor(b, initial, script, listedAt, p);
          before := script[listedAt[p]].bucket(p);
          assert AppendsAfter(before, turn.bucket(p));
        }
        ReportingIsComplete(ReportedFor(b.reported, p), After(initial, p), After(b.startAfter, p),
                            turn.list(p, After(b.startAfter, p)).value, before, turn.bucket(p));
      } else {
        assert UpToDateFor(b, initial, script, listedAt, p);
      }
    }
  }

  lemma PassListsWhatItReports(b: Book, b': Book, turn: Turn, allowlist: set<string>, listedAt: map<string, nat>, i: nat)
    requires NothingUnlisted(b, listedAt) && Partway(b, b', turn, allowlist, allowlist)
    ensures NothingUnlisted(b', MarkListed(listedAt, Listed(b.startAfter, turn, allowlist), i))
  {
    forall p | p !in MarkListed(listedAt, Listed(b.startAfter, turn, allowlist), i) ensures ReportedFor(b'.reported, p) == [] {
      assert PartwayFor(b, b', turn, allowlist, allowlist, p);
    }
  }

  /** After turns before `i`: nothing is marked as listed later, and in an append-only
      bucket every prefix that was ever listed is up to date with its last listing. */
  ghost predicate CaughtUp(b: Book, initial: map<string, string>, script: seq<Turn>, listedAt: map<string, nat>, i: nat) {
    && (forall p :: p in listedAt ==> listedAt[p] < i)
    && (AppendOnly(script) ==> UpToDate(b, initial, script, listedAt))
  }

  lemma PassKeepsPromises(b: Book, b': Book, initial: map<string, string>, allowlist: set<string>,
                          script: seq<Turn>, listedAt: map<string, nat>, i: nat)
    requires i < |script| && Honest(script[i]) && CaughtUp(b, initial, script, listedAt, i)
    requires SoundBook(b, initial, allowlist) && NothingUnlisted(b, listedAt)
    requires Partway(b, b', script[i], allowlist, allowlist)
    ensures SoundBook(b', initial, allowlist) && Forward(b.startAfter, b'.startAfter)
    ensures var marked := MarkListed(listedAt, Listed(b.startAfter, script[i], allowlist), i);
      NothingUnlisted(b', marked) && CaughtUp(b', initial, script, marked, i + 1)
  {
    PassIsSound(b, b', script[i], initial, allowlist);
    PassListsWhatItReports(b, b', script[i], allowlist, listedAt, i);
    if AppendOnly(script) {
      PassIsComplete(b, b', initial, allowlist, script, listedAt, i);
    }
  }

  lemma LargestUnique(r: string, r': string, changes: seq<string>)
    requires IsLargest(r, changes) && IsLargest(r', changes)
    ensures r == r'
  {
    if r != r' {
      if r != "" && r' != "" { LessTransitive(r, r', r); }
      LessIrreflexive(r);
    }
  }

  lemma ForwardTransitive(a: map<string, string>, b: map<string, string>, c: map<string, string>)
    requires Forward(a, b) && Forward(b, c)
    ensures Forward(a, c)
  {
    forall p ensures After(a, p) == After(c, p) || Less(After(a, p), After(c, p)) {
      if Less(After(a, p), After(b, p)) && Less(After(b, p), After(c, p)) {
        LessTransitive(After(a, p), After(b, p), After(c, p));
      }
    }
  }

  /** Prefixes without a non-empty listing have no news. */
  lemma NothingElseListed(b: Book, b': Book, turn: Turn, allowlist: set<string>, done: set<string>)
    requires Partway(b, b', turn, allowlist, done)
    requires forall p :: p in done <==>
      && p in allowlist && turn.list(p, After(b.startAfter, p)).Ok?
      && turn.list(p, After(b.startAfter, p)).value != []
    ensures Partway(b, b', turn, allowlist, allowlist)
  {
    forall p ensures PartwayFor(b, b', turn, allowlist, allowlist, p) {
      assert PartwayFor(b, b', turn, allowlist, done, p);
    }
  }
}
