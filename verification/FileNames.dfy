/**
 Names of delta files (public/data_loading/filename_utils.cc, public/constants.h)
 and of blobs inside prefixes (components/data/blob_storage/blob_prefix_allowlist.cc).
 Delta names carry their logical time in fixed width, so that ordering names
 as text orders them by time.
 */
module FileNames {
  import opened Basics
  import opened Decimals
  import opened Status

  /* ---------- text order ---------- */

  predicate Less(a: string, b: string) {
    b != [] && (a == [] || a[0] < b[0] || (a[0] == b[0] && Less(a[1..], b[1..])))
  }

  lemma {:induction false} LessIrreflexive(a: string)
    ensures !Less(a, a)
  {
    if a != [] { LessIrreflexive(a[1..]); }
  }

  lemma {:induction false} LessTransitive(a: string, b: string, c: string)
    requires Less(a, b) && Less(b, c)
    ensures Less(a, c)
  {
    if a != [] && a[0] == b[0] == c[0] { LessTransitive(a[1..], b[1..], c[1..]); }
  }

  lemma {:induction false} LessTotal(a: string, b: string)
    ensures Less(a, b) || a == b || Less(b, a)
  {
    if a != [] && b != [] && a[0] == b[0] {
      LessTotal(a[1..], b[1..]);
      if a[1..] == b[1..] { assert a == [a[0]] + a[1..] == b; }
    }
  }

  lemma {:induction false} LessAfterPrefix(p: string, a: string, b: string)
    ensures Less(p + a, p + b) <==> Less(a, b)
  {
    if p == [] {
      assert p + a == a && p + b == b;
    } else {
      assert (p + a)[1..] == p[1..] + a && (p + b)[1..] == p[1..] + b;
      LessAfterPrefix(p[1..], a, b);
    }
  }

  /** Between texts of one length, the leading part decides unless it is equal. */
  lemma {:induction false} LessAppend(a: string, b: string, x: char, y: char)
    requires |a| == |b|
    ensures Less(a + [x], b + [y]) <==> Less(a, b) || (a == b && x < y)
  {
    if a == [] {
      assert a + [x] == [x] && b + [y] == [y];
    } else {
      assert (a + [x])[1..] == a[1..] + [x] && (b + [y])[1..] == b[1..] + [y];
      LessAppend(a[1..], b[1..], x, y);
      assert a == [a[0]] + a[1..] && b == [b[0]] + b[1..];
    }
  }

  /* ---------- fixed-width numbers ---------- */

  /** Text order of fixed-width numbers is numeric order. */
  lemma {:induction false} FixedOrder(m: nat, n: nat, w: nat)
    requires m < Pow10(w) && n < Pow10(w)
    ensures Less(Fixed(m, w), Fixed(n, w)) <==> m < n
    ensures Fixed(m, w) == Fixed(n, w) <==> m == n
  {
    if w > 0 {
      FixedOrder(m / 10, n / 10, w - 1);
      LessAppend(Fixed(m / 10, w - 1), Fixed(n / 10, w - 1), Digit(m % 10), Digit(n % 10));
      DigitOrder(m % 10, n % 10);
      var a, b := Fixed(m, w), Fixed(n, w);
      assert a[..w - 1] == Fixed(m / 10, w - 1) && b[..w - 1] == Fixed(n / 10, w - 1);
    }
  }

  /* ---------- delta files ---------- */

  const DELTA := "DELTA_"
  const LOGICAL_TIME_DIGITS := 16

  /** The regular expression DELTA_\d{16}. */
  predicate IsDeltaFilename(s: string) {
    && |s| == |DELTA| + LOGICAL_TIME_DIGITS && s[..|DELTA|] == DELTA
    && forall i :: |DELTA| <= i < |s| ==> IsDigit(s[i])
  }

  /** The implicit conversion of the logical time to a signed integer. */
  function AsInt64(n: uint64): int {
    if n < 0x8000_0000_0000_0000 then n else n - 0x1_0000_0000_0000_0000
  }

  function GetFilename(logicalTime: int): string {
    DELTA + Format(logicalTime, LOGICAL_TIME_DIGITS)
  }

  function ToDeltaFileName(logicalTime: uint64): Result<string> {
    var name := GetFilename(AsInt64(logicalTime));
    if IsDeltaFilename(name) then Ok(name)
    else Err(Error(InvalidArgument, "Unable to build delta file name with logical commit time"))
  }

  lemma Pow16()
    ensures Pow10(LOGICAL_TIME_DIGITS) == 10_000_000_000_000_000
  {
    assert Pow10(4) == 10000 by { assert Pow10(2) == 100; }
    assert Pow10(8) == 100000000 by { assert Pow10(6) == 1000000; }
    assert Pow10(12) == 1000000000000 by { assert Pow10(10) == 10000000000; }
    assert Pow10(16) == 10_000_000_000_000_000 by { assert Pow10(14) == 100000000000000; }
  }

  /** A name can be built exactly for the times that have at most sixteen digits;
      larger times, negative after conversion or not, are refused. */
  lemma DeltaNameExactlyBelow(t: uint64)
    ensures ToDeltaFileName(t).Ok? <==> t < Pow10(LOGICAL_TIME_DIGITS)
    ensures t < Pow10(LOGICAL_TIME_DIGITS) ==> ToDeltaFileName(t) == Ok(DELTA + Fixed(t, LOGICAL_TIME_DIGITS))
  {
    Pow16();
    var name := GetFilename(AsInt64(t));
    if t < Pow10(LOGICAL_TIME_DIGITS) {
      FixedIsPadded(t, LOGICAL_TIME_DIGITS);
      assert name[..|DELTA|] == DELTA;
    } else if t < 0x8000_0000_0000_0000 {
      DecimalTooLong(t, LOGICAL_TIME_DIGITS);
    } else {
      assert name[|DELTA|] == '-';
    }
  }

  /** A time of one digit: "DELTA_", fifteen zeros and the digit. */
  lemma OneDigitName(d: uint64)
    requires d < 10
    ensures var r := ToDeltaFileName(d);
      && r.Ok? && |r.value| == 22 && r.value[..6] == "DELTA_" && r.value[21] == Digit(d)
      && forall i :: 6 <= i < 21 ==> r.value[i] == '0'
  {
    Pow16();
    DeltaNameExactlyBelow(d);
    OneDigitFixed(d, LOGICAL_TIME_DIGITS, Fixed(d, LOGICAL_TIME_DIGITS));
  }

  lemma OneDigitFixed(d: nat, w: nat, s: string)
    requires d < 10 && w >= 1 && d < Pow10(w) && s == Fixed(d, w)
    ensures |s| == w && s[w - 1] == Digit(d) && forall i :: 0 <= i < w - 1 ==> s[i] == '0'
  {
    FixedSmall(d, w);
  }

  /** Text order of delta names is the order of their times, and names are unique. */
  lemma DeltaNamesOrderedByTime(t: uint64, u: uint64)
    requires t < Pow10(LOGICAL_TIME_DIGITS) && u < Pow10(LOGICAL_TIME_DIGITS)
    ensures ToDeltaFileName(t).Ok? && ToDeltaFileName(u).Ok?
    ensures Less(ToDeltaFileName(t).value, ToDeltaFileName(u).value) <==> t < u
    ensures ToDeltaFileName(t) == ToDeltaFileName(u) <==> t == u
  {
    DeltaNameExactlyBelow(t);
    DeltaNameExactlyBelow(u);
    FixedOrder(t, u, LOGICAL_TIME_DIGITS);
    LessAfterPrefix(DELTA, Fixed(t, LOGICAL_TIME_DIGITS), Fixed(u, LOGICAL_TIME_DIGITS));
    var a, b := DELTA + Fixed(t, LOGICAL_TIME_DIGITS), DELTA + Fixed(u, LOGICAL_TIME_DIGITS);
    assert a[|DELTA|..] == Fixed(t, LOGICAL_TIME_DIGITS) && b[|DELTA|..] == Fixed(u, LOGICAL_TIME_DIGITS);
  }

  /** Every delta name is the name of a logical time. */
  lemma DeltaNamesComeFromTimes(s: string) returns (t: uint64)
    requires IsDeltaFilename(s)
    ensures ToDeltaFileName(t) == Ok(s)
  {
    Pow16();
    var tail := s[|DELTA|..];
    assert forall i :: 0 <= i < |tail| ==> tail[i] == s[|DELTA| + i];
    var n := FixedOnto(tail);
    t := n;
    DeltaNameExactlyBelow(t);
    assert s == DELTA + tail;
  }

  /** The logical time in a delta name. */
  ghost function LogicalTime(s: string): (t: uint64)
    requires IsDeltaFilename(s)
    ensures t < Pow10(LOGICAL_TIME_DIGITS) && ToDeltaFileName(t) == Ok(s)
  {
    HasTime(s);
    var t: uint64 :| ToDeltaFileName(t) == Ok(s);
    DeltaNameExactlyBelow(t);
    t
  }

  lemma HasTime(s: string)
    requires IsDeltaFilename(s)
    ensures exists t: uint64 :: ToDeltaFileName(t) == Ok(s)
  {
    var t := DeltaNamesComeFromTimes(s);
  }

  /** Delta names compare as their logical times do. */
  lemma LessIsEarlier(a: string, b: string)
    requires IsDeltaFilename(a) && IsDeltaFilename(b)
    ensures Less(a, b) <==> LogicalTime(a) < LogicalTime(b)
  {
    DeltaNamesOrderedByTime(LogicalTime(a), LogicalTime(b));
  }

  /* ---------- blobs inside prefixes ---------- */

  datatype BlobName = BlobName(prefix: string, key: string)

  /** The full name of a blob, as the watcher reports it. */
  function Join(b: BlobName): string {
    if b.prefix == "" then b.key else b.prefix + "/" + b.key
  }

  /** Splits at the last slash. */
  function ParseName(s: string): (b: BlobName)
    ensures '/' !in b.key
    ensures '/' in s ==> s == b.prefix + "/" + b.key
    ensures '/' !in s ==> b == BlobName("", s)
  {
    if s == [] then BlobName("", "")
    else
      var n := |s| - 1;
      assert s == s[..n] + [s[n]];
      if s[n] == '/' then BlobName(s[..n], "")
      else
        var b := ParseName(s[..n]);
        if '/' in s[..n] then
          assert s == b.prefix + "/" + (b.key + [s[n]]);
          BlobName(b.prefix, b.key + [s[n]])
        else BlobName("", s)
  }

  /** In a joined name the slash before a slash-free key is the last one. */
  lemma LastSlash(p: string, k: string)
    requires '/' !in k
    ensures (p + "/" + k)[|p|] == '/'
    ensures forall i :: |p| < i < |p + "/" + k| ==> (p + "/" + k)[i] != '/'
  {
    assert forall i :: |p| < i < |p + "/" + k| ==> (p + "/" + k)[i] == k[i - |p| - 1];
  }

  lemma SplitUnique(p: string, k: string, q: string, l: string)
    requires p + "/" + k == q + "/" + l && '/' !in k && '/' !in l
    ensures p == q && k == l
  {
    LastSlash(p, k);
    LastSlash(q, l);
    var s := p + "/" + k;
    assert |p| == |q|;
    assert p == s[..|p|] == q;
    assert k == s[|p| + 1..] == l;
  }

  /** Parsing undoes joining for every name without a slash, whatever the prefix. */
  lemma ParseUndoesJoin(b: BlobName)
    requires '/' !in b.key
    ensures ParseName(Join(b)) == b
  {
    if b.prefix != "" {
      var s := Join(b);
      assert s[|b.prefix|] == '/';
      var c := ParseName(s);
      SplitUnique(b.prefix, b.key, c.prefix, c.key);
    }
  }

  /** A text whose only slash is its first character. */
  predicate LeadingSlashOnly(s: string) {
    s != "" && s[0] == '/' && '/' !in s[1..]
  }

  /** Joining undoes parsing exactly when the name does not have its only slash in front. */
  lemma JoinUndoesParse(s: string)
    ensures Join(ParseName(s)) == s <==> !LeadingSlashOnly(s)
  {
    var b := ParseName(s);
    if LeadingSlashOnly(s) {
      assert s == "" + "/" + s[1..];
      SplitUnique("", s[1..], b.prefix, b.key);
      assert |Join(b)| < |s|;
    } else {
      EmptyPrefix(s);
    }
  }

  lemma EmptyPrefix(s: string)
    ensures '/' in s && ParseName(s).prefix == "" ==> LeadingSlashOnly(s)
  {
    var b := ParseName(s);
    if '/' in s && b.prefix == "" {
      assert s == "" + "/" + b.key && s[1..] == b.key;
    }
  }

  /** A parsed name is the joined one, or has its only slash in front. */
  lemma ParsedForms(s: string)
    ensures var b := ParseName(s); s == Join(b) || (b.prefix == "" && s == "/" + b.key)
  {
    JoinUndoesParse(s);
    if LeadingSlashOnly(s) {
      var b := ParseName(s);
      assert s == "" + "/" + s[1..];
      SplitUnique("", s[1..], b.prefix, b.key);
      assert s == "/" + b.key;
    }
  }

  /** A delta file whose name begins with a slash is taken for the one without the slash. */
  lemma LeadingSlashExample(name: string)
    requires IsDeltaFilename(name)
    ensures ParseName("/" + name) == ParseName(name) == BlobName("", name)
    ensures Join(ParseName("/" + name)) == name != "/" + name
  {
    var s := "/" + name;
    NoSlashInDelta(name);
    assert s[0] == '/';
    var b := ParseName(s);
    assert s == "" + "/" + name;
    SplitUnique("", name, b.prefix, b.key);
    assert |name| < |s|;
  }

  lemma NoSlashInDelta(name: string)
    requires IsDeltaFilename(name)
    ensures '/' !in name
  {
    assert forall i :: 0 <= i < |DELTA| ==> name[i] == DELTA[i];
  }

  /** The first characters of a reversed text, reversed again, are the last ones. */
  lemma ReversedFront(s: string, i: nat)
    requires i <= |s|
    ensures Reversed(Reversed(s)[..i]) == s[|s| - i..]
  {
    var front, back := Reversed(s)[..i], s[|s| - i..];
    forall j | 0 <= j < i ensures Reversed(front)[j] == back[j] {
      assert Reversed(front)[j] == front[i - 1 - j] == Reversed(s)[i - 1 - j] == s[|s| - i + j];
    }
  }

  lemma ReversedRest(s: string, i: nat)
    requires i <= |s|
    ensures Reversed(Reversed(s)[i..]) == s[..|s| - i]
  {
    var rest, front := Reversed(s)[i..], s[..|s| - i];
    forall j | 0 <= j < |s| - i ensures Reversed(rest)[j] == front[j] {
      assert Reversed(rest)[j] == rest[|s| - i - 1 - j] == Reversed(s)[|s| - 1 - j] == s[j];
    }
  }

  /** Splitting at a slash with none after it is splitting at the last one. */
  lemma SplitsAt(s: string, k: nat)
    requires k < |s| && s[k] == '/' && '/' !in s[k + 1..]
    ensures ParseName(s) == BlobName(s[..k], s[k + 1..])
  {
    assert '/' in s;
    SplitsLike(s, k, ParseName(s));
  }

  lemma SplitsLike(s: string, k: nat, b: BlobName)
    requires k < |s| && s[k] == '/' && '/' !in s[k + 1..]
    requires s == b.prefix + "/" + b.key && '/' !in b.key
    ensures b == BlobName(s[..k], s[k + 1..])
  {
    assert s == s[..k] + "/" + s[k + 1..];
    SplitUnique(s[..k], s[k + 1..], b.prefix, b.key);
  }

  lemma NotInReversed(s: string, i: nat)
    requires i <= |s| && '/' !in Reversed(s)[..i]
    ensures '/' !in s[|s| - i..]
  {
    forall j | |s| - i <= j < |s| ensures s[j] != '/' {
      assert Reversed(s)[|s| - 1 - j] == s[j] && Reversed(s)[..i][|s| - 1 - j] == s[j];
    }
  }

  /** The parts of a reversed name around its first slash, reversed, are the parsed name. */
  lemma ParsesReversed(name: string, i: nat)
    requires i < |name| && '/' !in Reversed(name)[..i] && Reversed(name)[i] == '/'
    ensures ParseName(name) == BlobName(Reversed(Reversed(name)[i + 1..]), Reversed(Reversed(name)[..i]))
  {
    var k := |name| - i - 1;
    SplitsInside(name, i, k);
    SplitsAt(name, k);
    ReversedFront(name, i);
    ReversedRest(name, i + 1);
  }

  lemma SplitsInside(name: string, i: nat, k: nat)
    requires i < |name| && '/' !in Reversed(name)[..i] && Reversed(name)[i] == '/' && k == |name| - i - 1
    ensures name[k] == '/' && '/' !in name[k + 1..]
  {
    NotInReversed(name, i);
    assert k + 1 == |name| - i;
  }

  lemma ParsesWhole(name: string)
    requires '/' !in Reversed(name)[..|name|]
    ensures ParseName(name) == BlobName("", Reversed(Reversed(name)[..|name|]))
  {
    ReversedFront(name, |name|);
    NotInReversed(name, |name|);
    assert name[0..] == name;
  }

  method FirstSlash(s: string) returns (i: nat)
    ensures i <= |s| && '/' !in s[..i] && (i < |s| ==> s[i] == '/')
  {
    i := 0;
    while i < |s| && s[i] != '/'
      invariant i <= |s| && '/' !in s[..i]
    {
      assert s[..i + 1] == s[..i] + [s[i]];
      i := i + 1;
    }
  }

  /** Reverses the name, splits it once at the first slash, and reverses the parts. */
  method ParseBlobName(name: string) returns (b: BlobName)
    ensures b == ParseName(name)
  {
    if name == "" {
      return BlobName("", "");
    }
    var copy := Reversed(name);
    var i := FirstSlash(copy);
    if i == |copy| {
      ParsesWhole(name);
      return BlobName("", Reversed(copy[..i]));
    }
    ParsesReversed(name, i);
    b := BlobName(Reversed(copy[i + 1..]), Reversed(copy[..i]));
  }
}
