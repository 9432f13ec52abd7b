/** Re-reading a recorded session: which segments are found, in which order, and what decoding them gives. */
module Replays {
  import opened Bytes
  import opened Options
  import opened Sequences
  import opened Streams
  import opened Journals
  import Framing
  import Pipelines
  import Text

  // ---- The directory ----

  datatype DirEntry = DirEntry(name: string, isDir: bool)

  const SUFFIX := ".pcapng"

  predicate HasSuffix(s: string, suffix: string) { |s| >= |suffix| && s[|s| - |suffix|..] == suffix }

  function SegmentFiles(entries: seq<DirEntry>): seq<string>
    decreases |entries|
  {
    if entries == [] then [] else
    var e := entries[|entries| - 1];
    SegmentFiles(entries[..|entries| - 1]) + if !e.isDir && HasSuffix(e.name, SUFFIX) then [e.name] else []
  }

  /** The segments of a bundle in the order they are re-read. */
  method Segments(entries: seq<DirEntry>) returns (out: seq<string>)
    ensures out == Text.Sort(SegmentFiles(entries))
    ensures Text.Sorted(out) && multiset(out) == multiset(SegmentFiles(entries))
  {
    out := [];
    for i := 0 to |entries|
      invariant out == SegmentFiles(entries[..i])
    {
      assert entries[..i + 1][..i] == entries[..i];
      if !entries[i].isDir && HasSuffix(entries[i].name, SUFFIX) {
        out := out + [entries[i].name];
      }
    }
    assert entries[..|entries|] == entries;
    Text.SortSorts(out);
    out := Text.Sort(out);
  }

  /** How the program knows a segment among the names in a directory. */
  predicate EndsAsSegment(name: string) { |name| >= 7 && name[|name| - 7..] == ".pcapng" }

  lemma SuffixIsEnding(name: string)
    ensures HasSuffix(name, SUFFIX) <==> EndsAsSegment(name)
  {
  }

  /** A name is listed as often as the directory holds it as a file, if it ends as a segment's does, and else not
      at all. */
  lemma {:induction false} ListedIff(entries: seq<DirEntry>, name: string)
    ensures multiset(SegmentFiles(entries))[name]
         == if EndsAsSegment(name) then multiset(entries)[DirEntry(name, false)] else 0
    decreases |entries|
  {
    hide HasSuffix;
    hide EndsAsSegment;
    if entries != [] {
      var before, e := entries[..|entries| - 1], entries[|entries| - 1];
      ListedIff(before, name);
      SuffixIsEnding(e.name);
      assert entries == before + [e];
    }
  }

  function Names(files: seq<File>): (r: seq<string>)
    ensures |r| == |files|
  {
    seq(|files|, i requires 0 <= i < |files| => files[i].name)
  }

  lemma NamesAreSegments(stamp: Stamp, n: nat, at: time)
    ensures EndsAsSegment(SegmentName(stamp, n, at))
  {
  }

  /** Names that carry the numbers 1 to n, in order, and n is at most 99,999. */
  lemma NumberedNamesAreSorted(stamp: Stamp, j: Journal)
    requires Named(stamp, j) && j.segNum <= MAX_IN_ORDER
    ensures Text.Sorted(Names(Files(j)))
  {
    hide SegmentName;
    hide Text.Less;
    var names := Names(Files(j));
    forall i, k | 0 <= i < k < |names|
      ensures !Text.Less(names[k], names[i])
    {
      assert Numbered(stamp, names[i], i + 1) && Numbered(stamp, names[k], k + 1);
      var a :| names[i] == SegmentName(stamp, i + 1, a);
      var b :| names[k] == SegmentName(stamp, k + 1, b);
      NamesAscend(stamp, i + 1, a, k + 1, b);
      Text.LessAsymmetric(names[i], names[k]);
    }
  }

  lemma NumberedNamesAreDistinct(stamp: Stamp, j: Journal, i: nat, k: nat)
    requires Named(stamp, j) && i < |Files(j)| && k < |Files(j)| && Files(j)[i].name == Files(j)[k].name
    ensures i == k
  {
    hide SegmentName;
    assert Numbered(stamp, Files(j)[i].name, i + 1) && Numbered(stamp, Files(j)[k].name, k + 1);
    var a :| Files(j)[i].name == SegmentName(stamp, i + 1, a);
    var b :| Files(j)[k].name == SegmentName(stamp, k + 1, b);
    NamesDiffer(stamp, i + 1, a, k + 1, b);
  }

  lemma EarlyName(stamp: Stamp, j: Journal)
    requires Named(stamp, j) && j.segNum > MAX_IN_ORDER
    ensures Text.Less(Files(j)[99_999].name, Files(j)[9_999].name)
  {
    hide SegmentName;
    hide Text.Less;
    assert Numbered(stamp, Files(j)[9_999].name, 10_000) && Numbered(stamp, Files(j)[99_999].name, 100_000);
    var a :| Files(j)[9_999].name == SegmentName(stamp, 10_000, a);
    var b :| Files(j)[99_999].name == SegmentName(stamp, 100_000, b);
    HundredThousandSortsEarly(stamp, b, a);
  }

  lemma TooManyNamesAreUnsorted(stamp: Stamp, j: Journal)
    requires Named(stamp, j) && j.segNum > MAX_IN_ORDER
    ensures !Text.Sorted(Names(Files(j)))
  {
    hide Text.Less;
    hide Numbered;
    EarlyName(stamp, j);
    var names := Names(Files(j));
    assert names[9_999] == Files(j)[9_999].name && names[99_999] == Files(j)[99_999].name;
  }

  function AsEntries(names: seq<string>): (r: seq<DirEntry>)
    ensures |r| == |names|
  {
    seq(|names|, i requires 0 <= i < |names| => DirEntry(names[i], false))
  }

  /** The directory of a session, in whatever order it is listed: its segments, and anything else that is a
      directory or a file of another ending. */
  ghost predicate Bundle(j: Journal, entries: seq<DirEntry>) {
    exists others: seq<DirEntry> ::
      && multiset(entries) == multiset(AsEntries(Names(Files(j)))) + multiset(others)
      && forall e | e in others :: e.isDir || !EndsAsSegment(e.name)
  }

  lemma {:induction false} EntriesOfNames(names: seq<string>, name: string)
    ensures multiset(AsEntries(names))[DirEntry(name, false)] == multiset(names)[name]
    decreases |names|
  {
    if names != [] {
      var n := |names| - 1;
      EntriesOfNames(names[..n], name);
      assert names == names[..n] + [names[n]];
      assert AsEntries(names) == AsEntries(names[..n]) + [DirEntry(names[n], false)];
    }
  }

  lemma SegmentNamesEnd(stamp: Stamp, j: Journal, name: string)
    requires Named(stamp, j) && name in Names(Files(j))
    ensures EndsAsSegment(name)
  {
    hide SegmentName;
    var i :| 0 <= i < |Files(j)| && Names(Files(j))[i] == name;
    assert Numbered(stamp, Files(j)[i].name, i + 1);
    var at :| name == SegmentName(stamp, i + 1, at);
    NamesAreSegments(stamp, i + 1, at);
  }

  /** Whatever else is in the bundle, exactly the session's segments are listed. */
  lemma BundleListsSegments(stamp: Stamp, j: Journal, entries: seq<DirEntry>)
    requires Named(stamp, j) && Bundle(j, entries)
    ensures multiset(SegmentFiles(entries)) == multiset(Names(Files(j)))
  {
    hide Named;
    hide EndsAsSegment;
    hide SegmentFiles;
    var names := Names(Files(j));
    var others: seq<DirEntry> :|
      && multiset(entries) == multiset(AsEntries(names)) + multiset(others)
      && forall e | e in others :: e.isDir || !EndsAsSegment(e.name);
    forall name: string
      ensures multiset(SegmentFiles(entries))[name] == multiset(names)[name]
    {
      ListedIff(entries, name);
      EntriesOfNames(names, name);
      if EndsAsSegment(name) {
        assert DirEntry(name, false) !in multiset(others);
      } else if name in names {
        SegmentNamesEnd(stamp, j, name);
      } else {
        assert name !in multiset(names);
      }
    }
  }

  /** Sorting the names finds the segments in capture order exactly up to 99,999 of them. */
  lemma SegmentsInOrderIff(stamp: Stamp, j: Journal, entries: seq<DirEntry>)
    requires Named(stamp, j) && Bundle(j, entries)
    ensures Text.Sort(SegmentFiles(entries)) == Names(Files(j)) <==> j.segNum <= MAX_IN_ORDER
  {
    hide Bundle;
    var sorted := Text.Sort(SegmentFiles(entries));
    Text.SortSorts(SegmentFiles(entries));
    BundleListsSegments(stamp, j, entries);
    if j.segNum <= MAX_IN_ORDER {
      NumberedNamesAreSorted(stamp, j);
      Text.SortedIsUnique(sorted, Names(Files(j)));
    } else {
      TooManyNamesAreUnsorted(stamp, j);
    }
  }

  // ---- Reading the segments back ----

  /** How reading a segment stops: at its end, at a torn tail, or at an error of any other kind. */
  datatype End = Clean | Torn | Broken

  /** The frames a segment yields before reading it stops. */
  datatype Found = Found(frames: seq<Captured>, end: End)

  /** What the files of a bundle hold; one that is missing cannot be opened. */
  type Disk = map<string, Found>

  datatype Reread = Reread(files: seq<File>, ok: bool)

  /** Reads the segments in turn. A torn tail is passed over; a segment that cannot be opened ends the
      reading at once, one that is broken after the frames it yields. */
  function Read(disk: Disk, names: seq<string>): Reread
    decreases |names|
  {
    if names == [] then Reread([], true)
    else if names[0] !in disk then Reread([], false)
    else
      var f := File(names[0], disk[names[0]].frames);
      if disk[names[0]].end.Broken? then Reread([f], false)
      else var later := Read(disk, names[1..]); Reread([f] + later.files, later.ok)
  }

  /** The name of a segment that can be read to an end that stops nothing. */
  predicate Readable(disk: Disk, name: string) { name in disk && !disk[name].end.Broken? }

  /** The segments are read in turn up to the first that is missing or broken; of that one, what it yields is
      read as well. */
  lemma {:induction false} ReadingStopsAt(disk: Disk, names: seq<string>, n: nat)
    requires n <= |names| && forall i | 0 <= i < n :: Readable(disk, names[i])
    requires n < |names| ==> !Readable(disk, names[n])
    ensures var r := Read(disk, names);
            var more := if n < |names| && names[n] in disk then 1 else 0;
            && r.ok == (n == |names|) && |r.files| == n + more
            && forall i | 0 <= i < |r.files| ::
                 names[i] in disk && r.files[i] == File(names[i], disk[names[i]].frames)
    decreases |names|
  {
    if n > 0 {
      assert Readable(disk, names[0]);
      assert forall i | 0 <= i < n - 1 :: names[1..][i] == names[i + 1];
      ReadingStopsAt(disk, names[1..], n - 1);
    }
  }

  /** The files as they were written, possibly with torn tails behind them. */
  ghost predicate Holds(disk: Disk, files: seq<File>) {
    forall f | f in files :: f.name in disk && disk[f.name].frames == f.frames && !disk[f.name].end.Broken?
  }

  lemma {:induction false} ReadsAll(disk: Disk, files: seq<File>)
    requires Holds(disk, files)
    ensures Read(disk, Names(files)) == Reread(files, true)
    decreases |files|
  {
    if files != [] {
      assert files[0] in files;
      assert Names(files)[1..] == Names(files[1..]);
      ReadsAll(disk, files[1..]);
      assert [files[0]] + files[1..] == files;
    }
  }

  /** The files as a crash left them. The last may hold anything behind its frames; if its header never
      reached the disk it holds none and may be unreadable. */
  ghost predicate HoldsTorn(disk: Disk, files: seq<File>)
    requires files != []
  {
    var last := files[|files| - 1];
    Holds(disk, files[..|files| - 1]) && last.name in disk && disk[last.name].frames == last.frames
  }

  lemma {:induction false} ReadsUpToTheLast(disk: Disk, files: seq<File>)
    requires files != [] && HoldsTorn(disk, files)
    ensures Read(disk, Names(files)) == Reread(files, !disk[files[|files| - 1].name].end.Broken?)
    decreases |files|
  {
    var n := |files| - 1;
    assert Names(files)[1..] == Names(files[1..]);
    if n == 0 {
      assert Read(disk, Names(files[1..])) == Reread([], true);
    } else {
      assert files[0] in files[..n];
      assert files[1..][..n - 1] == files[..n][1..];
      ReadsUpToTheLast(disk, files[1..]);
      assert files[1..][n - 1] == files[n];
    }
    assert [files[0]] + files[1..] == files;
  }

  /** ... and after a crash a prefix of it, whatever state the last segment is in; the replay ends in an
      error exactly if that segment is unreadable. */
  lemma RereadingAfterCrash(stamp: Stamp, start: time, calls: seq<Call>, left: seq<File>, entries: seq<DirEntry>,
                            disk: Disk)
    requires var j := RunJournal(stamp, start, calls).journal;
             && Leaves(Files(j), Durable(j), left)
             && Bundle(j, entries) && HoldsTorn(disk, left) && j.segNum <= MAX_IN_ORDER
    ensures var read := Read(disk, Text.Sort(SegmentFiles(entries)));
            && Listing(read.files) == Listing(left) <= RunJournal(stamp, start, calls).written
            && (read.ok <==> !disk[left[|left| - 1].name].end.Broken?)
  {
    hide RunJournal;
    hide Listing;
    hide Bundle;
    hide Leaves;
    var j := RunJournal(stamp, start, calls).journal;
    RunIsSound(stamp, start, calls);
    SegmentsInOrderIff(stamp, j, entries);
    SameNames(Files(j), Durable(j), left);
    ReadsUpToTheLast(disk, left);
    CrashLosesLittle(stamp, start, calls, left);
  }

  lemma SameNames(files: seq<File>, durable: seq<nat>, left: seq<File>)
    requires Leaves(files, durable, left)
    ensures Names(left) == Names(files)
  {
    forall i | 0 <= i < |files|
      ensures left[i].name == files[i].name
    {
      assert Cut(files[i], durable[i], left[i]);
    }
  }

  // ---- Why the bound is needed ----

  function Start(files: seq<File>, i: nat): nat
    requires i <= |files|
  {
    |Listing(files[..i])|
  }

  lemma {:induction false} ListingPrefix(files: seq<File>, i: nat)
    requires i <= |files|
    ensures Listing(files[..i]) <= Listing(files)
    decreases |files| - i
  {
    if i < |files| {
      ListingPrefix(files, i + 1);
      assert files[..i + 1][..i] == files[..i];
    } else {
      assert files[..i] == files;
    }
  }

  /** The first frame of a file is listed behind all frames of the files before it. */
  lemma FirstFrameAt(files: seq<File>, i: nat)
    requires i < |files| && files[i].frames != []
    ensures Start(files, i) < |Listing(files)| && Listing(files)[Start(files, i)].ref == FrameRef(files[i].name, 0)
  {
    assert files[..i + 1][..i] == files[..i];
    ListingPrefix(files, i + 1);
    assert Listing(files[..i + 1]) == Listing(files[..i]) + FileEntries(files[i].name, files[i].frames);
  }

  lemma {:induction false} StartsAscend(files: seq<File>, i: nat, k: nat)
    requires i < k <= |files| && files[i].frames != []
    ensures Start(files, i) < Start(files, k)
    decreases k
  {
    assert files[..k][..k - 1] == files[..k - 1];
    if i < k - 1 {
      StartsAscend(files, i, k - 1);
    }
  }

  /** With distinct names, an entry's reference tells where in the listing it stands. */
  ghost predicate OneRef(es: seq<Entry>) {
    forall p, q | 0 <= p < q < |es| :: es[p].ref != es[q].ref
  }

  ghost predicate DistinctNames(files: seq<File>) {
    forall i, k | 0 <= i < k < |files| :: files[i].name != files[k].name
  }

  lemma {:induction false} ListingNames(files: seq<File>, p: nat)
    requires p < |Listing(files)|
    ensures exists i :: 0 <= i < |files| && files[i].name == Listing(files)[p].ref.segment
    decreases |files|
  {
    var n := |files| - 1;
    if p < |Listing(files[..n])| {
      ListingNames(files[..n], p);
      var i :| 0 <= i < n && files[..n][i].name == Listing(files[..n])[p].ref.segment;
      assert files[i] == files[..n][i];
    } else {
      assert files[n].name == Listing(files)[p].ref.segment;
    }
  }

  lemma {:induction false} ListingHasOneRef(files: seq<File>)
    requires DistinctNames(files)
    ensures OneRef(Listing(files))
    decreases |files|
  {
    if files != [] {
      var n := |files| - 1;
      ListingHasOneRef(files[..n]);
      var before, es := Listing(files[..n]), Listing(files);
      forall p, q | 0 <= p < q < |es|
        ensures es[p].ref != es[q].ref
      {
        if p < |before| <= q {
          ListingNames(files[..n], p);
          assert es[p] == before[p];
        }
      }
    }
  }

  /** In two listings that agree, files that hold frames come in the same order. */
  lemma SameOrder(a: seq<File>, b: seq<File>, i: nat, k: nat, m: nat, n: nat)
    requires Listing(a) == Listing(b) && DistinctNames(a)
    requires i < |a| && k < |a| && a[i].frames != [] && a[k].frames != []
    requires m < |b| && n < |b| && b[m].frames != [] && b[n].frames != []
    requires a[i].name == b[m].name && a[k].name == b[n].name
    requires i < k
    ensures m < n
  {
    hide Listing;
    ListingHasOneRef(a);
    FirstFrameAt(a, i);
    FirstFrameAt(a, k);
    FirstFrameAt(b, m);
    FirstFrameAt(b, n);
    StartsAscend(a, i, k);
    if n < m {
      StartsAscend(b, n, m);
    }
  }

  lemma NumberedFilesAreDistinct(stamp: Stamp, j: Journal)
    requires Named(stamp, j)
    ensures DistinctNames(Files(j))
  {
    forall i: nat, k: nat | i < k < |Files(j)|
      ensures Files(j)[i].name != Files(j)[k].name
    {
      if Files(j)[i].name == Files(j)[k].name {
        NumberedNamesAreDistinct(stamp, j, i, k);
      }
    }
  }

  lemma PositionOf(names: seq<string>, sorted: seq<string>, i: nat) returns (m: nat)
    requires i < |names| && multiset(sorted) == multiset(names)
    ensures m < |sorted| && sorted[m] == names[i]
  {
    assert names[i] in multiset(sorted);
    m :| m < |sorted| && sorted[m] == names[i];
  }

  lemma NamesWithout(files: seq<File>, i: nat)
    requires i < |files|
    ensures Names(files[..i] + files[i + 1..]) == Names(files)[..i] + Names(files)[i + 1..]
  {
  }

  lemma RestMatches(files: seq<File>, names: seq<string>, i: nat)
    requires i < |files| && names != [] && names[0] == files[i].name && multiset(names) == multiset(Names(files))
    ensures multiset(names[1..]) == multiset(Names(files[..i] + files[i + 1..]))
  {
    var all := Names(files);
    assert all[i] == names[0];
    NamesWithout(files, i);
    hide Names;
    WithoutFirst(names);
    WithoutOne(all, i);
  }

  lemma NamesOfMore(f: File, files: seq<File>)
    ensures Names([f] + files) == [f.name] + Names(files)
  {
  }

  /** The files in another order of their names. */
  lemma Reordered(files: seq<File>, names: seq<string>) returns (sorted: seq<File>)
    requires multiset(names) == multiset(Names(files))
    ensures Names(sorted) == names && forall f | f in sorted :: f in files
    decreases |names|
  {
    if names == [] {
      sorted := [];
    } else {
      var i := PositionOf(names, Names(files), 0);
      var rest := files[..i] + files[i + 1..];
      RestMatches(files, names, i);
      var later := Reordered(rest, names[1..]);
      sorted := [files[i]] + later;
      NamesOfMore(files[i], later);
      assert names == [names[0]] + names[1..];
    }
  }

  /** With too many segments the re-read order is wrong, so the listing is. */
  lemma TooManyAreMisread(stamp: Stamp, j: Journal, sorted: seq<File>)
    requires Named(stamp, j) && Filled(j) && j.segNum > MAX_IN_ORDER
    requires Text.Sorted(Names(sorted)) && multiset(Names(sorted)) == multiset(Names(Files(j)))
    requires forall f | f in sorted :: f in Files(j)
    ensures Listing(sorted) != Listing(Files(j))
  {
    hide Listing;
    hide Text.Less;
    hide Numbered;
    var a := Files(j);
    NumberedFilesAreDistinct(stamp, j);
    var m := PositionOf(Names(a), Names(sorted), 9_999);
    var n := PositionOf(Names(a), Names(sorted), 99_999);
    SameFile(a, sorted[m], 9_999);
    SameFile(a, sorted[n], 99_999);
    EarlyName(stamp, j);
    if Listing(sorted) == Listing(a) {
      SameOrder(a, sorted, 9_999, 99_999, m, n);
    }
  }

  lemma SameFile(files: seq<File>, f: File, i: nat)
    requires DistinctNames(files) && i < |files| && f in files && f.name == files[i].name
    ensures f == files[i]
  {
    var k :| 0 <= k < |files| && files[k] == f;
    assert files[k].name == files[i].name;
  }

  /** Re-reading a session gives back, in order, exactly what Write reported - the same segment, the same
      index and the same bytes for every frame - precisely when there are at most 99,999 segments. */
  lemma RereadingIsWritingIff(stamp: Stamp, start: time, calls: seq<Call>, entries: seq<DirEntry>, disk: Disk)
    requires var j := RunJournal(stamp, start, calls).journal; Bundle(j, entries) && Holds(disk, Files(j))
    ensures var names := Text.Sort(SegmentFiles(entries));
            && Read(disk, names).ok
            && (Listing(Read(disk, names).files) == RunJournal(stamp, start, calls).written
                <==> RunJournal(stamp, start, calls).journal.segNum <= MAX_IN_ORDER)
  {
    hide RunJournal;
    hide Listing;
    hide Named;
    hide Read;
    hide Bundle;
    var j := RunJournal(stamp, start, calls).journal;
    var names := Text.Sort(SegmentFiles(entries));
    WritesAreListed(stamp, start, calls);
    RunIsSound(stamp, start, calls);
    Text.SortSorts(SegmentFiles(entries));
    BundleListsSegments(stamp, j, entries);
    var sorted := Reordered(Files(j), names);
    ReadsAll(disk, sorted);
    if j.segNum <= MAX_IN_ORDER {
      SegmentsInOrderIff(stamp, j, entries);
      ReadsAll(disk, Files(j));
    } else {
      TooManyAreMisread(stamp, j, sorted);
    }
  }

  // ---- Decoding what was read back ----

  /** What a link-layer frame carries, as the packet library takes it apart. */
  type Dissect = seq<byte> -> Pipelines.Contents

  function Frames(dissect: Dissect, es: seq<Entry>): (r: seq<Pipelines.Frame>)
    ensures |r| == |es|
  {
    seq(|es|, i requires 0 <= i < |es| => Pipelines.Frame(es[i].ref, dissect(es[i].frame.data)))
  }

  lemma FramesConcat(dissect: Dissect, a: seq<Entry>, b: seq<Entry>)
    ensures Frames(dissect, a + b) == Frames(dissect, a) + Frames(dissect, b)
  {
  }

  // ---- Replay as the program runs it ----

  function Framed(dissect: Dissect, name: string, frames: seq<Captured>): seq<Pipelines.Frame> {
    Frames(dissect, FileEntries(name, frames))
  }

  lemma FramedSnoc(dissect: Dissect, name: string, frames: seq<Captured>, idx: nat)
    requires idx < |frames|
    ensures Framed(dissect, name, frames[..idx + 1])
         == Framed(dissect, name, frames[..idx]) + [Pipelines.Frame(FrameRef(name, idx), dissect(frames[idx].data))]
  {
  }

  method ReplaySegment(p: Pipelines.Pipeline, dissect: Dissect, name: string, frames: seq<Captured>,
                       ghost before: seq<Pipelines.Frame>)
    requires p.Valid() && p.Model() == Pipelines.RunPipeline(p.checked, p.universe, before)
    modifies p, p.table, p.table.byKey.Values, p.Objects()
    ensures p.Valid() && p.Model()
            == Pipelines.RunPipeline(p.checked, p.universe, before + Framed(dissect, name, frames))
    ensures fresh(p.table.byKey.Values - old(p.table.byKey.Values)) && fresh(p.Objects() - old(p.Objects()))
  {
    hide Pipelines.StepFrame;
    hide Pipelines.RunPipeline;
    hide Pipelines.Pipeline.Model;
    hide Pipelines.Pipeline.Valid;
    assert before + Framed(dissect, name, []) == before;
    for idx := 0 to |frames|
      invariant p.Valid() && p.Model()
                == Pipelines.RunPipeline(p.checked, p.universe, before + Framed(dissect, name, frames[..idx]))
      invariant fresh(p.table.byKey.Values - old(p.table.byKey.Values)) && fresh(p.Objects() - old(p.Objects()))
    {
      var f := Pipelines.Frame(FrameRef(name, idx), dissect(frames[idx].data));
      FramedSnoc(dissect, name, frames, idx);
      ghost var sofar := Framed(dissect, name, frames[..idx]);
      assert before + (sofar + [f]) == (before + sofar) + [f];
      Pipelines.RunPipelineSnoc(p.checked, p.universe, before + sofar, f);
      p.Feed(f, if frames[idx].at.Some? then frames[idx].at.value else 0);
    }
    assert frames[..|frames|] == frames;
  }

  lemma NothingReplayed(c: Framing.Checking, u: Pipelines.Universe, dissect: Dissect)
    ensures Pipelines.RunPipeline(c, u, Frames(dissect, Listing([]))) == Pipelines.START
  {
  }

  /** One more file read. */
  lemma FileReplayed(dissect: Dissect, files: seq<File>, f: File)
    ensures Frames(dissect, Listing(files)) + Framed(dissect, f.name, f.frames) == Frames(dissect, Listing(files + [f]))
  {
    ListingSnoc(files, f);
    FramesConcat(dissect, Listing(files), FileEntries(f.name, f.frames));
  }

  /** The pipeline is as if it had been fed exactly the frames of these files. */
  ghost predicate Replayed(p: Pipelines.Pipeline, dissect: Dissect, files: seq<File>)
    reads p, p.table, p.table.byKey.Values, p.Objects()
  {
    p.Valid() && p.Model() == Pipelines.RunPipeline(p.checked, p.universe, Frames(dissect, Listing(files)))
  }

  method ReplayFile(p: Pipelines.Pipeline, dissect: Dissect, f: File, ghost done: seq<File>)
    requires Replayed(p, dissect, done)
    modifies p, p.table, p.table.byKey.Values, p.Objects()
    ensures Replayed(p, dissect, done + [f])
    ensures fresh(p.table.byKey.Values - old(p.table.byKey.Values)) && fresh(p.Objects() - old(p.Objects()))
  {
    hide Pipelines.RunPipeline;
    hide Pipelines.Pipeline.Model;
    hide Pipelines.Pipeline.Valid;
    hide Listing;
    hide Frames;
    hide Framed;
    FileReplayed(dissect, done, f);
    ReplaySegment(p, dissect, f.name, f.frames, Frames(dissect, Listing(done)));
  }

  /** A re-reading in progress: i files read, `done` so far, `goal` in the end. */
  ghost predicate ReadsOn(disk: Disk, names: seq<string>, i: nat, done: seq<File>, goal: Reread)
    requires i <= |names|
  {
    var later := Read(disk, names[i..]);
    goal == Reread(done + later.files, later.ok)
  }

  lemma ReadsFirst(disk: Disk, names: seq<string>)
    ensures ReadsOn(disk, names, 0, [], Read(disk, names))
  {
    assert names[0..] == names;
    assert [] + Read(disk, names).files == Read(disk, names).files;
  }

  lemma ReadsOneMore(disk: Disk, names: seq<string>, i: nat, done: seq<File>, goal: Reread)
    requires i <= |names| && ReadsOn(disk, names, i, done, goal)
    ensures i == |names| ==> goal == Reread(done, true)
    ensures i < |names| && names[i] !in disk ==> goal == Reread(done, false)
    ensures i < |names| && names[i] in disk ==>
              var f := File(names[i], disk[names[i]].frames);
              if disk[names[i]].end.Broken? then goal == Reread(done + [f], false)
              else ReadsOn(disk, names, i + 1, done + [f], goal)
  {
    assert done + [] == done;
    if i < |names| && names[i] in disk && !disk[names[i]].end.Broken? {
      var f := File(names[i], disk[names[i]].frames);
      assert names[i..][1..] == names[i + 1..];
      assert done + ([f] + Read(disk, names[i + 1..]).files) == (done + [f]) + Read(disk, names[i + 1..]).files;
    }
  }

  method ReplaySegments(p: Pipelines.Pipeline, dissect: Dissect, names: seq<string>, disk: Disk) returns (ok: bool)
    requires Replayed(p, dissect, [])
    modifies p, p.table, p.table.byKey.Values, p.Objects()
    ensures Replayed(p, dissect, Read(disk, names).files) && ok == Read(disk, names).ok
  {
    hide Replayed;
    hide Read;
    hide ReadsOn;
    ghost var goal := Read(disk, names);
    ghost var done: seq<File> := [];
    ReadsFirst(disk, names);
    var i := 0;
    while i < |names|
      invariant 0 <= i <= |names| && ReadsOn(disk, names, i, done, goal)
      invariant Replayed(p, dissect, done)
      invariant fresh(p.table.byKey.Values - old(p.table.byKey.Values)) && fresh(p.Objects() - old(p.Objects()))
    {
      ReadsOneMore(disk, names, i, done, goal);
      if names[i] !in disk {
        return false;
      }
      var found := disk[names[i]];
      ReplayFile(p, dissect, File(names[i], found.frames), done);
      done := done + [File(names[i], found.frames)];
      if found.end.Broken? {
        return false;
      }
      i := i + 1;
    }
    ReadsOneMore(disk, names, i, done, goal);
    ok := true;
  }

  /** Feeds the frames of every segment, in the order of their names, until one cannot be read on. */
  method Replay(entries: seq<DirEntry>, disk: Disk, c: Framing.Checking, u: Pipelines.Universe, dissect: Dissect)
    returns (r: Option<Pipelines.Pipeline>, ok: bool)
    ensures r.None? <==> SegmentFiles(entries) == []
    ensures r.None? ==> !ok
    ensures r.Some? ==> var read := Read(disk, Text.Sort(SegmentFiles(entries)));
                        && ok == read.ok && r.value.Valid()
                        && r.value.Model() == Pipelines.RunPipeline(c, u, Frames(dissect, Listing(read.files)))
  {
    hide Pipelines.RunPipeline;
    hide Pipelines.Pipeline.Model;
    hide Pipelines.Pipeline.Valid;
    hide Listing;
    hide Read;
    var names := Segments(entries);
    assert |names| == |multiset(names)| && |SegmentFiles(entries)| == |multiset(SegmentFiles(entries))|;
    if |names| == 0 {
      return None, false;
    }
    var p := new Pipelines.Pipeline(c, u);
    NothingReplayed(c, u, dissect);
    ok := ReplaySegments(p, dissect, names, disk);
    return Some(p), ok;
  }
}
