/**
 The rotating journal of captured frames: where each frame lands, what a crash can cost, and the
 order in which the segments are found again.
 */
module Journals {
  import opened Bytes
  import opened Options
  import opened Streams
  import Text

  const MAX_SEGMENT_BYTES := 200 * 0x10_0000
  const MAX_SEGMENT_DURATION := 600_000_000_000
  const FLUSH_INTERVAL := 1_000_000_000
  const FLUSH_BYTES := 4 * 0x10_0000

  /** Nanoseconds. */
  type time = int

  /** A captured frame; the capture time may be missing. */
  datatype Captured = Captured(iface: nat, at: Option<time>, data: seq<byte>)

  /** How a time is written in a segment's name. */
  type Stamp = time -> string

  function SegmentName(stamp: Stamp, n: nat, at: time): string {
    "capture_" + Text.Padded(n, 5) + "_" + stamp(at) + ".pcapng"
  }

  // ---- The state ----

  /** A segment on disk. */
  datatype File = File(name: string, frames: seq<Captured>)

  /** The open segment: of its frames the first `durable` are on stable storage. */
  datatype Open = Open(file: File, bytes: nat, unflushed: nat, durable: nat)

  datatype Info = Info(file: string, first: Option<time>, last: Option<time>, frames: nat)

  /** What is behind the open segment: the finished ones, what was recorded of each, and how many of its
      frames were on stable storage when it was closed. */
  datatype Archive = Archive(files: seq<File>, infos: seq<Info>, flushed: seq<nat>)

  datatype Journal = Journal(archive: Archive, open: Open, segNum: nat, segOpen: time,
                             first: Option<time>, last: Option<time>, totalFrames: nat, totalBytes: nat,
                             lastFlush: time)

  function OpenNew(name: string): Open { Open(File(name, []), 0, 0, 0) }

  function InfoOf(j: Journal): Info { Info(j.open.file.name, j.first, j.last, |j.open.file.frames|) }

  function Begun(stamp: Stamp, now: time): Journal {
    Journal(Archive([], [], []), OpenNew(SegmentName(stamp, 1, now)), 1, now, None, None, 0, 0, now)
  }

  function Synced(o: Open): Open { o.(unflushed := 0, durable := |o.file.frames|) }

  /** Closing the open segment flushes it and records what it held. */
  function Closed(j: Journal): Archive {
    var a := j.archive;
    Archive(a.files + [j.open.file], a.infos + [InfoOf(j)], a.flushed + [Synced(j.open).durable])
  }

  /** The next segment is opened when the last one is closed. */
  function Rotated(stamp: Stamp, j: Journal, now: time): Journal {
    j.(archive := Closed(j), open := OpenNew(SegmentName(stamp, j.segNum + 1, now)), segNum := j.segNum + 1,
       segOpen := now, first := None, last := None, lastFlush := now)
  }

  function Appended(j: Journal, f: Captured, now: time): Journal {
    var o := j.open;
    var file := o.file.(frames := o.file.frames + [f]);
    j.(open := o.(file := file, bytes := o.bytes + |f.data|, unflushed := o.unflushed + |f.data|),
       first := if j.first.None? then Some(now) else j.first, last := Some(now),
       totalFrames := j.totalFrames + 1, totalBytes := j.totalBytes + |f.data|)
  }

  /** The clock readings of one call: when the call begins, when it decides whether to rotate, when it
      decides whether to flush, and when it has flushed. */
  datatype Clock = Clock(begin: time, rotate: time, flush: time, done: time)

  function MaybeSynced(j: Journal, due: bool, done: time): Journal {
    if due then j.(open := Synced(j.open), lastFlush := done) else j
  }

  /** The frame's own time, or the clock's if it has none. */
  function TimeOf(f: Captured, k: Clock): time { if f.at.Some? then f.at.value else k.begin }

  predicate Rotates(j: Journal, k: Clock) {
    j.open.bytes >= MAX_SEGMENT_BYTES || k.rotate - j.segOpen >= MAX_SEGMENT_DURATION
  }

  /** The journal when the frame is about to be appended. */
  function Turned(stamp: Stamp, j: Journal, f: Captured, k: Clock): Journal {
    if Rotates(j, k) then Rotated(stamp, j, TimeOf(f, k)) else j
  }

  function Written(stamp: Stamp, j: Journal, f: Captured, k: Clock): (Journal, FrameRef) {
    var j1 := Turned(stamp, j, f, k);
    var j2 := Appended(j1, f, TimeOf(f, k));
    (MaybeSynced(j2, j2.open.unflushed >= FLUSH_BYTES || k.flush - j2.lastFlush >= FLUSH_INTERVAL, k.done),
     FrameRef(j1.open.file.name, |j1.open.file.frames|))
  }

  function Ticked(j: Journal, k: Clock): Journal { MaybeSynced(j, k.flush - j.lastFlush >= FLUSH_INTERVAL, k.done) }

  // ---- Runs ----

  datatype Call = Write(f: Captured, k: Clock) | Tick(k: Clock)

  /** A frame and where Write said it landed. */
  datatype Entry = Entry(ref: FrameRef, frame: Captured)

  datatype JournalRun = JournalRun(journal: Journal, written: seq<Entry>)

  function RunJournal(stamp: Stamp, start: time, calls: seq<Call>): JournalRun
    decreases |calls|
  {
    if calls == [] then JournalRun(Begun(stamp, start), []) else
    var r := RunJournal(stamp, start, calls[..|calls| - 1]);
    match calls[|calls| - 1]
    case Write(f, k) => var (j, ref) := Written(stamp, r.journal, f, k); JournalRun(j, r.written + [Entry(ref, f)])
    case Tick(k) => r.(journal := Ticked(r.journal, k))
  }

  /** Every segment, the open one last. */
  function Files(j: Journal): seq<File> { j.archive.files + [j.open.file] }

  function FileEntries(name: string, frames: seq<Captured>): (r: seq<Entry>)
    ensures |r| == |frames|
  {
    seq(|frames|, i requires 0 <= i < |frames| => Entry(FrameRef(name, i), frames[i]))
  }

  /** Reading files one after the other, numbering the frames of each from zero. */
  function Listing(files: seq<File>): seq<Entry>
    decreases |files|
  {
    if files == [] then [] else
    Listing(files[..|files| - 1]) + FileEntries(files[|files| - 1].name, files[|files| - 1].frames)
  }

  lemma ListingSnoc(files: seq<File>, f: File)
    ensures Listing(files + [f]) == Listing(files) + FileEntries(f.name, f.frames)
  {
    assert (files + [f])[..|files|] == files;
  }

  lemma FileEntriesSnoc(name: string, frames: seq<Captured>, f: Captured)
    ensures FileEntries(name, frames + [f]) == FileEntries(name, frames) + [Entry(FrameRef(name, |frames|), f)]
  {
  }

  lemma AppendedLists(j: Journal, f: Captured, now: time)
    ensures Listing(Files(Appended(j, f, now)))
            == Listing(Files(j)) + [Entry(FrameRef(j.open.file.name, |j.open.file.frames|), f)]
  {
    var o := j.open.file;
    ListingSnoc(j.archive.files, o);
    ListingSnoc(j.archive.files, o.(frames := o.frames + [f]));
    FileEntriesSnoc(o.name, o.frames, f);
  }

  lemma RotatedLists(stamp: Stamp, j: Journal, now: time)
    ensures Listing(Files(Rotated(stamp, j, now))) == Listing(Files(j))
  {
    ListingSnoc(Files(j), Rotated(stamp, j, now).open.file);
  }

  /** What Write returned is what reading the segments in order gives back: each frame with its
      segment, its index and its bytes, nothing else and in the order of the calls. */
  lemma {:induction false} WritesAreListed(stamp: Stamp, start: time, calls: seq<Call>)
    ensures var r := RunJournal(stamp, start, calls); Listing(Files(r.journal)) == r.written
    decreases |calls|
  {
    hide SegmentName;
    if calls == [] {
      ListingSnoc([], OpenNew(SegmentName(stamp, 1, start)).file);
    } else {
      var before := calls[..|calls| - 1];
      WritesAreListed(stamp, start, before);
      var j := RunJournal(stamp, start, before).journal;
      match calls[|calls| - 1]
      case Tick(k) =>
      case Write(f, k) =>
        RotatedLists(stamp, j, TimeOf(f, k));
        AppendedLists(Turned(stamp, j, f, k), f, TimeOf(f, k));
    }
  }

  // ---- What every run keeps ----

  function Volume(frames: seq<Captured>): nat
    decreases |frames|
  {
    if frames == [] then 0 else Volume(frames[..|frames| - 1]) + |frames[|frames| - 1].data|
  }

  lemma {:induction false} VolumeConcat(a: seq<Captured>, b: seq<Captured>)
    ensures Volume(a + b) == Volume(a) + Volume(b)
    decreases |b|
  {
    if b == [] {
      assert a + b == a;
    } else {
      assert (a + b)[..|a + b| - 1] == a + b[..|b| - 1];
      VolumeConcat(a, b[..|b| - 1]);
    }
  }

  /** The n-th segment opened bears number n. */
  ghost predicate Numbered(stamp: Stamp, name: string, n: nat) {
    exists at: time :: name == SegmentName(stamp, n, at)
  }

  ghost predicate Named(stamp: Stamp, j: Journal) {
    |Files(j)| == j.segNum && forall i: nat | i < |Files(j)| :: Numbered(stamp, Files(j)[i].name, i + 1)
  }

  /** Only the first segment can be without frames. */
  predicate Filled(j: Journal) { forall i | 1 <= i < |Files(j)| :: Files(j)[i].frames != [] }

  /** Less than the flush threshold is not yet on stable storage, all of it at the end of the open segment. */
  predicate Bounded(o: Open) {
    && o.durable <= |o.file.frames|
    && o.unflushed == Volume(o.file.frames[o.durable..]) < 0x40_0000
    && o.bytes == Volume(o.file.frames)
  }

  /** The entry of a segment: its name, its frame count, and the times of its first and last frame where
      these frames carry one. */
  predicate Tells(i: Info, f: File) {
    && i.file == f.name && i.frames == |f.frames|
    && (i.first.None? <==> f.frames == []) && (i.last.None? <==> f.frames == [])
    && (f.frames != [] && f.frames[0].at.Some? ==> i.first == f.frames[0].at)
    && (f.frames != [] && f.frames[|f.frames| - 1].at.Some? ==> i.last == f.frames[|f.frames| - 1].at)
  }

  predicate InfosTell(infos: seq<Info>, files: seq<File>) {
    |infos| == |files| && forall i | 0 <= i < |infos| :: Tells(infos[i], files[i])
  }

  predicate Informed(j: Journal) { InfosTell(j.archive.infos, j.archive.files) && Tells(InfoOf(j), j.open.file) }

  /** A segment exceeds the size cap by at most its last frame. */
  predicate Capped(frames: seq<Captured>) {
    frames == [] || Volume(frames[..|frames| - 1]) < 200 * 0x10_0000
  }

  predicate Sized(j: Journal) {
    (forall i | 0 <= i < |j.archive.files| :: Capped(j.archive.files[i].frames)) && Capped(j.open.file.frames)
  }

  /** Every frame of a finished segment was on stable storage when the segment was closed. */
  predicate Secured(a: Archive) {
    |a.flushed| == |a.files| && forall i | 0 <= i < |a.files| :: a.flushed[i] == |a.files[i].frames|
  }

  lemma ClosedIsSecured(j: Journal)
    requires Secured(j.archive)
    ensures Secured(Closed(j))
  {
  }

  ghost predicate Sound(stamp: Stamp, j: Journal) {
    Named(stamp, j) && Filled(j) && Bounded(j.open) && Informed(j) && Sized(j) && Secured(j.archive)
  }

  lemma CappedSnoc(frames: seq<Captured>, f: Captured)
    requires Volume(frames) < MAX_SEGMENT_BYTES
    ensures Capped(frames + [f])
  {
    assert (frames + [f])[..|frames|] == frames;
  }

  lemma RotatedIsSized(stamp: Stamp, j: Journal, now: time)
    requires Sized(j)
    ensures Sized(Rotated(stamp, j, now)) && Volume(Rotated(stamp, j, now).open.file.frames) == 0
  {
    hide SegmentName;
  }

  lemma AppendedIsSized(j: Journal, f: Captured, now: time)
    requires Sized(j) && Volume(j.open.file.frames) < MAX_SEGMENT_BYTES
    ensures Sized(Appended(j, f, now))
  {
    hide Volume;
    hide Capped;
    CappedSnoc(j.open.file.frames, f);
  }

  lemma RotatedIsNamed(stamp: Stamp, j: Journal, now: time)
    requires Named(stamp, j)
    ensures Named(stamp, Rotated(stamp, j, now))
  {
    hide SegmentName;
    var j1 := Rotated(stamp, j, now);
    forall i: nat | i < |Files(j1)|
      ensures Numbered(stamp, Files(j1)[i].name, i + 1)
    {
      if i < |Files(j)| {
        assert Files(j1)[i] == Files(j)[i];
      }
    }
  }

  lemma AppendedIsNamed(stamp: Stamp, j: Journal, f: Captured, now: time)
    requires Named(stamp, j)
    ensures Named(stamp, Appended(j, f, now))
  {
    hide Numbered;
    var j1 := Appended(j, f, now);
    forall i: nat | i < |Files(j1)|
      ensures Numbered(stamp, Files(j1)[i].name, i + 1)
    {
      assert Numbered(stamp, Files(j)[i].name, i + 1);
      assert Files(j1)[i].name == Files(j)[i].name;
    }
  }

  lemma AppendedIsBounded(o: Open, f: Captured, o1: Open)
    requires o.durable <= |o.file.frames| && o.unflushed == Volume(o.file.frames[o.durable..])
             && o.bytes == Volume(o.file.frames)
    requires var file := o.file.(frames := o.file.frames + [f]);
             o1 == o.(file := file, bytes := o.bytes + |f.data|, unflushed := o.unflushed + |f.data|)
    ensures o1.unflushed == Volume(o1.file.frames[o1.durable..]) && o1.bytes == Volume(o1.file.frames)
  {
    var all := o1.file.frames;
    assert all[..|all| - 1] == o.file.frames;
    var late := all[o.durable..];
    assert late[..|late| - 1] == o.file.frames[o.durable..];
  }

  /** All but the last segment hold frames, except that the first may not. */
  predicate FilledBefore(j: Journal) { forall i | 1 <= i < |j.archive.files| :: j.archive.files[i].frames != [] }

  lemma RotatedIsInformed(stamp: Stamp, j: Journal, now: time)
    requires Filled(j) && Informed(j)
    ensures FilledBefore(Rotated(stamp, j, now)) && Informed(Rotated(stamp, j, now))
  {
    hide SegmentName;
    var j1 := Rotated(stamp, j, now);
    forall i | 1 <= i < |j1.archive.files|
      ensures j1.archive.files[i].frames != []
    {
      assert j1.archive.files[i] == Files(j)[i];
    }
  }

  lemma AppendedIsFilled(j: Journal, f: Captured, now: time)
    requires FilledBefore(j) && Informed(j) && (f.at.Some? ==> now == f.at.value)
    ensures Filled(Appended(j, f, now)) && Informed(Appended(j, f, now))
  {
    var j1 := Appended(j, f, now);
    forall i | 1 <= i < |Files(j1)|
      ensures Files(j1)[i].frames != []
    {
      assert i < |j.archive.files| ==> Files(j1)[i] == j.archive.files[i];
    }
  }

  /** The counters of the open segment are right, whether or not a flush is due. */
  predicate Kept(o: Open) {
    && o.durable <= |o.file.frames|
    && o.unflushed == Volume(o.file.frames[o.durable..]) && o.bytes == Volume(o.file.frames)
  }

  /** What holds when a frame is about to be appended. */
  ghost predicate Ready(stamp: Stamp, j: Journal) {
    && Named(stamp, j) && FilledBefore(j) && Informed(j) && Sized(j) && Secured(j.archive)
    && Kept(j.open) && j.open.bytes < MAX_SEGMENT_BYTES
  }

  /** What holds when it has been appended. */
  ghost predicate Filed(stamp: Stamp, j: Journal) {
    Named(stamp, j) && Filled(j) && Informed(j) && Sized(j) && Secured(j.archive) && Kept(j.open)
  }

  lemma RotatedIsReady(stamp: Stamp, j: Journal, now: time)
    requires Sound(stamp, j)
    ensures Ready(stamp, Rotated(stamp, j, now))
  {
    hide Named;
    hide Informed;
    hide Sized;
    assert Rotated(stamp, j, now).archive == Closed(j);
    ClosedIsSecured(j);
    hide Secured;
    hide Rotated;
    RotatedIsNamed(stamp, j, now);
    RotatedIsInformed(stamp, j, now);
    RotatedIsSized(stamp, j, now);
    RotatedIsEmpty(stamp, j, now);
  }

  lemma RotatedIsEmpty(stamp: Stamp, j: Journal, now: time)
    ensures Kept(Rotated(stamp, j, now).open) && Rotated(stamp, j, now).open.bytes == 0
  {
    hide SegmentName;
  }

  lemma UnrotatedIsReady(stamp: Stamp, j: Journal)
    requires Sound(stamp, j) && j.open.bytes < MAX_SEGMENT_BYTES
    ensures Ready(stamp, j)
  {
    hide Named;
    hide Informed;
    hide Sized;
    hide Volume;
    assert forall i | 1 <= i < |j.archive.files| :: Files(j)[i] == j.archive.files[i];
  }

  lemma AppendedIsFiled(stamp: Stamp, j: Journal, f: Captured, now: time)
    requires Ready(stamp, j) && (f.at.Some? ==> now == f.at.value)
    ensures Filed(stamp, Appended(j, f, now))
  {
    hide Named;
    hide Informed;
    hide Sized;
    hide Volume;
    hide Filled;
    AppendedIsNamed(stamp, j, f, now);
    AppendedIsFilled(j, f, now);
    AppendedIsBounded(j.open, f, Appended(j, f, now).open);
    AppendedIsSized(j, f, now);
  }

  lemma FlushedIsSound(stamp: Stamp, j: Journal, due: bool, done: time)
    requires Filed(stamp, j) && (due || j.open.unflushed < FLUSH_BYTES)
    ensures Sound(stamp, MaybeSynced(j, due, done))
  {
    hide Named;
    hide Informed;
    hide Sized;
    hide Filled;
    var j1 := MaybeSynced(j, due, done);
    SameFiles(stamp, j, j1);
  }

  /** What is said of the files does not look at what is flushed. */
  lemma SameFiles(stamp: Stamp, j: Journal, j1: Journal)
    requires Named(stamp, j) && Filled(j) && Informed(j) && Sized(j)
    requires j1.archive == j.archive && j1.open.file == j.open.file && j1.segNum == j.segNum
    requires j1.first == j.first && j1.last == j.last
    ensures Named(stamp, j1) && Filled(j1) && Informed(j1) && Sized(j1)
  {
    hide Numbered;
    hide Capped;
    hide Tells;
    assert Files(j1) == Files(j);
  }

  lemma TurnedIsReady(stamp: Stamp, j: Journal, f: Captured, k: Clock)
    requires Sound(stamp, j)
    ensures Ready(stamp, Turned(stamp, j, f, k))
  {
    hide Sound;
    hide Ready;
    hide Rotated;
    if Rotates(j, k) {
      RotatedIsReady(stamp, j, TimeOf(f, k));
    } else {
      assert j.open.bytes < MAX_SEGMENT_BYTES;
      UnrotatedIsReady(stamp, j);
    }
  }

  lemma WrittenIsSound(stamp: Stamp, j: Journal, f: Captured, k: Clock)
    requires Sound(stamp, j)
    ensures Sound(stamp, Written(stamp, j, f, k).0)
  {
    hide Sound;
    hide Ready;
    hide Filed;
    hide Turned;
    TurnedIsReady(stamp, j, f, k);
    var j1, now := Turned(stamp, j, f, k), TimeOf(f, k);
    var j2 := Appended(j1, f, now);
    AppendedIsFiled(stamp, j1, f, now);
    FlushedIsSound(stamp, j2, j2.open.unflushed >= FLUSH_BYTES || k.flush - j2.lastFlush >= FLUSH_INTERVAL, k.done);
  }

  lemma TickedIsSound(stamp: Stamp, j: Journal, k: Clock)
    requires Sound(stamp, j)
    ensures Sound(stamp, Ticked(j, k))
  {
    hide Named;
    hide Informed;
    hide Sized;
    hide Filled;
    FlushedIsSound(stamp, j, k.flush - j.lastFlush >= FLUSH_INTERVAL, k.done);
  }

  lemma BegunIsSound(stamp: Stamp, now: time)
    ensures Sound(stamp, Begun(stamp, now))
  {
    hide SegmentName;
    var j := Begun(stamp, now);
    assert Numbered(stamp, Files(j)[0].name, 1);
  }

  lemma {:induction false} RunIsSound(stamp: Stamp, start: time, calls: seq<Call>)
    ensures Sound(stamp, RunJournal(stamp, start, calls).journal)
    decreases |calls|
  {
    hide Sound;
    hide Written;
    hide Ticked;
    hide Begun;
    if calls == [] {
      BegunIsSound(stamp, start);
    } else {
      var before := calls[..|calls| - 1];
      RunIsSound(stamp, start, before);
      var j := RunJournal(stamp, start, before).journal;
      match calls[|calls| - 1]
      case Tick(k) => TickedIsSound(stamp, j, k);
      case Write(f, k) => WrittenIsSound(stamp, j, f, k);
    }
  }

  // ---- When segments end and flushes are made ----

  /** What can be told from the calls alone: the number of the open segment and when it was opened, how many
      frames and bytes it holds and the times of its first and last frame, and how many of its bytes wait for a
      flush, and since when. */
  datatype Watch = Watch(number: nat, since: time, frames: nat, held: nat, first: Option<time>, last: Option<time>,
                         pending: nat, flushed: time)

  /** A segment ends when it holds 200 MiB or is ten minutes old. */
  predicate Full(w: Watch, now: time) { w.held >= 209_715_200 || now - w.since >= 600_000_000_000 }

  /** A flush is due when 4 MiB wait or the last one was a second ago. */
  predicate Due(w: Watch, now: time) { w.pending >= 4_194_304 || now - w.flushed >= 1_000_000_000 }

  function When(f: Captured, k: Clock): time {
    match f.at
    case Some(t) => t
    case None => k.begin
  }

  /** The watch when a frame has been taken and no flush decided on yet. */
  function Noted(w: Watch, f: Captured, k: Clock): Watch {
    var at, n := When(f, k), |f.data|;
    if Full(w, k.rotate) then Watch(w.number + 1, at, 1, n, Some(at), Some(at), n, at)
    else Watch(w.number, w.since, w.frames + 1, w.held + n, if w.frames == 0 then Some(at) else w.first, Some(at),
               w.pending + n, w.flushed)
  }

  function Watched(start: time, calls: seq<Call>): Watch
    decreases |calls|
  {
    if calls == [] then Watch(1, start, 0, 0, None, None, 0, start) else
    var w := Watched(start, calls[..|calls| - 1]);
    match calls[|calls| - 1]
    case Write(f, k) =>
      var w1 := Noted(w, f, k);
      if Due(w1, k.flush) then w1.(pending := 0, flushed := k.done) else w1
    case Tick(k) =>
      if k.flush - w.flushed >= 1_000_000_000 then w.(pending := 0, flushed := k.done) else w
  }

  /** The journal's own counters and clocks, read off a watch. */
  predicate Shows(stamp: Stamp, j: Journal, w: Watch) {
    && j.segNum == w.number && j.segOpen == w.since && j.lastFlush == w.flushed
    && j.open.file.name == SegmentName(stamp, w.number, w.since)
    && |j.open.file.frames| == w.frames && j.open.bytes == w.held && j.open.unflushed == w.pending
    && j.first == w.first && j.last == w.last && (w.frames == 0 <==> w.first.None?)
  }

  lemma NotedShows(stamp: Stamp, j: Journal, w: Watch, f: Captured, k: Clock)
    requires Shows(stamp, j, w)
    ensures var j1 := Turned(stamp, j, f, k); Shows(stamp, Appended(j1, f, TimeOf(f, k)), Noted(w, f, k))
  {
    hide SegmentName;
  }

  lemma {:induction false} WatchShows(stamp: Stamp, start: time, calls: seq<Call>)
    ensures Shows(stamp, RunJournal(stamp, start, calls).journal, Watched(start, calls))
    decreases |calls|
  {
    hide SegmentName;
    hide Noted;
    hide Turned;
    hide Appended;
    if calls != [] {
      var before := calls[..|calls| - 1];
      WatchShows(stamp, start, before);
      match calls[|calls| - 1]
      case Tick(k) =>
      case Write(f, k) => NotedShows(stamp, RunJournal(stamp, start, before).journal, Watched(start, before), f, k);
    }
  }

  /** In every run, what a watch tells of the open segment is so: its name, its frames, their volume, and the
      volume of those not yet on stable storage. */
  lemma WatchTells(stamp: Stamp, start: time, calls: seq<Call>)
    ensures var j, w := RunJournal(stamp, start, calls).journal, Watched(start, calls);
            && |Files(j)| == w.number && j.open.file.name == SegmentName(stamp, w.number, w.since)
            && |j.open.file.frames| == w.frames && Volume(j.open.file.frames) == w.held
            && j.open.durable <= w.frames && Volume(j.open.file.frames[j.open.durable..]) == w.pending
            && InfoOf(j) == Info(j.open.file.name, w.first, w.last, w.frames)
  {
    hide RunJournal;
    hide Watched;
    hide Volume;
    hide SegmentName;
    WatchShows(stamp, start, calls);
    RunIsSound(stamp, start, calls);
  }

  /** In every run, Write opens a new segment, under the next number, exactly when the open one holds 200 MiB of
      frame bytes or is ten minutes old; the frame is then the first of its segment, and otherwise the next one. */
  lemma WriteTurnsIff(stamp: Stamp, start: time, calls: seq<Call>, f: Captured, k: Clock)
    ensures var r, r1 := RunJournal(stamp, start, calls), RunJournal(stamp, start, calls + [Write(f, k)]);
            var j, files, at := r.journal, r.journal.archive.files, if f.at.Some? then f.at.value else k.begin;
            var name := SegmentName(stamp, |files| + 2, at);
            if Volume(j.open.file.frames) >= 200 * 0x10_0000
               || k.rotate - Watched(start, calls).since >= 600_000_000_000
            then
              && Files(r1.journal) == files + [j.open.file, File(name, [f])]
              && r1.written == r.written + [Entry(FrameRef(name, 0), f)]
            else
              && Files(r1.journal) == files + [File(j.open.file.name, j.open.file.frames + [f])]
              && r1.written == r.written + [Entry(FrameRef(j.open.file.name, |j.open.file.frames|), f)]
  {
    hide RunJournal;
    hide Watched;
    hide Volume;
    hide SegmentName;
    WatchShows(stamp, start, calls);
    WatchTells(stamp, start, calls);
    WrittenLast(stamp, start, calls, f, k);
    FilesAfterWrite(stamp, RunJournal(stamp, start, calls).journal, f, k);
  }

  lemma FilesAfterWrite(stamp: Stamp, j: Journal, f: Captured, k: Clock)
    ensures var name := SegmentName(stamp, j.segNum + 1, TimeOf(f, k));
            Files(Written(stamp, j, f, k).0) == j.archive.files
              + if Rotates(j, k) then [j.open.file, File(name, [f])]
                else [File(j.open.file.name, j.open.file.frames + [f])]
  {
    hide SegmentName;
    assert [] + [f] == [f];
  }

  lemma WrittenLast(stamp: Stamp, start: time, calls: seq<Call>, f: Captured, k: Clock)
    ensures var r, r1 := RunJournal(stamp, start, calls), RunJournal(stamp, start, calls + [Write(f, k)]);
            var (j, ref) := Written(stamp, r.journal, f, k);
            r1 == JournalRun(j, r.written + [Entry(ref, f)])
  {
    hide Written;
    assert (calls + [Write(f, k)])[..|calls|] == calls;
  }

  lemma TickedLast(stamp: Stamp, start: time, calls: seq<Call>, k: Clock)
    ensures var r, r1 := RunJournal(stamp, start, calls), RunJournal(stamp, start, calls + [Tick(k)]);
            r1 == r.(journal := Ticked(r.journal, k))
  {
    assert (calls + [Tick(k)])[..|calls|] == calls;
  }

  /** In every run, Write puts all its segment holds on stable storage exactly when, the frame included, 4 MiB
      wait or a second has passed since the last flush or the opening; otherwise what was flushed stays so. */
  lemma WriteFlushesIff(stamp: Stamp, start: time, calls: seq<Call>, f: Captured, k: Clock)
    ensures var j, j1 := RunJournal(stamp, start, calls).journal,
                         RunJournal(stamp, start, calls + [Write(f, k)]).journal;
            var w1 := Noted(Watched(start, calls), f, k);
            j1.open.durable == if w1.pending >= 4 * 0x10_0000 || k.flush - w1.flushed >= 1_000_000_000
                               then |j1.open.file.frames|
                               else if j1.segNum == j.segNum then j.open.durable else 0
  {
    hide RunJournal;
    hide Watched;
    hide SegmentName;
    WatchShows(stamp, start, calls);
    WrittenLast(stamp, start, calls, f, k);
  }

  /** ... and Tick does so exactly when a second has passed, and changes nothing else. */
  lemma TickFlushesIff(stamp: Stamp, start: time, calls: seq<Call>, k: Clock)
    ensures var r, r1 := RunJournal(stamp, start, calls), RunJournal(stamp, start, calls + [Tick(k)]);
            && Files(r1.journal) == Files(r.journal) && r1.written == r.written
            && r1.journal.open.durable == if k.flush - Watched(start, calls).flushed >= 1_000_000_000
                                          then |r.journal.open.file.frames| else r.journal.open.durable
  {
    hide RunJournal;
    hide Watched;
    hide SegmentName;
    WatchShows(stamp, start, calls);
    TickedLast(stamp, start, calls, k);
  }

  /** The totals shown in the status line are those of the frames written. */
  lemma {:induction false} TotalsTell(stamp: Stamp, start: time, calls: seq<Call>)
    ensures var r := RunJournal(stamp, start, calls);
            r.journal.totalFrames == |r.written| && r.journal.totalBytes == Volume(FramesIn(r.written))
    decreases |calls|
  {
    hide SegmentName;
    if calls != [] {
      var before := calls[..|calls| - 1];
      TotalsTell(stamp, start, before);
      var r := RunJournal(stamp, start, before);
      match calls[|calls| - 1]
      case Tick(k) =>
      case Write(f, k) =>
        var all := RunJournal(stamp, start, calls).written;
        assert FramesIn(all)[..|r.written|] == FramesIn(r.written);
    }
  }

  // ---- A crash ----

  /** What a crash can leave of a file whose first `durable` frames are on stable storage. */
  predicate Cut(f: File, durable: nat, left: File) {
    left.name == f.name && durable <= |left.frames| && left.frames <= f.frames
  }

  /** A crash cuts each of the files anywhere at or behind what is on stable storage. */
  predicate Leaves(files: seq<File>, durable: seq<nat>, left: seq<File>) {
    |files| == |durable| == |left| && forall i | 0 <= i < |files| :: Cut(files[i], durable[i], left[i])
  }

  function Durable(j: Journal): seq<nat> { j.archive.flushed + [j.open.durable] }

  /** Of a journal without an open segment a crash takes nothing. */
  lemma SecuredFilesSurvive(a: Archive, left: seq<File>)
    requires Secured(a) && Leaves(a.files, a.flushed, left)
    ensures left == a.files
  {
    forall i | 0 <= i < |left|
      ensures left[i] == a.files[i]
    {
      assert Cut(a.files[i], a.flushed[i], left[i]);
    }
  }

  /** The finished segments, and the first k frames of the open one. */
  function Survivors(j: Journal, k: nat): seq<File>
    requires k <= |j.open.file.frames|
  {
    j.archive.files + [File(j.open.file.name, j.open.file.frames[..k])]
  }

  /** Wherever a crash is allowed to cut, it can only cut the open segment. */
  lemma CrashCutsTheOpenSegment(j: Journal, left: seq<File>) returns (k: nat)
    requires Secured(j.archive) && Leaves(Files(j), Durable(j), left)
    ensures j.open.durable <= k <= |j.open.file.frames| && left == Survivors(j, k)
  {
    hide Cut;
    var n := |j.archive.files|;
    k := |left[n].frames|;
    forall i | 0 <= i < n
      ensures Cut(j.archive.files[i], j.archive.flushed[i], left[..n][i])
    {
      assert Cut(Files(j)[i], Durable(j)[i], left[i]);
    }
    SecuredFilesSurvive(j.archive, left[..n]);
    assert Cut(Files(j)[n], Durable(j)[n], left[n]);
    CutIsPrefix(j.open.file, j.open.durable, left[n]);
    assert left == left[..n] + [left[n]];
  }

  lemma CutIsPrefix(f: File, durable: nat, left: File)
    requires Cut(f, durable, left)
    ensures durable <= |left.frames| <= |f.frames| && left == File(f.name, f.frames[..|left.frames|])
  {
  }

  /** The frames of entries. */
  function FramesIn(es: seq<Entry>): (r: seq<Captured>)
    ensures |r| == |es|
  {
    seq(|es|, i requires 0 <= i < |es| => es[i].frame)
  }

  /** The entries of one file, cut after k frames. */
  lemma CutFile(name: string, frames: seq<Captured>, durable: nat, k: nat)
    requires durable <= k <= |frames|
    ensures var all := FileEntries(name, frames);
            && FileEntries(name, frames[..k]) == all[..k]
            && FileEntries(name, frames[..durable]) <= all[..k]
            && Volume(FramesIn(all[k..])) <= Volume(frames[durable..])
            && forall e | e in all[k..] :: e.ref.segment == name
  {
    hide Volume;
    assert FramesIn(FileEntries(name, frames)[k..]) == frames[k..];
    VolumeConcat(frames[durable..k], frames[k..]);
    assert frames[durable..k] + frames[k..] == frames[durable..];
  }

  lemma CutTail<T>(a: seq<T>, b: seq<T>, k: nat)
    requires k <= |b|
    ensures a + b[..k] <= a + b && (a + b)[|a| + k..] == b[k..]
  {
  }

  /** What a crash costs a journal whose counters are right: nothing of a finished segment, and of the
      open one no more than is counted as not flushed. */
  lemma LossIsUnflushed(j: Journal, left: seq<File>)
    requires Secured(j.archive) && Kept(j.open) && Leaves(Files(j), Durable(j), left)
    ensures var kept, all := Listing(left), Listing(Files(j));
            && kept <= all
            && Listing(j.archive.files) + FileEntries(j.open.file.name, j.open.file.frames[..j.open.durable]) <= kept
            && Volume(FramesIn(all[|kept|..])) <= j.open.unflushed
            && forall e | e in all[|kept|..] :: e.ref.segment == j.open.file.name
  {
    hide Listing;
    hide FileEntries;
    hide FramesIn;
    hide Volume;
    hide Secured;
    hide Leaves;
    var k := CrashCutsTheOpenSegment(j, left);
    var name, frames := j.open.file.name, j.open.file.frames;
    ListingSnoc(j.archive.files, j.open.file);
    ListingSnoc(j.archive.files, File(name, frames[..k]));
    CutFile(name, frames, j.open.durable, k);
    CutTail(Listing(j.archive.files), FileEntries(name, frames), k);
  }

  /** After any run of successful calls, whatever a crash leaves is a prefix of what was written; it holds
      every finished segment and everything flushed, and less than 4 MiB of frame bytes are missing,
      all of them from the open segment. */
  lemma CrashLosesLittle(stamp: Stamp, start: time, calls: seq<Call>, left: seq<File>)
    requires var j := RunJournal(stamp, start, calls).journal; Leaves(Files(j), Durable(j), left)
    ensures var r, kept := RunJournal(stamp, start, calls), Listing(left);
            var o := r.journal.open;
            && kept <= r.written
            && Listing(r.journal.archive.files) + FileEntries(o.file.name, o.file.frames[..o.durable]) <= kept
            && Volume(FramesIn(r.written[|kept|..])) < 0x40_0000
            && forall e | e in r.written[|kept|..] :: e.ref.segment == o.file.name
  {
    hide RunJournal;
    hide Listing;
    hide FileEntries;
    hide FramesIn;
    hide Volume;
    hide Leaves;
    WritesAreListed(stamp, start, calls);
    RunIsSound(stamp, start, calls);
    LossIsUnflushed(RunJournal(stamp, start, calls).journal, left);
  }

  /** What the files and the stable storage can be while Write is at work on a frame: before a rotation,
      between closing a segment and opening the next, before the append, and before the flush. */
  predicate InsideWrite(stamp: Stamp, j: Journal, f: Captured, k: Clock, left: seq<File>) {
    var j1 := Turned(stamp, j, f, k);
    var j2 := Appended(j1, f, TimeOf(f, k));
    || Leaves(Files(j), Durable(j), left)
    || (Rotates(j, k) && Leaves(Closed(j).files, Closed(j).flushed, left))
    || Leaves(Files(j1), Durable(j1), left)
    || Leaves(Files(j2), Durable(j2), left)
  }

  /** A crash inside Write costs at most the frame at hand more. */
  lemma CrashInsideWrite(stamp: Stamp, start: time, calls: seq<Call>, f: Captured, k: Clock, left: seq<File>)
    requires InsideWrite(stamp, RunJournal(stamp, start, calls).journal, f, k, left)
    ensures var kept, all := Listing(left), RunJournal(stamp, start, calls + [Write(f, k)]).written;
            kept <= all && Volume(FramesIn(all[|kept|..])) < 0x40_0000 + |f.data|
  {
    hide Listing;
    hide Volume;
    hide FramesIn;
    hide Leaves;
    hide Kept;
    hide Secured;
    hide Turned;
    hide RunJournal;
    var j := RunJournal(stamp, start, calls).journal;
    var j1 := Turned(stamp, j, f, k);
    var now := TimeOf(f, k);
    var j2 := Appended(j1, f, now);
    var e := Entry(FrameRef(j1.open.file.name, |j1.open.file.frames|), f);
    RunIsSound(stamp, start, calls);
    WritesAreListed(stamp, start, calls);
    WrittenNext(stamp, start, calls, f, k);
    TurnedIsReady(stamp, j, f, k);
    TurnedLists(stamp, j, f, k);
    AppendedLists(j1, f, now);
    AppendedIsFiled(stamp, j1, f, now);
    var all, kept := Listing(Files(j2)), Listing(left);
    if Leaves(Files(j), Durable(j), left) {
      BoundedIsKept(j.open);
      LossIsUnflushed(j, left);
      OneMoreMissing(Listing(Files(j)), |kept|, e);
    } else if Rotates(j, k) && Leaves(Closed(j).files, Closed(j).flushed, left) {
      ClosedIsSecured(j);
      SecuredFilesSurvive(Closed(j), left);
      OneMoreMissing(kept, |kept|, e);
      NothingIsMissing(kept);
    } else if Leaves(Files(j1), Durable(j1), left) {
      LossIsUnflushed(j1, left);
      OneMoreMissing(Listing(Files(j1)), |kept|, e);
    } else {
      LossIsUnflushed(j2, left);
    }
  }

  lemma BoundedIsKept(o: Open)
    requires Bounded(o)
    ensures Kept(o)
  {
  }

  lemma NothingIsMissing(es: seq<Entry>)
    ensures Volume(FramesIn(es[|es|..])) == 0
  {
  }

  lemma WrittenNext(stamp: Stamp, start: time, calls: seq<Call>, f: Captured, k: Clock)
    ensures var r := RunJournal(stamp, start, calls);
            var o := Turned(stamp, r.journal, f, k).open.file;
            RunJournal(stamp, start, calls + [Write(f, k)]).written
              == r.written + [Entry(FrameRef(o.name, |o.frames|), f)]
  {
    assert (calls + [Write(f, k)])[..|calls|] == calls;
  }

  lemma TurnedLists(stamp: Stamp, j: Journal, f: Captured, k: Clock)
    requires Sound(stamp, j)
    ensures var j1 := Turned(stamp, j, f, k);
            Listing(Files(j1)) == Listing(Files(j)) && j1.open.unflushed <= j.open.unflushed
  {
    hide Listing;
    RotatedLists(stamp, j, TimeOf(f, k));
  }

  lemma OneMoreMissing(es: seq<Entry>, k: nat, e: Entry)
    requires k <= |es|
    ensures es[..k] <= es + [e]
    ensures Volume(FramesIn((es + [e])[k..])) == Volume(FramesIn(es[k..])) + |e.frame.data|
  {
    assert (es + [e])[k..] == es[k..] + [e];
    var all := FramesIn(es[k..] + [e]);
    assert all[..|all| - 1] == FramesIn(es[k..]);
  }

  /** What was recorded of the segments of a closed journal is right. */
  lemma ClosedIsInformed(stamp: Stamp, start: time, calls: seq<Call>)
    ensures var a := Closed(RunJournal(stamp, start, calls).journal); InfosTell(a.infos, a.files)
  {
    hide RunJournal;
    hide Tells;
    RunIsSound(stamp, start, calls);
  }

  /** A journal that has been closed loses nothing. */
  lemma ClosedLosesNothing(stamp: Stamp, start: time, calls: seq<Call>, left: seq<File>)
    requires var a := Closed(RunJournal(stamp, start, calls).journal); Leaves(a.files, a.flushed, left)
    ensures var r := RunJournal(stamp, start, calls); left == Files(r.journal) && Listing(left) == r.written
  {
    hide RunJournal;
    hide Listing;
    hide Leaves;
    WritesAreListed(stamp, start, calls);
    RunIsSound(stamp, start, calls);
    ClosedIsSecured(RunJournal(stamp, start, calls).journal);
    SecuredFilesSurvive(Closed(RunJournal(stamp, start, calls).journal), left);
  }

  /** A crash after a tick that came at least an interval after the last flush loses nothing at all. */
  lemma DueTickLosesNothing(stamp: Stamp, start: time, calls: seq<Call>, k: Clock, left: seq<File>)
    requires k.flush - Watched(start, calls).flushed >= 1_000_000_000
    requires var j := RunJournal(stamp, start, calls + [Tick(k)]).journal; Leaves(Files(j), Durable(j), left)
    ensures Listing(left) == RunJournal(stamp, start, calls + [Tick(k)]).written
  {
    hide Listing;
    hide Leaves;
    var all := calls + [Tick(k)];
    assert all[..|all| - 1] == calls;
    WatchShows(stamp, start, calls);
    WritesAreListed(stamp, start, all);
    RunIsSound(stamp, start, all);
    var j := RunJournal(stamp, start, all).journal;
    var n := CrashCutsTheOpenSegment(j, left);
    assert j.open.file.frames[..n] == j.open.file.frames;
  }

  // ---- Segment names ----

  const PREFIX := "capture_"

  const MAX_IN_ORDER := 99_999

  lemma PaddedTo5(n: nat)
    ensures |Text.Padded(n, 5)| == 5 <==> n <= MAX_IN_ORDER
    ensures n > MAX_IN_ORDER ==> |Text.Padded(n, 5)| > 5
  {
    Text.DecimalWidth(n, 5);
    assert Text.Power10(5) == 100_000;
  }

  lemma NameParts(stamp: Stamp, n: nat, at: time)
    ensures SegmentName(stamp, n, at) == PREFIX + (Text.Padded(n, 5) + ("_" + stamp(at) + ".pcapng"))
  {
  }

  /** Up to 99,999 the names of the segments sort in the order of their numbers, whatever the clock said. */
  lemma NamesAscend(stamp: Stamp, m: nat, a: time, n: nat, b: time)
    requires m < n <= MAX_IN_ORDER
    ensures Text.Less(SegmentName(stamp, m, a), SegmentName(stamp, n, b))
  {
    hide Text.Padded;
    hide SegmentName;
    var p, q := Text.Padded(m, 5), Text.Padded(n, 5);
    PaddedTo5(m);
    PaddedTo5(n);
    Text.PaddedRoundTrip(m, 5);
    Text.PaddedRoundTrip(n, 5);
    Text.NumericOrder(p, q);
    var u, v := "_" + stamp(a) + ".pcapng", "_" + stamp(b) + ".pcapng";
    Text.LessBeforeSuffix(p, q, u, v);
    Text.LessAfterPrefix(PREFIX, p + u, q + v);
    NameParts(stamp, m, a);
    NameParts(stamp, n, b);
  }

  predicate StartsAt(s: string, n: nat) {
    n < |s| && s[n] == '_' && forall i | 0 <= i < n :: s[i] != '_'
  }

  lemma FirstUnderscore(d: string, u: string)
    requires Text.Digits(d)
    ensures StartsAt(d + ("_" + u), |d|)
  {
  }

  lemma DigitsEnd(d: string, u: string, e: string, v: string)
    requires Text.Digits(d) && Text.Digits(e) && d + ("_" + u) == e + ("_" + v)
    ensures d == e
  {
    var s := d + ("_" + u);
    FirstUnderscore(d, u);
    FirstUnderscore(e, v);
    assert |d| == |e|;
    assert s[..|d|] == d && s[..|e|] == e;
  }

  /** Segments of different numbers never share a name. */
  lemma NamesDiffer(stamp: Stamp, m: nat, a: time, n: nat, b: time)
    requires SegmentName(stamp, m, a) == SegmentName(stamp, n, b)
    ensures m == n
  {
    hide Text.Padded;
    var p, q := Text.Padded(m, 5), Text.Padded(n, 5);
    NameParts(stamp, m, a);
    NameParts(stamp, n, b);
    var u, v := stamp(a) + ".pcapng", stamp(b) + ".pcapng";
    assert p + ("_" + u) == SegmentName(stamp, m, a)[|PREFIX|..];
    assert q + ("_" + v) == SegmentName(stamp, n, b)[|PREFIX|..];
    DigitsEnd(p, u, q, v);
    Text.PaddedRoundTrip(m, 5);
    Text.PaddedRoundTrip(n, 5);
  }

  lemma TenTimes()
    ensures var p := Text.Padded(10_000, 5); Text.Padded(100_000, 5) == p + "0"
  {
    Text.DecimalWidth(10_000, 4);
    Text.DecimalWidth(10_000, 5);
    assert Text.Power10(4) == 10_000 && Text.Power10(5) == 100_000;
    assert Text.Decimal(100_000) == Text.Decimal(100_000 / 10) + [Text.Digit(0)];
  }

  /** The first six-digit number sorts before the five-digit one that is its prefix. */
  lemma HundredThousandSortsEarly(stamp: Stamp, a: time, b: time)
    ensures Text.Less(SegmentName(stamp, 100_000, a), SegmentName(stamp, 10_000, b))
  {
    hide SegmentName;
    hide Text.Padded;
    TenTimes();
    var p := Text.Padded(10_000, 5);
    var u, v := "_" + stamp(a) + ".pcapng", "_" + stamp(b) + ".pcapng";
    assert Text.Less("0" + u, v);
    Text.LessAfterPrefix(p, "0" + u, v);
    assert p + ("0" + u) == (p + "0") + u;
    Text.LessAfterPrefix(PREFIX, (p + "0") + u, p + v);
    NameParts(stamp, 100_000, a);
    NameParts(stamp, 10_000, b);
  }

  // ---- The journal as the program keeps it ----

  class Segment {
    const name: string
    var content: seq<Captured>
    var frames: nat
    var bytes: nat
    var unflushed: nat
    ghost var durable: nat

    ghost predicate Valid()
      reads this
    {
      frames == |content| && durable <= frames
    }

    ghost function Model(): Open
      reads this
    {
      Open(File(name, content), bytes, unflushed, durable)
    }

    constructor (n: string)
      ensures Valid() && Model() == OpenNew(n)
    {
      name, content, frames, bytes, unflushed, durable := n, [], 0, 0, 0, 0;
    }

    method Append(f: Captured)
      requires Valid()
      modifies this
      ensures Valid() && durable == old(durable) && content == old(content) + [f]
      ensures bytes == old(bytes) + |f.data| && unflushed == old(unflushed) + |f.data|
    {
      content := content + [f];
      frames := frames + 1;
      bytes := bytes + |f.data|;
      unflushed := unflushed + |f.data|;
    }

    /** From here on a crash can no longer take what has been written. */
    method Sync()
      requires Valid()
      modifies this
      ensures Valid() && Model() == Synced(old(Model()))
    {
      durable := frames;
      unflushed := 0;
    }
  }

  class Writer {
    const stamp: Stamp
    var seg: Segment?
    var segNum: nat
    var segOpen: time
    var first: Option<time>
    var last: Option<time>
    ghost var closed: seq<File>
    ghost var flushed: seq<nat>
    var segments: seq<Info>
    var totalFrames: nat
    var totalBytes: nat
    var lastFlush: time

    ghost function Behind(): Archive
      reads this
    {
      Archive(closed, segments, flushed)
    }

    /** No segment is ever behind the open one unless it is whole on stable storage. */
    ghost predicate Valid()
      reads this, seg
    {
      Secured(Behind()) && (seg != null ==> seg.Valid())
    }

    ghost function Model(): Journal
      requires seg != null
      reads this, seg
    {
      Journal(Behind(), seg.Model(), segNum, segOpen, first, last, totalFrames, totalBytes, lastFlush)
    }

    constructor (s: Stamp, now: time)
      ensures Valid() && seg != null && fresh(seg) && stamp == s && Model() == Begun(s, now)
    {
      stamp := s;
      segNum, closed, segments, flushed := 0, [], [], [];
      totalFrames, totalBytes := 0, 0;
      seg := null;
      new;
      OpenNext(now);
    }

    /** Opens the next segment; the one before it is closed. */
    method OpenNext(now: time)
      requires Valid() && seg == null
      modifies this
      ensures Valid() && seg != null && fresh(seg)
      ensures Model() == Journal(old(Behind()), OpenNew(SegmentName(stamp, old(segNum) + 1, now)), old(segNum) + 1, now,
                                 None, None, old(totalFrames), old(totalBytes), now)
    {
      segNum := segNum + 1;
      seg := new Segment(SegmentName(stamp, segNum, now));
      segOpen := now;
      first, last := None, None;
      lastFlush := now;
    }

    /** Records what the open segment held and closes it, flushed. */
    method FinishSegment()
      requires Valid() && seg != null
      modifies this`seg, this`closed, this`segments, this`flushed, seg
      ensures Valid() && seg == null && Behind() == Closed(old(Model()))
    {
      var info := Info(seg.name, first, last, seg.frames);
      seg.Sync();
      segments := segments + [info];
      closed := closed + [File(seg.name, seg.content)];
      flushed := flushed + [seg.durable];
      seg := null;
    }

    method Rotate(now: time)
      requires Valid() && seg != null
      modifies this, seg
      ensures Valid() && seg != null && fresh(seg) && Model() == Rotated(stamp, old(Model()), now)
    {
      FinishSegment();
      OpenNext(now);
    }

    /** Closes the open segment, if there is one. */
    method Close()
      requires Valid()
      modifies this`seg, this`closed, this`segments, this`flushed, seg
      ensures Valid() && seg == null
      ensures Behind() == if old(seg) == null then old(Behind()) else Closed(old(Model()))
    {
      if seg != null {
        FinishSegment();
      }
    }

    method Write(f: Captured, k: Clock) returns (ref: FrameRef)
      requires Valid() && seg != null
      modifies this, seg
      ensures Valid() && seg != null && (seg == old(seg) || fresh(seg))
              && (Model(), ref) == Written(stamp, old(Model()), f, k)
    {
      hide SegmentName;
      var now := if f.at.Some? then f.at.value else k.begin;
      if seg.bytes >= MAX_SEGMENT_BYTES || k.rotate - segOpen >= MAX_SEGMENT_DURATION {
        Rotate(now);
      }
      ref := FrameRef(seg.name, seg.frames);
      Append(f, now);
      Flush(seg.unflushed >= FLUSH_BYTES || k.flush - lastFlush >= FLUSH_INTERVAL, k.done);
    }

    method Append(f: Captured, now: time)
      requires Valid() && seg != null
      modifies this`first, this`last, this`totalFrames, this`totalBytes, seg
      ensures Valid() && Model() == Appended(old(Model()), f, now)
    {
      seg.Append(f);
      if first.None? {
        first := Some(now);
      }
      last := Some(now);
      totalFrames := totalFrames + 1;
      totalBytes := totalBytes + |f.data|;
    }

    method Flush(due: bool, done: time)
      requires Valid() && seg != null
      modifies this`lastFlush, seg
      ensures Valid() && Model() == MaybeSynced(old(Model()), due, done)
    {
      if due {
        seg.Sync();
        lastFlush := done;
      }
    }

    /** A journal that has been closed is left alone. */
    method Tick(k: Clock)
      requires Valid()
      modifies this`lastFlush, seg
      ensures Valid() && Behind() == old(Behind())
      ensures if seg == null then lastFlush == old(lastFlush) else Model() == Ticked(old(Model()), k)
    {
      if seg == null || k.flush - lastFlush < FLUSH_INTERVAL {
        return;
      }
      Flush(true, k.done);
    }

    /** Metadata of every segment, the open one included. */
    method Segments() returns (out: seq<Info>)
      requires Valid() && if seg == null then InfosTell(segments, closed) else Informed(Model())
      ensures InfosTell(out, if seg == null then closed else Files(Model()))
    {
      out := segments;
      if seg != null {
        out := out + [Info(seg.name, first, last, seg.frames)];
      }
    }
  }
}
