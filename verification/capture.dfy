/**
 The goroutines of a capture session: one reader per interface, one writer, one decoder and the main
 loop, joined by two bounded channels of which only the second may drop.
 */
module Sessions {
  import opened Options
  import opened Streams
  import opened Journals
  import Framing
  import Pipelines
  import Replays
  import Text

  const FRAMES_CAPACITY := 8192
  const DECODE_CAPACITY := 4096

  /** A reader is about to look at the stop channel, in a read, holding what it read, or gone - possibly
      with a frame it could not hand over. */
  datatype Reader = Top | Reading | Holding(f: Captured) | Stopped(lost: Option<Captured>)

  /** The writer waits for a frame, has one to journal, has journaled one and offers it to the decoder,
      has returned, or has returned because this frame could not be written. */
  datatype WriterState = Idle | Has(f: Captured) | Landed(e: Entry) | Finished | Failed(f: Captured)

  datatype Stage = Running | Stopping | FramesClosed | DecodeClosed | Done

  /** `got` is the history of what each reader has read, `calls` that of the journal. */
  datatype Session = Session(readers: seq<Reader>, got: seq<seq<Captured>>, frames: seq<Captured>, writer: WriterState,
                             calls: seq<Call>, queue: seq<Entry>, fed: seq<Entry>, dropped: nat, decoderDone: bool,
                             stage: Stage)

  datatype Step =
    | Check(i: nat) | Read(i: nat, f: Captured) | ReadError(i: nat) | Send(i: nat) | Quit(i: nat)
    | Receive | Land(k: Clock) | Fail | Offer | WriterEnds
    | Decode | DecoderEnds
    | JournalTick(k: Clock) | Break | CloseFrames | CloseDecode | Finish

  /** Where and when the session's journal was opened. */
  datatype Setup = Setup(stamp: Stamp, start: time)

  function Written(p: Setup, calls: seq<Call>): seq<Entry> { RunJournal(p.stamp, p.start, calls).written }

  function Opening(n: nat): Session {
    Session(seq(n, _ => Top), seq(n, _ => []), [], Idle, [], [], [], 0, false, Running)
  }

  predicate StopClosed(s: Session) { s.stage != Running }

  predicate AllStopped(s: Session) { forall i | 0 <= i < |s.readers| :: s.readers[i].Stopped? }

  predicate Enabled(s: Session, a: Step) {
    match a
    case Check(i) => i < |s.readers| && s.readers[i] == Top
    case Read(i, f) => i < |s.readers| && s.readers[i] == Reading && f.iface == i
    case ReadError(i) => i < |s.readers| && s.readers[i] == Reading
    case Send(i) => i < |s.readers| && s.readers[i].Holding? && |s.frames| < FRAMES_CAPACITY
    case Quit(i) => i < |s.readers| && s.readers[i].Holding? && StopClosed(s)
    case Receive => s.writer == Idle && s.frames != []
    case Land(_) => s.writer.Has?
    case Fail => s.writer.Has?
    case Offer => s.writer.Landed?
    case WriterEnds => s.writer == Idle && s.frames == [] && s.stage in {FramesClosed, DecodeClosed, Done}
    case Decode => !s.decoderDone && s.queue != []
    case DecoderEnds => !s.decoderDone && s.queue == [] && s.stage in {DecodeClosed, Done}
    case JournalTick(_) => s.stage == Running
    case Break => s.stage == Running
    case CloseFrames => s.stage == Stopping && AllStopped(s)
    case CloseDecode => s.stage == FramesClosed && (s.writer.Finished? || s.writer.Failed?)
    case Finish => s.stage == DecodeClosed && s.decoderDone
  }

  function Next(p: Setup, s: Session, a: Step): (t: Session)
    requires Enabled(s, a) && |s.got| == |s.readers|
    ensures |t.got| == |t.readers| == |s.readers|
  {
    match a
    case Check(i) => s.(readers := s.readers[i := if StopClosed(s) then Stopped(None) else Reading])
    case Read(i, f) => s.(readers := s.readers[i := Holding(f)], got := s.got[i := s.got[i] + [f]])
    case ReadError(i) => s.(readers := s.readers[i := Top])
    case Send(i) => s.(readers := s.readers[i := Top], frames := s.frames + [s.readers[i].f])
    case Quit(i) => s.(readers := s.readers[i := Stopped(Some(s.readers[i].f))])
    case Receive => s.(writer := Has(s.frames[0]), frames := s.frames[1..])
    case Land(k) =>
      var calls := s.calls + [Write(s.writer.f, k)];
      var j := RunJournal(p.stamp, p.start, s.calls).journal;
      s.(calls := calls, writer := Landed(Entry(Journals.Written(p.stamp, j, s.writer.f, k).1, s.writer.f)))
    case Fail => s.(writer := Failed(s.writer.f))
    case Offer =>
      if |s.queue| < DECODE_CAPACITY then s.(writer := Idle, queue := s.queue + [s.writer.e])
      else s.(writer := Idle, dropped := s.dropped + 1)
    case WriterEnds => s.(writer := Finished)
    case Decode => s.(queue := s.queue[1..], fed := s.fed + [s.queue[0]])
    case DecoderEnds => s.(decoderDone := true)
    case JournalTick(k) => s.(calls := s.calls + [Tick(k)])
    case Break => s.(stage := Stopping)
    case CloseFrames => s.(stage := FramesClosed)
    case CloseDecode => s.(stage := DecodeClosed)
    case Finish => s.(stage := Done)
  }

  // ---- What every step keeps ----

  predicate Shaped(s: Session) {
    && |s.got| == |s.readers|
    && |s.frames| <= FRAMES_CAPACITY && |s.queue| <= DECODE_CAPACITY
    && (s.stage in {FramesClosed, DecodeClosed, Done} ==> AllStopped(s))
    && (s.writer == Finished ==> s.frames == [] && s.stage in {FramesClosed, DecodeClosed, Done})
    && (s.stage in {DecodeClosed, Done} ==> s.writer.Finished? || s.writer.Failed?)
    && (s.decoderDone ==> s.queue == [] && s.stage in {DecodeClosed, Done})
    && (s.stage == Done ==> s.decoderDone)
    && (s.stage == Running ==> forall i | 0 <= i < |s.readers| :: !s.readers[i].Stopped?)
  }

  /** `a` is `b` with some elements left out. */
  predicate Subsequence<T(==)>(a: seq<T>, b: seq<T>)
    decreases |b|
  {
    a == [] ||
    (b != [] && ((a[|a| - 1] == b[|b| - 1] && Subsequence(a[..|a| - 1], b[..|b| - 1])) || Subsequence(a, b[..|b| - 1])))
  }

  lemma SubsequenceSkip<T>(a: seq<T>, b: seq<T>, x: T)
    requires Subsequence(a, b)
    ensures Subsequence(a, b + [x])
  {
    assert (b + [x])[..|b|] == b;
  }

  lemma SubsequenceTake<T>(a: seq<T>, b: seq<T>, x: T)
    requires Subsequence(a, b)
    ensures Subsequence(a + [x], b + [x])
  {
    assert (a + [x])[..|a|] == a && (b + [x])[..|b|] == b;
  }

  lemma {:induction false} SubsequenceDrop<T>(a: seq<T>, b: seq<T>)
    requires a != [] && Subsequence(a, b)
    ensures Subsequence(a[..|a| - 1], b)
    decreases |b|
  {
    var b0 := b[..|b| - 1];
    assert b == b0 + [b[|b| - 1]];
    if Subsequence(a, b0) {
      SubsequenceDrop(a, b0);
    }
    SubsequenceSkip(a[..|a| - 1], b0, b[|b| - 1]);
  }

  lemma {:induction false} SubsequenceLength<T>(a: seq<T>, b: seq<T>)
    requires Subsequence(a, b)
    ensures |a| <= |b| && (|a| == |b| ==> a == b)
    decreases |b|
  {
    if a != [] {
      var a0, b0 := a[..|a| - 1], b[..|b| - 1];
      if Subsequence(a, b0) {
        SubsequenceLength(a, b0);
      } else {
        SubsequenceLength(a0, b0);
        assert a == a0 + [a[|a| - 1]] && b == b0 + [b[|b| - 1]];
      }
    }
  }

  function Offered(s: Session): seq<Entry> {
    s.fed + s.queue + if s.writer.Landed? then [s.writer.e] else []
  }

  /** What was fed, waits or is offered to the decoder is, in order, part of what was journaled, and the
      rest of that was counted as dropped. */
  ghost predicate Journaled(p: Setup, s: Session) {
    var all := Written(p, s.calls);
    Subsequence(Offered(s), all) && |all| == |Offered(s)| + s.dropped
  }

  /** The frames of one interface. */
  function Of(fs: seq<Captured>, i: nat): seq<Captured>
    decreases |fs|
  {
    if fs == [] then [] else
    var f := fs[|fs| - 1];
    Of(fs[..|fs| - 1], i) + if f.iface == i then [f] else []
  }

  lemma {:induction false} OfConcat(a: seq<Captured>, b: seq<Captured>, i: nat)
    ensures Of(a + b, i) == Of(a, i) + Of(b, i)
    decreases |b|
  {
    if b == [] {
      assert a + b == a;
    } else {
      assert (a + b)[..|a + b| - 1] == a + b[..|b| - 1];
      OfConcat(a, b[..|b| - 1], i);
    }
  }

  function InHand(w: WriterState): seq<Captured> { if w.Has? || w.Failed? then [w.f] else [] }

  function Pending(r: Reader): seq<Captured> {
    match r
    case Holding(f) => [f]
    case Stopped(Some(f)) => [f]
    case _ => []
  }

  /** Everything between the readers and the decoder, oldest first. */
  function Passed(p: Setup, s: Session): seq<Captured> {
    FramesIn(Written(p, s.calls)) + InHand(s.writer) + s.frames
  }

  ghost predicate CompleteFor(p: Setup, s: Session, i: nat)
    requires i < |s.readers| == |s.got|
  {
    Of(Passed(p, s), i) + Pending(s.readers[i]) == s.got[i]
    && (s.readers[i].Holding? ==> s.readers[i].f.iface == i)
  }

  /** For every interface: what it read is journaled, in flight, or still in the reader's hand. */
  ghost predicate Complete(p: Setup, s: Session)
    requires |s.readers| == |s.got|
  {
    forall i | 0 <= i < |s.readers| :: CompleteFor(p, s, i)
  }

  ghost predicate Sound(p: Setup, s: Session) { Shaped(s) && Journaled(p, s) && Complete(p, s) }

  lemma KeepsShaped(p: Setup, s: Session, a: Step)
    requires Shaped(s) && Enabled(s, a)
    ensures Shaped(Next(p, s, a))
  {
    hide RunJournal;
  }

  lemma WrittenByLand(p: Setup, s: Session, k: Clock)
    requires Shaped(s) && s.writer.Has?
    ensures var s1 := Next(p, s, Land(k));
            && s1.writer.Landed? && s1.writer.e.frame == s.writer.f
            && Written(p, s1.calls) == Written(p, s.calls) + [s1.writer.e]
  {
    hide Journals.Written;
    var calls := s.calls + [Write(s.writer.f, k)];
    assert calls[..|calls| - 1] == s.calls;
  }

  lemma WrittenByTick(p: Setup, calls: seq<Call>, k: Clock)
    ensures Written(p, calls + [Tick(k)]) == Written(p, calls)
  {
    assert (calls + [Tick(k)])[..|calls|] == calls;
  }

  predicate TouchesOffers(a: Step) { a.Land? || a.Offer? || a.Decode? || a.JournalTick? }

  lemma OthersOfferNothing(p: Setup, s: Session, a: Step)
    requires Shaped(s) && Enabled(s, a) && !TouchesOffers(a)
    ensures var s1 := Next(p, s, a); Offered(s1) == Offered(s) && s1.calls == s.calls && s1.dropped == s.dropped
  {
    hide RunJournal;
  }

  /** What each step that concerns the decoder does to what is offered to it. */
  lemma OffersMove(p: Setup, s: Session, a: Step)
    requires Shaped(s) && Enabled(s, a)
    ensures var s1 := Next(p, s, a);
            match a
            case Land(_) => s1.writer.Landed? && Offered(s1) == Offered(s) + [s1.writer.e] && s1.dropped == s.dropped
            case Offer =>
              s1.calls == s.calls &&
              (if |s.queue| < DECODE_CAPACITY then Offered(s1) == Offered(s) && s1.dropped == s.dropped
               else Offered(s) != [] && Offered(s1) == Offered(s)[..|Offered(s)| - 1] && s1.dropped == s.dropped + 1)
            case Decode => Offered(s1) == Offered(s) && s1.calls == s.calls && s1.dropped == s.dropped
            case _ => true
  {
    hide RunJournal;
  }

  lemma KeepsJournaled(p: Setup, s: Session, a: Step)
    requires Shaped(s) && Enabled(s, a) && Journaled(p, s)
    ensures Journaled(p, Next(p, s, a))
  {
    hide Written;
    hide Subsequence;
    hide RunJournal;
    hide Offered;
    OffersMove(p, s, a);
    var all := Written(p, s.calls);
    match a
    case Land(k) =>
      WrittenByLand(p, s, k);
      SubsequenceTake(Offered(s), all, Next(p, s, a).writer.e);
    case Offer =>
      if |s.queue| >= DECODE_CAPACITY {
        SubsequenceDrop(Offered(s), all);
      }
    case Decode =>
    case JournalTick(k) =>
      WrittenByTick(p, s.calls, k);
      TicksOfferNothing(p, s, k);
    case _ => OthersOfferNothing(p, s, a);
  }

  lemma TicksOfferNothing(p: Setup, s: Session, k: Clock)
    requires Shaped(s) && Enabled(s, JournalTick(k))
    ensures var s1 := Next(p, s, JournalTick(k)); Offered(s1) == Offered(s) && s1.dropped == s.dropped
  {
  }

  lemma FramesInSnoc(es: seq<Entry>, e: Entry)
    ensures FramesIn(es + [e]) == FramesIn(es) + [e.frame]
  {
  }

  /** Nothing but a reader's own steps touches what it has read, and those only for itself. */
  lemma KeepsCompleteFor(p: Setup, s: Session, a: Step, i: nat)
    requires Shaped(s) && Enabled(s, a) && i < |s.readers| && Complete(p, s)
    ensures CompleteFor(p, Next(p, s, a), i)
  {
    hide Written;
    hide RunJournal;
    hide Of;
    hide FramesIn;
    hide Passed;
    var s1 := Next(p, s, a);
    assert CompleteFor(p, s, i);
    PassedByStep(p, s, a);
    if a.Send? {
      assert CompleteFor(p, s, a.i);
      OfSnoc(Passed(p, s), s.readers[a.i].f, i);
    }
  }

  /** A frame passes its reader when it is sent, and at no other step. */
  lemma PassedByStep(p: Setup, s: Session, a: Step)
    requires Shaped(s) && Enabled(s, a)
    ensures Passed(p, Next(p, s, a)) == if a.Send? then Passed(p, s) + [s.readers[a.i].f] else Passed(p, s)
  {
    hide Written;
    hide RunJournal;
    hide FramesIn;
    match a
    case Land(k) =>
      WrittenByLand(p, s, k);
      FramesInSnoc(Written(p, s.calls), Next(p, s, a).writer.e);
    case JournalTick(k) => WrittenByTick(p, s.calls, k);
    case _ =>
  }

  lemma OfSnoc(fs: seq<Captured>, f: Captured, i: nat)
    ensures Of(fs + [f], i) == if f.iface == i then Of(fs, i) + [f] else Of(fs, i)
  {
    assert (fs + [f])[..|fs|] == fs;
  }

  lemma StepIsSound(p: Setup, s: Session, a: Step)
    requires Sound(p, s) && Enabled(s, a)
    ensures Sound(p, Next(p, s, a))
  {
    hide Written;
    hide RunJournal;
    hide Journaled;
    hide CompleteFor;
    KeepsShaped(p, s, a);
    KeepsJournaled(p, s, a);
    forall i | 0 <= i < |s.readers|
      ensures CompleteFor(p, Next(p, s, a), i)
    {
      KeepsCompleteFor(p, s, a, i);
    }
  }

  // ---- Every interleaving ----

  /** Runs the steps of a schedule in turn; one that is not enabled does nothing. */
  function RunSession(p: Setup, n: nat, steps: seq<Step>): (s: Session)
    ensures |s.got| == |s.readers| == n
    decreases |steps|
  {
    if steps == [] then Opening(n) else
    var s := RunSession(p, n, steps[..|steps| - 1]);
    if Enabled(s, steps[|steps| - 1]) then Next(p, s, steps[|steps| - 1]) else s
  }

  lemma {:induction false} EveryInterleavingIsSound(p: Setup, n: nat, steps: seq<Step>)
    ensures Sound(p, RunSession(p, n, steps))
    decreases |steps|
  {
    hide Sound;
    if steps == [] {
      OpeningIsSound(p, n);
    } else {
      var s := RunSession(p, n, steps[..|steps| - 1]);
      EveryInterleavingIsSound(p, n, steps[..|steps| - 1]);
      if Enabled(s, steps[|steps| - 1]) {
        StepIsSound(p, s, steps[|steps| - 1]);
      }
    }
  }

  lemma OpeningIsSound(p: Setup, n: nat)
    ensures Sound(p, Opening(n))
  {
    var s := Opening(n);
    assert Written(p, []) == [];
    assert Passed(p, s) == [];
  }

  /** In every interleaving the decoder is fed, in order, only frames that are already journaled; and
      journaled = fed + queued + counted as dropped, plus one in the writer's hand. */
  lemma DecodeFollowsJournal(p: Setup, n: nat, steps: seq<Step>)
    ensures var s := RunSession(p, n, steps);
            var all := Written(p, s.calls);
            && Subsequence(s.fed, all)
            && |all| == |s.fed| + |s.queue| + s.dropped + (if s.writer.Landed? then 1 else 0)
  {
    EveryInterleavingIsSound(p, n, steps);
    var s := RunSession(p, n, steps);
    var rest := s.queue + if s.writer.Landed? then [s.writer.e] else [];
    assert s.fed + rest == Offered(s);
    SubsequencePrefix(s.fed, rest, Written(p, s.calls));
  }

  lemma {:induction false} SubsequencePrefix<T>(a: seq<T>, c: seq<T>, b: seq<T>)
    requires Subsequence(a + c, b)
    ensures Subsequence(a, b)
    decreases |c|
  {
    if c == [] {
      assert a + c == a;
    } else {
      assert (a + c)[..|a + c| - 1] == a + c[..|c| - 1];
      SubsequenceDrop(a + c, b);
      SubsequencePrefix(a, c[..|c| - 1], b);
    }
  }

  /** In every interleaving at most 8192 frames wait for the writer, and a reader with a frame in its hand can send
      it exactly while there are fewer; at most 4096 wait for the decoder, and a frame is dropped exactly when it is
      offered while there are that many. */
  lemma ReadersWaitAndTheWriterDrops(p: Setup, n: nat, steps: seq<Step>, a: Step)
    ensures var s := RunSession(p, n, steps);
            && |s.frames| <= 8192 && |s.queue| <= 4096
            && (a.Send? && a.i < n && s.readers[a.i].Holding? ==> (Enabled(s, a) <==> |s.frames| < 8192))
            && (Enabled(s, a) ==>
                  Next(p, s, a).dropped == s.dropped + if a == Offer && |s.queue| == 4096 then 1 else 0)
  {
    hide RunSession;
    hide RunJournal;
    hide Written;
    EveryInterleavingIsSound(p, n, steps);
  }

  lemma DropNeedsAFullQueue(p: Setup, s: Session, a: Step)
    requires Sound(p, s) && Enabled(s, a) && (s.dropped > 0 ==> |Written(p, s.calls)| > DECODE_CAPACITY)
    ensures var s1 := Next(p, s, a); s1.dropped > 0 ==> |Written(p, s1.calls)| > DECODE_CAPACITY
  {
    hide RunJournal;
    hide Written;
    hide Subsequence;
    match a
    case Land(k) => WrittenByLand(p, s, k);
    case JournalTick(k) => WrittenByTick(p, s.calls, k);
    case _ =>
  }

  /** Only a full queue drops: a session that journals no more than the queue holds decodes everything,
      however slow the decoder. */
  lemma {:induction false} SmallSessionsDropNothing(p: Setup, n: nat, steps: seq<Step>)
    ensures var s := RunSession(p, n, steps); |Written(p, s.calls)| <= 4096 ==> s.dropped == 0
    decreases |steps|
  {
    hide Written;
    hide Sound;
    if steps != [] {
      var before, a := steps[..|steps| - 1], steps[|steps| - 1];
      var s := RunSession(p, n, before);
      SmallSessionsDropNothing(p, n, before);
      EveryInterleavingIsSound(p, n, before);
      if Enabled(s, a) {
        DropNeedsAFullQueue(p, s, a);
      }
    }
  }

  predicate AllButTheLast<T(==)>(a: seq<T>, b: seq<T>) {
    a == b || (b != [] && a == b[..|b| - 1])
  }

  /** When the session is over, everything journaled was decoded or counted as dropped; and if no write
      failed, each interface's journaled frames are all its reader read, except possibly the last. */
  lemma FinishedSession(p: Setup, n: nat, steps: seq<Step>, i: nat)
    requires RunSession(p, n, steps).stage == Done && i < n
    ensures var s := RunSession(p, n, steps);
            var all := Written(p, s.calls);
            && Subsequence(s.fed, all) && |all| == |s.fed| + s.dropped
            && (s.dropped == 0 ==> s.fed == all)
            && (!s.writer.Failed? ==> AllButTheLast(Of(FramesIn(all), i), s.got[i]))
  {
    hide RunSession;
    hide Written;
    EveryInterleavingIsSound(p, n, steps);
    DecodeFollowsJournal(p, n, steps);
    var s := RunSession(p, n, steps);
    SubsequenceLength(s.fed, Written(p, s.calls));
    assert CompleteFor(p, s, i);
    if !s.writer.Failed? {
      assert Passed(p, s) == FramesIn(Written(p, s.calls));
    }
  }

  // ---- Shutdown ----

  function ReaderWork(r: Reader): nat {
    match r
    case Top => 1
    case Reading => 8
    case Holding(_) => 7
    case Stopped(_) => 0
  }

  function ReadersWork(rs: seq<Reader>): nat { if rs == [] then 0 else ReaderWork(rs[0]) + ReadersWork(rs[1..]) }

  function WriterWork(w: WriterState): nat {
    match w
    case Idle => 1
    case Has(_) => 5
    case Landed(_) => 4
    case _ => 0
  }

  function StageWork(g: Stage): nat {
    match g
    case Running => 4
    case Stopping => 3
    case FramesClosed => 2
    case DecodeClosed => 1
    case Done => 0
  }

  /** An upper bound on the steps left once the stop channel is closed. */
  function Work(s: Session): nat {
    ReadersWork(s.readers) + 5 * |s.frames| + WriterWork(s.writer) + |s.queue| + StageWork(s.stage)
    + if s.decoderDone then 0 else 1
  }

  lemma {:induction false} ReadersWorkUpdate(rs: seq<Reader>, i: nat, r: Reader)
    requires i < |rs|
    ensures ReadersWork(rs[i := r]) == ReadersWork(rs) - ReaderWork(rs[i]) + ReaderWork(r)
    decreases |rs|
  {
    if i == 0 {
      assert rs[0 := r][1..] == rs[1..];
    } else {
      assert rs[i := r][1..] == rs[1..][i - 1 := r];
      ReadersWorkUpdate(rs[1..], i - 1, r);
    }
  }

  lemma ShutdownProgresses(p: Setup, s: Session, a: Step)
    requires Shaped(s) && StopClosed(s) && Enabled(s, a)
    ensures StopClosed(Next(p, s, a)) && Work(Next(p, s, a)) < Work(s)
  {
    hide RunJournal;
    hide ReadersWork;
    match a
    case Check(i) => ReadersWorkUpdate(s.readers, i, Stopped(None));
    case Read(i, f) => ReadersWorkUpdate(s.readers, i, Holding(f));
    case ReadError(i) => ReadersWorkUpdate(s.readers, i, Top);
    case Send(i) => ReadersWorkUpdate(s.readers, i, Top);
    case Quit(i) => ReadersWorkUpdate(s.readers, i, Stopped(Some(s.readers[i].f)));
    case _ =>
  }

  /** Once stopping, the goroutines never wait for each other in vain: some step can be taken until the
      session is over, and none afterwards. */
  lemma StuckOnlyWhenDone(s: Session)
    requires Shaped(s) && StopClosed(s)
    ensures (exists a :: Enabled(s, a)) <==> s.stage != Done
  {
    if s.stage == Stopping {
      if AllStopped(s) {
        assert Enabled(s, CloseFrames);
      } else {
        var i :| 0 <= i < |s.readers| && !s.readers[i].Stopped?;
        match s.readers[i]
        case Top => assert Enabled(s, Check(i));
        case Reading => assert Enabled(s, ReadError(i));
        case Holding(_) => assert Enabled(s, Quit(i));
      }
    } else if s.stage == FramesClosed {
      match s.writer
      case Idle => assert Enabled(s, if s.frames == [] then WriterEnds else Receive);
      case Has(_) => assert Enabled(s, Fail);
      case Landed(_) => assert Enabled(s, Offer);
      case _ => assert Enabled(s, CloseDecode);
    } else if s.stage == DecodeClosed {
      assert Enabled(s, if s.decoderDone then Finish else if s.queue == [] then DecoderEnds else Decode);
    }
  }

  /** A run in which every step is enabled when it is taken. */
  predicate Feasible(p: Setup, s: Session, steps: seq<Step>)
    requires |s.got| == |s.readers|
    decreases |steps|
  {
    steps == [] || (Enabled(s, steps[0]) && Feasible(p, Next(p, s, steps[0]), steps[1..]))
  }

  function RunFrom(p: Setup, s: Session, steps: seq<Step>): Session
    requires |s.got| == |s.readers| && Feasible(p, s, steps)
    decreases |steps|
  {
    if steps == [] then s else RunFrom(p, Next(p, s, steps[0]), steps[1..])
  }

  /** Shutdown always completes: once the stop channel is closed, no interleaving takes more steps than
      the work left, and one that cannot go on has reached the end. */
  lemma {:induction false} ShutdownCompletes(p: Setup, s: Session, steps: seq<Step>)
    requires Shaped(s) && StopClosed(s) && Feasible(p, s, steps)
    ensures |steps| <= Work(s)
    ensures (forall a :: !Enabled(RunFrom(p, s, steps), a)) <==> RunFrom(p, s, steps).stage == Done
    decreases |steps|
  {
    hide Work;
    hide Next;
    if steps == [] {
      StuckOnlyWhenDone(s);
    } else {
      KeepsShaped(p, s, steps[0]);
      ShutdownProgresses(p, s, steps[0]);
      ShutdownCompletes(p, Next(p, s, steps[0]), steps[1..]);
    }
  }

  // ---- Live decoding and replay ----

  /** A finished session whose decoder dropped nothing is replayed exactly: whatever the interleaving, and
      whatever became of the machine once the journal was closed, the replay of its segments feeds the
      very frames the decoder was fed, in order, so it leaves the same records, connections and counts. */
  lemma SessionReplays(p: Setup, n: nat, steps: seq<Step>, c: Framing.Checking, u: Pipelines.Universe,
                       dissect: Replays.Dissect, entries: seq<Replays.DirEntry>, left: seq<File>, disk: Replays.Disk)
    requires var s := RunSession(p, n, steps);
             var j := RunJournal(p.stamp, p.start, s.calls).journal;
             && s.stage == Done && s.dropped == 0
             && Leaves(Closed(j).files, Closed(j).flushed, left) && Replays.Holds(disk, left)
             && Replays.Bundle(j, entries) && j.segNum <= MAX_IN_ORDER
    ensures var s, read := RunSession(p, n, steps), Replays.Read(disk, Text.Sort(Replays.SegmentFiles(entries)));
            && read.ok && Listing(read.files) == s.fed
            && Pipelines.RunPipeline(c, u, Replays.Frames(dissect, s.fed))
            == Pipelines.RunPipeline(c, u, Replays.Frames(dissect, Listing(read.files)))
  {
    hide RunSession;
    hide RunJournal;
    hide Pipelines.RunPipeline;
    hide Replays.Frames;
    hide Replays.Read;
    hide Subsequence;
    hide Listing;
    hide Leaves;
    var s := RunSession(p, n, steps);
    EveryInterleavingIsSound(p, n, steps);
    DecodeFollowsJournal(p, n, steps);
    SubsequenceLength(s.fed, Written(p, s.calls));
    ClosedLosesNothing(p.stamp, p.start, s.calls, left);
    Replays.RereadingIsWritingIff(p.stamp, p.start, s.calls, entries, disk);
  }

  /** A session cut short at any moment, with any call of the journal behind it: what is re-read is a prefix
      of what was journaled, less than 4 MiB short of it. */
  lemma CrashedSessionRereads(p: Setup, n: nat, steps: seq<Step>, entries: seq<Replays.DirEntry>, left: seq<File>,
                              disk: Replays.Disk)
    requires var j := RunJournal(p.stamp, p.start, RunSession(p, n, steps).calls).journal;
             && Leaves(Files(j), Durable(j), left) && Replays.HoldsTorn(disk, left)
             && Replays.Bundle(j, entries) && j.segNum <= MAX_IN_ORDER
    ensures var all := Written(p, RunSession(p, n, steps).calls);
            var kept := Listing(Replays.Read(disk, Text.Sort(Replays.SegmentFiles(entries))).files);
            && kept <= all && Volume(FramesIn(all[|kept|..])) < 0x40_0000
            && Subsequence(RunSession(p, n, steps).fed, all)
  {
    hide RunSession;
    hide RunJournal;
    hide Replays.Read;
    hide Subsequence;
    hide Listing;
    hide Leaves;
    var calls := RunSession(p, n, steps).calls;
    DecodeFollowsJournal(p, n, steps);
    CrashLosesLittle(p.stamp, p.start, calls, left);
    Replays.RereadingAfterCrash(p.stamp, p.start, calls, left, entries, disk);
  }
}
