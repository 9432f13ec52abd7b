/**
 One direction of one TCP connection: sequence arithmetic modulo 2^32, reassembly without
 reordering, and the ledger that says which captured frames carried which bytes.
 */
module Streams {
  import opened Bytes
  import opened Framing

  const WRAP := 0x1_0000_0000
  const HALF := 0x8000_0000

  datatype FrameRef = FrameRef(segment: string, index: nat)

  datatype Contribution = Contribution(ref: FrameRef, n: nat)

  datatype Cited = Cited(msg: Message, frames: seq<FrameRef>)

  /** One captured TCP segment with a payload. */
  datatype Segment = Segment(seqNo: uint32, payload: seq<byte>, ref: FrameRef)

  function Distance(a: uint32, b: uint32): uint32 { (a - b) % WRAP }

  /** The signed 32-bit difference is negative. */
  predicate SeqLess(a: uint32, b: uint32) { Distance(a, b) >= HALF }

  function Advance(a: uint32, n: nat): uint32 { (a + n) % WRAP }

  // ---- Citing the frames behind the next bytes ----

  function TakeOnto(ledger: seq<Contribution>, n: nat, out: seq<FrameRef>): (seq<FrameRef>, seq<Contribution>)
    decreases |ledger|
  {
    if n == 0 || ledger == [] then (out, ledger) else
    var head := ledger[0];
    var out1 := if head.ref in out then out else out + [head.ref];
    if head.n > n then (out1, [head.(n := head.n - n)] + ledger[1..])
    else TakeOnto(ledger[1..], n - head.n, out1)
  }

  const UNCITED := FrameRef("", 0)

  function Take(ledger: seq<Contribution>, n: nat): (seq<FrameRef>, seq<Contribution>) {
    var (out, rest) := TakeOnto(ledger, n, []);
    (if out == [] then [UNCITED] else out, rest)
  }

  function Copies<T>(n: nat, x: T): (r: seq<T>)
    ensures |r| == n
  {
    seq(n, _ => x)
  }

  /** The frame behind each ledgered byte. */
  function Owners(ledger: seq<Contribution>): seq<FrameRef> {
    if ledger == [] then [] else Copies(ledger[0].n, ledger[0].ref) + Owners(ledger[1..])
  }

  predicate Positive(ledger: seq<Contribution>) {
    forall k | k in ledger :: k.n > 0
  }

  /** `s` without repetitions, in order of first occurrence, after what `out` already lists. */
  function DistinctOnto<T(==)>(out: seq<T>, s: seq<T>): seq<T>
    decreases |s|
  {
    if s == [] then out else DistinctOnto(if s[0] in out then out else out + [s[0]], s[1..])
  }

  function Distinct<T(==)>(s: seq<T>): seq<T> { DistinctOnto([], s) }

  lemma {:induction false} DistinctOntoConcat<T>(out: seq<T>, a: seq<T>, b: seq<T>)
    ensures DistinctOnto(out, a + b) == DistinctOnto(DistinctOnto(out, a), b)
    decreases |a|
  {
    if a == [] {
      assert a + b == b;
    } else {
      assert (a + b)[1..] == a[1..] + b;
      DistinctOntoConcat(if a[0] in out then out else out + [a[0]], a[1..], b);
    }
  }

  lemma {:induction false} DistinctOntoCopies<T>(out: seq<T>, n: nat, x: T)
    requires n > 0
    ensures DistinctOnto(out, Copies(n, x)) == if x in out then out else out + [x]
    decreases n
  {
    var out1 := if x in out then out else out + [x];
    assert Copies(n, x)[1..] == Copies(n - 1, x);
    if n > 1 {
      DistinctOntoCopies(out1, n - 1, x);
    }
  }

  /** The first contribution alone covers what is taken. */
  lemma TakePart(head: Contribution, tail: seq<Contribution>, n: nat, out: seq<FrameRef>)
    requires Positive([head] + tail) && 0 < n < head.n
    ensures var rest := [head.(n := head.n - n)] + tail;
            && DistinctOnto(out, Owners([head] + tail)[..n]) == (if head.ref in out then out else out + [head.ref])
            && Owners(rest) == Owners([head] + tail)[n..]
            && Positive(rest)
  {
    hide DistinctOnto;
    hide Copies;
    SplitCopies(head.n, n, head.ref, Owners(tail));
    DistinctOntoCopies(out, n, head.ref);
    var rest := [head.(n := head.n - n)] + tail;
    assert rest[1..] == tail && ([head] + tail)[1..] == tail;
    assert forall x | x in tail :: x in [head] + tail;
  }

  /** Taking n ledgered bytes cites exactly their owners and leaves the owners of the rest. */
  lemma {:induction false} TakeOntoCites(ledger: seq<Contribution>, n: nat, out: seq<FrameRef>)
    requires Positive(ledger) && n <= |Owners(ledger)|
    ensures var (refs, rest) := TakeOnto(ledger, n, out);
            && refs == DistinctOnto(out, Owners(ledger)[..n])
            && Owners(rest) == Owners(ledger)[n..]
            && Positive(rest)
    decreases |ledger|
  {
    if n > 0 {
      var head, tail := ledger[0], ledger[1..];
      assert head in ledger && ledger == [head] + tail;
      if head.n > n {
        TakePart(head, tail, n, out);
      } else {
        var m := n - head.n;
        PassConcat(Copies(head.n, head.ref), Owners(tail), m);
        DistinctOntoCopies(out, head.n, head.ref);
        DistinctOntoConcat(out, Copies(head.n, head.ref), Owners(tail)[..m]);
        TakeOntoCites(tail, m, if head.ref in out then out else out + [head.ref]);
      }
    }
  }

  lemma SplitCopies<T>(k: nat, n: nat, x: T, t: seq<T>)
    requires n <= k
    ensures (Copies(k, x) + t)[..n] == Copies(n, x) && (Copies(k, x) + t)[n..] == Copies(k - n, x) + t
  {
  }

  lemma PassConcat<T>(a: seq<T>, b: seq<T>, m: nat)
    requires m <= |b|
    ensures (a + b)[..|a| + m] == a + b[..m] && (a + b)[|a| + m..] == b[m..]
  {
  }

  function FirstIndex<T(==)>(s: seq<T>, x: T): nat
    requires x in s
  {
    if s[0] == x then 0 else 1 + FirstIndex(s[1..], x)
  }

  /** What a citation means: each contributing frame once, no other, in the order they first contribute. */
  ghost predicate Cites<T(!new)>(refs: seq<T>, owners: seq<T>) {
    && (forall x :: x in refs <==> x in owners)
    && (forall i, j | 0 <= i < j < |refs| ::
          refs[i] in owners && refs[j] in owners && FirstIndex(owners, refs[i]) < FirstIndex(owners, refs[j]))
  }

  lemma {:induction false} FirstIndexInPrefix<T>(s: seq<T>, x: T, y: T)
    requires x in s
    ensures FirstIndex(s + [y], x) == FirstIndex(s, x) < |s|
    decreases |s|
  {
    if s[0] != x {
      assert (s + [y])[1..] == s[1..] + [y];
      FirstIndexInPrefix(s[1..], x, y);
    }
  }

  lemma {:induction false} FirstIndexOfNew<T>(s: seq<T>, y: T)
    requires y !in s
    ensures FirstIndex(s + [y], y) == |s|
    decreases |s|
  {
    if s != [] {
      assert (s + [y])[1..] == s[1..] + [y];
      FirstIndexOfNew(s[1..], y);
    }
  }

  lemma {:induction false} DistinctCites<T(!new)>(s: seq<T>)
    ensures Cites(Distinct(s), s)
    decreases |s|
  {
    if s != [] {
      var s0, y := s[..|s| - 1], s[|s| - 1];
      assert s == s0 + [y];
      DistinctOntoConcat([], s0, [y]);
      DistinctCites(s0);
      var r0, r := Distinct(s0), Distinct(s);
      assert r == if y in r0 then r0 else r0 + [y];
      forall x | x in s0
        ensures FirstIndex(s, x) == FirstIndex(s0, x) < |s0|
      {
        FirstIndexInPrefix(s0, x, y);
      }
      if y !in s0 {
        FirstIndexOfNew(s0, y);
      }
    }
  }

  // ---- The stream machine ----

  datatype StreamState = StreamState(started: bool, nextSeq: uint32, scan: ScanState, ledger: seq<Contribution>)

  const NEW_STREAM := StreamState(false, 0, FRESH, [])

  /** What one segment does: the new state, the messages with their citations, whether the stream was
      reported desynced, and (for the proofs) the bytes handed to the scanner and whether it was a gap. */
  datatype Outcome = Outcome(st: StreamState, out: seq<Cited>, marked: bool, accepted: seq<byte>, gap: bool)

  function Drain(c: Checking, scan: ScanState, ledger: seq<Contribution>): (ScanState, seq<Contribution>, seq<Cited>)
    requires !scan.desync
    decreases |scan.unread|
  {
    match ParseOne(c, scan.unread)
    case NeedMore => (scan, ledger, [])
    case Desync => (scan.(desync := true), ledger, [])
    case Got(m) =>
      var (frames, ledger1) := Take(ledger, |m.raw|);
      var (scan2, ledger2, later) := Drain(c, scan.(unread := scan.unread[|m.raw|..]), ledger1);
      (scan2, ledger2, [Cited(m, frames)] + later)
  }

  function Accept(c: Checking, st: StreamState, seqNo: uint32, payload: seq<byte>, ref: FrameRef): Outcome
    requires !st.scan.desync
  {
    var fed := st.scan.(unread := st.scan.unread + payload);
    var (scan, ledger, out) := Drain(c, fed, st.ledger + [Contribution(ref, |payload|)]);
    Outcome(StreamState(true, Advance(seqNo, |payload|), scan, ledger), out, scan.desync, payload, false)
  }

  const POISON: seq<byte> := [0xde, 0xad, 0xbe, 0xef, 0, 0, 0, 0, 0, 0, 0, 0]

  /** After a gap the scanner is fed the poison bytes and read once; the ledger does not know them. */
  function Poisoned(c: Checking, scan: ScanState): ScanState {
    StepNext(c, scan.(unread := scan.unread + POISON)).1
  }

  function Step(c: Checking, st: StreamState, g: Segment): Outcome {
    if g.payload == [] || st.scan.desync then Outcome(st, [], false, [], false)
    else if !st.started || g.seqNo == st.nextSeq then
      Accept(c, st, g.seqNo, g.payload, g.ref)
    else if SeqLess(g.seqNo, st.nextSeq) then
      var skip := Distance(st.nextSeq, g.seqNo);
      if skip >= |g.payload| then Outcome(st, [], false, [], false)
      else Accept(c, st, st.nextSeq, g.payload[skip..], g.ref)
    else
      Outcome(st.(scan := Poisoned(c, st.scan)), [], true, [], true)
  }

  /** The drain in progress: `out` so far, `goal` in the end. */
  ghost predicate DrainsTo(c: Checking, unread: seq<byte>, ledger: seq<Contribution>, out: seq<Cited>,
                           goal: (ScanState, seq<Contribution>, seq<Cited>)) {
    var (scan, book, later) := Drain(c, ScanState(unread, false), ledger);
    goal == (scan, book, out + later)
  }

  lemma DrainsStep(c: Checking, unread: seq<byte>, ledger: seq<Contribution>, out: seq<Cited>,
                   goal: (ScanState, seq<Contribution>, seq<Cited>))
    requires DrainsTo(c, unread, ledger, out, goal)
    ensures match ParseOne(c, unread)
            case NeedMore => goal == (ScanState(unread, false), ledger, out)
            case Desync => goal == (ScanState(unread, true), ledger, out)
            case Got(m) =>
              var (frames, ledger1) := Take(ledger, |m.raw|);
              DrainsTo(c, unread[|m.raw|..], ledger1, out + [Cited(m, frames)], goal)
  {
    hide ParseOne;
    hide Take;
    assert out + [] == out;
    var r := ParseOne(c, unread);
    if r.Got? {
      var (frames, ledger1) := Take(ledger, |r.msg.raw|);
      var (scan, book, later) := Drain(c, ScanState(unread[|r.msg.raw|..], false), ledger1);
      assert out + ([Cited(r.msg, frames)] + later) == (out + [Cited(r.msg, frames)]) + later;
    }
  }

  class Stream {
    const scanner: Scanner
    var nextSeq: uint32
    var started: bool
    var ledger: seq<Contribution>

    ghost predicate Valid()
      reads this, scanner
    {
      scanner.Valid()
    }

    ghost function State(): StreamState
      requires Valid()
      reads this, scanner
    {
      StreamState(started, nextSeq, ScanState(scanner.Unread(), scanner.desync), ledger)
    }

    lemma IsNew()
      requires Valid() && !started && nextSeq == 0 && ledger == [] && scanner.Unread() == [] && !scanner.desync
      ensures State() == NEW_STREAM
    {
    }

    constructor (c: Checking)
      ensures Valid() && fresh(scanner) && scanner.checked == c && State() == NEW_STREAM && scanner.buf == []
    {
      hide Stream.State;
      hide Scanner.Unread;
      scanner := new Scanner(c);
      nextSeq, started, ledger := 0, false, [];
      new;
      IsNew();
    }

    /** Says whose bytes the oldest n are, strikes them from the ledger, and cites nobody's frame if it is too short. */
    method TakeFrames(n: nat) returns (out: seq<FrameRef>)
      modifies this`ledger
      ensures (out, ledger) == Take(old(ledger), n)
    {
      out := [];
      var seen: set<FrameRef> := {};
      var left: nat := n;
      while left > 0 && |ledger| > 0
        invariant forall x :: x in seen <==> x in out
        invariant TakeOnto(ledger, left, out) == TakeOnto(old(ledger), n, [])
        decreases |ledger|
      {
        var head := ledger[0];
        if head.ref !in seen {
          out := out + [head.ref];
          seen := seen + {head.ref};
        }
        if head.n > left {
          ledger := [head.(n := head.n - left)] + ledger[1..];
          left := 0;
          break;
        }
        left := left - head.n;
        ledger := ledger[1..];
      }
      if |out| == 0 {
        out := [UNCITED];
      }
    }

    method FeedTCP(g: Segment) returns (out: seq<Cited>, marked: bool)
      requires Valid()
      modifies this, scanner
      ensures Valid()
      ensures var o := Step(scanner.checked, old(State()), g);
              && State() == o.st && out == o.out && marked == o.marked
              && (scanner.buf == old(scanner.buf)
                  || (!old(scanner.desync)
                      && |scanner.buf| <= COMPACT_ABOVE + |old(scanner.Unread())|
                                          + if o.gap then |POISON| else |g.payload|))
    {
      out, marked := [], false;
      if |g.payload| == 0 || scanner.desync {
        return;
      }
      var payload, seqNo := g.payload, g.seqNo;
      if !started {
        started := true;
        nextSeq := seqNo;
      } else if seqNo == nextSeq {
      } else if SeqLess(seqNo, nextSeq) {
        var skip := Distance(nextSeq, seqNo);
        if skip >= |payload| {
          return;
        }
        payload := payload[skip..];
        seqNo := nextSeq;
      } else {
        marked := true;
        scanner.Feed([]);
        assert old(scanner.Unread()) + [] == old(scanner.Unread());
        MarkStreamDesynced();
        return;
      }
      nextSeq := Advance(seqNo, |payload|);
      scanner.Feed(payload);
      ledger := ledger + [Contribution(g.ref, |payload|)];
      ghost var goal := Drain(scanner.checked, ScanState(scanner.Unread(), false), ledger);
      assert [] + goal.2 == goal.2;
      out, marked := DrainScanner(goal);
    }

    method DrainScanner(ghost goal: (ScanState, seq<Contribution>, seq<Cited>)) returns (out: seq<Cited>, marked: bool)
      requires Valid() && !scanner.desync && DrainsTo(scanner.checked, scanner.Unread(), ledger, [], goal)
      modifies this`ledger, scanner
      ensures Valid() && marked == scanner.desync && scanner.buf == old(scanner.buf)
      ensures goal == (ScanState(scanner.Unread(), scanner.desync), ledger, out)
    {
      out := [];
      while true
        invariant Valid() && !scanner.desync && scanner.buf == old(scanner.buf)
        invariant DrainsTo(scanner.checked, scanner.Unread(), ledger, out, goal)
        decreases |scanner.Unread()|
      {
        DrainsStep(scanner.checked, scanner.Unread(), ledger, out, goal);
        var r, frames := ReadCited();
        if !r.Got? {
          return out, r.Desync?;
        }
        out := out + [Cited(r.msg, frames)];
      }
    }

    /** Reads one message, if there is one, and takes the frames its bytes came from. */
    method ReadCited() returns (r: Scan, frames: seq<FrameRef>)
      requires Valid() && !scanner.desync
      modifies this`ledger, scanner
      ensures Valid() && scanner.desync == r.Desync? && scanner.buf == old(scanner.buf)
      ensures r == ParseOne(scanner.checked, old(scanner.Unread()))
      ensures r.Got? ==> (frames, ledger) == Take(old(ledger), |r.msg.raw|)
      ensures r.Got? ==> scanner.Unread() == old(scanner.Unread())[|r.msg.raw|..]
      ensures !r.Got? ==> ledger == old(ledger) && scanner.Unread() == old(scanner.Unread())
    {
      r := scanner.Next();
      frames := [];
      if r.Got? {
        frames := TakeFrames(|r.msg.raw|);
      }
    }

    method MarkStreamDesynced()
      requires Valid() && !scanner.desync
      modifies scanner
      ensures Valid()
      ensures ScanState(scanner.Unread(), scanner.desync)
              == Poisoned(scanner.checked, old(ScanState(scanner.Unread(), false)))
      ensures |scanner.buf| <= COMPACT_ABOVE + |old(scanner.Unread())| + |POISON|
    {
      scanner.Feed(POISON);
      var _ := scanner.Next();
    }
  }

  // ---- Whole runs ----

  /** A run of one stream over its segments; `fed` and `owners` name every accepted byte and its frame. */
  datatype StreamRun = StreamRun(st: StreamState, out: seq<Cited>, fed: seq<byte>, owners: seq<FrameRef>, gaps: bool)

  function RunStream(c: Checking, segs: seq<Segment>): StreamRun
    decreases |segs|
  {
    if segs == [] then StreamRun(NEW_STREAM, [], [], [], false) else
    var g := segs[|segs| - 1];
    var r := RunStream(c, segs[..|segs| - 1]);
    var o := Step(c, r.st, g);
    StreamRun(o.st, r.out + o.out, r.fed + o.accepted, r.owners + Copies(|o.accepted|, g.ref), r.gaps || o.gap)
  }

  function Msgs(out: seq<Cited>): seq<Message> {
    if out == [] then [] else [out[0].msg] + Msgs(out[1..])
  }

  lemma {:induction false} MsgsAppend(a: seq<Cited>, b: seq<Cited>)
    ensures Msgs(a + b) == Msgs(a) + Msgs(b)
  {
    if a == [] {
      assert a + b == b;
    } else {
      assert (a + b)[1..] == a[1..] + b;
      MsgsAppend(a[1..], b);
    }
  }

  /** Message by message: each cites exactly the owners of its own bytes. */
  ghost predicate CitesAll(out: seq<Cited>, owners: seq<FrameRef>)
    decreases |out|
  {
    out == [] ||
    var n := |out[0].msg.raw|;
    && n <= |owners|
    && out[0].frames == Distinct(owners[..n])
    && CitesAll(out[1..], owners[n..])
  }

  lemma {:induction false} CitesAllAppend(a: seq<Cited>, b: seq<Cited>, owners: seq<FrameRef>, rest: seq<FrameRef>)
    requires |Raws(Msgs(a))| <= |owners|
    requires CitesAll(a, owners) && CitesAll(b, (owners + rest)[|Raws(Msgs(a))|..])
    ensures CitesAll(a + b, owners + rest)
    decreases |a|
  {
    if a == [] {
      assert a + b == b;
      assert (owners + rest)[0..] == owners + rest;
    } else {
      var n := |a[0].msg.raw|;
      assert (a + b)[1..] == a[1..] + b;
      assert (owners + rest)[..n] == owners[..n] && (owners + rest)[n..] == owners[n..] + rest;
      assert Msgs(a)[1..] == Msgs(a[1..]);
      var m := |Raws(Msgs(a[1..]))|;
      assert (owners[n..] + rest)[m..] == (owners + rest)[n + m..];
      CitesAllAppend(a[1..], b, owners[n..], rest);
    }
  }

  lemma {:induction false} DistinctNonEmpty<T(!new)>(s: seq<T>)
    requires s != []
    ensures Distinct(s) != []
  {
    DistinctCites(s);
    assert s[0] in s;
  }

  /** The fallback citation is never used: there is always a frame to cite. */
  lemma TakeCites(ledger: seq<Contribution>, n: nat)
    requires Positive(ledger) && 0 < n <= |Owners(ledger)|
    ensures var t := Take(ledger, n);
            t.0 == Distinct(Owners(ledger)[..n]) && Owners(t.1) == Owners(ledger)[n..] && Positive(t.1)
  {
    TakeOntoCites(ledger, n, []);
    DistinctNonEmpty(Owners(ledger)[..n]);
  }

  /** The books balance: each message cites the owners of its own bytes, and the ledger owns exactly
      the bytes after them. */
  ghost predicate Booked(ledger: seq<Contribution>, out: seq<Cited>, owners: seq<FrameRef>) {
    var used := |Raws(Msgs(out))|;
    && used <= |owners|
    && Positive(ledger) && Owners(ledger) == owners[used..]
    && CitesAll(out, owners)
  }

  lemma BookedExtends(ledger: seq<Contribution>, out: seq<Cited>, owners: seq<FrameRef>, rest: seq<FrameRef>,
                      ledger1: seq<Contribution>, more: seq<Cited>)
    requires Booked(ledger, out, owners)
    requires Booked(ledger1, more, Owners(ledger) + rest)
    ensures Booked(ledger1, out + more, owners + rest)
  {
    var used, used1 := |Raws(Msgs(out))|, |Raws(Msgs(more))|;
    assert |Raws(Msgs(out + more))| == used + used1 by {
      MsgsAppend(out, more);
      RawsAppend(Msgs(out), Msgs(more));
    }
    DropConcat(owners, rest, used);
    DropDrop(owners + rest, used, used1);
    CitesAllAppend(out, more, owners, rest);
  }

  lemma DropConcat<T>(a: seq<T>, b: seq<T>, n: nat)
    requires n <= |a|
    ensures (a + b)[n..] == a[n..] + b
  {
  }

  lemma DropDrop<T>(s: seq<T>, m: nat, n: nat)
    requires m + n <= |s|
    ensures s[m..][n..] == s[m + n..]
  {
  }

  lemma BookedStep(m: Message, owners: seq<FrameRef>, ledger: seq<Contribution>, later: seq<Cited>)
    requires |m.raw| <= |owners| && Booked(ledger, later, owners[|m.raw|..])
    ensures Booked(ledger, [Cited(m, Distinct(owners[..|m.raw|]))] + later, owners)
  {
    var out := [Cited(m, Distinct(owners[..|m.raw|]))] + later;
    assert out[1..] == later && Msgs(out) == [m] + Msgs(later) && Msgs(out)[1..] == Msgs(later);
    DropDrop(owners, |m.raw|, |Raws(Msgs(later))|);
  }

  /** A drain books every byte it emits, and never needs the fallback citation. */
  lemma {:induction false} DrainBooks(c: Checking, unread: seq<byte>, ledger: seq<Contribution>)
    requires Positive(ledger) && |Owners(ledger)| == |unread|
    ensures var d := Drain(c, ScanState(unread, false), ledger);
            Booked(d.1, d.2, Owners(ledger)) && |Owners(d.1)| == |d.0.unread|
    decreases |unread|
  {
    var r := ParseOne(c, unread);
    if r.Got? {
      var n := |r.msg.raw|;
      TakeCites(ledger, n);
      var t := Take(ledger, n);
      DrainBooks(c, unread[n..], t.1);
      var d := Drain(c, ScanState(unread[n..], false), t.1);
      BookedStep(r.msg, Owners(ledger), d.1, d.2);
    }
  }

  /** A drain emits the parse of the unread bytes. */
  lemma {:induction false} DrainParses(c: Checking, unread: seq<byte>, ledger: seq<Contribution>)
    ensures var d := Drain(c, ScanState(unread, false), ledger);
            Parse(c, unread) == Parsed(Msgs(d.2), d.0.unread, d.0.desync)
    decreases |unread|
  {
    var r := ParseOne(c, unread);
    if r.Got? {
      var n := |r.msg.raw|;
      var t := Take(ledger, n);
      DrainParses(c, unread[n..], t.1);
      var d := Drain(c, ScanState(unread[n..], false), t.1);
      assert ([Cited(r.msg, t.0)] + d.2)[1..] == d.2;
    }
  }

  lemma {:induction false} OwnersAppend(ledger: seq<Contribution>, k: Contribution)
    ensures Owners(ledger + [k]) == Owners(ledger) + Copies(k.n, k.ref)
    decreases |ledger|
  {
    if ledger == [] {
      assert (ledger + [k])[1..] == [];
    } else {
      assert (ledger + [k])[1..] == ledger[1..] + [k];
      OwnersAppend(ledger[1..], k);
    }
  }

  lemma AcceptKeepsBooks(c: Checking, r: StreamRun, seqNo: uint32, payload: seq<byte>, ref: FrameRef)
    requires Booked(r.st.ledger, r.out, r.owners) && |Owners(r.st.ledger)| == |r.st.scan.unread|
    requires !r.st.scan.desync && payload != []
    ensures var o := Accept(c, r.st, seqNo, payload, ref);
            && Booked(o.st.ledger, r.out + o.out, r.owners + Copies(|payload|, ref))
            && |Owners(o.st.ledger)| == |o.st.scan.unread|
  {
    var k := Contribution(ref, |payload|);
    OwnersAppend(r.st.ledger, k);
    DrainBooks(c, r.st.scan.unread + payload, r.st.ledger + [k]);
    var o := Accept(c, r.st, seqNo, payload, ref);
    BookedExtends(r.st.ledger, r.out, r.owners, Copies(|payload|, ref), o.st.ledger, o.out);
  }

  lemma AcceptParses(c: Checking, r: StreamRun, seqNo: uint32, payload: seq<byte>, ref: FrameRef)
    requires Parse(c, r.fed) == Parsed(Msgs(r.out), r.st.scan.unread, r.st.scan.desync) && !r.st.scan.desync
    ensures var o := Accept(c, r.st, seqNo, payload, ref);
            Parse(c, r.fed + payload) == Parsed(Msgs(r.out + o.out), o.st.scan.unread, o.st.scan.desync)
  {
    var o := Accept(c, r.st, seqNo, payload, ref);
    DrainParses(c, r.st.scan.unread + payload, r.st.ledger + [Contribution(ref, |payload|)]);
    ParseResumes(c, r.fed, payload);
    MsgsAppend(r.out, o.out);
  }

  /** The bytes a step hands to the scanner, if any, enter through Accept. */
  lemma StepAccepts(c: Checking, st: StreamState, g: Segment)
    requires !Step(c, st, g).gap
    ensures var o := Step(c, st, g);
            || (o.accepted == [] && o.st == st && o.out == [] && !o.marked)
            || (o.accepted != [] && !st.scan.desync && exists seqNo :: o == Accept(c, st, seqNo, o.accepted, g.ref))
  {
    var o := Step(c, st, g);
    if o.accepted != [] {
      var seqNo := if !st.started || g.seqNo == st.nextSeq then g.seqNo else st.nextSeq;
      assert o == Accept(c, st, seqNo, o.accepted, g.ref);
    }
  }

  /** A stream is reported exactly when a segment leaves a gap or makes the scanner lose its framing; one
      that has lost it already is not reported again. */
  lemma MarkedIff(c: Checking, st: StreamState, g: Segment)
    ensures var o := Step(c, st, g);
            && (o.marked <==> o.gap || (!st.scan.desync && o.st.scan.desync))
            && (st.scan.desync ==> o == Outcome(st, [], false, [], false))
  {
    hide Drain;
    hide Poisoned;
  }

  /** Up to the first gap the ledger covers exactly the unread bytes, and each record cites exactly the
      frames that carried its bytes. */
  lemma {:induction false} CitationsAreExact(c: Checking, segs: seq<Segment>)
    requires !RunStream(c, segs).gaps
    ensures var r := RunStream(c, segs);
            Booked(r.st.ledger, r.out, r.owners) && |Owners(r.st.ledger)| == |r.st.scan.unread|
    decreases |segs|
  {
    if segs != [] {
      var g, before := segs[|segs| - 1], segs[..|segs| - 1];
      var r := RunStream(c, before);
      CitationsAreExact(c, before);
      var o := Step(c, r.st, g);
      StepAccepts(c, r.st, g);
      if o.accepted == [] {
        assert r.out + [] == r.out && r.owners + Copies(0, g.ref) == r.owners;
      } else {
        var seqNo :| o == Accept(c, r.st, seqNo, o.accepted, g.ref);
        AcceptKeepsBooks(c, r, seqNo, o.accepted, g.ref);
      }
    }
  }

  /** Up to the first gap the records and the unread bytes are one parse of all accepted bytes. */
  lemma {:induction false} RunIsParse(c: Checking, segs: seq<Segment>)
    requires !RunStream(c, segs).gaps
    ensures var r := RunStream(c, segs); Parse(c, r.fed) == Parsed(Msgs(r.out), r.st.scan.unread, r.st.scan.desync)
    decreases |segs|
  {
    if segs != [] {
      var g, before := segs[|segs| - 1], segs[..|segs| - 1];
      var r := RunStream(c, before);
      RunIsParse(c, before);
      var o := Step(c, r.st, g);
      StepAccepts(c, r.st, g);
      if o.accepted == [] {
        assert r.out + [] == r.out && r.fed + [] == r.fed;
      } else {
        var seqNo :| o == Accept(c, r.st, seqNo, o.accepted, g.ref);
        AcceptParses(c, r, seqNo, o.accepted, g.ref);
      }
    }
  }

  /** The ledger's total is the scanner's unread count, and record lengths plus unread bytes are all
      the bytes accepted. */
  lemma BytesAreConserved(c: Checking, segs: seq<Segment>)
    requires !RunStream(c, segs).gaps
    ensures var r := RunStream(c, segs);
            && |Owners(r.st.ledger)| == |r.st.scan.unread|
            && Raws(Msgs(r.out)) + r.st.scan.unread == r.fed
  {
    CitationsAreExact(c, segs);
    RunIsParse(c, segs);
    ParseConserves(c, RunStream(c, segs).fed);
  }

  // ---- What a stream holds ----

  lemma {:induction false} DrainEndsDrained(c: Checking, unread: seq<byte>, ledger: seq<Contribution>)
    ensures Drained(c, Drain(c, ScanState(unread, false), ledger).0)
    decreases |unread|
  {
    hide Take;
    var r := ParseOne(c, unread);
    if r.Got? {
      DrainEndsDrained(c, unread[|r.msg.raw|..], Take(ledger, |r.msg.raw|).1);
    }
  }

  /** Even the poison leaves the scanner drained: what it completes, if anything, is its last whole frame. */
  lemma PoisonEndsDrained(c: Checking, unread: seq<byte>)
    requires ParseOne(c, unread).NeedMore?
    ensures Drained(c, Poisoned(c, ScanState(unread, false)))
  {
    hide ReadHeader;
    var s := unread + POISON;
    var r := ParseOne(c, s);
    if |unread| >= HEADER_SIZE {
      HeaderOfPrefix(unread);
      HeaderOfPrefix(s);
      assert s[..HEADER_SIZE] == unread[..HEADER_SIZE];
    }
    if r.Got? {
      assert |s[|r.msg.raw|..]| < HEADER_SIZE;
      ShortParses(c, s[|r.msg.raw|..]);
    }
  }

  lemma StepEndsDrained(c: Checking, st: StreamState, g: Segment)
    requires Drained(c, st.scan)
    ensures Drained(c, Step(c, st, g).st.scan)
  {
    hide Drain;
    hide Poisoned;
    var o := Step(c, st, g);
    if o.gap {
      PoisonEndsDrained(c, st.scan.unread);
      assert st.scan == ScanState(st.scan.unread, false);
    } else {
      StepAccepts(c, st, g);
      if o.accepted != [] {
        DrainEndsDrained(c, st.scan.unread + o.accepted, st.ledger + [Contribution(g.ref, |o.accepted|)]);
      }
    }
  }

  /** After every segment of any run, gaps or not, the scanner is drained or desynced, so what is left unread
      is less than one maximal frame. */
  lemma {:induction false} RunEndsDrained(c: Checking, segs: seq<Segment>)
    ensures var scan := RunStream(c, segs).st.scan;
            Drained(c, scan) && (!scan.desync ==> |scan.unread| <= 0xff_fffc + 11)
    decreases |segs|
  {
    hide Step;
    if segs != [] {
      var before := segs[..|segs| - 1];
      RunEndsDrained(c, before);
      StepEndsDrained(c, RunStream(c, before).st, segs[|segs| - 1]);
    }
    var scan := RunStream(c, segs).st.scan;
    if !scan.desync {
      UnreadBound(c, scan.unread);
    }
  }

  /** What a flow can make the scanner hold: the framing's bound and its widest payload, or the poison. */
  function Holdable(widest: nat, gaps: bool): nat {
    0x10_0000 + 0xff_fffc + 11 + if gaps && widest < 12 then 12 else widest
  }

  /** One segment more of a flow. */
  method FollowOne(s: Stream, ghost segs: seq<Segment>, g: Segment, ghost widest: nat)
    requires s.Valid() && s.State() == RunStream(s.scanner.checked, segs).st && |g.payload| <= widest
    requires |s.scanner.buf| <= Holdable(widest, RunStream(s.scanner.checked, segs).gaps)
    modifies s, s.scanner
    ensures s.Valid() && s.State() == RunStream(s.scanner.checked, segs + [g]).st
    ensures |s.scanner.buf| <= Holdable(widest, RunStream(s.scanner.checked, segs + [g]).gaps)
  {
    hide Step;
    hide RunStream;
    hide Drained;
    RunOfOneMore(s.scanner.checked, segs, g);
    RunEndsDrained(s.scanner.checked, segs);
    var _, _ := s.FeedTCP(g);
  }

  /** Following a flow segment by segment, the buffer held is bounded by the framing and the widest
      payload, however long the flow and whatever is missing from it. */
  method FollowFlow(c: Checking, segs: seq<Segment>, ghost widest: nat) returns (s: Stream)
    requires forall g | g in segs :: |g.payload| <= widest
    ensures s.Valid() && s.State() == RunStream(c, segs).st
    ensures |s.scanner.buf| <= Holdable(widest, RunStream(c, segs).gaps)
  {
    hide RunStream;
    hide Stream.State;
    hide Stream.Valid;
    s := new Stream(c);
    NothingRun(c);
    assert segs[..0] == [];
    for i := 0 to |segs|
      invariant s.Valid() && fresh(s) && fresh(s.scanner) && s.scanner.checked == c
      invariant s.State() == RunStream(c, segs[..i]).st
      invariant |s.scanner.buf| <= Holdable(widest, RunStream(c, segs[..i]).gaps)
    {
      assert segs[..i + 1] == segs[..i] + [segs[i]];
      FollowOne(s, segs[..i], segs[i], widest);
    }
    assert segs[..|segs|] == segs;
  }

  lemma NothingRun(c: Checking)
    ensures RunStream(c, []).st == NEW_STREAM
  {
  }

  lemma RunOfOneMore(c: Checking, segs: seq<Segment>, g: Segment)
    ensures var r, r1 := RunStream(c, segs), RunStream(c, segs + [g]);
            r1.st == Step(c, r.st, g).st && r1.gaps == (r.gaps || Step(c, r.st, g).gap)
  {
    hide Step;
    assert (segs + [g])[..|segs|] == segs;
  }

  // ---- Runs with gaps ----

  /** What the scanner is fed over a run. */
  datatype Piece = Accepted(octets: seq<byte>) | Poison

  /** What is read from it: messages that are recorded, and those the single read after the poison discards. */
  datatype Taken = Recorded(msg: Message) | Swallowed(msg: Message)

  datatype Woven = Woven(pieces: seq<Piece>, taken: seq<Taken>)

  function Weave(c: Checking, segs: seq<Segment>): Woven
    decreases |segs|
  {
    if segs == [] then Woven([], []) else
    var before, g := segs[..|segs| - 1], segs[|segs| - 1];
    var w, st := Weave(c, before), RunStream(c, before).st;
    var o := Step(c, st, g);
    if o.gap then
      var poisoned := st.scan.(unread := st.scan.unread + POISON);
      Woven(w.pieces + [Poison], w.taken + AsSwallowed(StepNext(c, poisoned).0))
    else Woven(w.pieces + [Accepted(o.accepted)], w.taken + AsRecorded(Msgs(o.out)))
  }

  function AsSwallowed(ms: seq<Message>): (r: seq<Taken>)
    ensures |r| == |ms|
  {
    seq(|ms|, i requires 0 <= i < |ms| => Swallowed(ms[i]))
  }

  function AsRecorded(ms: seq<Message>): (r: seq<Taken>)
    ensures |r| == |ms|
  {
    seq(|ms|, i requires 0 <= i < |ms| => Recorded(ms[i]))
  }

  function MessagesOf(ts: seq<Taken>): (r: seq<Message>)
    ensures |r| == |ts|
  {
    seq(|ts|, i requires 0 <= i < |ts| => ts[i].msg)
  }

  function RecordedOnly(ts: seq<Taken>): seq<Message>
    decreases |ts|
  {
    if ts == [] then [] else
    RecordedOnly(ts[..|ts| - 1]) + if ts[|ts| - 1].Recorded? then [ts[|ts| - 1].msg] else []
  }

  function OctetsOf(pieces: seq<Piece>): seq<byte>
    decreases |pieces|
  {
    if pieces == [] then [] else
    OctetsOf(pieces[..|pieces| - 1]) + match pieces[|pieces| - 1] case Accepted(b) => b case Poison => POISON
  }

  function AcceptedOnly(pieces: seq<Piece>): seq<byte>
    decreases |pieces|
  {
    if pieces == [] then [] else
    AcceptedOnly(pieces[..|pieces| - 1]) + match pieces[|pieces| - 1] case Accepted(b) => b case Poison => []
  }

  function Poisons(pieces: seq<Piece>): nat
    decreases |pieces|
  {
    if pieces == [] then 0 else Poisons(pieces[..|pieces| - 1]) + if pieces[|pieces| - 1].Poison? then 1 else 0
  }

  lemma PieceSnoc(ps: seq<Piece>, x: Piece)
    ensures OctetsOf(ps + [x]) == OctetsOf(ps) + match x case Accepted(b) => b case Poison => POISON
    ensures AcceptedOnly(ps + [x]) == AcceptedOnly(ps) + match x case Accepted(b) => b case Poison => []
    ensures Poisons(ps + [x]) == Poisons(ps) + if x.Poison? then 1 else 0
  {
    assert (ps + [x])[..|ps|] == ps;
  }

  lemma {:induction false} RecordAppends(ts: seq<Taken>, ms: seq<Message>)
    ensures RecordedOnly(ts + AsRecorded(ms)) == RecordedOnly(ts) + ms
            && MessagesOf(ts + AsRecorded(ms)) == MessagesOf(ts) + ms
    decreases |ms|
  {
    if ms == [] {
      assert ts + AsRecorded(ms) == ts;
    } else {
      var n := |ms| - 1;
      RecordAppends(ts, ms[..n]);
      assert (ts + AsRecorded(ms))[..|ts| + n] == ts + AsRecorded(ms[..n]);
      assert ms[..n] + [ms[n]] == ms;
    }
  }

  lemma {:induction false} SwallowAppends(ts: seq<Taken>, ms: seq<Message>)
    ensures RecordedOnly(ts + AsSwallowed(ms)) == RecordedOnly(ts)
            && MessagesOf(ts + AsSwallowed(ms)) == MessagesOf(ts) + ms
    decreases |ms|
  {
    if ms == [] {
      assert ts + AsSwallowed(ms) == ts;
    } else {
      var n := |ms| - 1;
      SwallowAppends(ts, ms[..n]);
      assert (ts + AsSwallowed(ms))[..|ts| + n] == ts + AsSwallowed(ms[..n]);
      assert ms[..n] + [ms[n]] == ms;
    }
  }

  /** The single read after the poison is all there is to read. */
  lemma PoisonParses(c: Checking, octets: seq<byte>, msgs: seq<Message>, unread: seq<byte>)
    requires Parse(c, octets) == Parsed(msgs, unread, false) && ParseOne(c, unread).NeedMore?
    ensures var (ms, end) := StepNext(c, ScanState(unread + POISON, false));
            Parse(c, octets + POISON) == Parsed(msgs + ms, end.unread, end.desync) && |ms| <= 1
  {
    hide ParseOne;
    PoisonEndsDrained(c, unread);
    ParseResumes(c, octets, POISON);
    var (ms, end) := StepNext(c, ScanState(unread + POISON, false));
    if ParseOne(c, unread + POISON).Got? {
      assert ms + [] == ms;
    }
  }

  lemma AcceptedParses(c: Checking, st: StreamState, g: Segment, octets: seq<byte>, msgs: seq<Message>)
    requires Parse(c, octets) == Parsed(msgs, st.scan.unread, st.scan.desync) && !Step(c, st, g).gap
    ensures var o := Step(c, st, g);
            Parse(c, octets + o.accepted) == Parsed(msgs + Msgs(o.out), o.st.scan.unread, o.st.scan.desync)
  {
    hide Step;
    hide Parse;
    var o := Step(c, st, g);
    StepAccepts(c, st, g);
    if o.accepted == [] {
      assert msgs + [] == msgs && octets + [] == octets;
    } else {
      DrainParses(c, st.scan.unread + o.accepted, st.ledger + [Contribution(g.ref, |o.accepted|)]);
      ParseResumes(c, octets, o.accepted);
    }
  }

  /** Over any run, however many gaps it has, the messages recorded and those swallowed are, in their order,
      one parse of the accepted octets with the poison woven in; each gap swallows at most one message. */
  lemma {:induction false} RunIsWovenParse(c: Checking, segs: seq<Segment>)
    ensures var r, w := RunStream(c, segs), Weave(c, segs);
            && AcceptedOnly(w.pieces) == r.fed && (Poisons(w.pieces) > 0 <==> r.gaps)
            && RecordedOnly(w.taken) == Msgs(r.out) && |w.taken| <= |Msgs(r.out)| + Poisons(w.pieces)
            && Parse(c, OctetsOf(w.pieces)) == Parsed(MessagesOf(w.taken), r.st.scan.unread, r.st.scan.desync)
    decreases |segs|
  {
    hide Step;
    hide Parse;
    hide StepNext;
    if segs == [] {
      NothingToParse(c);
    } else {
      var before, g := segs[..|segs| - 1], segs[|segs| - 1];
      var r, w := RunStream(c, before), Weave(c, before);
      var o := Step(c, r.st, g);
      RunIsWovenParse(c, before);
      MsgsAppend(r.out, o.out);
      if o.gap {
        var ms := StepNext(c, r.st.scan.(unread := r.st.scan.unread + POISON)).0;
        RunEndsDrained(c, before);
        GapFeedsPoison(c, r.st, g);
        PoisonParses(c, OctetsOf(w.pieces), MessagesOf(w.taken), r.st.scan.unread);
        PieceSnoc(w.pieces, Poison);
        SwallowAppends(w.taken, ms);
        assert Msgs(r.out) + [] == Msgs(r.out) && r.fed + [] == r.fed;
      } else {
        AcceptedParses(c, r.st, g, OctetsOf(w.pieces), MessagesOf(w.taken));
        PieceSnoc(w.pieces, Accepted(o.accepted));
        RecordAppends(w.taken, Msgs(o.out));
      }
    }
  }

  lemma GapFeedsPoison(c: Checking, st: StreamState, g: Segment)
    requires Step(c, st, g).gap
    ensures var o := Step(c, st, g);
            && !st.scan.desync && st.scan == ScanState(st.scan.unread, false) && o.accepted == [] && o.out == []
            && o.st.scan == StepNext(c, ScanState(st.scan.unread + POISON, false)).1
  {
    hide StepNext;
  }

  // ---- Reassembly of a true byte stream ----

  /** A segment together with the offset of its payload in the sender's byte stream. */
  datatype Arrival = Arrival(offset: nat, seg: Segment)

  predicate TrueSlice(truth: seq<byte>, isn: uint32, a: Arrival) {
    && a.offset + |a.seg.payload| <= |truth|
    && a.seg.payload == truth[a.offset..a.offset + |a.seg.payload|]
    && a.seg.seqNo == Advance(isn, a.offset)
  }

  function Segments(arrivals: seq<Arrival>): (r: seq<Segment>)
    ensures |r| == |arrivals|
  {
    seq(|arrivals|, i requires 0 <= i < |arrivals| => arrivals[i].seg)
  }

  datatype Span = Unseen | Span(base: nat, reach: nat)

  function Extend(s: Span, a: Arrival): Span {
    var end := a.offset + |a.seg.payload|;
    if a.seg.payload == [] then s
    else if s.Unseen? then Span(a.offset, end)
    else Span(s.base, if end > s.reach then end else s.reach)
  }

  /** From the first payload's offset to the furthest end reached. */
  function Cover(arrivals: seq<Arrival>): Span
    decreases |arrivals|
  {
    if arrivals == [] then Unseen else Extend(Cover(arrivals[..|arrivals| - 1]), arrivals[|arrivals| - 1])
  }

  /** No payload starts beyond what has arrived, nor 2^31 or more behind it: retransmissions and
      overlaps of any shape, but no gap. */
  predicate Contiguous(arrivals: seq<Arrival>)
    decreases |arrivals|
  {
    arrivals == [] ||
    var a, s := arrivals[|arrivals| - 1], Cover(arrivals[..|arrivals| - 1]);
    && Contiguous(arrivals[..|arrivals| - 1])
    && (a.seg.payload == [] || s.Unseen? || s.reach - HALF <= a.offset <= s.reach)
  }

  /** Within half the sequence space the wrapped comparison orders true offsets, at any number of wraps. */
  lemma WrappedOrder(isn: uint32, offset: nat, expected: nat)
    requires -0x8000_0000 <= offset - expected < 0x8000_0000
    ensures Advance(isn, offset) == (isn + offset) % 0x1_0000_0000
    ensures Advance(isn, offset) == Advance(isn, expected) <==> offset == expected
    ensures SeqLess(Advance(isn, offset), Advance(isn, expected)) <==> offset < expected
    ensures offset <= expected ==> Distance(Advance(isn, expected), Advance(isn, offset)) == expected - offset
  {
    Congruent(isn + offset, isn + expected);
    Congruent(isn + expected, isn + offset);
    SmallMod(offset - expected);
    SmallMod(expected - offset);
  }

  lemma SmallMod(d: int)
    requires -HALF <= d <= HALF
    ensures d % WRAP == if d >= 0 then d else d + WRAP
  {
  }

  lemma Congruent(a: int, b: int)
    ensures (a % WRAP - b % WRAP) % WRAP == (a - b) % WRAP
  {
    var p, q := a / WRAP, b / WRAP;
    assert a - b == (a % WRAP - b % WRAP) + (p - q) * WRAP;
    ModShift(a % WRAP - b % WRAP, p - q);
  }

  lemma ModShift(x: int, k: int)
    ensures (x + k * WRAP) % WRAP == x % WRAP
  {
    var q := x / WRAP;
    assert x + k * WRAP == (q + k) * WRAP + x % WRAP;
  }

  lemma AdvanceTwice(isn: uint32, a: nat, b: nat)
    ensures Advance(Advance(isn, a), b) == Advance(isn, a + b)
  {
    var q := (isn + a) / WRAP;
    assert isn + a + b == (isn + a) % WRAP + b + q * WRAP;
    ModShift((isn + a) % WRAP + b, q);
  }

  /** The stream has been handed exactly the covered part of the true stream, unless it stopped at a desync. */
  ghost predicate Follows(st: StreamState, fed: seq<byte>, truth: seq<byte>, isn: uint32, s: Span) {
    && st.started == s.Span?
    && (s.Unseen? ==> fed == [] && !st.scan.desync)
    && (s.Span? ==> s.base <= s.reach <= |truth| && fed <= truth[s.base..s.reach])
    && (s.Span? && !st.scan.desync ==> fed == truth[s.base..s.reach] && st.nextSeq == Advance(isn, s.reach))
  }

  lemma SliceTail(t: seq<byte>, a: nat, m: nat, e: nat)
    requires a <= m <= e <= |t|
    ensures t[a..e][m - a..] == t[m..e]
  {
  }

  lemma PrefixSplit<T>(p: seq<T>, s: seq<T>)
    requires p <= s
    ensures s == p + s[|p|..]
  {
  }

  lemma SliceJoin(t: seq<byte>, a: nat, b: nat, c: nat)
    requires a <= b <= c <= |t|
    ensures t[a..b] + t[b..c] == t[a..c] && t[a..b] <= t[a..c]
  {
  }

  lemma AcceptFollows(c: Checking, st: StreamState, truth: seq<byte>, isn: uint32, base: nat, at: nat, end: nat,
                      ref: FrameRef)
    requires base <= at <= end <= |truth| && !st.scan.desync
    ensures var o := Accept(c, st, Advance(isn, at), truth[at..end], ref);
            Follows(o.st, truth[base..at] + o.accepted, truth, isn, Span(base, end))
  {
    AdvanceTwice(isn, at, end - at);
    SliceJoin(truth, base, at, end);
  }

  /** What a segment should do to a stream that has been handed everything up to s.reach: nothing, or
      accept exactly its bytes beyond that point. */
  function Wanted(c: Checking, st: StreamState, isn: uint32, s: Span, a: Arrival): Outcome {
    if a.seg.payload == [] || st.scan.desync then Outcome(st, [], false, [], false)
    else if s.Unseen? then Accept(c, st, a.seg.seqNo, a.seg.payload, a.seg.ref)
    else if a.offset + |a.seg.payload| <= s.reach || a.offset > s.reach then Outcome(st, [], false, [], false)
    else Accept(c, st, Advance(isn, s.reach), a.seg.payload[s.reach - a.offset..], a.seg.ref)
  }

  lemma StepInWindow(c: Checking, st: StreamState, fed: seq<byte>, truth: seq<byte>, isn: uint32, s: Span, a: Arrival)
    requires Follows(st, fed, truth, isn, s) && a.seg.seqNo == Advance(isn, a.offset)
    requires a.seg.payload == [] || s.Unseen? || s.reach - HALF <= a.offset <= s.reach
    ensures Step(c, st, a.seg) == Wanted(c, st, isn, s, a)
  {
    hide Drain;
    hide Poisoned;
    hide Advance;
    if a.seg.payload != [] && s.Span? {
      WrappedOrder(isn, a.offset, s.reach);
      assert a.seg.payload[0..] == a.seg.payload;
    }
  }

  lemma IdleFollows(st: StreamState, fed: seq<byte>, truth: seq<byte>, isn: uint32, s: Span, a: Arrival)
    requires Follows(st, fed, truth, isn, s) && TrueSlice(truth, isn, a)
    requires a.seg.payload == [] || (s.Span? && (st.scan.desync || a.offset + |a.seg.payload| <= s.reach))
    ensures Follows(st, fed, truth, isn, Extend(s, a))
  {
    var end := a.offset + |a.seg.payload|;
    if s.Span? && end > s.reach {
      SliceJoin(truth, s.base, s.reach, end);
    }
  }

  lemma NewBytesFollow(c: Checking, st: StreamState, fed: seq<byte>, truth: seq<byte>, isn: uint32, s: Span, a: Arrival)
    requires Follows(st, fed, truth, isn, s) && TrueSlice(truth, isn, a) && s.Span? && !st.scan.desync
    requires a.offset <= s.reach < a.offset + |a.seg.payload|
    ensures var o := Accept(c, st, Advance(isn, s.reach), a.seg.payload[s.reach - a.offset..], a.seg.ref);
            Follows(o.st, fed + o.accepted, truth, isn, Extend(s, a))
  {
    hide Drain;
    var end := a.offset + |a.seg.payload|;
    SliceTail(truth, a.offset, s.reach, end);
    AcceptFollows(c, st, truth, isn, s.base, s.reach, end, a.seg.ref);
  }

  lemma FirstBytesFollow(c: Checking, st: StreamState, fed: seq<byte>, truth: seq<byte>, isn: uint32, a: Arrival)
    requires Follows(st, fed, truth, isn, Unseen) && TrueSlice(truth, isn, a)
    ensures var o := Accept(c, st, a.seg.seqNo, a.seg.payload, a.seg.ref);
            Follows(o.st, fed + o.accepted, truth, isn, Span(a.offset, a.offset + |a.seg.payload|))
  {
    hide Drain;
    AcceptFollows(c, st, truth, isn, a.offset, a.offset, a.offset + |a.seg.payload|, a.seg.ref);
    assert truth[a.offset..a.offset] == [];
  }

  lemma DesyncIsAfterAll(st: StreamState, fed: seq<byte>, truth: seq<byte>, isn: uint32, s: Span)
    requires Follows(st, fed, truth, isn, s)
    ensures st.scan.desync ==> s.Span?
  {
  }

  lemma WantedFollows(c: Checking, st: StreamState, fed: seq<byte>, truth: seq<byte>, isn: uint32, s: Span, a: Arrival)
    requires Follows(st, fed, truth, isn, s) && TrueSlice(truth, isn, a)
    requires a.seg.payload == [] || s.Unseen? || a.offset <= s.reach
    ensures var o := Wanted(c, st, isn, s, a); !o.gap && Follows(o.st, fed + o.accepted, truth, isn, Extend(s, a))
  {
    hide Follows;
    hide TrueSlice;
    hide Drain;
    hide Advance;
    assert fed + [] == fed;
    DesyncIsAfterAll(st, fed, truth, isn, s);
    if a.seg.payload == [] || st.scan.desync || (s.Span? && a.offset + |a.seg.payload| <= s.reach) {
      IdleFollows(st, fed, truth, isn, s, a);
    } else if s.Unseen? {
      FirstBytesFollow(c, st, fed, truth, isn, a);
    } else {
      NewBytesFollow(c, st, fed, truth, isn, s, a);
    }
  }

  /** Through any retransmissions, partial overlaps and number of sequence wraps, the bytes handed to
      the scanner are one contiguous slice of the sender's stream, and the whole of what has arrived. */
  lemma {:induction false} Reassembly(c: Checking, truth: seq<byte>, isn: uint32, arrivals: seq<Arrival>)
    requires forall a | a in arrivals :: TrueSlice(truth, isn, a)
    requires Contiguous(arrivals)
    ensures var r := RunStream(c, Segments(arrivals)); !r.gaps && Follows(r.st, r.fed, truth, isn, Cover(arrivals))
    decreases |arrivals|
  {
    if arrivals != [] {
      var a, before := arrivals[|arrivals| - 1], arrivals[..|arrivals| - 1];
      assert a in arrivals && forall b | b in before :: b in arrivals;
      Reassembly(c, truth, isn, before);
      assert Segments(arrivals)[..|arrivals| - 1] == Segments(before);
      var r := RunStream(c, Segments(before));
      StepInWindow(c, r.st, r.fed, truth, isn, Cover(before), a);
      WantedFollows(c, r.st, r.fed, truth, isn, Cover(before), a);
    }
  }

  /** So the records are those of one parse of what has arrived of the sender's stream. */
  lemma ReassembledRecords(c: Checking, truth: seq<byte>, isn: uint32, arrivals: seq<Arrival>)
    requires forall a | a in arrivals :: TrueSlice(truth, isn, a)
    requires Contiguous(arrivals) && Cover(arrivals).Span?
    ensures var r, s := RunStream(c, Segments(arrivals)), Cover(arrivals);
            && s.base <= s.reach <= |truth|
            && Msgs(r.out) == Parse(c, truth[s.base..s.reach]).msgs
            && r.st.scan.desync == Parse(c, truth[s.base..s.reach]).desync
  {
    Reassembly(c, truth, isn, arrivals);
    RunIsParse(c, Segments(arrivals));
    var r, s := RunStream(c, Segments(arrivals)), Cover(arrivals);
    if r.st.scan.desync {
      var covered := truth[s.base..s.reach];
      PrefixSplit(r.fed, covered);
      DesyncIsFinal(c, r.fed, covered[|r.fed|..]);
    }
  }

  /** A payload that starts beyond what has arrived is reported, and nothing of it is accepted. */
  lemma GapIsReported(c: Checking, st: StreamState, fed: seq<byte>, truth: seq<byte>, isn: uint32, s: Span, a: Arrival)
    requires Follows(st, fed, truth, isn, s) && s.Span? && !st.scan.desync && TrueSlice(truth, isn, a)
    requires a.seg.payload != [] && s.reach < a.offset < s.reach + HALF
    ensures var o := Step(c, st, a.seg); o.gap && o.marked && o.accepted == [] && o.out == []
  {
    WrappedOrder(isn, a.offset, s.reach);
  }

  // ---- Any run inside the window ----
  // Here payloads may also start ahead of what has arrived; the machine then reports a gap.

  /** Where the stream was joined: the offset of the first payload. */
  function Joined(arrivals: seq<Arrival>): nat
    decreases |arrivals|
  {
    if arrivals == [] then 0
    else if arrivals[0].seg.payload != [] then arrivals[0].offset
    else Joined(arrivals[1..])
  }

  /** The next expected offset, by the octets accepted so far. */
  function Reach(c: Checking, arrivals: seq<Arrival>): nat { Joined(arrivals) + |RunStream(c, Segments(arrivals)).fed| }

  /** The last payload does not start 2^31 or more from the next expected offset, if it is looked at. */
  predicate NearBy(c: Checking, before: seq<Arrival>, a: Arrival) {
    var st := RunStream(c, Segments(before)).st;
    a.seg.payload == [] || st.scan.desync || !st.started || -HALF <= a.offset - Reach(c, before) < HALF
  }

  predicate InWindow(c: Checking, arrivals: seq<Arrival>)
    decreases |arrivals|
  {
    arrivals == [] || (InWindow(c, arrivals[..|arrivals| - 1])
      && NearBy(c, arrivals[..|arrivals| - 1], arrivals[|arrivals| - 1]))
  }

  /** The octets accepted are one slice of the sender's stream, and the machine expects the one behind it. */
  ghost predicate OnTrack(st: StreamState, fed: seq<byte>, truth: seq<byte>, isn: uint32, base: nat) {
    if st.started then base + |fed| <= |truth| && fed == truth[base..base + |fed|]
      && st.nextSeq == Advance(isn, base + |fed|)
    else fed == [] && !st.scan.desync
  }

  /** The payload is ahead of a stream that still looks at it. */
  predicate AheadOf(st: StreamState, reach: nat, a: Arrival) {
    st.started && !st.scan.desync && a.seg.payload != [] && a.offset > reach
  }

  lemma AcceptOnTrack(c: Checking, st: StreamState, fed: seq<byte>, truth: seq<byte>, isn: uint32, base: nat,
                      payload: seq<byte>, ref: FrameRef)
    requires !st.scan.desync && base + |fed| + |payload| <= |truth| && fed == truth[base..base + |fed|]
    requires payload == truth[base + |fed|..base + |fed| + |payload|]
    ensures OnTrack(Accept(c, st, Advance(isn, base + |fed|), payload, ref).st, fed + payload, truth, isn, base)
  {
    hide Drain;
    AdvanceTwice(isn, base + |fed|, |payload|);
    SliceJoin(truth, base, base + |fed|, base + |fed| + |payload|);
  }

  lemma FirstOnTrack(c: Checking, st: StreamState, truth: seq<byte>, isn: uint32, a: Arrival)
    requires !st.started && !st.scan.desync && TrueSlice(truth, isn, a) && a.seg.payload != []
    ensures var o := Step(c, st, a.seg); OnTrack(o.st, [] + o.accepted, truth, isn, a.offset) && !o.gap
  {
    hide Drain;
    assert truth[a.offset..a.offset] == [];
    AcceptOnTrack(c, st, [], truth, isn, a.offset, a.seg.payload, a.seg.ref);
  }

  lemma LaterOnTrack(c: Checking, st: StreamState, fed: seq<byte>, truth: seq<byte>, isn: uint32, base: nat, a: Arrival)
    requires st.started && !st.scan.desync && OnTrack(st, fed, truth, isn, base) && TrueSlice(truth, isn, a)
    requires a.seg.payload != [] && -HALF <= a.offset - (base + |fed|) < HALF
    ensures var o := Step(c, st, a.seg);
            OnTrack(o.st, fed + o.accepted, truth, isn, base) && (o.gap <==> a.offset > base + |fed|)
  {
    hide Drain;
    hide Poisoned;
    hide Advance;
    var reach := base + |fed|;
    WrappedOrder(isn, a.offset, reach);
    assert fed + [] == fed;
    if a.offset <= reach < a.offset + |a.seg.payload| {
      var rest := a.seg.payload[reach - a.offset..];
      SliceTail(truth, a.offset, reach, a.offset + |a.seg.payload|);
      AcceptOnTrack(c, st, fed, truth, isn, base, rest, a.seg.ref);
      assert a.seg.payload[0..] == a.seg.payload;
    }
  }

  lemma JoinedSnoc(arrivals: seq<Arrival>, a: Arrival)
    ensures Joined(arrivals + [a])
         == if a.seg.payload == [] || exists b :: b in arrivals && b.seg.payload != [] then Joined(arrivals)
            else a.offset
    decreases |arrivals|
  {
    if arrivals != [] {
      assert (arrivals + [a])[1..] == arrivals[1..] + [a];
      if arrivals[0].seg.payload == [] {
        JoinedSnoc(arrivals[1..], a);
        assert forall b | b in arrivals && b.seg.payload != [] :: b in arrivals[1..];
      }
    }
  }

  lemma RunSnoc(c: Checking, arrivals: seq<Arrival>, a: Arrival)
    ensures var r, r1 := RunStream(c, Segments(arrivals)), RunStream(c, Segments(arrivals + [a]));
            var o := Step(c, r.st, a.seg);
            r1.st == o.st && r1.fed == r.fed + o.accepted && r1.gaps == (r.gaps || o.gap)
  {
    assert Segments(arrivals + [a])[..|arrivals|] == Segments(arrivals);
  }

  /** Whatever arrives inside the window - retransmitted, overlapping, ahead, behind a desync - the octets
      accepted are always one contiguous slice of the sender's stream. */
  lemma {:induction false} AcceptedIsOneSlice(c: Checking, truth: seq<byte>, isn: uint32, arrivals: seq<Arrival>)
    requires forall a | a in arrivals :: TrueSlice(truth, isn, a)
    requires InWindow(c, arrivals)
    ensures var r := RunStream(c, Segments(arrivals));
            && OnTrack(r.st, r.fed, truth, isn, Joined(arrivals))
            && (r.st.started <==> exists a :: a in arrivals && a.seg.payload != [])
    decreases |arrivals|
  {
    hide RunStream;
    hide Step;
    hide OnTrack;
    if arrivals == [] {
      NothingOnTrack(c, truth, isn);
    } else {
      var before, a := arrivals[..|arrivals| - 1], arrivals[|arrivals| - 1];
      assert arrivals == before + [a];
      AcceptedIsOneSlice(c, truth, isn, before);
      RunSnoc(c, before, a);
      JoinedSnoc(before, a);
      StepOnTrack(c, truth, isn, before, a);
      assert forall b :: b in arrivals <==> b in before || b == a;
    }
  }

  lemma NothingOnTrack(c: Checking, truth: seq<byte>, isn: uint32)
    ensures var r := RunStream(c, Segments([]));
            OnTrack(r.st, r.fed, truth, isn, Joined([])) && !r.st.started && !r.gaps
  {
  }

  lemma StepOnTrack(c: Checking, truth: seq<byte>, isn: uint32, before: seq<Arrival>, a: Arrival)
    requires TrueSlice(truth, isn, a) && NearBy(c, before, a)
    requires var r := RunStream(c, Segments(before)); OnTrack(r.st, r.fed, truth, isn, Joined(before))
    ensures var r := RunStream(c, Segments(before));
            var o := Step(c, r.st, a.seg);
            var base := if r.st.started || a.seg.payload == [] then Joined(before) else a.offset;
            && OnTrack(o.st, r.fed + o.accepted, truth, isn, base)
            && (o.st.started <==> r.st.started || a.seg.payload != [])
            && (o.gap <==> AheadOf(r.st, Reach(c, before), a))
  {
    hide RunStream;
    hide Drain;
    hide Poisoned;
    var r := RunStream(c, Segments(before));
    assert r.fed + [] == r.fed;
    if a.seg.payload != [] && !r.st.scan.desync {
      if r.st.started {
        LaterOnTrack(c, r.st, r.fed, truth, isn, Joined(before), a);
      } else {
        FirstOnTrack(c, r.st, truth, isn, a);
      }
    }
  }

  /** At arrival i the stream meets a payload ahead of what it expects. */
  predicate AheadAt(c: Checking, arrivals: seq<Arrival>, i: nat)
    requires i < |arrivals|
  {
    AheadOf(RunStream(c, Segments(arrivals[..i])).st, Reach(c, arrivals[..i]), arrivals[i])
  }

  /** A run reports a gap exactly when some payload starts ahead of the next expected offset while the
      stream still looks at it; wrapped sequence numbers never hide one or invent one. */
  lemma {:induction false} GapsArePayloadsAhead(c: Checking, truth: seq<byte>, isn: uint32, arrivals: seq<Arrival>)
    requires forall a | a in arrivals :: TrueSlice(truth, isn, a)
    requires InWindow(c, arrivals)
    ensures RunStream(c, Segments(arrivals)).gaps <==> exists i: nat :: i < |arrivals| && AheadAt(c, arrivals, i)
    decreases |arrivals|
  {
    hide RunStream;
    hide Step;
    hide OnTrack;
    if arrivals == [] {
      NothingOnTrack(c, truth, isn);
    } else {
      var n := |arrivals| - 1;
      var before, a := arrivals[..n], arrivals[n];
      assert arrivals == before + [a];
      GapsArePayloadsAhead(c, truth, isn, before);
      AcceptedIsOneSlice(c, truth, isn, before);
      RunSnoc(c, before, a);
      StepOnTrack(c, truth, isn, before, a);
      forall i: nat | i < n
        ensures AheadAt(c, arrivals, i) == AheadAt(c, before, i)
      {
        assert arrivals[..i] == before[..i];
      }
      assert AheadAt(c, arrivals, n) == AheadOf(RunStream(c, Segments(before)).st, Reach(c, before), a);
    }
  }

  /** Without a gap the records are those of one parse of the accepted slice, desynced or not. */
  lemma GapFreeRecords(c: Checking, truth: seq<byte>, isn: uint32, arrivals: seq<Arrival>)
    requires forall a | a in arrivals :: TrueSlice(truth, isn, a)
    requires InWindow(c, arrivals) && !RunStream(c, Segments(arrivals)).gaps
             && RunStream(c, Segments(arrivals)).st.started
    ensures var r, base := RunStream(c, Segments(arrivals)), Joined(arrivals);
            && base + |r.fed| <= |truth|
            && Parse(c, truth[base..base + |r.fed|]) == Parsed(Msgs(r.out), r.st.scan.unread, r.st.scan.desync)
  {
    hide RunStream;
    hide Parse;
    AcceptedIsOneSlice(c, truth, isn, arrivals);
    RunIsParse(c, Segments(arrivals));
  }

  // ---- What a gap really does ----
  // The poison fed after a gap is documented as forcing the scanner to stop. Its first word is above
  // the sentinel threshold, so it does not always.

  /** With nothing buffered the poison is consumed as a sentinel: the stream goes on as if there had been no gap. */
  lemma GapOnEmptyBufferIsIgnored(c: Checking, st: StreamState, g: Segment)
    requires st.scan == FRESH && Step(c, st, g).gap
    ensures Step(c, st, g).st == st
  {
    assert [] + POISON == POISON;
    assert ReadHeader(POISON).special;
    SpecialParses(c, POISON);
    assert POISON[HEADER_SIZE..] == [];
  }

  /** Such a run: a whole sentinel, then a segment that skips 88 octets. The gap is reported, and the
      stream is neither stopped nor moved. */
  lemma AGapThatIsIgnored(c: Checking, ref: FrameRef)
    ensures var sentinel := Segment(0, [0xff, 0xff, 0xff, 0xfe, 0, 0, 0, 0, 0, 0, 0, 0], ref);
            var r := RunStream(c, [sentinel, Segment(100, [1], ref)]);
            r.gaps && !r.st.scan.desync && r.st == RunStream(c, [sentinel]).st && r.st.nextSeq == 12
  {
    var w: seq<byte> := [0xff, 0xff, 0xff, 0xfe, 0, 0, 0, 0, 0, 0, 0, 0];
    var g0, g1 := Segment(0, w, ref), Segment(100, [1], ref);
    var st := RunAfterSentinel(c, w, ref);
    assert [g0, g1][..1] == [g0];
    assert Distance(100, 12) == 88;
    assert Step(c, st, g1).gap;
    GapOnEmptyBufferIsIgnored(c, st, g1);
  }

  lemma RunAfterSentinel(c: Checking, w: seq<byte>, ref: FrameRef) returns (st: StreamState)
    requires |w| == HEADER_SIZE && ReadHeader(w).special
    ensures st == RunStream(c, [Segment(0, w, ref)]).st
    ensures st.started && st.nextSeq == HEADER_SIZE && st.scan == FRESH
  {
    var g := Segment(0, w, ref);
    assert [g][..0] == [];
    assert RunStream(c, []).st == NEW_STREAM;
    st := RunStream(c, [g]).st;
    assert st == Step(c, NEW_STREAM, g).st;
    assert [] + w == w;
    SpecialParses(c, w);
    assert w[HEADER_SIZE..] == [];
    var (scan, book, later) := Drain(c, FRESH, Take([] + [Contribution(ref, HEADER_SIZE)], HEADER_SIZE).1);
    assert ParseOne(c, []).NeedMore?;
  }

  /** The poison stops a drained, checking scanner exactly when the header found across the buffered bytes and
      the poison is no sentinel, announces a body no longer than the buffered bytes, and fails its checksum. */
  lemma PoisonStopsIff(sum: SumFunction, st: StreamState, g: Segment)
    requires ParseOne(Checked(sum), st.scan.unread).NeedMore? && Step(Checked(sum), st, g).gap
    ensures var s := st.scan.unread + POISON;
            var h := ReadHeader(s);
            Step(Checked(sum), st, g).st.scan.desync <==>
              && !h.special && h.length <= |st.scan.unread|
              && sum(h.length, h.seqNo, h.echoSeq, h.msgType, s[HEADER_SIZE..HEADER_SIZE + h.length]) != h.checksum
  {
    var s := st.scan.unread + POISON;
    var h := ReadHeader(s);
    if h.special {
      SpecialParses(Checked(sum), s);
    } else if h.length <= |st.scan.unread| {
      OrdinaryParses(Checked(sum), s, h);
      assert s[..HEADER_SIZE + h.length][HEADER_SIZE..] == s[HEADER_SIZE..HEADER_SIZE + h.length];
    }
  }

  /** So in every run: at a gap, whatever came before, the stream stops exactly then. */
  lemma GapStopsIff(sum: SumFunction, segs: seq<Segment>, g: Segment)
    requires Step(Checked(sum), RunStream(Checked(sum), segs).st, g).gap
    ensures var unread := RunStream(Checked(sum), segs).st.scan.unread;
            var s := unread + POISON;
            var h := ReadHeader(s);
            RunStream(Checked(sum), segs + [g]).st.scan.desync <==>
              && !h.special && h.length <= |unread|
              && sum(h.length, h.seqNo, h.echoSeq, h.msgType, s[HEADER_SIZE..HEADER_SIZE + h.length]) != h.checksum
  {
    hide RunStream;
    RunEndsDrained(Checked(sum), segs);
    RunOfOneMore(Checked(sum), segs, g);
    PoisonStopsIff(sum, RunStream(Checked(sum), segs).st, g);
  }
}
