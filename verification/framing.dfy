/**
 Frames: the incremental scanner, the encoder, and the pure parser both are measured against.
 `Parse` reads a whole byte string at once; `Scanner` is fed chunks and asked for messages in
 any order. Every schedule of feeds and reads yields what one parse of the concatenation yields.
 The parser is parametric in the checksum; NewScanner's is `CHECKED`.
 */
module Framing {
  import opened Bytes
  import Checksums

  const HEADER_SIZE := 12
  const SPECIAL_THRESHOLD := 0xff_fffc
  const COMPACT_ABOVE := 0x10_0000

  datatype Header = Header(length: uint32, seqNo: uint16, echoSeq: uint16, msgType: uint16, checksum: uint16,
                           special: bool)

  datatype Message = Message(header: Header, body: seq<byte>, raw: seq<byte>)

  type SumFunction = (uint32, uint16, uint16, uint16, seq<byte>) -> uint16

  datatype Checking = Unchecked | Checked(sum: SumFunction)

  const CHECKED := Checked(Checksums.Sum)

  predicate ChecksumValid(sum: SumFunction, m: Message) {
    var h := m.header;
    h.special || sum(h.length, h.seqNo, h.echoSeq, h.msgType, m.body) == h.checksum
  }

  // ---- The parser ----

  datatype Scan = NeedMore | Desync | Got(msg: Message)

  function ReadHeader(s: seq<byte>): Header
    requires |s| >= HEADER_SIZE
  {
    var length := GetBE32(s[0], s[1], s[2], s[3]);
    if length > SPECIAL_THRESHOLD then
      Header(length, 0, 0, 0, 0, true)
    else
      Header(length, GetBE16(s[4], s[5]), GetBE16(s[6], s[7]), GetBE16(s[8], s[9]), GetBE16(s[10], s[11]), false)
  }

  /** A sentinel in place of a length makes the frame end with its header. */
  function FrameSize(h: Header): nat {
    if h.special then HEADER_SIZE else HEADER_SIZE + h.length
  }

  function ParseOne(c: Checking, s: seq<byte>): (r: Scan)
    ensures r.Got? ==> HEADER_SIZE <= |r.msg.raw| <= |s| && r.msg.raw == s[..|r.msg.raw|]
  {
    if |s| < HEADER_SIZE then NeedMore else
    var h := ReadHeader(s);
    if |s| < FrameSize(h) then NeedMore else
    var m := Message(h, s[HEADER_SIZE..FrameSize(h)], s[..FrameSize(h)]);
    if c.Checked? && !ChecksumValid(c.sum, m) then Desync else Got(m)
  }

  datatype Parsed = Parsed(msgs: seq<Message>, rest: seq<byte>, desync: bool)

  function Parse(c: Checking, s: seq<byte>): Parsed
    decreases |s|
  {
    match ParseOne(c, s)
    case NeedMore => Parsed([], s, false)
    case Desync => Parsed([], s, true)
    case Got(m) => Resume(Parsed([m], [], false), Parse(c, s[|m.raw|..]))
  }

  /** A parse taken up again: `p` so far, then what the rest gives. */
  function Resume(p: Parsed, q: Parsed): Parsed {
    Parsed(p.msgs + q.msgs, q.rest, q.desync)
  }

  lemma ResumeAssociates(p: Parsed, q: Parsed, r: Parsed)
    ensures Resume(p, Resume(q, r)) == Resume(Resume(p, q), r)
  {
    assert p.msgs + (q.msgs + r.msgs) == (p.msgs + q.msgs) + r.msgs;
  }

  function Raws(ms: seq<Message>): seq<byte> {
    if ms == [] then [] else ms[0].raw + Raws(ms[1..])
  }

  lemma {:induction false} RawsAppend(ms: seq<Message>, ns: seq<Message>)
    ensures Raws(ms + ns) == Raws(ms) + Raws(ns)
  {
    if ms == [] {
      assert ms + ns == ns;
    } else {
      assert (ms + ns)[1..] == ms[1..] + ns;
      RawsAppend(ms[1..], ns);
    }
  }

  lemma ConservesStep(m: Message, q: Parsed, s: seq<byte>)
    requires m.raw <= s && Raws(q.msgs) + q.rest == s[|m.raw|..]
    ensures Raws([m] + q.msgs) + q.rest == s
  {
    assert ([m] + q.msgs)[1..] == q.msgs;
    assert m.raw + (Raws(q.msgs) + q.rest) == (m.raw + Raws(q.msgs)) + q.rest;
    assert m.raw + s[|m.raw|..] == s;
  }

  /** The parse loses no byte: the messages' raw bytes and the remainder are the input. */
  lemma {:induction false} ParseConserves(c: Checking, s: seq<byte>)
    ensures var p := Parse(c, s); Raws(p.msgs) + p.rest == s
    decreases |s|
  {
    var r := ParseOne(c, s);
    if r.Got? {
      ParseConserves(c, s[|r.msg.raw|..]);
      ConservesStep(r.msg, Parse(c, s[|r.msg.raw|..]), s);
    }
  }

  lemma HeaderOfPrefix(s: seq<byte>)
    requires |s| >= HEADER_SIZE
    ensures ReadHeader(s[..HEADER_SIZE]) == ReadHeader(s)
  {
  }

  /** More bytes never change a decision already taken. */
  lemma ParseOneStable(c: Checking, s: seq<byte>, t: seq<byte>)
    requires ParseOne(c, s) != NeedMore
    ensures ParseOne(c, s + t) == ParseOne(c, s)
  {
    var h := ReadHeader(s);
    HeaderOfPrefix(s);
    HeaderOfPrefix(s + t);
    assert (s + t)[..HEADER_SIZE] == s[..HEADER_SIZE];
    assert (s + t)[HEADER_SIZE..FrameSize(h)] == s[HEADER_SIZE..FrameSize(h)];
    assert (s + t)[..FrameSize(h)] == s[..FrameSize(h)];
  }

  lemma GotStable(c: Checking, s: seq<byte>, t: seq<byte>, m: Message)
    requires ParseOne(c, s) == Got(m)
    ensures Parse(c, s + t) == Resume(Parsed([m], [], false), Parse(c, s[|m.raw|..] + t))
  {
    ParseOneStable(c, s, t);
    assert (s + t)[|m.raw|..] == s[|m.raw|..] + t;
  }

  /** Extra bytes only extend the output: parsing resumes where it had stopped. */
  lemma {:induction false} ParseResumes(c: Checking, s: seq<byte>, t: seq<byte>)
    requires !Parse(c, s).desync
    ensures Parse(c, s + t) == Resume(Parse(c, s), Parse(c, Parse(c, s).rest + t))
    decreases |s|
  {
    var r := ParseOne(c, s);
    if r.Got? {
      GotStable(c, s, t, r.msg);
      var tail := s[|r.msg.raw|..];
      ParseResumes(c, tail, t);
      ResumeAssociates(Parsed([r.msg], [], false), Parse(c, tail), Parse(c, Parse(c, tail).rest + t));
    } else {
      assert [] + Parse(c, s + t).msgs == Parse(c, s + t).msgs;
    }
  }

  /** Nothing follows a desync. */
  lemma {:induction false} DesyncIsFinal(c: Checking, s: seq<byte>, t: seq<byte>)
    requires Parse(c, s).desync
    ensures Parse(c, s + t) == Parsed(Parse(c, s).msgs, Parse(c, s).rest + t, true)
    decreases |s|
  {
    var r := ParseOne(c, s);
    if r.Got? {
      GotStable(c, s, t, r.msg);
      DesyncIsFinal(c, s[|r.msg.raw|..], t);
    } else {
      ParseOneStable(c, s, t);
    }
  }

  // ---- The scanner ----

  class Scanner {
    var buf: seq<byte>
    var off: nat
    var desync: bool
    const checked: Checking

    ghost predicate Valid()
      reads this
    {
      off <= |buf|
    }

    ghost function Unread(): seq<byte>
      requires Valid()
      reads this
    {
      buf[off..]
    }

    constructor (checked: Checking)
      ensures Valid() && Unread() == [] && buf == [] && !desync && this.checked == checked
    {
      buf, off, desync := [], 0, false;
      this.checked := checked;
    }

    function Buffered(): (n: nat)
      requires Valid()
      reads this
      ensures n == |Unread()|
    {
      |buf| - off
    }

    /** Consumed bytes are dropped first, so what is held stays bounded by what is unread. */
    method Feed(b: seq<byte>)
      requires Valid()
      modifies this
      ensures Valid() && desync == old(desync)
      ensures Unread() == old(Unread()) + b
      ensures |buf| <= COMPACT_ABOVE + |Unread()|
    {
      if off > 0 && off == |buf| {
        buf := [];
        off := 0;
      } else if off > COMPACT_ABOVE {
        buf := buf[off..];
        off := 0;
      }
      ghost var held := Unread();
      buf := buf + b;
      assert buf[off..] == held + b;
    }

    method Next() returns (r: Scan)
      requires Valid()
      modifies this
      ensures Valid() && buf == old(buf)
      ensures r == if old(desync) then Desync else ParseOne(checked, old(Unread()))
      ensures desync == (r == Desync)
      ensures Unread() == if r.Got? then old(Unread())[|r.msg.raw|..] else old(Unread())
    {
      hide ReadHeader;
      hide ParseOne;
      if desync {
        return Desync;
      }
      ghost var s := Unread();
      ShortParses(checked, s);
      if |buf| - off < HEADER_SIZE {
        return NeedMore;
      }
      var h := buf[off..off + HEADER_SIZE];
      Window(buf, off, HEADER_SIZE);
      HeaderOfPrefix(s);
      var hdr := ReadHeader(h);
      if hdr.special {
        var raw := buf[off..off + HEADER_SIZE];
        off := off + HEADER_SIZE;
        SpecialParses(checked, s);
        return Got(Message(hdr, [], raw));
      }
      var total := HEADER_SIZE + hdr.length;
      if |buf| - off < total {
        return NeedMore;
      }
      var raw := buf[off..off + total];
      Window(buf, off, total);
      OrdinaryParses(checked, s, hdr);
      var msg := Message(hdr, raw[HEADER_SIZE..], raw);
      if checked.Checked? && !ChecksumValid(checked.sum, msg) {
        desync := true;
        return Desync;
      }
      off := off + total;
      return Got(msg);
    }
  }

  lemma Window(b: seq<byte>, off: nat, n: nat)
    requires off + n <= |b|
    ensures b[off..][..n] == b[off..off + n] && b[off..][n..] == b[off + n..]
  {
  }

  lemma ShortParses(c: Checking, s: seq<byte>)
    ensures |s| < HEADER_SIZE || (!ReadHeader(s).special && |s| < HEADER_SIZE + ReadHeader(s).length)
            ==> ParseOne(c, s) == NeedMore
  {
  }

  lemma SpecialParses(c: Checking, s: seq<byte>)
    requires |s| >= HEADER_SIZE && ReadHeader(s).special
    ensures ParseOne(c, s) == Got(Message(ReadHeader(s), [], s[..HEADER_SIZE]))
  {
    assert s[HEADER_SIZE..HEADER_SIZE] == [];
  }

  lemma OrdinaryParses(c: Checking, s: seq<byte>, h: Header)
    requires |s| >= HEADER_SIZE && ReadHeader(s) == h && !h.special && |s| >= HEADER_SIZE + h.length
    ensures var raw := s[..HEADER_SIZE + h.length];
            var m := Message(h, raw[HEADER_SIZE..], raw);
            ParseOne(c, s) == if c.Checked? && !ChecksumValid(c.sum, m) then Desync else Got(m)
  {
    assert s[..HEADER_SIZE + h.length][HEADER_SIZE..] == s[HEADER_SIZE..HEADER_SIZE + h.length];
  }

  // ---- Every schedule of feeds and reads ----

  datatype Op = FeedOp(chunk: seq<byte>) | NextOp

  datatype ScanState = ScanState(unread: seq<byte>, desync: bool)

  function StepNext(c: Checking, st: ScanState): (r: (seq<Message>, ScanState)) {
    if st.desync then ([], st) else
    match ParseOne(c, st.unread)
    case NeedMore => ([], st)
    case Desync => ([], st.(desync := true))
    case Got(m) => ([m], st.(unread := st.unread[|m.raw|..]))
  }

  /** The messages a scanner returns over a schedule, and the state it is left in. */
  function Run(c: Checking, st: ScanState, ops: seq<Op>): (seq<Message>, ScanState)
    decreases |ops|
  {
    if ops == [] then ([], st) else
    match ops[0]
    case FeedOp(b) => Run(c, st.(unread := st.unread + b), ops[1..])
    case NextOp =>
      var (now, st1) := StepNext(c, st);
      var (later, st2) := Run(c, st1, ops[1..]);
      (now + later, st2)
  }

  function Fed(ops: seq<Op>): seq<byte> {
    if ops == [] then [] else (if ops[0].FeedOp? then ops[0].chunk else []) + Fed(ops[1..])
  }

  /** The scanner object goes through exactly the states of `Run`, whatever it compacts on the way. */
  method RunSchedule(s: Scanner, ops: seq<Op>) returns (out: seq<Message>)
    requires s.Valid()
    modifies s
    ensures s.Valid()
    ensures (out, ScanState(s.Unread(), s.desync)) == Run(s.checked, old(ScanState(s.Unread(), s.desync)), ops)
    decreases |ops|
  {
    if ops == [] {
      return [];
    }
    match ops[0]
    case FeedOp(b) =>
      s.Feed(b);
      out := RunSchedule(s, ops[1..]);
    case NextOp =>
      var r := s.Next();
      var later := RunSchedule(s, ops[1..]);
      out := (if r.Got? then [r.msg] else []) + later;
  }

  /** What remains to be parsed in a state, once `t` has been fed as well. */
  function Ahead(c: Checking, st: ScanState, t: seq<byte>): Parsed {
    if st.desync then Parsed([], st.unread + t, true) else Parse(c, st.unread + t)
  }

  lemma StepNextAhead(c: Checking, st: ScanState, t: seq<byte>)
    ensures var (now, st1) := StepNext(c, st); Ahead(c, st, t) == Resume(Parsed(now, [], false), Ahead(c, st1, t))
  {
    var (now, st1) := StepNext(c, st);
    assert [] + Ahead(c, st1, t).msgs == Ahead(c, st1, t).msgs;
    if !st.desync {
      match ParseOne(c, st.unread)
      case NeedMore =>
      case Desync => ParseOneStable(c, st.unread, t);
      case Got(m) => GotStable(c, st.unread, t, m);
    }
  }

  /** However feeds and reads alternate, the messages returned are a prefix of one parse of all
      the bytes, and parsing the unread bytes gives the rest of it. */
  lemma {:induction false} ScheduleRefinesParse(c: Checking, st: ScanState, ops: seq<Op>)
    ensures var (out, end) := Run(c, st, ops);
            Ahead(c, st, Fed(ops)) == Resume(Parsed(out, [], false), Ahead(c, end, []))
    decreases |ops|
  {
    if ops == [] {
      assert [] + Ahead(c, st, []).msgs == Ahead(c, st, []).msgs;
    } else {
      match ops[0]
      case FeedOp(b) =>
        ScheduleRefinesParse(c, st.(unread := st.unread + b), ops[1..]);
        assert st.unread + b + Fed(ops[1..]) == st.unread + Fed(ops);
      case NextOp =>
        StepNextAhead(c, st, Fed(ops[1..]));
        assert [] + Fed(ops[1..]) == Fed(ops[1..]);
        var (now, st1) := StepNext(c, st);
        ScheduleRefinesParse(c, st1, ops[1..]);
        var (later, end) := Run(c, st1, ops[1..]);
        ResumeAssociates(Parsed(now, [], false), Parsed(later, [], false), Ahead(c, end, []));
    }
  }

  const FRESH := ScanState([], false)

  /** A scanner has been drained when its next read would return nothing more. */
  predicate Drained(c: Checking, st: ScanState) {
    st.desync || ParseOne(c, st.unread).NeedMore?
  }

  /** From a fresh scanner to a drained one: exactly the messages and the verdict of one parse. */
  lemma DrainedScheduleIsParse(c: Checking, ops: seq<Op>)
    requires Drained(c, Run(c, FRESH, ops).1)
    ensures var (out, end) := Run(c, FRESH, ops);
            Parse(c, Fed(ops)) == Parsed(out, end.unread, end.desync)
  {
    hide ParseOne;
    hide Run;
    hide Fed;
    ScheduleRefinesParse(c, FRESH, ops);
    var (out, end) := Run(c, FRESH, ops);
    assert [] + Fed(ops) == Fed(ops) && end.unread + [] == end.unread && out + [] == out;
  }

  /** Once the scanner has reported a desync, no schedule makes it return another message. */
  lemma {:induction false} NothingAfterDesync(c: Checking, st: ScanState, ops: seq<Op>)
    requires st.desync
    ensures var (out, end) := Run(c, st, ops); out == [] && end.desync
    decreases |ops|
  {
    if ops != [] {
      match ops[0]
      case FeedOp(b) => NothingAfterDesync(c, st.(unread := st.unread + b), ops[1..]);
      case NextOp => NothingAfterDesync(c, st, ops[1..]);
    }
  }

  /** A drained scanner that has not desynced holds less than one maximal frame. */
  lemma UnreadBound(c: Checking, s: seq<byte>)
    requires ParseOne(c, s).NeedMore?
    ensures |s| <= 0xff_fffc + 11
  {
  }

  /** ... so that feeding it keeps the buffer within the protocol's own bound. */
  method FeedDrained(s: Scanner, b: seq<byte>)
    requires s.Valid() && ParseOne(s.checked, s.Unread()).NeedMore?
    modifies s
    ensures s.Valid() && s.Unread() == old(s.Unread()) + b && s.desync == old(s.desync)
    ensures |s.buf| <= 0x10_0000 + 0xff_fffc + 11 + |b|
  {
    UnreadBound(s.checked, s.Unread());
    s.Feed(b);
  }

  // ---- The encoder ----

  function WireHeader(length: uint32, seqNo: uint16, echoSeq: uint16, msgType: uint16, checksum: uint16): (r: seq<byte>)
    ensures |r| == HEADER_SIZE
  {
    PutBE32(length) + PutBE16(seqNo) + PutBE16(echoSeq) + PutBE16(msgType) + PutBE16(checksum)
  }

  /** Lengths are truncated to 32 bits, as the encoder's conversion does. */
  function Built(sum: SumFunction, msgType: uint16, seqNo: uint16, echoSeq: uint16, body: seq<byte>): seq<byte> {
    var length := |body| % 0x1_0000_0000;
    WireHeader(length, seqNo, echoSeq, msgType, sum(length, seqNo, echoSeq, msgType, body)) + body
  }

  method Build(msgType: uint16, seqNo: uint16, echoSeq: uint16, body: seq<byte>) returns (out: array<byte>)
    ensures fresh(out) && out[..] == Built(Checksums.Sum, msgType, seqNo, echoSeq, body)
  {
    var length := |body| % 0x1_0000_0000;
    var sum := Checksums.Checksum(length, seqNo, echoSeq, msgType, body);
    var h := WireHeader(length, seqNo, echoSeq, msgType, sum);
    var total := HEADER_SIZE + |body|;
    out := new byte[total](i requires 0 <= i < total => if i < HEADER_SIZE then h[i] else body[i - HEADER_SIZE]);
    assert out[..] == h + body;
  }

  lemma WireHeaderRoundTrip(length: uint32, seqNo: uint16, echoSeq: uint16, msgType: uint16, checksum: uint16)
    ensures ReadHeader(WireHeader(length, seqNo, echoSeq, msgType, checksum))
         == if length > SPECIAL_THRESHOLD then Header(length, 0, 0, 0, 0, true)
            else Header(length, seqNo, echoSeq, msgType, checksum, false)
  {
    BE32RoundTrip(length);
  }

  lemma WireHeaderInverse(h: seq<byte>)
    requires |h| == HEADER_SIZE && !ReadHeader(h).special
    ensures var d := ReadHeader(h); WireHeader(d.length, d.seqNo, d.echoSeq, d.msgType, d.checksum) == h
  {
    BE32Inverse(h[0], h[1], h[2], h[3]);
    BE16Inverse(h[4], h[5]);
    BE16Inverse(h[6], h[7]);
    BE16Inverse(h[8], h[9]);
    BE16Inverse(h[10], h[11]);
    assert h == [h[0], h[1], h[2], h[3]] + [h[4], h[5]] + [h[6], h[7]] + [h[8], h[9]] + [h[10], h[11]];
  }

  /** The message a scanner is expected to return for an encoded body. */
  function Expected(sum: SumFunction, msgType: uint16, seqNo: uint16, echoSeq: uint16, body: seq<byte>): Message {
    var length := |body| % 0x1_0000_0000;
    Message(Header(length, seqNo, echoSeq, msgType, sum(length, seqNo, echoSeq, msgType, body), false), body,
            Built(sum, msgType, seqNo, echoSeq, body))
  }

  lemma HeadedParses(c: Checking, w: seq<byte>, body: seq<byte>, rest: seq<byte>, h: Header)
    requires |w| == HEADER_SIZE && ReadHeader(w) == h && !h.special && h.length == |body|
    ensures var m := Message(h, body, w + body);
            ParseOne(c, w + body + rest) == if c.Checked? && !ChecksumValid(c.sum, m) then Desync else Got(m)
  {
    var s := w + body + rest;
    HeaderOfPrefix(s);
    assert s[..HEADER_SIZE] == w;
    OrdinaryParses(c, s, h);
    assert s[..HEADER_SIZE + h.length] == w + body && (w + body)[HEADER_SIZE..] == body;
  }

  lemma BuiltParses(sum: SumFunction, c: Checking, msgType: uint16, seqNo: uint16, echoSeq: uint16, body: seq<byte>,
                    rest: seq<byte>)
    requires |body| <= SPECIAL_THRESHOLD && (c.Checked? ==> c.sum == sum)
    ensures ParseOne(c, Built(sum, msgType, seqNo, echoSeq, body) + rest)
            == Got(Expected(sum, msgType, seqNo, echoSeq, body))
  {
    hide ParseOne;
    hide WireHeader;
    hide ReadHeader;
    var h := Expected(sum, msgType, seqNo, echoSeq, body).header;
    WireHeaderRoundTrip(h.length, seqNo, echoSeq, msgType, h.checksum);
    HeadedParses(c, WireHeader(h.length, seqNo, echoSeq, msgType, h.checksum), body, rest, h);
    ExpectedOf(sum, h, body);
  }

  /** The encoder's output is read back exactly when the body fits the framing. */
  lemma BuildRoundTripsIff(sum: SumFunction, c: Checking, msgType: uint16, seqNo: uint16, echoSeq: uint16,
                           body: seq<byte>)
    requires c.Checked? ==> c.sum == sum
    ensures ParseOne(c, Built(sum, msgType, seqNo, echoSeq, body)) == Got(Expected(sum, msgType, seqNo, echoSeq, body))
        <==> |body| <= SPECIAL_THRESHOLD
  {
    var m := Expected(sum, msgType, seqNo, echoSeq, body);
    assert m.raw + [] == m.raw;
    if |body| <= SPECIAL_THRESHOLD {
      BuiltParses(sum, c, msgType, seqNo, echoSeq, body, []);
    } else {
      var w := WireHeader(m.header.length, seqNo, echoSeq, msgType, m.header.checksum);
      WireHeaderRoundTrip(m.header.length, seqNo, echoSeq, msgType, m.header.checksum);
      HeaderOfPrefix(m.raw);
      assert m.raw[..HEADER_SIZE] == w;
    }
  }

  lemma FrameOfHeader(s: seq<byte>, h: Header)
    requires |s| >= HEADER_SIZE + h.length && ReadHeader(s) == h && !h.special
    ensures s[..HEADER_SIZE + h.length]
         == WireHeader(h.length, h.seqNo, h.echoSeq, h.msgType, h.checksum) + s[HEADER_SIZE..HEADER_SIZE + h.length]
  {
    HeaderOfPrefix(s);
    WireHeaderInverse(s[..HEADER_SIZE]);
  }

  /** Conversely, every ordinary frame a checking scanner accepts is, byte for byte, an encoder output. */
  lemma AcceptedFramesAreBuilt(sum: SumFunction, s: seq<byte>, m: Message)
    requires ParseOne(Checked(sum), s) == Got(m) && !m.header.special
    ensures |m.body| <= SPECIAL_THRESHOLD
    ensures m == Expected(sum, m.header.msgType, m.header.seqNo, m.header.echoSeq, m.body)
    ensures m.raw <= s
  {
    var h := m.header;
    assert h == ReadHeader(s) && m.body == s[HEADER_SIZE..HEADER_SIZE + h.length]
      && m.raw == s[..HEADER_SIZE + h.length];
    FrameOfHeader(s, h);
    ExpectedOf(sum, h, m.body);
  }

  lemma ExpectedOf(sum: SumFunction, h: Header, body: seq<byte>)
    requires h.length == |body| && !h.special && h.checksum == sum(h.length, h.seqNo, h.echoSeq, h.msgType, body)
    ensures Expected(sum, h.msgType, h.seqNo, h.echoSeq, body)
         == Message(h, body, WireHeader(h.length, h.seqNo, h.echoSeq, h.msgType, h.checksum) + body)
  {
  }

  // ---- Round trip of whole streams ----

  datatype Item =
    | Ordinary(msgType: uint16, seqNo: uint16, echoSeq: uint16, body: seq<byte>)
    | Sentinel(length: uint32, payload: seq<byte>)

  predicate Encodable(i: Item) {
    match i
    case Ordinary(_, _, _, body) => |body| <= SPECIAL_THRESHOLD
    case Sentinel(length, payload) => length > SPECIAL_THRESHOLD && |payload| == 8
  }

  function Encode(sum: SumFunction, i: Item): seq<byte> {
    match i
    case Ordinary(t, q, e, body) => Built(sum, t, q, e, body)
    case Sentinel(length, payload) => PutBE32(length) + payload
  }

  function Decoded(sum: SumFunction, i: Item): Message {
    match i
    case Ordinary(t, q, e, body) => Expected(sum, t, q, e, body)
    case Sentinel(length, payload) => Message(Header(length, 0, 0, 0, 0, true), [], Encode(sum, i))
  }

  function EncodeAll(sum: SumFunction, items: seq<Item>): seq<byte> {
    if items == [] then [] else Encode(sum, items[0]) + EncodeAll(sum, items[1..])
  }

  function DecodedAll(sum: SumFunction, items: seq<Item>): seq<Message> {
    if items == [] then [] else [Decoded(sum, items[0])] + DecodedAll(sum, items[1..])
  }

  lemma SentinelParses(sum: SumFunction, c: Checking, i: Item, rest: seq<byte>)
    requires i.Sentinel? && Encodable(i)
    ensures ParseOne(c, Encode(sum, i) + rest) == Got(Decoded(sum, i))
  {
    var s := Encode(sum, i) + rest;
    BE32RoundTrip(i.length);
    assert PutBE32(i.length) == s[..4];
    assert ReadHeader(s) == Header(i.length, 0, 0, 0, 0, true);
    SpecialParses(c, s);
    assert s[..HEADER_SIZE] == Encode(sum, i);
  }

  lemma ItemParses(sum: SumFunction, c: Checking, i: Item, rest: seq<byte>)
    requires Encodable(i) && (c.Checked? ==> c.sum == sum)
    ensures ParseOne(c, Encode(sum, i) + rest) == Got(Decoded(sum, i)) && Decoded(sum, i).raw == Encode(sum, i)
  {
    hide ParseOne;
    match i
    case Ordinary(t, q, e, body) => BuiltParses(sum, c, t, q, e, body, rest);
    case Sentinel(_, _) => SentinelParses(sum, c, i, rest);
  }

  lemma {:induction false} StreamRoundTrip(sum: SumFunction, c: Checking, items: seq<Item>)
    requires c.Checked? ==> c.sum == sum
    requires forall i | i in items :: Encodable(i)
    ensures Parse(c, EncodeAll(sum, items)) == Parsed(DecodedAll(sum, items), [], false)
    decreases |items|
  {
    if items != [] {
      var i, rest := items[0], EncodeAll(sum, items[1..]);
      var s := EncodeAll(sum, items);
      assert i in items;
      ItemParses(sum, c, i, rest);
      assert s[|Encode(sum, i)|..] == rest;
      StreamRoundTrip(sum, c, items[1..]);
    }
  }

  /** How many of the items are encoded wholly within the first n octets. */
  function Whole(sum: SumFunction, items: seq<Item>, n: nat): (k: nat)
    ensures k <= |items|
    decreases |items|
  {
    if items == [] || |Encode(sum, items[0])| > n then 0 else 1 + Whole(sum, items[1..], n - |Encode(sum, items[0])|)
  }

  /** A frame cut short is waited for. */
  lemma CutItemWaits(sum: SumFunction, c: Checking, i: Item, n: nat)
    requires Encodable(i) && (c.Checked? ==> c.sum == sum) && n < |Encode(sum, i)|
    ensures ParseOne(c, Encode(sum, i)[..n]) == NeedMore
  {
    hide Encode;
    hide Decoded;
    var e := Encode(sum, i);
    ItemParses(sum, c, i, []);
    assert e + [] == e && e[..n] + e[n..] == e;
    if ParseOne(c, e[..n]) != NeedMore {
      ParseOneStable(c, e[..n], e[n..]);
    }
  }

  lemma CutOfMore<T>(a: seq<T>, b: seq<T>, n: nat)
    requires n <= |a| + |b|
    ensures (a + b)[..n] == if n < |a| then a[..n] else a + b[..n - |a|]
  {
  }

  /** Of an encoding cut anywhere, exactly the items it holds whole are read back. */
  lemma {:induction false} CutStreamRoundTrip(sum: SumFunction, c: Checking, items: seq<Item>, n: nat)
    requires c.Checked? ==> c.sum == sum
    requires forall i | i in items :: Encodable(i)
    requires n <= |EncodeAll(sum, items)|
    ensures var p, k := Parse(c, EncodeAll(sum, items)[..n]), Whole(sum, items, n);
            p.msgs == DecodedAll(sum, items[..k]) && !p.desync && (n == |EncodeAll(sum, items)| ==> k == |items|)
    decreases |items|
  {
    hide Encode;
    hide Decoded;
    hide ParseOne;
    hide Encodable;
    if items == [] {
      NothingToParse(c);
    } else {
      var i, rest := items[0], EncodeAll(sum, items[1..]);
      var e := Encode(sum, i);
      assert i in items;
      CutOfMore(e, rest, n);
      if n < |e| {
        CutItemWaits(sum, c, i, n);
      } else {
        var k := Whole(sum, items[1..], n - |e|);
        CutStreamRoundTrip(sum, c, items[1..], n - |e|);
        ItemParses(sum, c, i, rest[..n - |e|]);
        assert (e + rest[..n - |e|])[|e|..] == rest[..n - |e|];
        assert items[..k + 1][1..] == items[1..][..k];
      }
    }
  }

  lemma NothingToParse(c: Checking)
    ensures Parse(c, []) == Parsed([], [], false)
  {
  }

  /** Any list of encoded messages and sentinels, cut into any chunks and read in any rhythm, comes
      back in order with nothing left over. */
  lemma ChunkedRoundTrip(sum: SumFunction, items: seq<Item>, ops: seq<Op>)
    requires forall i | i in items :: Encodable(i)
    requires Fed(ops) == EncodeAll(sum, items)
    requires Drained(Checked(sum), Run(Checked(sum), FRESH, ops).1)
    ensures Run(Checked(sum), FRESH, ops) == (DecodedAll(sum, items), FRESH)
  {
    StreamRoundTrip(sum, Checked(sum), items);
    DrainedScheduleIsParse(Checked(sum), ops);
  }
}
