/**
 The decoding pipeline: every captured frame goes through the flow table to the stream of its own
 direction, and every completed message is interpreted and recorded.
 */
module Pipelines {
  import opened Bytes
  import opened Options
  import BitFields
  import Bodies
  import opened Flows
  import opened Framing
  import opened Sequences
  import opened Streams
  import Text

  // ---- Interpreting one message ----

  datatype Kind = MessageType | AsyncRequest | Notification

  datatype Element = Element(kind: Kind, id: uint16)

  /** The elements this build knows by name. */
  type Universe = Element -> bool

  const ASSIGNED_SHARD := 0
  const AUTH_REQUEST := 4
  const CONNECT_DEDICATED_SERVER := 11
  const ASYNC_REQ := 13
  const NOTIFICATION := 14
  const PLAYER_CREDENTIALS := 9

  datatype Status = Decoded | Undecoded | UnknownElement | Failed

  /** An element seen, and whether its body was understood. */
  datatype Sighting = Sighting(element: Element, decoded: bool)

  datatype Handoff = Handoff(addr: string, port: uint16, session: uint64, zone: Bodies.int32)

  /** What a record shows of a body: addresses as text. */
  datatype Fields =
    | NoFields
    | SentinelFields(length: uint32)
    | HandoffFields(addr: string, port: uint16, session: uint64, zone: Bodies.int32)
    | ShardFields(shards: seq<string>, chat: Option<string>)

  datatype Reading = Reading(status: Status, inner: Option<Element>, seen: set<Sighting>, novel: seq<Element>,
                             handoff: Option<Handoff>, credentials: bool, fields: Fields)

  function Chars(b: seq<byte>): string { seq(|b|, i requires 0 <= i < |b| => b[i] as char) }

  function ReadType(u: Universe, id: uint16): Reading {
    var e := Element(MessageType, id);
    Reading(if u(e) then Undecoded else UnknownElement, None, if u(e) then {Sighting(e, false)} else {},
            if u(e) then [] else [e], None, id == AUTH_REQUEST, NoFields)
  }

  /** A container message is named after the opcode in its body. */
  function ReadInner(u: Universe, r: Reading, e: Element): Reading {
    if u(e) then
      r.(status := Undecoded, inner := Some(e), seen := r.seen + {Sighting(e, false)},
         credentials := r.credentials || e == Element(AsyncRequest, PLAYER_CREDENTIALS))
    else r.(status := UnknownElement, inner := Some(e), novel := r.novel + [e])
  }

  function Understood(r: Reading, id: uint16): Reading {
    r.(status := Decoded, seen := r.seen + {Sighting(Element(MessageType, id), true)})
  }

  function AddressText(a: Bodies.Address): string { AddrKey(Endpoint(Chars(a.ip), a.port)) }

  function AddressTexts(all: seq<Bodies.Address>): (r: seq<string>)
    ensures |r| == |all|
  {
    seq(|all|, i requires 0 <= i < |all| => AddressText(all[i]))
  }

  function ShardsShown(v: Bodies.AssignedShard): Fields {
    ShardFields(AddressTexts(v.shards), if v.chat.Some? then Some(AddressText(v.chat.value)) else None)
  }

  function Interpret(u: Universe, m: Message): Reading {
    if m.header.special then Reading(Decoded, None, {}, [], None, false, SentinelFields(m.header.length)) else
    var id := m.header.msgType;
    var r := ReadType(u, id);
    if id == ASYNC_REQ && |m.body| >= 2 then
      ReadInner(u, r, Element(AsyncRequest, GetBE16(m.body[0], m.body[1])))
    else if id == NOTIFICATION && |m.body| >= 2 then
      ReadInner(u, r, Element(Notification, GetBE16(m.body[1], m.body[0])))
    else if id == CONNECT_DEDICATED_SERVER then
      match Bodies.ParseHandoff(BitFields.Bits(m.body))
      case Rejected(_) => r.(status := Failed)
      case Result(d, _) =>
        var h := if d.addr == [] then None else Some(Handoff(Chars(d.addr), d.port, d.session, d.zone));
        Understood(r, id).(handoff := h, fields := HandoffFields(Chars(d.addr), d.port, d.session, d.zone))
    else if id == ASSIGNED_SHARD then
      match Bodies.ParseShards(BitFields.Bits(m.body))
      case Rejected(_) => r.(status := Failed)
      case Result(v, _) => Understood(r, id).(fields := ShardsShown(v))
    else r
  }

  // ---- What an interpretation tells ----

  /** The elements a message names: its type, and the opcode behind a container's type - most significant
      octet first in a request, last in a notification. */
  function Named(m: Message): seq<Element> {
    if m.header.special then [] else
    var id := m.header.msgType;
    [Element(MessageType, id)]
    + if id == 13 && |m.body| >= 2 then [Element(AsyncRequest, GetBE16(m.body[0], m.body[1]))]
      else if id == 14 && |m.body| >= 2 then [Element(Notification, GetBE16(m.body[1], m.body[0]))]
      else []
  }

  /** Every element a message names is reported: as seen if this build knows it, as novel if not, never
      as both; nothing else is reported as novel, and as understood only the type of the message. */
  lemma EachElementIsSeenOrNovel(u: Universe, m: Message, e: Element)
    ensures var r := Interpret(u, m);
            && (Sighting(e, false) in r.seen <==> e in Named(m) && u(e))
            && (e in r.novel <==> e in Named(m) && !u(e))
            && (Sighting(e, true) in r.seen ==> e in Named(m) && e.kind == MessageType)
            && (r.status == UnknownElement ==> r.novel != [])
  {
    hide Bodies.ParseHandoff;
    hide Bodies.ParseShards;
  }

  /** The body of a handoff or an assignment could be parsed, if only in part; or could not at all. */
  predicate Parses(m: Message) {
    || (m.header.msgType == 11 && Bodies.ParseHandoff(BitFields.Bits(m.body)).Result?)
    || (m.header.msgType == 0 && Bodies.ParseShards(BitFields.Bits(m.body)).Result?)
  }

  predicate IsRejected(m: Message) { (m.header.msgType == 11 || m.header.msgType == 0) && !Parses(m) }

  /** What became of a message: understood exactly when one of the two bodies parses, failed exactly when
      one of them does not, and otherwise by whether the innermost element it names is known. Of a sentinel
      nothing is told but its length. */
  lemma StatusIsExact(u: Universe, m: Message)
    ensures m.header.special ==>
              Interpret(u, m) == Reading(Decoded, None, {}, [], None, false, SentinelFields(m.header.length))
    ensures !m.header.special ==>
            var r, e := Interpret(u, m), Element(MessageType, m.header.msgType);
            && (r.status == Decoded <==> Parses(m)) && (Sighting(e, true) in r.seen <==> Parses(m))
            && (r.status == Failed <==> IsRejected(m))
            && (!Parses(m) && !IsRejected(m) ==>
                  r.status == if u(Named(m)[|Named(m)| - 1]) then Undecoded else UnknownElement)
            && r.inner == (if |Named(m)| == 2 then Some(Named(m)[1]) else None)
            && (r.handoff.Some? ==> m.header.msgType == 11 && Parses(m)) && (r.fields == NoFields <==> !Parses(m))
  {
    hide Bodies.ParseHandoff;
    hide Bodies.ParseShards;
  }

  /** Credentials are suspected in an authentication request, and in a known player-credentials request. */
  lemma CredentialsAreSuspectedIff(u: Universe, m: Message)
    ensures Interpret(u, m).credentials <==>
              && !m.header.special
              && (|| m.header.msgType == 4
                  || (m.header.msgType == 13 && |m.body| >= 2 && m.body[..2] == [0, 9] && u(Element(AsyncRequest, 9))))
  {
    hide Bodies.ParseHandoff;
    hide Bodies.ParseShards;
    if |m.body| >= 2 {
      BE16Inverse(m.body[0], m.body[1]);
      assert m.body[..2] == [m.body[0], m.body[1]];
    }
  }

  /** A text is shown with the octets it was sent as. */
  lemma CharsAreOctets(b: seq<byte>, i: nat)
    requires i < |b|
    ensures |Chars(b)| == |b| && Chars(b)[i] as int == b[i] as int
  {
  }

  /** `host:port` */
  predicate ShowsAddress(text: string, a: Bodies.Address) { text == Chars(a.ip) + ":" + Text.Decimal(a.port) }

  /** A packed shard assignment is understood, and its record shows each of its addresses as text. */
  lemma AssignmentIsUnderstood(u: Universe, m: Message, lead: bool, v: Bodies.AssignedShard)
    requires !m.header.special && m.header.msgType == 0
    requires Bodies.Encodable(v) && m.body == BitFields.Pack(Bodies.WriteShards(lead, v))
    ensures var r := Interpret(u, m);
            && r.status == Decoded && Sighting(Element(MessageType, 0), true) in r.seen
            && r.fields.ShardFields? && |r.fields.shards| == |v.shards|
            && (forall i | 0 <= i < |v.shards| :: ShowsAddress(r.fields.shards[i], v.shards[i]))
            && (match v.chat
                case None => r.fields.chat == None
                case Some(a) => r.fields.chat.Some? && ShowsAddress(r.fields.chat.value, a))
  {
    hide Bodies.ParseShards;
    hide Bodies.WriteShards;
    var w := Bodies.WriteShards(lead, v);
    BitFields.PackRoundTrip(w);
    Bodies.ShardsRoundTrip(lead, v, BitFields.Zeros(BitFields.Padding(w)));
  }

  lemma OpcodesAreRead(u: Universe, m: Message, op: uint16, rest: seq<byte>)
    requires !m.header.special
    ensures m.header.msgType == 13 && m.body == PutBE16(op) + rest
            ==> Interpret(u, m).inner == Some(Element(AsyncRequest, op))
    ensures m.header.msgType == 14 && m.body == PutLE16(op) + rest
            ==> Interpret(u, m).inner == Some(Element(Notification, op))
  {
    hide Bodies.ParseHandoff;
    hide Bodies.ParseShards;
    assert (PutBE16(op) + rest)[..2] == PutBE16(op);
    assert (PutLE16(op) + rest)[..2] == PutLE16(op);
  }

  /** A packed handoff is announced under the very address and port it was packed with, and one without
      an address is understood but not announced. */
  lemma HandoffIsRelayed(u: Universe, m: Message, d: Bodies.DedicatedServer)
    requires !m.header.special && m.header.msgType == 11
    requires BitFields.Terminable(d.addr, BitFields.MAX_STRING_LENGTH)
    requires m.body == BitFields.Pack(Bodies.WriteHandoff(d))
    ensures var r := Interpret(u, m);
            && r.status == Decoded && Sighting(Element(MessageType, 11), true) in r.seen
            && r.handoff == (if d.addr == [] then None else Some(Handoff(Chars(d.addr), d.port, d.session, d.zone)))
            && r.fields == HandoffFields(Chars(d.addr), d.port, d.session, d.zone)
  {
    hide Bodies.ParseHandoff;
    hide Bodies.WriteHandoff;
    var w := Bodies.WriteHandoff(d);
    BitFields.PackRoundTrip(w);
    Bodies.HandoffRoundTrip(d, BitFields.Zeros(BitFields.Padding(w)));
  }

  // ---- The state ----

  datatype Unit = Framed(msg: Message) | Datagram(payload: seq<byte>)

  datatype Record = Record(seqNo: nat, lane: Lane, unit: Unit, frames: seq<FrameRef>, reading: Reading, inMatch: bool)

  datatype PipelineState = PipelineState(table: TableState, streams: map<Lane, StreamState>, records: seq<Record>,
                                         observed: set<Sighting>, novel: seq<Element>, handoffs: seq<Handoff>,
                                         credSeen: bool, desyncs: nat, failures: nat)

  const START := PipelineState(EMPTY, map[], [], {}, [], [], false, 0, 0)

  datatype Contents =
    | Opaque
    | Tcp(src: Endpoint, dst: Endpoint, seqNo: uint32, payload: seq<byte>)
    | Udp(src: Endpoint, dst: Endpoint, payload: seq<byte>)

  /** A journaled frame: where it is in the journal and what it carries. */
  datatype Frame = Frame(ref: FrameRef, contents: Contents)

  function PacketOf(f: Frame): Packet
    requires !f.contents.Opaque?
  {
    Packet(f.contents.src, f.contents.dst, f.contents.Udp?)
  }

  function Emitted(st: PipelineState, lane: Lane, unit: Unit, frames: seq<FrameRef>, r: Reading,
                   inMatch: bool): PipelineState {
    st.(records := st.records + [Record(|st.records| + 1, lane, unit, frames, r, inMatch)])
  }

  /** Adds the elements not listed yet, in order. */
  function AddNovel(novel: seq<Element>, es: seq<Element>): seq<Element>
    decreases |es|
  {
    if es == [] then novel else AddNovel(if es[0] in novel then novel else novel + [es[0]], es[1..])
  }

  function Target(h: Handoff): Endpoint { Endpoint(h.addr, h.port) }

  function Tallied(st: PipelineState, r: Reading): PipelineState {
    st.(observed := st.observed + r.seen, novel := AddNovel(st.novel, r.novel),
        credSeen := st.credSeen || r.credentials,
        failures := st.failures + if r.status == Failed then 1 else 0)
  }

  function Relayed(st: PipelineState, handoff: Option<Handoff>): PipelineState {
    if handoff.None? then st
    else st.(table := Announce(st.table, Target(handoff.value), handoff.value.session),
             handoffs := st.handoffs + [handoff.value])
  }

  /** The bookkeeping of one interpreted message, before it is recorded. */
  function Noted(st: PipelineState, r: Reading): PipelineState { Relayed(Tallied(st, r), r.handoff) }

  function Processed(u: Universe, st: PipelineState, lane: Lane, k: Cited): PipelineState {
    var r := Interpret(u, k.msg);
    Emitted(Noted(st, r), lane, Framed(k.msg), k.frames, r, false)
  }

  function ProcessedAll(u: Universe, st: PipelineState, lane: Lane, ks: seq<Cited>): PipelineState
    decreases |ks|
  {
    if ks == [] then st else Processed(u, ProcessedAll(u, st, lane, ks[..|ks| - 1]), lane, ks[|ks| - 1])
  }

  function StreamAt(streams: map<Lane, StreamState>, lane: Lane): StreamState {
    if lane in streams then streams[lane] else NEW_STREAM
  }

  const DATAGRAM := Reading(Undecoded, None, {}, [], None, false, NoFields)

  function LostFraming(st: PipelineState, k: Key, frame: nat): PipelineState
    requires k in st.table.byKey
  {
    st.(table := Marked(st.table, k, frame), desyncs := st.desyncs + 1)
  }

  function StepTcp(c: Checking, u: Universe, st: PipelineState, lane: Lane, k: Key, g: Segment): PipelineState {
    if g.payload == [] then st else
    var o := Step(c, StreamAt(st.streams, lane), g);
    var st1 := ProcessedAll(u, st.(streams := st.streams[lane := o.st]), lane, o.out);
    if o.marked && k in st1.table.byKey then LostFraming(st1, k, g.ref.index) else st1
  }

  function StepUdp(st: PipelineState, lane: Lane, payload: seq<byte>, ref: FrameRef, inMatch: bool): PipelineState {
    if payload == [] then st else Emitted(st, lane, Datagram(payload), [ref], DATAGRAM, inMatch)
  }

  function StepFrame(c: Checking, u: Universe, st: PipelineState, f: Frame): PipelineState {
    if f.contents.Opaque? then st else
    var p := PacketOf(f);
    var st1 := st.(table := Observed(st.table, p));
    var lane := Tag(st.table, p);
    match f.contents
    case Tcp(_, _, seqNo, payload) => StepTcp(c, u, st1, lane, KeyOf(p), Segment(seqNo, payload, f.ref))
    case Udp(_, _, payload) =>
      StepUdp(st1, lane, payload, f.ref, st1.table.byKey[KeyOf(p)].verdict.service == Dedicated)
  }

  function RunPipeline(c: Checking, u: Universe, fs: seq<Frame>): PipelineState
    decreases |fs|
  {
    if fs == [] then START else StepFrame(c, u, RunPipeline(c, u, fs[..|fs| - 1]), fs[|fs| - 1])
  }

  lemma RunPipelineSnoc(c: Checking, u: Universe, fs: seq<Frame>, f: Frame)
    ensures RunPipeline(c, u, fs + [f]) == StepFrame(c, u, RunPipeline(c, u, fs), f)
  {
    hide StepFrame;
    assert (fs + [f])[..|fs|] == fs;
  }

  // ---- One flow on its own ----

  /** What a record says about its own flow, whatever else was captured. */
  datatype Emission = Emission(unit: Unit, frames: seq<FrameRef>)

  /** What was recorded on one lane, in order. */
  function On(records: seq<Record>, lane: Lane): seq<Emission>
    decreases |records|
  {
    if records == [] then [] else
    var r := records[|records| - 1];
    On(records[..|records| - 1], lane) + if r.lane == lane then [Emission(r.unit, r.frames)] else []
  }

  predicate Carries(f: Frame, p: Packet) { !f.contents.Opaque? && PacketOf(f) == p }

  /** The segments of one flow. */
  function SegmentsOf(fs: seq<Frame>, p: Packet): seq<Segment>
    decreases |fs|
  {
    if fs == [] then [] else
    var f := fs[|fs| - 1];
    SegmentsOf(fs[..|fs| - 1], p)
    + if Carries(f, p) && f.contents.Tcp? then [Segment(f.contents.seqNo, f.contents.payload, f.ref)] else []
  }

  function DatagramsOf(fs: seq<Frame>, p: Packet): seq<Emission>
    decreases |fs|
  {
    if fs == [] then [] else
    var f := fs[|fs| - 1];
    DatagramsOf(fs[..|fs| - 1], p)
    + if Carries(f, p) && f.contents.Udp? && f.contents.payload != []
      then [Emission(Datagram(f.contents.payload), [f.ref])] else []
  }

  function Emissions(out: seq<Cited>): seq<Emission> {
    seq(|out|, i requires 0 <= i < |out| => Emission(Framed(out[i].msg), out[i].frames))
  }

  /** What one flow gives when its own frames are all there is: a stream run for TCP, one unit citing
      exactly its own frame for each datagram that is not empty. */
  function Alone(c: Checking, fs: seq<Frame>, p: Packet): seq<Emission> {
    if p.udp then DatagramsOf(fs, p) else Emissions(RunStream(c, SegmentsOf(fs, p)).out)
  }

  // ---- Lanes and tables ----

  /** Connections are never forgotten and keep their identity. */
  ghost predicate Grown(t: TableState, t1: TableState) {
    forall k | k in t.byKey :: k in t1.byKey && Keeps(t.byKey[k], t1.byKey[k])
  }

  ghost predicate SameConns(t: TableState, t1: TableState) {
    Grown(t, t1) && t1.byKey.Keys == t.byKey.Keys && t1.nextID == t.nextID && (WellFormed(t) ==> WellFormed(t1))
  }

  lemma SameConnsTransitive(t: TableState, t1: TableState, t2: TableState)
    requires SameConns(t, t1) && SameConns(t1, t2)
    ensures SameConns(t, t2)
  {
    hide WellFormed;
    forall k | k in t.byKey
      ensures k in t2.byKey && Keeps(t.byKey[k], t2.byKey[k])
    {
      assert Keeps(t.byKey[k], t1.byKey[k]) && Keeps(t1.byKey[k], t2.byKey[k]);
    }
  }

  lemma AnnounceSameConns(t: TableState, e: Endpoint, session: uint64)
    ensures SameConns(t, Announce(t, e, session))
  {
    hide WellFormed;
    if WellFormed(t) {
      AnnounceKeeps(t, e, session);
    }
  }

  lemma MarkedSameConns(t: TableState, k: Key, frame: nat)
    requires k in t.byKey
    ensures SameConns(t, Marked(t, k, frame))
  {
    hide WellFormed;
    if WellFormed(t) {
      MarkKeeps(t, k, frame);
    }
  }

  lemma NoteSameConns(st: PipelineState, r: Reading)
    ensures SameConns(st.table, Noted(st, r).table)
    ensures Noted(st, r).records == st.records && Noted(st, r).streams == st.streams
  {
    hide Announce;
    hide WellFormed;
    if r.handoff.Some? {
      AnnounceSameConns(st.table, Target(r.handoff.value), r.handoff.value.session);
    }
  }

  lemma LaneKept(t: TableState, t1: TableState, p: Packet)
    requires Grown(t, t1) && KeyOf(p) in t.byKey
    ensures KeyOf(p) in t1.byKey && LaneIn(t, p) == LaneIn(t1, p)
  {
  }

  // ---- What a step does to every lane ----

  lemma EmissionsAppend(a: seq<Cited>, b: seq<Cited>)
    ensures Emissions(a + b) == Emissions(a) + Emissions(b) && Emissions([]) == []
  {
  }

  lemma EmissionsSnoc(a: seq<Cited>, k: Cited)
    ensures Emissions(a + [k]) == Emissions(a) + [Emission(Framed(k.msg), k.frames)]
  {
  }

  lemma OnEmit(st: PipelineState, lane: Lane, unit: Unit, frames: seq<FrameRef>, r: Reading, inMatch: bool, l: Lane)
    ensures On(Emitted(st, lane, unit, frames, r, inMatch).records, l)
         == On(st.records, l) + if l == lane then [Emission(unit, frames)] else []
  {
    var all := Emitted(st, lane, unit, frames, r, inMatch).records;
    assert all[..|all| - 1] == st.records;
  }

  lemma ProcessEffect(u: Universe, st: PipelineState, lane: Lane, k: Cited, l: Lane)
    ensures var st1 := Processed(u, st, lane, k);
            && On(st1.records, l) == On(st.records, l) + (if l == lane then [Emission(Framed(k.msg), k.frames)] else [])
            && st1.streams == st.streams && SameConns(st.table, st1.table)
  {
    hide SameConns;
    hide Noted;
    hide Interpret;
    var r := Interpret(u, k.msg);
    NoteSameConns(st, r);
    OnEmit(Noted(st, r), lane, Framed(k.msg), k.frames, r, false, l);
  }

  lemma {:induction false} ProcessAllEffect(u: Universe, st: PipelineState, lane: Lane, ks: seq<Cited>, l: Lane)
    ensures var st1 := ProcessedAll(u, st, lane, ks);
            && On(st1.records, l) == On(st.records, l) + (if l == lane then Emissions(ks) else [])
            && st1.streams == st.streams && SameConns(st.table, st1.table)
    decreases |ks|
  {
    hide SameConns;
    hide Processed;
    hide Emissions;
    hide On;
    if ks == [] {
      SameConnsReflexive(st.table);
      EmissionsAppend([], []);
    } else {
      var n := |ks| - 1;
      var st0 := ProcessedAll(u, st, lane, ks[..n]);
      ProcessAllEffect(u, st, lane, ks[..n], l);
      ProcessEffect(u, st0, lane, ks[n], l);
      SameConnsTransitive(st.table, st0.table, Processed(u, st0, lane, ks[n]).table);
      EmissionsSnoc(ks[..n], ks[n]);
      assert ks == ks[..n] + [ks[n]];
    }
  }

  lemma SameConnsReflexive(t: TableState)
    ensures SameConns(t, t)
  {
  }

  lemma StepTcpEffect(c: Checking, u: Universe, st: PipelineState, lane: Lane, k: Key, g: Segment, l: Lane)
    ensures var st1, o := StepTcp(c, u, st, lane, k, g), Step(c, StreamAt(st.streams, lane), g);
            && On(st1.records, l) == On(st.records, l) + (if l == lane then Emissions(o.out) else [])
            && StreamAt(st1.streams, l) == (if l == lane then o.st else StreamAt(st.streams, l))
            && SameConns(st.table, st1.table)
  {
    hide SameConns;
    SameConnsReflexive(st.table);
    var o := Step(c, StreamAt(st.streams, lane), g);
    if g.payload == [] {
      assert o == Outcome(StreamAt(st.streams, lane), [], false, [], false);
    } else {
      var st0 := st.(streams := st.streams[lane := o.st]);
      ProcessAllEffect(u, st0, lane, o.out, l);
      var st1 := ProcessedAll(u, st0, lane, o.out);
      if o.marked && k in st1.table.byKey {
        MarkedSameConns(st1.table, k, g.ref.index);
        SameConnsTransitive(st.table, st1.table, Marked(st1.table, k, g.ref.index));
      }
    }
  }

  // ---- The invariant ----

  /** Nothing carries this identifier yet. */
  ghost predicate Untouched(st: PipelineState, id: string) {
    (forall r | r in st.records :: r.lane.conn != id) && (forall l | l in st.streams :: l.conn != id)
  }

  ghost predicate Fresh(st: PipelineState) {
    forall n: nat | n > st.table.nextID :: Untouched(st, ConnID(n))
  }

  ghost predicate FlowSound(c: Checking, st: PipelineState, fs: seq<Frame>, q: Packet) {
    KeyOf(q) in st.table.byKey ==>
      var lane := LaneIn(st.table, q);
      && On(st.records, lane) == Alone(c, fs, q)
      && (!q.udp ==> StreamAt(st.streams, lane) == RunStream(c, SegmentsOf(fs, q)).st)
  }

  ghost predicate Absent(fs: seq<Frame>, q: Packet) { SegmentsOf(fs, q) == [] && DatagramsOf(fs, q) == [] }

  ghost predicate Separate(c: Checking, st: PipelineState, fs: seq<Frame>) {
    && WellFormed(st.table) && Fresh(st)
    && (forall q: Packet :: FlowSound(c, st, fs, q))
    && (forall q: Packet | KeyOf(q) !in st.table.byKey :: Absent(fs, q))
  }

  lemma IdsAreIssued(t: TableState, k: Key) returns (n: nat)
    requires WellFormed(t) && k in t.byKey
    ensures n <= t.nextID && t.byKey[k].id == ConnID(n)
  {
    hide ConnID;
    var i :| 0 <= i < |t.order| && t.order[i] == k;
    n := i + 1;
  }

  lemma UntouchedLane(st: PipelineState, lane: Lane)
    requires Untouched(st, lane.conn)
    ensures On(st.records, lane) == [] && StreamAt(st.streams, lane) == NEW_STREAM
  {
    NothingOn(st.records, lane);
  }

  lemma {:induction false} NothingOn(records: seq<Record>, lane: Lane)
    requires forall r | r in records :: r.lane.conn != lane.conn
    ensures On(records, lane) == []
    decreases |records|
  {
    if records != [] {
      assert records[|records| - 1] in records;
      NothingOn(records[..|records| - 1], lane);
    }
  }

  lemma AbsentAlone(c: Checking, fs: seq<Frame>, q: Packet)
    requires Absent(fs, q)
    ensures Alone(c, fs, q) == [] && RunStream(c, SegmentsOf(fs, q)).st == NEW_STREAM
  {
  }

  /** Meeting a packet's connection changes nothing for any flow. */
  lemma ObserveIsNeutral(c: Checking, st: PipelineState, fs: seq<Frame>, p: Packet, q: Packet)
    requires Separate(c, st, fs)
    ensures FlowSound(c, st.(table := Observed(st.table, p)), fs, q)
  {
    hide RunStream;
    hide Alone;
    hide On;
    hide Classify;
    hide ConnID;
    hide Absent;
    var t1 := Observed(st.table, p);
    if KeyOf(q) in st.table.byKey {
      assert FlowSound(c, st, fs, q);
    } else if KeyOf(q) in t1.byKey {
      assert t1.byKey[KeyOf(q)].id == ConnID(st.table.nextID + 1);
      assert Untouched(st, ConnID(st.table.nextID + 1));
      UntouchedLane(st, LaneIn(t1, q));
      AbsentAlone(c, fs, q);
    }
  }

  lemma RunStreamSnoc(c: Checking, segs: seq<Segment>, g: Segment)
    ensures var r, r1 := RunStream(c, segs), RunStream(c, segs + [g]);
            var o := Step(c, r.st, g);
            r1.st == o.st && r1.out == r.out + o.out
  {
    assert (segs + [g])[..|segs|] == segs;
  }

  lemma SegmentsSnoc(fs: seq<Frame>, f: Frame, q: Packet)
    ensures SegmentsOf(fs + [f], q) == SegmentsOf(fs, q)
      + if Carries(f, q) && f.contents.Tcp? then [Segment(f.contents.seqNo, f.contents.payload, f.ref)] else []
    ensures DatagramsOf(fs + [f], q) == DatagramsOf(fs, q)
      + if Carries(f, q) && f.contents.Udp? && f.contents.payload != []
        then [Emission(Datagram(f.contents.payload), [f.ref])] else []
  {
    assert (fs + [f])[..|fs|] == fs;
  }

  /** Frames of other flows leave a flow's own account unchanged. */
  lemma OthersAreInvisible(c: Checking, fs: seq<Frame>, f: Frame, q: Packet)
    requires !Carries(f, q)
    ensures Alone(c, fs + [f], q) == Alone(c, fs, q) && SegmentsOf(fs + [f], q) == SegmentsOf(fs, q)
    ensures Absent(fs, q) ==> Absent(fs + [f], q)
  {
    SegmentsSnoc(fs, f, q);
  }

  lemma AloneTcp(c: Checking, fs: seq<Frame>, f: Frame, g: Segment)
    requires f.contents.Tcp? && g == Segment(f.contents.seqNo, f.contents.payload, f.ref)
    ensures var p := PacketOf(f);
            var r := RunStream(c, SegmentsOf(fs, p));
            var o := Step(c, r.st, g);
            && Alone(c, fs + [f], p) == Alone(c, fs, p) + Emissions(o.out)
            && RunStream(c, SegmentsOf(fs + [f], p)).st == o.st
  {
    hide RunStream;
    hide Step;
    hide Emissions;
    var p := PacketOf(f);
    SegmentsSnoc(fs, f, p);
    RunStreamSnoc(c, SegmentsOf(fs, p), g);
    var r := RunStream(c, SegmentsOf(fs, p));
    EmissionsAppend(r.out, Step(c, r.st, g).out);
  }

  /** A TCP frame moves only its own flow, and moves it as if it were the only one. */
  lemma TcpStepIsLocal(c: Checking, u: Universe, st: PipelineState, fs: seq<Frame>, f: Frame, q: Packet)
    requires f.contents.Tcp? && WellFormed(st.table) && KeyOf(PacketOf(f)) in st.table.byKey
    requires FlowSound(c, st, fs, q) && FlowSound(c, st, fs, PacketOf(f))
    ensures var p := PacketOf(f);
            var g := Segment(f.contents.seqNo, f.contents.payload, f.ref);
            FlowSound(c, StepTcp(c, u, st, LaneIn(st.table, p), KeyOf(p), g), fs + [f], q)
  {
    hide RunStream;
    hide Alone;
    hide On;
    hide Step;
    hide Emissions;
    hide StepTcp;
    hide WellFormed;
    hide SegmentsOf;
    hide StreamAt;
    hide KeyOf;
    var p, g := PacketOf(f), Segment(f.contents.seqNo, f.contents.payload, f.ref);
    var st1 := StepTcp(c, u, st, LaneIn(st.table, p), KeyOf(p), g);
    if KeyOf(q) in st1.table.byKey {
      var l := LaneIn(st1.table, q);
      StepTcpEffect(c, u, st, LaneIn(st.table, p), KeyOf(p), g, l);
      LaneKept(st.table, st1.table, q);
      LanesAreEndpointPairs(st.table, p, q);
      if q == p {
        AloneTcp(c, fs, f, g);
      } else {
        OthersAreInvisible(c, fs, f, q);
      }
    }
  }

  lemma UdpStepIsLocal(c: Checking, st: PipelineState, fs: seq<Frame>, f: Frame, inMatch: bool, q: Packet)
    requires f.contents.Udp? && WellFormed(st.table) && KeyOf(PacketOf(f)) in st.table.byKey
    requires FlowSound(c, st, fs, q)
    ensures FlowSound(c, StepUdp(st, LaneIn(st.table, PacketOf(f)), f.contents.payload, f.ref, inMatch), fs + [f], q)
  {
    hide RunStream;
    hide On;
    hide WellFormed;
    hide SegmentsOf;
    hide DatagramsOf;
    hide KeyOf;
    var p := PacketOf(f);
    if KeyOf(q) in st.table.byKey {
      LanesAreEndpointPairs(st.table, p, q);
      if f.contents.payload != [] {
        OnEmit(st, LaneIn(st.table, p), Datagram(f.contents.payload), [f.ref], DATAGRAM, inMatch, LaneIn(st.table, q));
      }
      if q == p {
        SegmentsSnoc(fs, f, q);
        assert DatagramsOf(fs, q) + [] == DatagramsOf(fs, q);
      } else {
        OthersAreInvisible(c, fs, f, q);
      }
    }
  }

  // ---- New identifiers stay new ----

  lemma EmitTouches(st: PipelineState, lane: Lane, unit: Unit, frames: seq<FrameRef>, r: Reading, inMatch: bool,
                    id: string)
    requires Untouched(st, id) && lane.conn != id
    ensures Untouched(Emitted(st, lane, unit, frames, r, inMatch), id)
  {
  }

  lemma {:induction false} ProcessAllTouches(u: Universe, st: PipelineState, lane: Lane, ks: seq<Cited>, id: string)
    requires Untouched(st, id) && lane.conn != id
    ensures Untouched(ProcessedAll(u, st, lane, ks), id)
    decreases |ks|
  {
    hide Noted;
    hide Interpret;
    if ks != [] {
      var n := |ks| - 1;
      ProcessAllTouches(u, st, lane, ks[..n], id);
      var st0, r := ProcessedAll(u, st, lane, ks[..n]), Interpret(u, ks[n].msg);
      NoteSameConns(st0, r);
      EmitTouches(Noted(st0, r), lane, Framed(ks[n].msg), ks[n].frames, r, false, id);
    }
  }

  lemma StepTcpTouches(c: Checking, u: Universe, st: PipelineState, lane: Lane, k: Key, g: Segment, id: string)
    requires Untouched(st, id) && lane.conn != id
    ensures Untouched(StepTcp(c, u, st, lane, k, g), id)
  {
    if g.payload != [] {
      var o := Step(c, StreamAt(st.streams, lane), g);
      ProcessAllTouches(u, st.(streams := st.streams[lane := o.st]), lane, o.out, id);
    }
  }

  lemma ObservedIsFresh(st: PipelineState, p: Packet)
    requires Fresh(st)
    ensures Fresh(st.(table := Observed(st.table, p)))
  {
    hide ConnID;
    var st1 := st.(table := Observed(st.table, p));
    forall n: nat | n > st1.table.nextID
      ensures Untouched(st1, ConnID(n))
    {
      assert Untouched(st, ConnID(n));
    }
  }

  lemma StepTcpIsFresh(c: Checking, u: Universe, st: PipelineState, p: Packet, g: Segment)
    requires Fresh(st) && WellFormed(st.table) && KeyOf(p) in st.table.byKey
    ensures Fresh(StepTcp(c, u, st, LaneIn(st.table, p), KeyOf(p), g))
  {
    hide ConnID;
    hide WellFormed;
    hide StepTcp;
    var lane := LaneIn(st.table, p);
    var st1 := StepTcp(c, u, st, lane, KeyOf(p), g);
    StepTcpEffect(c, u, st, lane, KeyOf(p), g, lane);
    var m := IdsAreIssued(st.table, KeyOf(p));
    forall n: nat | n > st1.table.nextID
      ensures Untouched(st1, ConnID(n))
    {
      if ConnID(n) == ConnID(m) {
        ConnIDInjective(n, m);
      }
      assert Untouched(st, ConnID(n));
      StepTcpTouches(c, u, st, lane, KeyOf(p), g, ConnID(n));
    }
  }

  lemma StepUdpIsFresh(st: PipelineState, p: Packet, payload: seq<byte>, ref: FrameRef, inMatch: bool)
    requires Fresh(st) && WellFormed(st.table) && KeyOf(p) in st.table.byKey
    ensures Fresh(StepUdp(st, LaneIn(st.table, p), payload, ref, inMatch))
  {
    hide ConnID;
    hide WellFormed;
    var st1 := StepUdp(st, LaneIn(st.table, p), payload, ref, inMatch);
    var m := IdsAreIssued(st.table, KeyOf(p));
    forall n: nat | n > st1.table.nextID
      ensures Untouched(st1, ConnID(n))
    {
      if ConnID(n) == ConnID(m) {
        ConnIDInjective(n, m);
      }
      assert Untouched(st, ConnID(n));
    }
  }

  // ---- Flows do not interfere ----

  /** What meeting a packet's connection leaves true. */
  ghost predicate Met(c: Checking, st: PipelineState, fs: seq<Frame>, p: Packet) {
    && WellFormed(st.table) && Fresh(st) && KeyOf(p) in st.table.byKey
    && (forall q: Packet :: FlowSound(c, st, fs, q))
    && (forall q: Packet | KeyOf(q) !in st.table.byKey :: q != p && Absent(fs, q))
  }

  lemma MeetsPacket(c: Checking, st: PipelineState, fs: seq<Frame>, p: Packet)
    requires Separate(c, st, fs)
    ensures Met(c, st.(table := Observed(st.table, p)), fs, p)
  {
    hide FlowSound;
    hide Absent;
    hide WellFormed;
    hide Classify;
    hide Fresh;
    hide KeyOf;
    ObserveKeeps(st.table, p);
    ObservedIsFresh(st, p);
    var st1 := st.(table := Observed(st.table, p));
    forall q: Packet
      ensures FlowSound(c, st1, fs, q)
    {
      ObserveIsNeutral(c, st, fs, p, q);
    }
  }

  lemma TcpKeepsSeparate(c: Checking, u: Universe, st: PipelineState, fs: seq<Frame>, f: Frame)
    requires f.contents.Tcp? && Met(c, st, fs, PacketOf(f))
    ensures var p := PacketOf(f);
            var g := Segment(f.contents.seqNo, f.contents.payload, f.ref);
            Separate(c, StepTcp(c, u, st, LaneIn(st.table, p), KeyOf(p), g), fs + [f])
  {
    hide FlowSound;
    hide Absent;
    hide WellFormed;
    hide Fresh;
    hide KeyOf;
    hide StepTcp;
    var p, g := PacketOf(f), Segment(f.contents.seqNo, f.contents.payload, f.ref);
    var st1 := StepTcp(c, u, st, LaneIn(st.table, p), KeyOf(p), g);
    StepTcpEffect(c, u, st, LaneIn(st.table, p), KeyOf(p), g, LaneIn(st.table, p));
    StepTcpIsFresh(c, u, st, p, g);
    forall q: Packet
      ensures FlowSound(c, st1, fs + [f], q)
    {
      TcpStepIsLocal(c, u, st, fs, f, q);
    }
    forall q: Packet | KeyOf(q) !in st1.table.byKey
      ensures Absent(fs + [f], q)
    {
      assert q != p && Absent(fs, q);
      OthersAreInvisible(c, fs, f, q);
    }
  }

  lemma UdpKeepsSeparate(c: Checking, st: PipelineState, fs: seq<Frame>, f: Frame, inMatch: bool)
    requires f.contents.Udp? && Met(c, st, fs, PacketOf(f))
    ensures Separate(c, StepUdp(st, LaneIn(st.table, PacketOf(f)), f.contents.payload, f.ref, inMatch), fs + [f])
  {
    hide FlowSound;
    hide Absent;
    hide WellFormed;
    hide Fresh;
    hide KeyOf;
    var p := PacketOf(f);
    StepUdpIsFresh(st, p, f.contents.payload, f.ref, inMatch);
    var st1 := StepUdp(st, LaneIn(st.table, p), f.contents.payload, f.ref, inMatch);
    forall q: Packet
      ensures FlowSound(c, st1, fs + [f], q)
    {
      UdpStepIsLocal(c, st, fs, f, inMatch, q);
    }
    forall q: Packet | KeyOf(q) !in st1.table.byKey
      ensures Absent(fs + [f], q)
    {
      assert q != p && Absent(fs, q);
      OthersAreInvisible(c, fs, f, q);
    }
  }

  lemma StepFrameKeepsSeparate(c: Checking, u: Universe, st: PipelineState, fs: seq<Frame>, f: Frame)
    requires Separate(c, st, fs)
    ensures Separate(c, StepFrame(c, u, st, f), fs + [f])
  {
    hide FlowSound;
    hide Absent;
    hide WellFormed;
    hide Fresh;
    hide KeyOf;
    hide StepTcp;
    hide StepUdp;
    hide Observed;
    if f.contents.Opaque? {
      forall q: Packet
        ensures FlowSound(c, st, fs + [f], q) && (KeyOf(q) !in st.table.byKey ==> Absent(fs + [f], q))
      {
        OpaqueIsInvisible(c, st, fs, f, q);
      }
    } else {
      var p := PacketOf(f);
      MeetsPacket(c, st, fs, p);
      var st1 := st.(table := Observed(st.table, p));
      match f.contents
      case Tcp(_, _, _, _) => TcpKeepsSeparate(c, u, st1, fs, f);
      case Udp(_, _, _) => UdpKeepsSeparate(c, st1, fs, f, st1.table.byKey[KeyOf(p)].verdict.service == Dedicated);
    }
  }

  lemma OpaqueIsInvisible(c: Checking, st: PipelineState, fs: seq<Frame>, f: Frame, q: Packet)
    requires f.contents.Opaque? && FlowSound(c, st, fs, q)
    ensures FlowSound(c, st, fs + [f], q) && (Absent(fs, q) ==> Absent(fs + [f], q))
  {
    OthersAreInvisible(c, fs, f, q);
  }

  lemma {:induction false} RunIsSeparate(c: Checking, u: Universe, fs: seq<Frame>)
    ensures Separate(c, RunPipeline(c, u, fs), fs)
    decreases |fs|
  {
    hide Separate;
    hide StepFrame;
    if fs == [] {
      StartIsSeparate(c);
    } else {
      var before, f := fs[..|fs| - 1], fs[|fs| - 1];
      RunIsSeparate(c, u, before);
      StepFrameKeepsSeparate(c, u, RunPipeline(c, u, before), before, f);
      assert before + [f] == fs;
    }
  }

  lemma StartIsSeparate(c: Checking)
    ensures Separate(c, START, [])
  {
  }

  /** Non-interference: however frames of any number of connections are interleaved, what is recorded
      on a flow's lane is what its own frames give on their own. */
  lemma FlowsDoNotInterfere(c: Checking, u: Universe, fs: seq<Frame>, p: Packet)
    ensures var st := RunPipeline(c, u, fs);
            if KeyOf(p) in st.table.byKey then On(st.records, LaneIn(st.table, p)) == Alone(c, fs, p)
            else Alone(c, fs, p) == []
  {
    hide RunPipeline;
    hide Alone;
    hide LaneIn;
    hide On;
    hide KeyOf;
    hide WellFormed;
    hide Fresh;
    RunIsSeparate(c, u, fs);
    var st := RunPipeline(c, u, fs);
    assert FlowSound(c, st, fs, p);
    if KeyOf(p) !in st.table.byKey {
      assert Absent(fs, p);
      AbsentAlone(c, fs, p);
    }
  }

  /** Hence two captures that agree on one flow's frames record the same for it, whatever the rest. */
  lemma OnlyOwnFramesMatter(c: Checking, u: Universe, fs: seq<Frame>, gs: seq<Frame>, p: Packet)
    requires SegmentsOf(fs, p) == SegmentsOf(gs, p) && DatagramsOf(fs, p) == DatagramsOf(gs, p)
    requires KeyOf(p) in RunPipeline(c, u, fs).table.byKey && KeyOf(p) in RunPipeline(c, u, gs).table.byKey
    ensures var st, tt := RunPipeline(c, u, fs), RunPipeline(c, u, gs);
            On(st.records, LaneIn(st.table, p)) == On(tt.records, LaneIn(tt.table, p))
  {
    hide RunPipeline;
    hide On;
    hide RunStream;
    hide LaneIn;
    hide KeyOf;
    FlowsDoNotInterfere(c, u, fs, p);
    FlowsDoNotInterfere(c, u, gs, p);
  }

  // ---- Every record belongs to a captured flow ----

  ghost predicate OnSomeLane(r: Record, t: TableState, fs: seq<Frame>) {
    exists f :: f in fs && !f.contents.Opaque? && KeyOf(PacketOf(f)) in t.byKey && r.lane == LaneIn(t, PacketOf(f))
  }

  ghost predicate AllOnLanes(st: PipelineState, fs: seq<Frame>) {
    forall r | r in st.records :: OnSomeLane(r, st.table, fs)
  }

  lemma {:induction false} ProcessAllStaysOn(u: Universe, st: PipelineState, lane: Lane, ks: seq<Cited>, r: Record)
    requires r in ProcessedAll(u, st, lane, ks).records
    ensures r in st.records || r.lane == lane
    decreases |ks|
  {
    hide Noted;
    hide Interpret;
    if ks != [] {
      var n := |ks| - 1;
      var st0 := ProcessedAll(u, st, lane, ks[..n]);
      NoteSameConns(st0, Interpret(u, ks[n].msg));
      if r in st0.records {
        ProcessAllStaysOn(u, st, lane, ks[..n], r);
      }
    }
  }

  lemma StepFrameStaysOn(c: Checking, u: Universe, st: PipelineState, f: Frame, r: Record)
    requires !f.contents.Opaque? && r in StepFrame(c, u, st, f).records
    ensures r in st.records || r.lane == Tag(st.table, PacketOf(f))
  {
    hide Step;
    hide ProcessedAll;
    hide Observed;
    var p := PacketOf(f);
    var st1 := st.(table := Observed(st.table, p));
    match f.contents
    case Tcp(_, _, seqNo, payload) =>
      if payload != [] {
        var lane := Tag(st.table, p);
        var o := Step(c, StreamAt(st.streams, lane), Segment(seqNo, payload, f.ref));
        ProcessAllStaysOn(u, st1.(streams := st1.streams[lane := o.st]), lane, o.out, r);
      }
    case Udp(_, _, _) =>
  }

  lemma StepFrameGrows(c: Checking, u: Universe, st: PipelineState, f: Frame)
    ensures Grown(st.table, StepFrame(c, u, st, f).table)
    ensures !f.contents.Opaque? ==> KeyOf(PacketOf(f)) in StepFrame(c, u, st, f).table.byKey
    ensures !f.contents.Opaque? ==> Tag(st.table, PacketOf(f)) == LaneIn(StepFrame(c, u, st, f).table, PacketOf(f))
  {
    hide Step;
    hide ProcessedAll;
    hide Classify;
    hide WellFormed;
    if !f.contents.Opaque? {
      var p := PacketOf(f);
      var st1 := st.(table := Observed(st.table, p));
      var st2 := StepFrame(c, u, st, f);
      if f.contents.Tcp? {
        var lane := Tag(st.table, p);
        StepTcpEffect(c, u, st1, lane, KeyOf(p), Segment(f.contents.seqNo, f.contents.payload, f.ref), lane);
      }
      LaneKept(st1.table, st2.table, p);
    }
  }

  lemma StepFrameKeepsLanes(c: Checking, u: Universe, st: PipelineState, fs: seq<Frame>, f: Frame)
    requires AllOnLanes(st, fs)
    ensures AllOnLanes(StepFrame(c, u, st, f), fs + [f])
  {
    hide StepFrame;
    hide Tag;
    hide LaneIn;
    hide Grown;
    var st1 := StepFrame(c, u, st, f);
    StepFrameGrows(c, u, st, f);
    forall r | r in st1.records
      ensures OnSomeLane(r, st1.table, fs + [f])
    {
      if f.contents.Opaque? {
        assert st1 == st by { OpaqueFeedsNothing(c, u, st, f); }
      } else {
        StepFrameStaysOn(c, u, st, f, r);
      }
      if r in st.records {
        var g :| g in fs && !g.contents.Opaque? && KeyOf(PacketOf(g)) in st.table.byKey
          && r.lane == LaneIn(st.table, PacketOf(g));
        LaneKept(st.table, st1.table, PacketOf(g));
        assert g in fs + [f];
      } else {
        assert f in fs + [f];
      }
    }
  }

  lemma OpaqueFeedsNothing(c: Checking, u: Universe, st: PipelineState, f: Frame)
    requires f.contents.Opaque?
    ensures StepFrame(c, u, st, f) == st
  {
  }

  /** Every record is on the lane of some captured frame; with non-interference this accounts for all records. */
  lemma {:induction false} RecordsHaveFlows(c: Checking, u: Universe, fs: seq<Frame>)
    ensures AllOnLanes(RunPipeline(c, u, fs), fs)
    decreases |fs|
  {
    hide StepFrame;
    if fs != [] {
      hide AllOnLanes;
      var before, f := fs[..|fs| - 1], fs[|fs| - 1];
      RecordsHaveFlows(c, u, before);
      StepFrameKeepsLanes(c, u, RunPipeline(c, u, before), before, f);
      assert before + [f] == fs;
    }
  }

  // ---- From the wire to the records ----

  /** The records of one flow whose segments are true slices of its sender's stream, with any
      retransmission, overlap and wrap, and anything at all behind a loss of framing, but no gap: the messages
      of one parse of the octets accepted, each citing exactly the frames that carried its bytes. */
  lemma CapturedStreamIsDecoded(c: Checking, u: Universe, fs: seq<Frame>, p: Packet, truth: seq<byte>, isn: uint32,
                                arrivals: seq<Arrival>)
    requires !p.udp && SegmentsOf(fs, p) == Segments(arrivals)
    requires forall a | a in arrivals :: TrueSlice(truth, isn, a)
    requires InWindow(c, arrivals) && !RunStream(c, Segments(arrivals)).gaps
    requires exists a :: a in arrivals && a.seg.payload != []
    ensures var st, r, base := RunPipeline(c, u, fs), RunStream(c, SegmentsOf(fs, p)), Joined(arrivals);
            && KeyOf(p) in st.table.byKey
            && On(st.records, LaneIn(st.table, p)) == Emissions(r.out)
            && base + |r.fed| <= |truth|
            && Parse(c, truth[base..base + |r.fed|]) == Parsed(Msgs(r.out), r.st.scan.unread, r.st.scan.desync)
            && CitesAll(r.out, r.owners)
  {
    hide RunPipeline;
    hide On;
    hide LaneIn;
    hide KeyOf;
    hide RunStream;
    hide Parse;
    hide CitesAll;
    hide TrueSlice;
    hide WellFormed;
    hide Fresh;
    FlowsDoNotInterfere(c, u, fs, p);
    AcceptedIsOneSlice(c, truth, isn, arrivals);
    GapFreeRecords(c, truth, isn, arrivals);
    CitationsAreExact(c, Segments(arrivals));
    FlowIsTracked(c, u, fs, p, arrivals);
  }

  lemma FlowIsTracked(c: Checking, u: Universe, fs: seq<Frame>, p: Packet, arrivals: seq<Arrival>)
    requires SegmentsOf(fs, p) == Segments(arrivals) && arrivals != []
    ensures KeyOf(p) in RunPipeline(c, u, fs).table.byKey
  {
    hide RunPipeline;
    hide LaneIn;
    hide KeyOf;
    hide WellFormed;
    hide Fresh;
    RunIsSeparate(c, u, fs);
  }

  /** With nothing ahead of what has arrived, the records are those of one parse of all that has. */
  lemma CoveredStreamIsDecoded(c: Checking, u: Universe, fs: seq<Frame>, p: Packet, truth: seq<byte>, isn: uint32,
                               arrivals: seq<Arrival>)
    requires !p.udp && SegmentsOf(fs, p) == Segments(arrivals)
    requires forall a | a in arrivals :: TrueSlice(truth, isn, a)
    requires Contiguous(arrivals) && Cover(arrivals).Span?
    ensures var st, r, s := RunPipeline(c, u, fs), RunStream(c, SegmentsOf(fs, p)), Cover(arrivals);
            && KeyOf(p) in st.table.byKey
            && On(st.records, LaneIn(st.table, p)) == Emissions(r.out)
            && s.base <= s.reach <= |truth| && Msgs(r.out) == Parse(c, truth[s.base..s.reach]).msgs
            && CitesAll(r.out, r.owners)
  {
    hide RunPipeline;
    hide On;
    hide LaneIn;
    hide KeyOf;
    hide RunStream;
    hide Parse;
    hide CitesAll;
    hide TrueSlice;
    FlowsDoNotInterfere(c, u, fs, p);
    Reassembly(c, truth, isn, arrivals);
    ReassembledRecords(c, truth, isn, arrivals);
    CitationsAreExact(c, Segments(arrivals));
    FlowIsTracked(c, u, fs, p, arrivals);
  }

  /** End to end: a list of messages and sentinels, encoded, cut into segments in any way, captured from its
      beginning with any retransmissions and overlaps and among any other traffic, is recorded message for
      message as far as it was captured: exactly the messages that have arrived whole, in order. */
  lemma SentIsRecorded(sum: SumFunction, u: Universe, fs: seq<Frame>, p: Packet, items: seq<Item>, isn: uint32,
                       arrivals: seq<Arrival>, n: nat)
    requires !p.udp && SegmentsOf(fs, p) == Segments(arrivals)
    requires forall i | i in items :: Encodable(i)
    requires forall a | a in arrivals :: TrueSlice(EncodeAll(sum, items), isn, a)
    requires Contiguous(arrivals) && Cover(arrivals) == Span(0, n)
    ensures var st, out := RunPipeline(Checked(sum), u, fs), RunStream(Checked(sum), SegmentsOf(fs, p)).out;
            && KeyOf(p) in st.table.byKey
            && On(st.records, LaneIn(st.table, p)) == Emissions(out)
            && Msgs(out) == DecodedAll(sum, items[..Whole(sum, items, n)])
            && (n == |EncodeAll(sum, items)| ==> Msgs(out) == DecodedAll(sum, items))
  {
    hide RunPipeline;
    hide On;
    hide LaneIn;
    hide KeyOf;
    hide RunStream;
    hide Parse;
    hide CitesAll;
    hide TrueSlice;
    hide EncodeAll;
    hide DecodedAll;
    hide Whole;
    CoveredStreamIsDecoded(Checked(sum), u, fs, p, EncodeAll(sum, items), isn, arrivals);
    CutStreamRoundTrip(sum, Checked(sum), items, n);
    assert EncodeAll(sum, items)[0..n] == EncodeAll(sum, items)[..n];
    assert items[..|items|] == items;
  }

  // ---- The account the pipeline keeps of its records ----

  ghost predicate HandedOff(records: seq<Record>, e: Endpoint) {
    exists r :: r in records && r.reading.handoff.Some? && Target(r.reading.handoff.value) == e
  }

  function HandoffsIn(records: seq<Record>): seq<Handoff>
    decreases |records|
  {
    if records == [] then [] else
    var h := records[|records| - 1].reading.handoff;
    HandoffsIn(records[..|records| - 1]) + if h.Some? then [h.value] else []
  }

  function FailuresIn(records: seq<Record>): nat
    decreases |records|
  {
    if records == [] then 0 else
    FailuresIn(records[..|records| - 1]) + if records[|records| - 1].reading.status == Failed then 1 else 0
  }

  ghost predicate Counted(st: PipelineState) {
    && (forall i | 0 <= i < |st.records| :: st.records[i].seqNo == i + 1)
    && st.handoffs == HandoffsIn(st.records) && st.failures == FailuresIn(st.records)
    && (st.credSeen <==> exists r :: r in st.records && r.reading.credentials)
  }

  ghost predicate Sighted(observed: set<Sighting>, records: seq<Record>) {
    forall s :: s in observed <==> exists r :: r in records && s in r.reading.seen
  }

  /** What the records report as novel, one after the other. */
  function NovelIn(records: seq<Record>): seq<Element>
    decreases |records|
  {
    if records == [] then [] else NovelIn(records[..|records| - 1]) + records[|records| - 1].reading.novel
  }

  /** Each novel element of the records is listed once, in the order of their first reports. */
  ghost predicate Discovered(novel: seq<Element>, records: seq<Record>) {
    && NoDuplicates(novel) && novel == Distinct(NovelIn(records))
    && forall e :: e in novel <==> exists r :: r in records && e in r.reading.novel
  }

  ghost predicate Catalogued(st: PipelineState) {
    Sighted(st.observed, st.records) && Discovered(st.novel, st.records)
  }

  /** Some record announced the endpoint for this session. */
  ghost predicate HandedOffFor(records: seq<Record>, e: Endpoint, session: uint64) {
    exists r :: r in records && r.reading.handoff.Some? && Target(r.reading.handoff.value) == e
      && r.reading.handoff.value.session == session
  }

  ghost predicate Announcing(st: PipelineState) {
    && (forall e :: AddrKey(e) in st.table.dedicated <==> HandedOff(st.records, e))
    && (forall e | AddrKey(e) in st.table.dedicated ::
          HandedOffFor(st.records, e, st.table.dedicated[AddrKey(e)]))
  }

  /** Numbers, counters, sightings, discoveries and announcements are exactly those of the records. */
  ghost predicate Accounted(st: PipelineState) { Counted(st) && Catalogued(st) && Announcing(st) }

  lemma {:induction false} AddNovelAdds(novel: seq<Element>, es: seq<Element>)
    requires NoDuplicates(novel)
    ensures NoDuplicates(AddNovel(novel, es))
    ensures forall e :: e in AddNovel(novel, es) <==> e in novel || e in es
    decreases |es|
  {
    if es != [] {
      AddNovelAdds(if es[0] in novel then novel else novel + [es[0]], es[1..]);
    }
  }

  lemma {:induction false} AddNovelIsDistinct(novel: seq<Element>, es: seq<Element>)
    ensures AddNovel(novel, es) == DistinctOnto(novel, es)
    decreases |es|
  {
    if es != [] {
      AddNovelIsDistinct(if es[0] in novel then novel else novel + [es[0]], es[1..]);
    }
  }

  lemma NoNovel(novel: seq<Element>)
    ensures AddNovel(novel, []) == novel
  {
  }

  lemma {:induction false} AddNovelSnoc(novel: seq<Element>, es: seq<Element>, e: Element)
    ensures AddNovel(novel, es + [e]) == AddNovel(AddNovel(novel, es), [e])
    decreases |es|
  {
    if es == [] {
      assert [] + [e] == [e];
    } else {
      assert (es + [e])[1..] == es[1..] + [e];
      AddNovelSnoc(if es[0] in novel then novel else novel + [es[0]], es[1..], e);
    }
  }

  lemma CountsSnoc(records: seq<Record>, rec: Record)
    ensures HandoffsIn(records + [rec])
         == HandoffsIn(records) + if rec.reading.handoff.Some? then [rec.reading.handoff.value] else []
    ensures FailuresIn(records + [rec]) == FailuresIn(records) + if rec.reading.status == Failed then 1 else 0
  {
    assert (records + [rec])[..|records|] == records;
  }

  lemma RecordCounts(st: PipelineState, r: Reading, rec: Record)
    requires Counted(st) && rec.reading == r && rec.seqNo == |st.records| + 1
    ensures Counted(Noted(st, r).(records := st.records + [rec]))
  {
    hide Announce;
    hide HandoffsIn;
    hide FailuresIn;
    hide AddNovel;
    var all := st.records + [rec];
    CountsSnoc(st.records, rec);
    assert rec in all && forall q | q in st.records :: q in all;
    assert HandoffsIn(st.records) + [] == HandoffsIn(st.records);
  }

  lemma SightedGrows(observed: set<Sighting>, records: seq<Record>, rec: Record)
    requires Sighted(observed, records)
    ensures Sighted(observed + rec.reading.seen, records + [rec])
  {
    var all := records + [rec];
    assert rec in all && forall q | q in records :: q in all;
    assert forall q | q in all :: q in records || q == rec;
  }

  lemma DiscoveredGrows(novel: seq<Element>, records: seq<Record>, rec: Record)
    requires Discovered(novel, records)
    ensures Discovered(AddNovel(novel, rec.reading.novel), records + [rec])
  {
    hide AddNovel;
    var all := records + [rec];
    assert rec in all && forall q | q in records :: q in all;
    assert forall q | q in all :: q in records || q == rec;
    AddNovelAdds(novel, rec.reading.novel);
    AddNovelIsDistinct(novel, rec.reading.novel);
    assert all[..|records|] == records;
    DistinctOntoConcat([], NovelIn(records), rec.reading.novel);
  }

  lemma RecordCatalogues(st: PipelineState, r: Reading, rec: Record)
    requires Catalogued(st) && rec.reading == r
    ensures Catalogued(Noted(st, r).(records := st.records + [rec]))
  {
    hide Announce;
    hide Sighted;
    hide Discovered;
    SightedGrows(st.observed, st.records, rec);
    DiscoveredGrows(st.novel, st.records, rec);
  }

  lemma RecordAnnounces(st: PipelineState, r: Reading, rec: Record)
    requires Announcing(st) && rec.reading == r
    ensures Announcing(Noted(st, r).(records := st.records + [rec]))
  {
    hide AddrKey;
    var st1 := Noted(st, r).(records := st.records + [rec]);
    assert rec in st1.records && forall q | q in st.records :: q in st1.records;
    forall e
      ensures AddrKey(e) in st1.table.dedicated <==> HandedOff(st1.records, e)
      ensures AddrKey(e) in st1.table.dedicated ==>
                HandedOffFor(st1.records, e, st1.table.dedicated[AddrKey(e)])
    {
      if r.handoff.Some? && AddrKey(Target(r.handoff.value)) == AddrKey(e) {
        AddrKeyInjective(Target(r.handoff.value), e);
      }
    }
  }

  lemma RecordIsAccounted(st: PipelineState, lane: Lane, unit: Unit, frames: seq<FrameRef>, r: Reading, inMatch: bool)
    requires Accounted(st)
    ensures Accounted(Emitted(Noted(st, r), lane, unit, frames, r, inMatch))
  {
    hide Counted;
    hide Catalogued;
    hide Announcing;
    NoteSameConns(st, r);
    var rec := Record(|st.records| + 1, lane, unit, frames, r, inMatch);
    RecordCounts(st, r, rec);
    RecordCatalogues(st, r, rec);
    RecordAnnounces(st, r, rec);
  }

  lemma {:induction false} ProcessAllIsAccounted(u: Universe, st: PipelineState, lane: Lane, ks: seq<Cited>)
    requires Accounted(st)
    ensures Accounted(ProcessedAll(u, st, lane, ks))
    decreases |ks|
  {
    hide Accounted;
    hide Interpret;
    if ks != [] {
      var n := |ks| - 1;
      ProcessAllIsAccounted(u, st, lane, ks[..n]);
      RecordIsAccounted(ProcessedAll(u, st, lane, ks[..n]), lane, Framed(ks[n].msg), ks[n].frames,
        Interpret(u, ks[n].msg), false);
    }
  }

  /** Accounts look only at what the records tell, not at streams, connections or desyncs. */
  lemma AccountedElsewhere(st: PipelineState, st1: PipelineState)
    requires Accounted(st) && st1.records == st.records && st1.observed == st.observed && st1.novel == st.novel
    requires st1.handoffs == st.handoffs && st1.credSeen == st.credSeen && st1.failures == st.failures
    requires st1.table.dedicated == st.table.dedicated
    ensures Accounted(st1)
  {
  }

  lemma StepFrameIsAccounted(c: Checking, u: Universe, st: PipelineState, f: Frame)
    requires Accounted(st)
    ensures Accounted(StepFrame(c, u, st, f))
  {
    hide Accounted;
    hide Step;
    hide ProcessedAll;
    hide Classify;
    if !f.contents.Opaque? {
      var p := PacketOf(f);
      var st1 := st.(table := Observed(st.table, p));
      AccountedElsewhere(st, st1);
      var lane := Tag(st.table, p);
      match f.contents
      case Tcp(_, _, seqNo, payload) =>
        if payload != [] {
          var g := Segment(seqNo, payload, f.ref);
          var o := Step(c, StreamAt(st.streams, lane), g);
          var st2 := st1.(streams := st1.streams[lane := o.st]);
          AccountedElsewhere(st1, st2);
          ProcessAllIsAccounted(u, st2, lane, o.out);
          AccountedElsewhere(ProcessedAll(u, st2, lane, o.out), StepTcp(c, u, st1, lane, KeyOf(p), g));
        }
      case Udp(_, _, payload) =>
        var inMatch := st1.table.byKey[KeyOf(p)].verdict.service == Dedicated;
        RecordIsAccounted(st1, lane, Datagram(payload), [f.ref], DATAGRAM, inMatch);
        assert st1.observed + {} == st1.observed;
        assert Noted(st1, DATAGRAM) == st1;
    }
  }

  lemma {:induction false} RunIsAccounted(c: Checking, u: Universe, fs: seq<Frame>)
    ensures Accounted(RunPipeline(c, u, fs))
    decreases |fs|
  {
    hide StepFrame;
    if fs != [] {
      hide Accounted;
      RunIsAccounted(c, u, fs[..|fs| - 1]);
      StepFrameIsAccounted(c, u, RunPipeline(c, u, fs[..|fs| - 1]), fs[|fs| - 1]);
    }
  }

  /** A connection is labelled from a handoff exactly when some recorded message announced its server
      end, whichever flow carried that message and whether it came before or after. */
  lemma DedicatedExactlyWhenHandedOff(c: Checking, u: Universe, fs: seq<Frame>, k: Key)
    requires k in RunPipeline(c, u, fs).table.byKey
    ensures var st := RunPipeline(c, u, fs);
            var v := st.table.byKey[k].verdict;
            && (v.service == Dedicated <==> HandedOff(st.records, v.server))
            && (v.evidence == ByHandoff <==> v.service == Dedicated)
  {
    hide RunPipeline;
    hide FlowSound;
    hide Fresh;
    hide HandedOff;
    hide Counted;
    hide Catalogued;
    RunIsSeparate(c, u, fs);
    RunIsAccounted(c, u, fs);
    var st := RunPipeline(c, u, fs);
    assert Sound(st.table.dedicated, st.table.byKey[k], k);
  }

  lemma HandedOffBefore(records: seq<Record>, rec: Record, e: Endpoint)
    requires rec.reading.handoff.None?
    ensures HandedOff(records + [rec], e) <==> HandedOff(records, e)
  {
    assert forall r | r in records :: r in records + [rec];
    assert forall r | r in records + [rec] :: r in records || r == rec;
  }

  /** A datagram that is not empty gives one undecoded record, told to be in a match exactly when some recorded
      message had announced its server end. */
  lemma DatagramsTellTheMatch(c: Checking, u: Universe, fs: seq<Frame>, f: Frame)
    requires f.contents.Udp? && f.contents.payload != []
    ensures var st, st1 := RunPipeline(c, u, fs), RunPipeline(c, u, fs + [f]);
            var p := PacketOf(f);
            && KeyOf(p) in st1.table.byKey
            && exists r :: st1.records == st.records + [r]
                 && r.unit == Datagram(f.contents.payload) && r.frames == [f.ref] && r.lane == LaneIn(st1.table, p)
                 && r.reading == Reading(Undecoded, None, {}, [], None, false, NoFields)
                 && (r.inMatch <==> HandedOff(st.records, st1.table.byKey[KeyOf(p)].verdict.server))
  {
    hide RunPipeline;
    hide HandedOff;
    hide KeyOf;
    hide LaneIn;
    var p := PacketOf(f);
    var st, st1 := RunPipeline(c, u, fs), RunPipeline(c, u, fs + [f]);
    RunPipelineSnoc(c, u, fs, f);
    LaneOfObserved(st.table, p);
    hide Observed;
    hide Tag;
    var r := st1.records[|st.records|];
    assert st1.records == st.records + [r];
    DedicatedExactlyWhenHandedOff(c, u, fs + [f], KeyOf(p));
    HandedOffBefore(st.records, r, st1.table.byKey[KeyOf(p)].verdict.server);
  }

  // ---- What the records hold ----

  /** A message's record holds what its interpretation tells, a datagram's that nothing is known of it. */
  predicate Holds(u: Universe, r: Record) {
    match r.unit
    case Framed(m) => r.reading == Interpret(u, m) && !r.inMatch
    case Datagram(payload) => payload != [] && r.reading == Reading(Undecoded, None, {}, [], None, false, NoFields)
  }

  predicate AllHold(u: Universe, records: seq<Record>) { forall r | r in records :: Holds(u, r) }

  lemma {:induction false} ProcessedAllHold(u: Universe, st: PipelineState, lane: Lane, ks: seq<Cited>)
    requires AllHold(u, st.records)
    ensures AllHold(u, ProcessedAll(u, st, lane, ks).records)
    decreases |ks|
  {
    hide Interpret;
    hide Announce;
    if ks != [] {
      ProcessedAllHold(u, st, lane, ks[..|ks| - 1]);
    }
  }

  /** In every run, every record holds the reading of the very unit it records. */
  lemma {:induction false} RecordsAreReadings(c: Checking, u: Universe, fs: seq<Frame>)
    ensures AllHold(u, RunPipeline(c, u, fs).records)
    decreases |fs|
  {
    hide Interpret;
    hide Observed;
    hide Step;
    hide ProcessedAll;
    hide Tag;
    if fs != [] {
      var st, f := RunPipeline(c, u, fs[..|fs| - 1]), fs[|fs| - 1];
      RecordsAreReadings(c, u, fs[..|fs| - 1]);
      if f.contents.Tcp? {
        StepTcpHolds(c, u, st.(table := Observed(st.table, PacketOf(f))), Tag(st.table, PacketOf(f)),
          KeyOf(PacketOf(f)), Segment(f.contents.seqNo, f.contents.payload, f.ref));
      }
    }
  }

  lemma StepTcpHolds(c: Checking, u: Universe, st: PipelineState, lane: Lane, k: Key, g: Segment)
    requires AllHold(u, st.records)
    ensures AllHold(u, StepTcp(c, u, st, lane, k, g).records)
  {
    hide Step;
    hide ProcessedAll;
    var o := Step(c, StreamAt(st.streams, lane), g);
    ProcessedAllHold(u, st.(streams := st.streams[lane := o.st]), lane, o.out);
  }

  // ---- The account of lost framing ----

  /** The report that framing was lost on a connection at a frame. */
  datatype Mark = Mark(key: Key, frame: nat)

  /** The report a frame gives rise to, by its own flow's stream alone. */
  function MarkOf(c: Checking, before: seq<Frame>, f: Frame): seq<Mark> {
    if !f.contents.Tcp? then [] else
    var p := PacketOf(f);
    var o := Step(c, RunStream(c, SegmentsOf(before, p)).st, Segment(f.contents.seqNo, f.contents.payload, f.ref));
    if o.marked then [Mark(KeyOf(p), f.ref.index)] else []
  }

  function MarksIn(c: Checking, fs: seq<Frame>): seq<Mark>
    decreases |fs|
  {
    if fs == [] then [] else
    var before := fs[..|fs| - 1];
    MarksIn(c, before) + MarkOf(c, before, fs[|fs| - 1])
  }

  /** The frame of the first report on a connection, whichever direction it was on. */
  function FirstMark(ms: seq<Mark>, k: Key): (frame: Option<nat>)
    ensures frame.None? ==> forall m | m in ms :: m.key != k
    ensures frame.Some? ==>
              exists i :: 0 <= i < |ms| && ms[i] == Mark(k, frame.value) && forall j | 0 <= j < i :: ms[j].key != k
    decreases |ms|
  {
    if ms == [] then None else
    var m := ms[|ms| - 1];
    var early := FirstMark(ms[..|ms| - 1], k);
    assert ms == ms[..|ms| - 1] + [m];
    if early.None? && m.key == k then assert ms[|ms| - 1] == Mark(k, m.frame); Some(m.frame) else early
  }

  lemma FirstMarkSnoc(ms: seq<Mark>, m: Mark, k: Key)
    ensures FirstMark(ms + [m], k) == if FirstMark(ms, k).None? && m.key == k then Some(m.frame) else FirstMark(ms, k)
  {
    assert (ms + [m])[..|ms|] == ms;
  }

  function DesyncOf(t: TableState, k: Key): Option<nat> { if k in t.byKey then t.byKey[k].desyncAt else None }

  /** The counter counts the reports, and each connection tells the first of its own. */
  ghost predicate Reported(st: PipelineState, ms: seq<Mark>) {
    st.desyncs == |ms| && forall k: Key :: DesyncOf(st.table, k) == FirstMark(ms, k)
  }

  ghost predicate SameDesyncs(st: PipelineState, st1: PipelineState) {
    st1.desyncs == st.desyncs && forall k: Key :: DesyncOf(st1.table, k) == DesyncOf(st.table, k)
  }

  lemma ProcessKeepsDesyncs(u: Universe, st: PipelineState, lane: Lane, k: Cited)
    ensures SameDesyncs(st, Processed(u, st, lane, k))
  {
    hide Interpret;
    hide AddrKey;
    hide AddNovel;
  }

  lemma {:induction false} ProcessAllKeepsDesyncs(u: Universe, st: PipelineState, lane: Lane, ks: seq<Cited>)
    ensures SameDesyncs(st, ProcessedAll(u, st, lane, ks))
    decreases |ks|
  {
    hide Processed;
    if ks != [] {
      ProcessAllKeepsDesyncs(u, st, lane, ks[..|ks| - 1]);
      ProcessKeepsDesyncs(u, ProcessedAll(u, st, lane, ks[..|ks| - 1]), lane, ks[|ks| - 1]);
    }
  }

  lemma LossIsReported(st: PipelineState, k: Key, frame: nat, ms: seq<Mark>)
    requires k in st.table.byKey && Reported(st, ms)
    ensures Reported(LostFraming(st, k, frame), ms + [Mark(k, frame)])
  {
    hide FirstMark;
    var st1, m := LostFraming(st, k, frame), Mark(k, frame);
    forall q: Key
      ensures DesyncOf(st1.table, q) == FirstMark(ms + [m], q)
    {
      FirstMarkSnoc(ms, m, q);
      assert DesyncOf(st.table, q) == FirstMark(ms, q);
    }
  }

  lemma StepTcpReports(c: Checking, u: Universe, st: PipelineState, lane: Lane, k: Key, g: Segment, ms: seq<Mark>)
    requires k in st.table.byKey && Reported(st, ms)
    ensures var o := Step(c, StreamAt(st.streams, lane), g);
            Reported(StepTcp(c, u, st, lane, k, g), ms + if o.marked then [Mark(k, g.ref.index)] else [])
  {
    hide FirstMark;
    assert ms + [] == ms;
    var o := Step(c, StreamAt(st.streams, lane), g);
    if g.payload == [] {
      assert !o.marked;
    } else {
      hide Step;
      hide LostFraming;
      var st0 := st.(streams := st.streams[lane := o.st]);
      var st1 := ProcessedAll(u, st0, lane, o.out);
      ProcessAllKeepsDesyncs(u, st0, lane, o.out);
      assert Reported(st1, ms);
      ProcessAllEffect(u, st0, lane, o.out, lane);
      if o.marked {
        LossIsReported(st1, k, g.ref.index, ms);
      }
    }
  }

  lemma ObserveReportsNothing(st: PipelineState, p: Packet, ms: seq<Mark>)
    requires Reported(st, ms)
    ensures Reported(st.(table := Observed(st.table, p)), ms)
  {
    hide FirstMark;
    hide Classify;
    hide KeyOf;
    var st1 := st.(table := Observed(st.table, p));
    forall q: Key
      ensures DesyncOf(st1.table, q) == FirstMark(ms, q)
    {
      assert DesyncOf(st.table, q) == FirstMark(ms, q);
    }
  }

  lemma StepFrameReports(c: Checking, u: Universe, st: PipelineState, fs: seq<Frame>, f: Frame, ms: seq<Mark>)
    requires Separate(c, st, fs) && Reported(st, ms)
    ensures Reported(StepFrame(c, u, st, f), ms + MarkOf(c, fs, f))
  {
    hide Step;
    hide StepTcp;
    hide Reported;
    hide RunStream;
    hide Separate;
    hide KeyOf;
    assert ms + [] == ms;
    if !f.contents.Opaque? {
      var p := PacketOf(f);
      var st1 := st.(table := Observed(st.table, p));
      ObserveReportsNothing(st, p, ms);
      MeetsPacket(c, st, fs, p);
      LaneOfObserved(st.table, p);
      match f.contents
      case Tcp(_, _, seqNo, payload) =>
        assert FlowSound(c, st1, fs, p);
        StepTcpReports(c, u, st1, Tag(st.table, p), KeyOf(p), Segment(seqNo, payload, f.ref), ms);
      case Udp(_, _, payload) =>
        var inMatch := st1.table.byKey[KeyOf(p)].verdict.service == Dedicated;
        UdpReportsNothing(st1, Tag(st.table, p), payload, f.ref, inMatch, ms);
    }
  }

  lemma LaneOfObserved(t: TableState, p: Packet)
    ensures var t1 := Observed(t, p); KeyOf(p) in t1.byKey && LaneIn(t1, p) == Tag(t, p)
  {
    hide Classify;
    hide KeyOf;
  }

  lemma UdpReportsNothing(st: PipelineState, lane: Lane, payload: seq<byte>, ref: FrameRef, inMatch: bool,
                          ms: seq<Mark>)
    requires Reported(st, ms)
    ensures Reported(StepUdp(st, lane, payload, ref, inMatch), ms)
  {
    hide FirstMark;
    var st1 := StepUdp(st, lane, payload, ref, inMatch);
    assert st1.table == st.table;
  }

  /** Over any capture, however its flows interleave, the counter of lost framings counts exactly the frames at
      which some flow's own stream is reported to have lost its framing, and a connection's desync frame is
      the first of those in either of its directions. */
  lemma {:induction false} DesyncsAreReported(c: Checking, u: Universe, fs: seq<Frame>)
    ensures Reported(RunPipeline(c, u, fs), MarksIn(c, fs))
    decreases |fs|
  {
    hide StepFrame;
    hide MarkOf;
    hide Separate;
    if fs != [] {
      hide Reported;
      var before := fs[..|fs| - 1];
      DesyncsAreReported(c, u, before);
      RunIsSeparate(c, u, before);
      StepFrameReports(c, u, RunPipeline(c, u, before), before, fs[|fs| - 1], MarksIn(c, before));
    }
  }

  // ---- The pipeline as the program keeps it ----

  lemma StreamThenStep(c: Checking, m: PipelineState, lane: Lane, g: Segment, m1: PipelineState, m2: PipelineState)
    requires m1 == m.(streams := m.streams[lane := StreamAt(m.streams, lane)])
    requires m2 == m1.(streams := m1.streams[lane := Step(c, m1.streams[lane], g).st])
    ensures m1.streams[lane] == StreamAt(m.streams, lane)
    ensures m2 == m.(streams := m.streams[lane := Step(c, StreamAt(m.streams, lane), g).st])
  {
    hide Step;
    var o := Step(c, StreamAt(m.streams, lane), g);
    assert m1.streams[lane := o.st] == m.streams[lane := o.st];
  }

  lemma ValuesAfterInsert<K, V>(m: map<K, V>, k: K, v: V)
    requires k !in m
    ensures m[k := v].Values == m.Values + {v}
  {
    var m1 := m[k := v];
    assert m1[k] == v;
    assert forall l | l in m :: m1[l] == m[l];
  }

  class Pipeline {
    const checked: Checking
    const universe: Universe
    const table: Table
    var streams: map<Lane, Stream>
    var records: seq<Record>
    var observed: set<Sighting>
    var novel: seq<Element>
    var handoffs: seq<Handoff>
    var credSeen: bool
    var desyncs: nat
    var failures: nat

    /** The objects behind the streams, apart from the table and the connections. */
    ghost function Objects(): set<object>
      reads this`streams
    {
      (set s | s in streams.Values :: s as object) + (set s | s in streams.Values :: s.scanner as object)
    }

    ghost predicate StreamsValid()
      reads this`streams, Objects()
    {
      && (forall l | l in streams ::
            var s := streams[l]; assert s in streams.Values; s.Valid() && s.scanner.checked == checked)
      && (forall l, m | l in streams && m in streams && l != m ::
            streams[l] != streams[m] && streams[l].scanner != streams[m].scanner)
    }

    ghost function StreamModel(): map<Lane, StreamState>
      requires StreamsValid()
      reads this`streams, Objects()
    {
      map l | l in streams :: var s := streams[l]; assert s in streams.Values; s.State()
    }

    ghost predicate Valid()
      reads this`streams, table, table.byKey.Values, Objects()
    {
      && table.Valid() && StreamsValid()
      && this !in Objects() && table !in Objects() && table.byKey.Values !! Objects()
    }

    ghost function Model(): PipelineState
      requires Valid()
      reads this, table, table.byKey.Values, Objects()
    {
      PipelineState(table.Model(), StreamModel(), records, observed, novel, handoffs, credSeen, desyncs, failures)
    }

    constructor (c: Checking, u: Universe)
      ensures Valid() && checked == c && universe == u && Model() == START
      ensures fresh(table) && table.byKey == map[] && Objects() == {}
    {
      checked, universe := c, u;
      table := new Table();
      streams, records, observed, novel, handoffs := map[], [], {}, [], [];
      credSeen, desyncs, failures := false, 0, 0;
    }

    method NoteNovel(e: Element)
      modifies this`novel
      ensures novel == AddNovel(old(novel), [e])
    {
      for i := 0 to |novel|
        invariant e !in novel[..i] && novel == old(novel)
      {
        if novel[i] == e {
          return;
        }
      }
      assert novel[..|novel|] == novel;
      novel := novel + [e];
    }

    method NoteAll(es: seq<Element>)
      modifies this`novel
      ensures novel == AddNovel(old(novel), es)
    {
      hide AddNovel;
      assert es[..0] == [];
      NoNovel(novel);
      for i := 0 to |es|
        invariant novel == AddNovel(old(novel), es[..i])
      {
        NoteNovel(es[i]);
        AddNovelSnoc(old(novel), es[..i], es[i]);
        assert es[..i] + [es[i]] == es[..i + 1];
      }
      assert es[..|es|] == es;
    }

    method Tally(r: Reading)
      requires Valid()
      modifies this`observed, this`novel, this`credSeen, this`failures
      ensures Valid() && Model() == Tallied(old(Model()), r)
    {
      hide StreamModel;
      hide StreamsValid;
      hide Table.Model;
      hide Table.Valid;
      hide AddNovel;
      observed := observed + r.seen;
      NoteAll(r.novel);
      credSeen := credSeen || r.credentials;
      failures := failures + if r.status == Failed then 1 else 0;
      assert Valid();
      assert StreamModel() == old(StreamModel()) && table.Model() == old(table.Model());
    }

    method Relay(handoff: Option<Handoff>)
      requires Valid()
      modifies this`handoffs, table`dedicated, table.byKey.Values
      ensures Valid() && Model() == Relayed(old(Model()), handoff)
    {
      hide StreamModel;
      hide StreamsValid;
      hide Table.Model;
      hide Table.Valid;
      hide Announce;
      if handoff.Some? {
        table.AnnounceDedicated(Target(handoff.value), handoff.value.session);
        handoffs := handoffs + [handoff.value];
      }
    }

    method Emit(lane: Lane, unit: Unit, frames: seq<FrameRef>, r: Reading, inMatch: bool)
      requires Valid()
      modifies this`records
      ensures Valid() && Model() == Emitted(old(Model()), lane, unit, frames, r, inMatch)
    {
      hide StreamModel;
      hide StreamsValid;
      hide Table.Model;
      hide Table.Valid;
      records := records + [Record(|records| + 1, lane, unit, frames, r, inMatch)];
    }

    method Process(lane: Lane, k: Cited)
      requires Valid()
      modifies this`records, this`observed, this`novel, this`handoffs, this`credSeen, this`failures
      modifies table`dedicated, table.byKey.Values
      ensures Valid() && Model() == Processed(universe, old(Model()), lane, k)
    {
      hide StreamModel;
      hide StreamsValid;
      hide Table.Model;
      hide Table.Valid;
      hide Interpret;
      hide Relayed;
      hide Tallied;
      var r := Interpret(universe, k.msg);
      Tally(r);
      Relay(r.handoff);
      Emit(lane, Framed(k.msg), k.frames, r, false);
    }

    method InsertStream(lane: Lane, s: Stream)
      requires Valid() && lane !in streams
      requires s.Valid() && s.State() == NEW_STREAM && s.scanner.checked == checked
      requires {s, s.scanner} !! Objects() + table.byKey.Values + {this, table}
      modifies this`streams
      ensures Valid() && streams == old(streams)[lane := s]
      ensures Objects() == old(Objects()) + {s, s.scanner}
      ensures StreamModel() == old(StreamModel())[lane := NEW_STREAM]
    {
      hide Table.Valid;
      hide Stream.Valid;
      hide Stream.State;
      ValuesAfterInsert(streams, lane, s);
      streams := streams[lane := s];
    }

    /** The stream of a lane, created on first use. */
    method StreamFor(lane: Lane) returns (s: Stream)
      requires Valid()
      modifies this`streams
      ensures Valid() && lane in streams && streams[lane] == s
      ensures StreamModel() == old(StreamModel())[lane := StreamAt(old(StreamModel()), lane)]
      ensures Model() == old(Model()).(streams := StreamModel())
      ensures fresh(Objects() - old(Objects()))
    {
      hide Table.Model;
      hide Table.Valid;
      hide StreamsValid;
      hide Stream.Valid;
      hide Stream.State;
      if lane !in streams {
        s := new Stream(checked);
        InsertStream(lane, s);
      }
      s := streams[lane];
      assert StreamModel() == old(StreamModel())[lane := StreamAt(old(StreamModel()), lane)];
    }

    /** Hands a segment to the stream of a lane; no other stream changes. */
    method Advance(lane: Lane, g: Segment) returns (out: seq<Cited>, marked: bool)
      requires Valid() && lane in streams
      modifies Objects()
      ensures Valid() && streams == old(streams)
      ensures var o := Step(checked, old(StreamModel())[lane], g);
              && Model() == old(Model()).(streams := old(StreamModel())[lane := o.st])
              && out == o.out && marked == o.marked
    {
      hide Table.Model;
      hide Table.Valid;
      hide Stream.Valid;
      hide Stream.State;
      hide Step;
      var s := streams[lane];
      assert s in streams.Values;
      assert s in Objects() && s.scanner in Objects();
      out, marked := s.FeedTCP(g);
      assert StreamModel() == old(StreamModel())[lane := streams[lane].State()];
    }

    method Follow(lane: Lane, g: Segment) returns (out: seq<Cited>, marked: bool)
      requires Valid()
      modifies this`streams, Objects()
      ensures Valid() && fresh(Objects() - old(Objects()))
      ensures var o := Step(checked, StreamAt(old(Model()).streams, lane), g);
              && Model() == old(Model()).(streams := old(Model()).streams[lane := o.st])
              && out == o.out && marked == o.marked
    {
      hide StreamsValid;
      hide Table.Model;
      hide Table.Valid;
      hide Step;
      var s := StreamFor(lane);
      ghost var m1 := Model();
      out, marked := Advance(lane, g);
      StreamThenStep(checked, old(Model()), lane, g, m1, Model());
    }

    method ProcessAll(lane: Lane, out: seq<Cited>)
      requires Valid()
      modifies this`records, this`observed, this`novel, this`handoffs, this`credSeen, this`failures
      modifies table`dedicated, table.byKey.Values
      ensures Valid() && Model() == ProcessedAll(universe, old(Model()), lane, out)
    {
      hide Processed;
      ghost var before := Model();
      for i := 0 to |out|
        invariant Valid() && Model() == ProcessedAll(universe, before, lane, out[..i])
      {
        Process(lane, out[i]);
        assert out[..i + 1][..i] == out[..i];
      }
      assert out[..|out|] == out;
    }

    /** Reports that framing was lost on a connection. */
    method Lose(conn: Connection, frame: nat)
      requires Valid() && conn.key in table.byKey && table.byKey[conn.key] == conn
      modifies conn`desyncAt, this`desyncs
      ensures Valid() && conn.key in old(Model()).table.byKey && Model() == LostFraming(old(Model()), conn.key, frame)
    {
      hide StreamModel;
      hide StreamsValid;
      hide Marked;
      hide Table.Valid;
      hide Table.Dated;
      assert conn in table.byKey.Values;
      table.MarkDesync(conn, frame);
      desyncs := desyncs + 1;
    }

    method FeedTCP(conn: Connection, lane: Lane, g: Segment)
      requires Valid() && conn.key in table.byKey && table.byKey[conn.key] == conn
      modifies this, table`dedicated, table.byKey.Values, Objects()
      ensures Valid() && Model() == StepTcp(checked, universe, old(Model()), lane, conn.key, g)
      ensures table.byKey == old(table.byKey) && fresh(Objects() - old(Objects()))
    {
      hide StreamsValid;
      hide Table.Model;
      hide Table.Valid;
      hide Step;
      hide ProcessedAll;
      hide LostFraming;
      hide Objects;
      if |g.payload| == 0 {
        return;
      }
      var out, marked := Follow(lane, g);
      ProcessAll(lane, out);
      if marked {
        Lose(conn, g.ref.index);
      }
    }

    method FeedUDP(conn: Connection, lane: Lane, payload: seq<byte>, ref: FrameRef)
      requires Valid()
      modifies this`records
      ensures Valid() && Model() == StepUdp(old(Model()), lane, payload, ref, conn.service == Dedicated)
    {
      if |payload| == 0 {
        return;
      }
      Emit(lane, Datagram(payload), [ref], DATAGRAM, conn.service == Dedicated);
    }

    method Meet(p: Packet, at: int) returns (conn: Connection, lane: Lane)
      requires Valid()
      modifies table, table.byKey.Values`lastSeen
      ensures Valid() && Model() == old(Model()).(table := Observed(old(Model()).table, p))
      ensures fresh(table.byKey.Values - old(table.byKey.Values))
      ensures conn.key == KeyOf(p) && KeyOf(p) in table.byKey && table.byKey[KeyOf(p)] == conn
      ensures lane == Tag(old(Model()).table, p) && Model().table.byKey[KeyOf(p)] == conn.Model()
    {
      hide StreamModel;
      hide StreamsValid;
      hide Observed;
      var dir;
      conn, dir := table.Observe(p, at);
      lane := Lane(conn.connID, dir);
    }

    /** Takes one captured frame; its capture time only dates its connection. */
    method Feed(f: Frame, at: int)
      requires Valid()
      modifies this, table, table.byKey.Values, Objects()
      ensures Valid() && Model() == StepFrame(checked, universe, old(Model()), f)
      ensures fresh(table.byKey.Values - old(table.byKey.Values)) && fresh(Objects() - old(Objects()))
    {
      hide StreamModel;
      hide StreamsValid;
      hide Observed;
      hide StepTcp;
      hide StepUdp;
      hide KeyOf;
      hide Tag;
      hide Table.Model;
      hide Table.Valid;
      if f.contents.Opaque? {
        return;
      }
      var p := PacketOf(f);
      var conn, lane := Meet(p, at);
      match f.contents
      case Tcp(_, _, seqNo, payload) => FeedTCP(conn, lane, Segment(seqNo, payload, f.ref));
      case Udp(_, _, payload) =>
        FeedUDP(conn, lane, payload, f.ref);
    }
  }
}
