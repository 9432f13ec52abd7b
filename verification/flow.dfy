/**
 The flow table: which connection a packet belongs to, which end is the server, and how a
 dedicated-server announcement relates to the classifications, over every run.
 */
module Flows {
  import opened Bytes
  import opened Options
  import opened Sequences
  import Text

  datatype Service = LoadBalancer | Shard | Chat | Web | Dedicated | Unknown

  datatype Evidence = ByPort | ByHandoff | ByHeuristic

  datatype Direction = ClientToServer | ServerToClient

  datatype Endpoint = Endpoint(ip: string, port: uint16)

  /** Both directions of a flow; `a` never sorts after `b`. */
  datatype Key = Key(a: Endpoint, b: Endpoint, udp: bool)

  predicate InOrder(s: Endpoint, d: Endpoint) {
    Text.Less(s.ip, d.ip) || (s.ip == d.ip && s.port <= d.port)
  }

  function NewKey(src: Endpoint, dst: Endpoint, udp: bool): Key {
    if InOrder(src, dst) then Key(src, dst, udp) else Key(dst, src, udp)
  }

  /** `ip:port` */
  function AddrKey(e: Endpoint): string { e.ip + ":" + Text.Decimal(e.port) }

  function ServicePort(port: uint16): Option<Service> {
    match port
    case 3801 => Some(LoadBalancer)
    case 3802 => Some(Shard)
    case 3815 => Some(Chat)
    case 80 => Some(Web)
    case 443 => Some(Web)
    case _ => None
  }

  datatype Verdict = Verdict(client: Endpoint, server: Endpoint, service: Service, evidence: Evidence)

  function Classify(dedicated: map<string, uint64>, src: Endpoint, dst: Endpoint): Verdict {
    if AddrKey(dst) in dedicated then Verdict(src, dst, Dedicated, ByHandoff)
    else if AddrKey(src) in dedicated then Verdict(dst, src, Dedicated, ByHandoff)
    else if ServicePort(dst.port).Some? then Verdict(src, dst, ServicePort(dst.port).value, ByPort)
    else if ServicePort(src.port).Some? then Verdict(dst, src, ServicePort(src.port).value, ByPort)
    else if dst.port < src.port then Verdict(src, dst, Unknown, ByHeuristic)
    else Verdict(dst, src, Unknown, ByHeuristic)
  }

  function ConnID(n: nat): string { "c" + Text.Padded(n, 3) }

  datatype Conn = Conn(id: string, key: Key, verdict: Verdict, desyncAt: Option<nat>)

  datatype TableState = TableState(byKey: map<Key, Conn>, order: seq<Key>, nextID: nat, dedicated: map<string, uint64>)

  const EMPTY := TableState(map[], [], 0, map[])

  datatype Packet = Packet(src: Endpoint, dst: Endpoint, udp: bool)

  function KeyOf(p: Packet): Key { NewKey(p.src, p.dst, p.udp) }

  function Observed(t: TableState, p: Packet): TableState {
    var k := KeyOf(p);
    if k in t.byKey then t
    else
      var c := Conn(ConnID(t.nextID + 1), k, Classify(t.dedicated, p.src, p.dst), None);
      TableState(t.byKey[k := c], t.order + [k], t.nextID + 1, t.dedicated)
  }

  function Heading(c: Conn, p: Packet): Direction {
    if p.dst == c.verdict.server then ClientToServer else ServerToClient
  }

  function Relabel(c: Conn, e: Endpoint): Conn {
    if c.verdict.server == e then c.(verdict := c.verdict.(service := Dedicated, evidence := ByHandoff)) else c
  }

  function Announce(t: TableState, e: Endpoint, session: uint64): TableState {
    t.(dedicated := t.dedicated[AddrKey(e) := session], byKey := map k | k in t.byKey :: Relabel(t.byKey[k], e))
  }

  function Mark(c: Conn, frame: nat): Conn {
    if c.desyncAt.Some? then c else c.(desyncAt := Some(frame))
  }

  function Marked(t: TableState, k: Key, frame: nat): TableState
    requires k in t.byKey
  {
    t.(byKey := t.byKey[k := Mark(t.byKey[k], frame)])
  }

  // ---- Keys and addresses ----

  /** A key stands for an unordered pair of endpoints and a transport, nothing more and nothing less. */
  lemma KeyIsUnorderedPair(p: Packet, q: Packet)
    ensures KeyOf(p) == KeyOf(q)
       <==> p.udp == q.udp && ((p.src == q.src && p.dst == q.dst) || (p.src == q.dst && p.dst == q.src))
  {
    OrderIsTotal(p.src, p.dst);
    OrderIsTotal(q.src, q.dst);
  }

  lemma OrderIsTotal(s: Endpoint, d: Endpoint)
    ensures InOrder(s, d) || InOrder(d, s)
    ensures InOrder(s, d) && InOrder(d, s) ==> s == d
  {
    Text.LessTotal(s.ip, d.ip);
    Text.LessIrreflexive(s.ip);
    if Text.Less(s.ip, d.ip) {
      Text.LessAsymmetric(s.ip, d.ip);
    }
  }

  /** The textual address of an endpoint identifies it, whatever text stands for the host. */
  lemma AddrKeyInjective(e: Endpoint, f: Endpoint)
    requires AddrKey(e) == AddrKey(f)
    ensures e == f
  {
    Text.SplitAtLastColon(e.ip, Text.Decimal(e.port), f.ip, Text.Decimal(f.port));
    Text.DecimalRoundTrip(e.port);
    Text.DecimalRoundTrip(f.port);
  }

  lemma ConnIDInjective(m: nat, n: nat)
    requires ConnID(m) == ConnID(n)
    ensures m == n
  {
    assert ConnID(m)[1..] == Text.Padded(m, 3) && ConnID(n)[1..] == Text.Padded(n, 3);
    Text.PaddedRoundTrip(m, 3);
    Text.PaddedRoundTrip(n, 3);
  }

  /** The packet that happens to come first decides which end is called the server only when the two
      ends look alike: both announced, both on a service port, or both on one unknown port. */
  lemma FirstPacketDecidesIff(dedicated: map<string, uint64>, a: Endpoint, b: Endpoint)
    ensures Classify(dedicated, a, b) != Classify(dedicated, b, a)
       <==> && a != b
            && (AddrKey(a) in dedicated <==> AddrKey(b) in dedicated)
            && (AddrKey(a) !in dedicated ==>
                 && (ServicePort(a.port).Some? <==> ServicePort(b.port).Some?)
                 && (ServicePort(a.port).None? ==> a.port == b.port))
  {
  }

  // ---- The invariant of every reachable table ----

  predicate Ends(v: Verdict, k: Key) {
    (v.client == k.a && v.server == k.b) || (v.client == k.b && v.server == k.a)
  }

  predicate Labelled(dedicated: map<string, uint64>, v: Verdict) {
    && (v.service == Dedicated <==> AddrKey(v.server) in dedicated)
    && (v.evidence == ByHandoff <==> v.service == Dedicated)
  }

  ghost predicate Sound(dedicated: map<string, uint64>, c: Conn, k: Key) {
    c.key == k && InOrder(k.a, k.b) && Ends(c.verdict, k) && Labelled(dedicated, c.verdict)
  }

  ghost predicate AllSound(dedicated: map<string, uint64>, byKey: map<Key, Conn>) {
    forall k | k in byKey :: Sound(dedicated, byKey[k], k)
  }

  /** The order lists each key once, and identifiers are numbered in that order. */
  ghost predicate Listed(byKey: map<Key, Conn>, order: seq<Key>) {
    && NoDuplicates(order)
    && (forall i | 0 <= i < |order| :: order[i] in byKey && byKey[order[i]].id == ConnID(i + 1))
    && (forall k | k in byKey :: k in order)
  }

  ghost predicate WellFormed(t: TableState) {
    t.nextID == |t.order| && Listed(t.byKey, t.order) && AllSound(t.dedicated, t.byKey)
  }

  lemma ClassifyIsSound(dedicated: map<string, uint64>, p: Packet, id: string)
    ensures Sound(dedicated, Conn(id, KeyOf(p), Classify(dedicated, p.src, p.dst), None), KeyOf(p))
  {
    OrderIsTotal(p.src, p.dst);
  }

  lemma ListedGrows(byKey: map<Key, Conn>, order: seq<Key>, k: Key, c: Conn)
    requires Listed(byKey, order) && k !in byKey && c.id == ConnID(|order| + 1)
    ensures Listed(byKey[k := c], order + [k])
  {
    hide ConnID;
    forall l | l in byKey[k := c]
      ensures l in order + [k]
    {
      if l != k {
        assert l in order;
      }
    }
  }

  lemma ListedSameKeys(byKey: map<Key, Conn>, order: seq<Key>, byKey1: map<Key, Conn>)
    requires Listed(byKey, order) && byKey1.Keys == byKey.Keys
    requires forall k | k in byKey :: byKey1[k].id == byKey[k].id
    ensures Listed(byKey1, order)
  {
    assert forall k | k in byKey1 :: k in byKey.Keys;
  }

  lemma ObserveKeeps(t: TableState, p: Packet)
    requires WellFormed(t)
    ensures WellFormed(Observed(t, p)) && KeyOf(p) in Observed(t, p).byKey
  {
    var k := KeyOf(p);
    if k !in t.byKey {
      var c := Conn(ConnID(t.nextID + 1), k, Classify(t.dedicated, p.src, p.dst), None);
      ClassifyIsSound(t.dedicated, p, c.id);
      ListedGrows(t.byKey, t.order, k, c);
    }
  }

  lemma RelabelKeepsSound(dedicated: map<string, uint64>, c: Conn, k: Key, e: Endpoint, session: uint64)
    requires Sound(dedicated, c, k)
    ensures Sound(dedicated[AddrKey(e) := session], Relabel(c, e), k)
  {
    if AddrKey(c.verdict.server) == AddrKey(e) {
      AddrKeyInjective(c.verdict.server, e);
    }
  }

  lemma AnnounceKeeps(t: TableState, e: Endpoint, session: uint64)
    requires WellFormed(t)
    ensures WellFormed(Announce(t, e, session))
  {
    hide AddrKey;
    var t1 := Announce(t, e, session);
    forall k | k in t1.byKey
      ensures Sound(t1.dedicated, t1.byKey[k], k)
    {
      assert Sound(t.dedicated, t.byKey[k], k);
      RelabelKeepsSound(t.dedicated, t.byKey[k], k, e, session);
    }
    ListedSameKeys(t.byKey, t.order, t1.byKey);
  }

  lemma MarkKeeps(t: TableState, k: Key, frame: nat)
    requires WellFormed(t) && k in t.byKey
    ensures WellFormed(Marked(t, k, frame))
  {
    assert Sound(t.dedicated, t.byKey[k], k);
    ListedSameKeys(t.byKey, t.order, Marked(t, k, frame).byKey);
  }

  // ---- Runs ----

  /** `Lost` is the report that framing was lost on a connection; it names a connection of the table. */
  datatype Event = Seen(p: Packet) | Announced(e: Endpoint, session: uint64) | Lost(k: Key, frame: nat)

  function StepTable(t: TableState, ev: Event): TableState {
    match ev
    case Seen(p) => Observed(t, p)
    case Announced(e, session) => Announce(t, e, session)
    case Lost(k, frame) => if k in t.byKey then Marked(t, k, frame) else t
  }

  function RunTable(evs: seq<Event>): TableState
    decreases |evs|
  {
    if evs == [] then EMPTY else StepTable(RunTable(evs[..|evs| - 1]), evs[|evs| - 1])
  }

  lemma StepKeeps(t: TableState, ev: Event)
    requires WellFormed(t)
    ensures WellFormed(StepTable(t, ev))
  {
    match ev
    case Seen(p) => ObserveKeeps(t, p);
    case Announced(e, session) => AnnounceKeeps(t, e, session);
    case Lost(k, frame) =>
      if k in t.byKey {
        MarkKeeps(t, k, frame);
      }
  }

  /** In every reachable table the order lists each key once, identifiers are numbered in that order,
      and a connection is called dedicated exactly when its server end is among the announced ones. */
  lemma {:induction false} ReachableIsWellFormed(evs: seq<Event>)
    ensures WellFormed(RunTable(evs))
    decreases |evs|
  {
    if evs != [] {
      ReachableIsWellFormed(evs[..|evs| - 1]);
      StepKeeps(RunTable(evs[..|evs| - 1]), evs[|evs| - 1]);
    }
  }

  /** The endpoint was announced at some point of the run. */
  ghost predicate EverAnnounced(evs: seq<Event>, e: Endpoint) {
    exists i :: 0 <= i < |evs| && evs[i].Announced? && evs[i].e == e
  }

  lemma EverAnnouncedStep(before: seq<Event>, last: Event, e: Endpoint)
    ensures EverAnnounced(before + [last], e) <==> EverAnnounced(before, e) || (last.Announced? && last.e == e)
  {
    var evs := before + [last];
    assert evs[|before|] == last;
    if EverAnnounced(before, e) {
      var i :| 0 <= i < |before| && before[i].Announced? && before[i].e == e;
      assert evs[i] == before[i];
    }
  }

  lemma {:induction false} AnnouncedIsRemembered(evs: seq<Event>, e: Endpoint)
    ensures AddrKey(e) in RunTable(evs).dedicated <==> EverAnnounced(evs, e)
    decreases |evs|
  {
    hide AddrKey;
    hide Classify;
    if evs != [] {
      var before, last := evs[..|evs| - 1], evs[|evs| - 1];
      AnnouncedIsRemembered(before, e);
      EverAnnouncedStep(before, last, e);
      assert evs == before + [last];
      if last.Announced? && AddrKey(last.e) == AddrKey(e) {
        AddrKeyInjective(last.e, e);
      }
    }
  }

  /** A connection is labelled from a handoff exactly when its server end has been announced, whether
      the announcement came before or after the connection. */
  lemma DedicatedExactlyWhenAnnounced(evs: seq<Event>, k: Key)
    requires k in RunTable(evs).byKey
    ensures var v := RunTable(evs).byKey[k].verdict;
            && (v.service == Dedicated <==> EverAnnounced(evs, v.server))
            && (v.evidence == ByHandoff <==> EverAnnounced(evs, v.server))
  {
    ReachableIsWellFormed(evs);
    var t := RunTable(evs);
    assert Sound(t.dedicated, t.byKey[k], k);
    AnnouncedIsRemembered(evs, t.byKey[k].verdict.server);
  }

  /** How the port of its server end labels a connection that no handoff announced. */
  predicate PortTells(v: Verdict) {
    && (v.service == LoadBalancer <==> v.server.port == 3801)
    && (v.service == Shard <==> v.server.port == 3802)
    && (v.service == Chat <==> v.server.port == 3815)
    && (v.service == Web <==> v.server.port == 80 || v.server.port == 443)
    && (v.evidence == ByPort <==> v.server.port in {3801, 3802, 3815, 80, 443})
    && (v.evidence == ByHeuristic <==> v.service == Unknown)
  }

  ghost predicate AllPortsTell(t: TableState) {
    forall k | k in t.byKey :: t.byKey[k].verdict.service == Dedicated || PortTells(t.byKey[k].verdict)
  }

  lemma PortsTellOneMore(t: TableState, ev: Event)
    requires AllPortsTell(t)
    ensures AllPortsTell(StepTable(t, ev))
  {
    hide AddrKey;
    hide ConnID;
    hide KeyOf;
  }

  lemma {:induction false} PortsTell(evs: seq<Event>)
    ensures AllPortsTell(RunTable(evs))
    decreases |evs|
  {
    hide StepTable;
    if evs != [] {
      PortsTell(evs[..|evs| - 1]);
      PortsTellOneMore(RunTable(evs[..|evs| - 1]), evs[|evs| - 1]);
    }
  }

  /** In every run, a connection whose server end no handoff has announced is labelled by the port of that end. */
  lemma LabelsTellPorts(evs: seq<Event>, k: Key)
    requires k in RunTable(evs).byKey && !EverAnnounced(evs, RunTable(evs).byKey[k].verdict.server)
    ensures PortTells(RunTable(evs).byKey[k].verdict)
  {
    hide PortTells;
    hide RunTable;
    PortsTell(evs);
    DedicatedExactlyWhenAnnounced(evs, k);
  }

  /** What a connection keeps for ever: its identifier, its roles, and its first desync frame. */
  predicate Keeps(c: Conn, d: Conn) {
    && c.id == d.id && c.key == d.key
    && c.verdict.client == d.verdict.client && c.verdict.server == d.verdict.server
    && (c.desyncAt.Some? ==> d.desyncAt == c.desyncAt)
    && (c.verdict.service == Dedicated ==> d.verdict.service == Dedicated)
  }

  lemma {:induction false} RolesNeverChange(evs: seq<Event>, more: seq<Event>, k: Key)
    requires k in RunTable(evs).byKey
    ensures k in RunTable(evs + more).byKey && Keeps(RunTable(evs).byKey[k], RunTable(evs + more).byKey[k])
    decreases |more|
  {
    hide StepTable;
    if more == [] {
      assert evs + more == evs;
    } else {
      var all := evs + more;
      assert all[..|all| - 1] == evs + more[..|more| - 1];
      RolesNeverChange(evs, more[..|more| - 1], k);
      StepKeepsRoles(RunTable(all[..|all| - 1]), all[|all| - 1], k);
    }
  }

  lemma StepKeepsRoles(t: TableState, ev: Event, k: Key)
    requires k in t.byKey
    ensures k in StepTable(t, ev).byKey && Keeps(t.byKey[k], StepTable(t, ev).byKey[k])
  {
  }

  /** The report of a lost framing at event i found its connection in the table. */
  predicate ReportAt(evs: seq<Event>, k: Key, i: nat)
    requires i < |evs|
  {
    evs[i].Lost? && evs[i].k == k && k in RunTable(evs[..i]).byKey
  }

  ghost predicate NoReport(evs: seq<Event>, k: Key, n: nat)
    requires n <= |evs|
  {
    forall i: nat | i < n :: !ReportAt(evs, k, i)
  }

  ghost predicate FirstReport(evs: seq<Event>, k: Key, frame: nat, i: nat) {
    i < |evs| && ReportAt(evs, k, i) && evs[i].frame == frame && NoReport(evs, k, i)
  }

  lemma ReportOfPrefix(evs: seq<Event>, k: Key, n: nat, i: nat)
    requires i < n <= |evs|
    ensures ReportAt(evs[..n], k, i) == ReportAt(evs, k, i)
  {
    assert evs[..n][..i] == evs[..i];
  }

  lemma NoReportOfPrefix(evs: seq<Event>, k: Key, n: nat, m: nat)
    requires m <= n <= |evs|
    ensures NoReport(evs[..n], k, m) == NoReport(evs, k, m)
  {
    forall i: nat | i < m
      ensures ReportAt(evs[..n], k, i) == ReportAt(evs, k, i)
    {
      ReportOfPrefix(evs, k, n, i);
    }
  }

  lemma NoReportBefore(evs: seq<Event>, k: Key)
    requires k !in RunTable(evs).byKey
    ensures NoReport(evs, k, |evs|)
  {
    hide RunTable;
    forall i: nat | i < |evs|
      ensures !ReportAt(evs, k, i)
    {
      if k in RunTable(evs[..i]).byKey {
        assert evs[..i] + evs[i..] == evs;
        RolesNeverChange(evs[..i], evs[i..], k);
      }
    }
  }

  lemma DesyncAtStep(t: TableState, ev: Event, k: Key)
    requires k in StepTable(t, ev).byKey
    ensures StepTable(t, ev).byKey[k].desyncAt
         == if k !in t.byKey then None
            else if ev.Lost? && ev.k == k && t.byKey[k].desyncAt.None? then Some(ev.frame)
            else t.byKey[k].desyncAt
  {
  }

  /** The desync frame on record is that of the first report, and there is none exactly when there was none. */
  lemma {:induction false} FirstDesyncIsKept(evs: seq<Event>, k: Key)
    requires k in RunTable(evs).byKey
    ensures match RunTable(evs).byKey[k].desyncAt
            case None => NoReport(evs, k, |evs|)
            case Some(frame) => exists i: nat :: FirstReport(evs, k, frame, i)
    decreases |evs|
  {
    if evs != [] {
      var n := |evs| - 1;
      var before := evs[..n];
      DesyncAtStep(RunTable(before), evs[n], k);
      hide StepTable;
      NoReportOfPrefix(evs, k, n, n);
      if k !in RunTable(before).byKey {
        NoReportBefore(before, k);
      } else {
        FirstDesyncIsKept(before, k);
        match RunTable(before).byKey[k].desyncAt
        case None =>
          if evs[n].Lost? && evs[n].k == k {
            assert FirstReport(evs, k, evs[n].frame, n);
          }
        case Some(frame) =>
          var i: nat :| FirstReport(before, k, frame, i);
          ReportOfPrefix(evs, k, n, i);
          NoReportOfPrefix(evs, k, n, i);
          assert FirstReport(evs, k, frame, i);
      }
    }
  }

  // ---- Directed flows ----

  /** One direction of one connection. */
  datatype Lane = Lane(conn: string, dir: Direction)

  function LaneIn(t: TableState, p: Packet): Lane
    requires KeyOf(p) in t.byKey
  {
    var c := t.byKey[KeyOf(p)];
    Lane(c.id, Heading(c, p))
  }

  /** What the table tells about a packet. */
  function Tag(t: TableState, p: Packet): Lane { LaneIn(Observed(t, p), p) }

  function TagAt(evs: seq<Event>, i: nat): Lane
    requires i < |evs| && evs[i].Seen?
  {
    Tag(RunTable(evs[..i]), evs[i].p)
  }

  lemma SameIDSameKey(t: TableState, k: Key, l: Key)
    requires WellFormed(t) && k in t.byKey && l in t.byKey && t.byKey[k].id == t.byKey[l].id
    ensures k == l
  {
    hide ConnID;
    hide Sound;
    var i :| 0 <= i < |t.order| && t.order[i] == k;
    var j :| 0 <= j < |t.order| && t.order[j] == l;
    ConnIDInjective(i + 1, j + 1);
  }

  /** In one table, two packets share a lane only if they go from the same end to the same end. */
  lemma LanesAreEndpointPairs(t: TableState, p: Packet, q: Packet)
    requires WellFormed(t) && KeyOf(p) in t.byKey && KeyOf(q) in t.byKey
    ensures LaneIn(t, p) == LaneIn(t, q) <==> p == q
  {
    KeyIsUnorderedPair(p, q);
    assert Sound(t.dedicated, t.byKey[KeyOf(p)], KeyOf(p));
    if LaneIn(t, p) == LaneIn(t, q) {
      SameIDSameKey(t, KeyOf(p), KeyOf(q));
    }
  }

  lemma TagAfterSeen(evs: seq<Event>, i: nat)
    requires i < |evs| && evs[i].Seen?
    ensures KeyOf(evs[i].p) in RunTable(evs[..i + 1]).byKey
    ensures TagAt(evs, i) == LaneIn(RunTable(evs[..i + 1]), evs[i].p)
  {
    hide Observed;
    hide Announce;
    hide Marked;
    assert evs[..i + 1][..i] == evs[..i];
    assert RunTable(evs[..i + 1]) == Observed(RunTable(evs[..i]), evs[i].p);
    ObservedKnows(RunTable(evs[..i]), evs[i].p);
  }

  lemma ObservedKnows(t: TableState, p: Packet)
    ensures KeyOf(p) in Observed(t, p).byKey
  {
  }

  /** The lane given to a packet is the one the table still gives it later. */
  lemma TagPersists(evs: seq<Event>, i: nat)
    requires i < |evs| && evs[i].Seen?
    ensures KeyOf(evs[i].p) in RunTable(evs).byKey && TagAt(evs, i) == LaneIn(RunTable(evs), evs[i].p)
  {
    hide RunTable;
    hide TagAt;
    hide KeyOf;
    assert evs[..i + 1] + evs[i + 1..] == evs;
    TagAfterSeen(evs, i);
    RolesNeverChange(evs[..i + 1], evs[i + 1..], KeyOf(evs[i].p));
  }

  /** Over a whole run, a packet goes from client to server exactly when it goes to the end that its connection
      calls the server. */
  lemma ClientToServerIff(evs: seq<Event>, i: nat)
    requires i < |evs| && evs[i].Seen?
    ensures KeyOf(evs[i].p) in RunTable(evs).byKey
    ensures TagAt(evs, i).dir == ClientToServer
       <==> evs[i].p.dst == RunTable(evs).byKey[KeyOf(evs[i].p)].verdict.server
  {
    hide RunTable;
    hide TagAt;
    hide KeyOf;
    TagPersists(evs, i);
  }

  /** No packet between the two ends of this one, either way round, was seen before it. */
  ghost predicate FirstSight(evs: seq<Event>, i: nat)
    requires i < |evs| && evs[i].Seen?
  {
    forall j | 0 <= j < i :: evs[j].Seen? ==> KeyOf(evs[j].p) != KeyOf(evs[i].p)
  }

  lemma {:induction false} TrackedWasSeen(evs: seq<Event>, k: Key)
    requires k in RunTable(evs).byKey
    ensures exists j :: 0 <= j < |evs| && evs[j].Seen? && KeyOf(evs[j].p) == k
    decreases |evs|
  {
    hide KeyOf;
    hide Classify;
    hide ConnID;
    if evs != [] {
      var before := evs[..|evs| - 1];
      if k in RunTable(before).byKey {
        TrackedWasSeen(before, k);
        var j :| 0 <= j < |before| && before[j].Seen? && KeyOf(before[j].p) == k;
        assert evs[j] == before[j];
      } else {
        assert evs[|evs| - 1].Seen? && KeyOf(evs[|evs| - 1].p) == k;
      }
    }
  }

  /** The first packet of a connection decides, for the whole run, which way is from client to server: to the
      announced end, else to the end on a port of the game's services, else to the lower port. */
  lemma FirstPacketTravels(evs: seq<Event>, i: nat)
    requires i < |evs| && evs[i].Seen? && FirstSight(evs, i)
    ensures var s, d := evs[i].p.src, evs[i].p.dst;
            var services := {3801, 3802, 3815, 80, 443};
            (TagAt(evs, i).dir == ClientToServer)
            == if EverAnnounced(evs[..i], d) || EverAnnounced(evs[..i], s) then EverAnnounced(evs[..i], d)
               else if d.port in services || s.port in services then d.port in services
               else d == s || d.port < s.port
  {
    hide RunTable;
    hide EverAnnounced;
    hide AddrKey;
    hide ConnID;
    var t, p := RunTable(evs[..i]), evs[i].p;
    if KeyOf(p) in t.byKey {
      TrackedWasSeen(evs[..i], KeyOf(p));
    }
    AnnouncedIsRemembered(evs[..i], p.src);
    AnnouncedIsRemembered(evs[..i], p.dst);
  }

  /** Over a whole run, identifier and direction name an ordered pair of endpoints: two packets are
      given the same lane exactly when they go from the same end to the same end. */
  lemma DirectedFlowsAreEndpointPairs(evs: seq<Event>, i: nat, j: nat)
    requires i < |evs| && j < |evs| && evs[i].Seen? && evs[j].Seen?
    ensures TagAt(evs, i) == TagAt(evs, j) <==> evs[i].p == evs[j].p
  {
    hide RunTable;
    hide TagAt;
    TagPersists(evs, i);
    TagPersists(evs, j);
    ReachableIsWellFormed(evs);
    LanesAreEndpointPairs(RunTable(evs), evs[i].p, evs[j].p);
  }

  /** A packet and its reply share a connection, and travel in opposite directions when the ends differ. */
  lemma RepliesTravelBack(evs: seq<Event>, i: nat, j: nat)
    requires i < |evs| && j < |evs| && evs[i].Seen? && evs[j].Seen?
    requires evs[j].p == Packet(evs[i].p.dst, evs[i].p.src, evs[i].p.udp)
    ensures TagAt(evs, i).conn == TagAt(evs, j).conn
    ensures TagAt(evs, i).dir != TagAt(evs, j).dir <==> evs[i].p.src != evs[i].p.dst
  {
    KeyIsUnorderedPair(evs[i].p, evs[j].p);
    TagPersists(evs, i);
    TagPersists(evs, j);
    DirectedFlowsAreEndpointPairs(evs, i, j);
  }

  // ---- When connections were seen ----

  /** The times of the first and the last packet of a connection, in nanoseconds. */
  datatype Dates = Dates(first: int, last: int)

  function Redated(ds: map<Key, Dates>, k: Key, at: int): map<Key, Dates> {
    ds[k := Dates(if k in ds then ds[k].first else at, at)]
  }

  /** A packet and its capture time. */
  datatype Sight = Sight(p: Packet, at: int)

  function RunDates(seen: seq<Sight>): map<Key, Dates>
    decreases |seen|
  {
    if seen == [] then map[] else Redated(RunDates(seen[..|seen| - 1]), KeyOf(seen[|seen| - 1].p), seen[|seen| - 1].at)
  }

  ghost predicate FirstOf(seen: seq<Sight>, k: Key, at: int) {
    exists i :: 0 <= i < |seen| && KeyOf(seen[i].p) == k && seen[i].at == at
      && forall j | 0 <= j < i :: KeyOf(seen[j].p) != k
  }

  ghost predicate LastOf(seen: seq<Sight>, k: Key, at: int) {
    exists i :: 0 <= i < |seen| && KeyOf(seen[i].p) == k && seen[i].at == at
      && forall j | i < j < |seen| :: KeyOf(seen[j].p) != k
  }

  lemma OfOneMore(seen: seq<Sight>, s: Sight, k: Key)
    ensures forall at :: FirstOf(seen, k, at) ==> FirstOf(seen + [s], k, at)
    ensures KeyOf(s.p) != k ==> forall at :: LastOf(seen, k, at) ==> LastOf(seen + [s], k, at)
    ensures KeyOf(s.p) == k ==> LastOf(seen + [s], k, s.at)
    ensures KeyOf(s.p) == k && (forall x | x in seen :: KeyOf(x.p) != k) ==> FirstOf(seen + [s], k, s.at)
  {
    hide KeyOf;
    var all := seen + [s];
    assert all[|seen|] == s;
    assert forall i | 0 <= i < |seen| :: all[i] == seen[i];
  }

  /** Whatever the clock says, a connection carries the times of the first and the last of its packets, in
      either direction. */
  lemma {:induction false} DatesAreFirstAndLast(seen: seq<Sight>, k: Key)
    ensures if k in RunDates(seen)
            then FirstOf(seen, k, RunDates(seen)[k].first) && LastOf(seen, k, RunDates(seen)[k].last)
            else forall s | s in seen :: KeyOf(s.p) != k
    decreases |seen|
  {
    hide KeyOf;
    hide FirstOf;
    hide LastOf;
    if seen != [] {
      var before, s := seen[..|seen| - 1], seen[|seen| - 1];
      assert seen == before + [s];
      DatesAreFirstAndLast(before, k);
      OfOneMore(before, s, k);
    }
  }

  // ---- The table as the program keeps it ----

  class Connection {
    const connID: string
    const key: Key
    const client: Endpoint
    const server: Endpoint
    var service: Service
    var evidence: Evidence
    var desyncAt: Option<nat>
    const firstSeen: int
    var lastSeen: int

    constructor (id: string, k: Key, v: Verdict, at: int)
      ensures Model() == Conn(id, k, v, None) && firstSeen == lastSeen == at
    {
      connID, key, client, server, firstSeen, lastSeen := id, k, v.client, v.server, at, at;
      service, evidence, desyncAt := v.service, v.evidence, None;
    }

    function Model(): Conn
      reads this
    {
      Conn(connID, key, Verdict(client, server, service, evidence), desyncAt)
    }

    /** An announcement reclassifies a connection only if it names its server end. */
    method Reclassify(e: Endpoint)
      modifies this`service, this`evidence
      ensures Model() == Relabel(old(Model()), e)
    {
      if server == e {
        service, evidence := Dedicated, ByHandoff;
      }
    }
  }

  class Table {
    var byKey: map<Key, Connection>
    var order: seq<Key>
    var nextID: nat
    var dedicated: map<string, uint64>

    ghost predicate Valid()
      reads this, byKey.Values
    {
      forall k | k in byKey :: byKey[k].key == k
    }

    ghost function Model(): TableState
      reads this, byKey.Values
    {
      TableState(map k | k in byKey :: byKey[k].Model(), order, nextID, dedicated)
    }

    ghost function Dated(): map<Key, Dates>
      reads this, byKey.Values
    {
      map k | k in byKey :: Dates(byKey[k].firstSeen, byKey[k].lastSeen)
    }

    constructor ()
      ensures Valid() && Model() == EMPTY && Dated() == map[] && byKey == map[]
    {
      byKey, order, nextID, dedicated := map[], [], 0, map[];
    }

    /** No connection is tracked under two keys. */
    lemma OnlyOne(c: Connection)
      requires Valid() && c.key in byKey && byKey[c.key] == c
      ensures forall k | k in byKey && k != c.key :: byKey[k] != c
    {
      forall k | k in byKey && k != c.key
        ensures byKey[k] != c
      {
        assert byKey[k].key == k;
      }
    }

    method Track(k: Key, c: Connection)
      requires Valid() && k !in byKey && c.key == k
      modifies this`byKey, this`order, this`nextID
      ensures Valid() && byKey == old(byKey)[k := c]
      ensures Model() == TableState(old(Model()).byKey[k := c.Model()], old(order) + [k], old(nextID) + 1, dedicated)
      ensures Dated() == old(Dated())[k := Dates(c.firstSeen, c.lastSeen)]
    {
      nextID := nextID + 1;
      byKey := byKey[k := c];
      order := order + [k];
      assert Model().byKey == old(Model()).byKey[k := c.Model()];
    }

    /** Tracks a connection not met before. */
    method Admit(p: Packet, at: int)
      requires Valid() && KeyOf(p) !in byKey
      modifies this
      ensures Valid() && KeyOf(p) in byKey && Model() == Observed(old(Model()), p)
      ensures Dated() == old(Dated())[KeyOf(p) := Dates(at, at)] && fresh(byKey.Values - old(byKey.Values))
    {
      hide KeyOf;
      hide ConnID;
      hide Classify;
      var k := KeyOf(p);
      ghost var t, dates := Model(), Dated();
      var c := new Connection(ConnID(nextID + 1), k, Classify(dedicated, p.src, p.dst), at);
      assert Model() == t && Dated() == dates;
      hide Table.Model;
      hide Table.Dated;
      hide Connection.Model;
      Track(k, c);
    }

    method Touch(c: Connection, at: int)
      requires Valid() && c.key in byKey && byKey[c.key] == c
      modifies c`lastSeen
      ensures Valid() && Model() == old(Model()) && Dated() == old(Dated())[c.key := Dates(c.firstSeen, at)]
    {
      OnlyOne(c);
      c.lastSeen := at;
      assert Model().byKey == old(Model()).byKey;
    }

    method Observe(p: Packet, at: int) returns (c: Connection, dir: Direction)
      requires Valid()
      modifies this, byKey.Values`lastSeen
      ensures Valid() && Model() == Observed(old(Model()), p) && Dated() == Redated(old(Dated()), KeyOf(p), at)
      ensures fresh(byKey.Values - old(byKey.Values))
      ensures KeyOf(p) in byKey && c == byKey[KeyOf(p)]
      ensures Lane(c.connID, dir) == Tag(old(Model()), p)
    {
      hide KeyOf;
      hide ConnID;
      hide Classify;
      var k := KeyOf(p);
      if k !in byKey {
        Admit(p, at);
      }
      c := byKey[k];
      ghost var dates := Dated();
      assert dates[k].first == c.firstSeen;
      Touch(c, at);
      dir := if p.dst != c.server then ServerToClient else ClientToServer;
    }

    /** Goes over the connections in whatever order the map yields them. */
    method RelabelAll(e: Endpoint)
      requires Valid()
      modifies byKey.Values`service, byKey.Values`evidence
      ensures Valid() && forall k | k in byKey :: byKey[k].Model() == Relabel(old(byKey[k].Model()), e)
    {
      hide Relabel;
      var rest := byKey.Keys;
      while rest != {}
        invariant rest <= byKey.Keys && Valid()
        invariant forall k | k in byKey :: byKey[k].Model()
                    == if k in rest then old(byKey[k].Model()) else Relabel(old(byKey[k].Model()), e)
        decreases |rest|
      {
        var k :| k in rest;
        rest := rest - {k};
        byKey[k].Reclassify(e);
      }
    }

    method AnnounceDedicated(e: Endpoint, session: uint64)
      requires Valid()
      modifies this`dedicated, byKey.Values`service, byKey.Values`evidence
      ensures Valid() && Model() == Announce(old(Model()), e, session) && Dated() == old(Dated())
    {
      hide AddrKey;
      hide Relabel;
      dedicated := dedicated[AddrKey(e) := session];
      RelabelAll(e);
      assert Model().byKey == Announce(old(Model()), e, session).byKey;
    }

    method MarkDesync(c: Connection, frame: nat)
      requires Valid() && c.key in byKey && byKey[c.key] == c
      modifies c`desyncAt
      ensures Valid() && Model() == Marked(old(Model()), c.key, frame) && Dated() == old(Dated())
    {
      if c.desyncAt.Some? {
        ghost var conns := Model().byKey;
        assert conns[c.key := conns[c.key]] == conns;
        return;
      }
      c.desyncAt := Some(frame);
      OnlyOne(c);
      assert Model().byKey == old(Model()).byKey[c.key := Mark(old(c.Model()), frame)];
    }

    /** Every tracked connection, the oldest key first. */
    method Connections() returns (out: seq<Conn>)
      requires Valid() && Listed(Model().byKey, order)
      ensures |out| == |order|
      ensures forall i | 0 <= i < |out| :: out[i] == Model().byKey[order[i]] && out[i].id == ConnID(i + 1)
      ensures forall k | k in byKey :: byKey[k].Model() in out
    {
      hide ConnID;
      out := [];
      for i := 0 to |order|
        invariant |out| == i
        invariant forall j | 0 <= j < i :: out[j] == Model().byKey[order[j]]
      {
        assert order[i] in Model().byKey;
        if order[i] in byKey {
          out := out + [byKey[order[i]].Model()];
        }
      }
      forall k | k in byKey
        ensures byKey[k].Model() in out
      {
        assert k in Model().byKey;
        var i :| 0 <= i < |order| && order[i] == k;
        assert out[i] == byKey[k].Model();
      }
    }
  }
}
