/** The two bit-packed message bodies the recorder interprets: the shard assignment and the
    dedicated-server handoff. */
module Bodies {
  import opened Bytes
  import opened BitFields
  import opened Options

  type int32 = x: int | -0x8000_0000 <= x < 0x8000_0000

  datatype Address = Address(ip: seq<byte>, port: uint16)

  datatype AssignedShard = AssignedShard(shards: seq<Address>, chat: Option<Address>)

  datatype DedicatedServer = DedicatedServer(addr: seq<byte>, port: uint16, session: uint64, zone: int32, flag: bool)

  /** A parser returns nothing but an error, or a result that may still carry one. */
  datatype Parsed<T> = Rejected(error: Error) | Result(value: T, fault: Option<Error>)

  lemma Widths()
    ensures Pow2(1) == 2 && Pow2(8) == 0x100 && Pow2(16) == 0x1_0000
    ensures Pow2(32) == 0x1_0000_0000 && Pow2(64) == 0x1_0000_0000_0000_0000
  {
    Powers();
    PowerOfSum(8, 8);
    PowerOfSum(16, 16);
    PowerOfSum(32, 32);
  }

  /** Two's complement. */
  function Signed(v: uint32): int32 { if v >= 0x8000_0000 then v - 0x1_0000_0000 else v }

  function Unsigned(z: int32): uint32 { z % 0x1_0000_0000 }

  lemma SignedRoundTrip(z: int32)
    ensures Signed(Unsigned(z)) == z
  {
  }

  lemma UnsignedRoundTrip(v: uint32)
    ensures Unsigned(Signed(v)) == v
  {
  }

  // ---- Shard assignment ----

  function ReadAddress(s: seq<bit>): Outcome<Address> {
    match ReadCString(s)
    case Failed(e) => Failed(e)
    case Ok(ip, s1) =>
      match ReadUint(s1, 16)
      case Failed(e) => Failed(e)
      case Ok(port, s2) => Widths(); Ok(Address(ip, port), s2)
  }

  /** The addresses read before the first that fails, if one does. */
  datatype Batch = Batch(all: seq<Address>, fault: Option<Error>, rest: seq<bit>)

  function ReadAddresses(s: seq<bit>, n: nat): Batch
    decreases n
  {
    if n == 0 then Batch([], None, s) else
    match ReadAddress(s)
    case Failed(e) => Batch([], Some(e), s)
    case Ok(a, s1) =>
      var later := ReadAddresses(s1, n - 1);
      later.(all := [a] + later.all)
  }

  function ReadChat(shards: seq<Address>, s: seq<bit>): Parsed<AssignedShard> {
    match ReadBool(s)
    case Failed(_) => Result(AssignedShard(shards, None), None)
    case Ok(hasChat, s1) =>
      if !hasChat then Result(AssignedShard(shards, None), None) else
      match ReadAddress(s1)
      case Failed(e) => Result(AssignedShard(shards, None), Some(e))
      case Ok(a, _) => Result(AssignedShard(shards, Some(a)), None)
  }

  function ParseShards(s: seq<bit>): Parsed<AssignedShard> {
    match ReadBool(s)
    case Failed(e) => Rejected(e)
    case Ok(_, s1) =>
      match ReadUint(s1, 8)
      case Failed(e) => Rejected(e)
      case Ok(count, s2) =>
        var b := ReadAddresses(s2, count);
        if b.fault.Some? then Result(AssignedShard(b.all, None), b.fault) else ReadChat(b.all, b.rest)
  }

  // ---- Dedicated-server handoff ----

  /** Every field but the trailing flag. */
  function ReadHandoff(s: seq<bit>): Outcome<DedicatedServer> {
    match ReadCString(s)
    case Failed(e) => Failed(e)
    case Ok(addr, s1) =>
      match ReadUint(s1, 16)
      case Failed(e) => Failed(e)
      case Ok(port, s2) =>
        match ReadUint(s2, 64)
        case Failed(e) => Failed(e)
        case Ok(session, s3) =>
          match ReadUint(s3, 32)
          case Failed(e) => Failed(e)
          case Ok(zone, s4) => Widths(); Ok(DedicatedServer(addr, port, session, Signed(zone), false), s4)
  }

  function ParseHandoff(s: seq<bit>): Parsed<DedicatedServer> {
    match ReadHandoff(s)
    case Failed(e) => Rejected(e)
    case Ok(d, s1) =>
      var flag := match ReadBool(s1) case Failed(_) => false case Ok(b, _) => b;
      Result(d.(flag := flag), if d.addr == [] then Some(EmptyAddress) else None)
  }

  // ---- The parsers as the program runs them ----

  method CAddress(r: BitReader) returns (a: Field<Address>)
    requires r.Valid()
    modifies r
    ensures r.Valid() && Agrees(a, r.Rest(), ReadAddress(old(r.Rest())))
  {
    var ip := r.CString();
    if ip.Bad? {
      return Bad(ip.error);
    }
    var port := r.Uint(16);
    if port.Bad? {
      return Bad(port.error);
    }
    Widths();
    return Got(Address(ip.value, port.value));
  }

  /** A batch read in progress: `out` so far, `goal` in the end. */
  ghost predicate Batches(s: seq<bit>, n: nat, out: seq<Address>, goal: Batch) {
    var later := ReadAddresses(s, n);
    goal == later.(all := out + later.all)
  }

  lemma BatchesStep(s: seq<bit>, n: nat, out: seq<Address>, goal: Batch)
    requires Batches(s, n, out, goal)
    ensures n == 0 ==> goal == Batch(out, None, s)
    ensures n > 0 ==> match ReadAddress(s)
                      case Failed(e) => goal == Batch(out, Some(e), s)
                      case Ok(a, s1) => Batches(s1, n - 1, out + [a], goal)
  {
    assert out + [] == out;
    var r := ReadAddress(s);
    if n > 0 && r.Ok? {
      var later := ReadAddresses(r.rest, n - 1);
      assert out + ([r.value] + later.all) == (out + [r.value]) + later.all;
    }
  }

  method CAddresses(r: BitReader, n: nat) returns (all: seq<Address>, fault: Option<Error>)
    requires r.Valid()
    modifies r
    ensures r.Valid()
    ensures var b := ReadAddresses(old(r.Rest()), n);
            all == b.all && fault == b.fault && (fault.None? ==> r.Rest() == b.rest)
  {
    hide ReadAddress;
    all := [];
    ghost var goal := ReadAddresses(r.Rest(), n);
    assert [] + goal.all == goal.all;
    for i := 0 to n
      invariant r.Valid() && Batches(r.Rest(), n - i, all, goal)
    {
      BatchesStep(r.Rest(), n - i, all, goal);
      var a := CAddress(r);
      if a.Bad? {
        return all, Some(a.error);
      }
      all := all + [a.value];
    }
    BatchesStep(r.Rest(), 0, all, goal);
    fault := None;
  }

  method ParseAssignedShard(body: seq<byte>) returns (p: Parsed<AssignedShard>)
    ensures p == ParseShards(Bits(body))
  {
    hide ReadAddress;
    hide ReadBool;
    hide ReadUint;
    var r := new BitReader(body);
    var lead := r.Bool();
    if lead.Bad? {
      return Rejected(lead.error);
    }
    var count := r.Uint(8);
    if count.Bad? {
      return Rejected(count.error);
    }
    var out, fault := CAddresses(r, count.value);
    if fault.Some? {
      return Result(AssignedShard(out, None), fault);
    }
    var hasChat := r.Bool();
    if hasChat.Bad? {
      return Result(AssignedShard(out, None), None);
    }
    if !hasChat.value {
      return Result(AssignedShard(out, None), None);
    }
    var chat := CAddress(r);
    if chat.Bad? {
      return Result(AssignedShard(out, None), Some(chat.error));
    }
    return Result(AssignedShard(out, Some(chat.value)), None);
  }

  method ParseDedicatedServer(body: seq<byte>) returns (p: Parsed<DedicatedServer>)
    ensures p == ParseHandoff(Bits(body))
  {
    hide ReadString;
    hide ReadBool;
    hide Pow2;
    var r := new BitReader(body);
    var addr := r.CString();
    if addr.Bad? {
      return Rejected(addr.error);
    }
    var port := r.Uint(16);
    if port.Bad? {
      return Rejected(port.error);
    }
    var session := r.Uint(64);
    if session.Bad? {
      return Rejected(session.error);
    }
    var zone := r.Uint(32);
    if zone.Bad? {
      return Rejected(zone.error);
    }
    var flag := r.Bool();
    Widths();
    var flagged := flag.Got? && flag.value;
    var d := DedicatedServer(addr.value, port.value, session.value, Signed(zone.value), flagged);
    return Result(d, if |addr.value| == 0 then Some(EmptyAddress) else None);
  }

  // ---- Writing ----

  function Flag(b: bool): seq<bit> { Digits(if b then 1 else 0, 1) }

  function WriteAddress(a: Address): seq<bit> { WriteString(a.ip) + Digits(a.port, 16) }

  function WriteAddresses(all: seq<Address>): seq<bit> {
    if all == [] then [] else WriteAddress(all[0]) + WriteAddresses(all[1..])
  }

  function WriteChat(chat: Option<Address>): seq<bit> {
    match chat
    case None => Flag(false)
    case Some(a) => Flag(true) + WriteAddress(a)
  }

  /** The count field holds eight bits of the number of shards. */
  function WriteShards(lead: bool, v: AssignedShard): seq<bit> {
    Flag(lead) + (Digits(|v.shards| % 0x100, 8) + (WriteAddresses(v.shards) + WriteChat(v.chat)))
  }

  function WriteFields(d: DedicatedServer): seq<bit> {
    WriteString(d.addr) + (Digits(d.port, 16) + (Digits(d.session, 64) + Digits(Unsigned(d.zone), 32)))
  }

  function WriteHandoff(d: DedicatedServer): seq<bit> { WriteFields(d) + Flag(d.flag) }

  predicate Sendable(a: Address) { Terminable(a.ip, MAX_STRING_LENGTH) }

  predicate AllSendable(all: seq<Address>) { forall a | a in all :: Sendable(a) }

  predicate Encodable(v: AssignedShard) {
    |v.shards| < 0x100 && AllSendable(v.shards) && (v.chat.Some? ==> Sendable(v.chat.value))
  }

  // ---- Reading back what was written ----

  lemma Associate<T>(a: seq<T>, b: seq<T>, c: seq<T>)
    ensures (a + b) + c == a + (b + c)
  {
  }

  lemma FlagRoundTrip(b: bool, rest: seq<bit>)
    ensures ReadBool(Flag(b) + rest) == Ok(b, rest)
  {
    Widths();
    UintRoundTrip(if b then 1 else 0, 1, rest);
  }

  lemma AddressRoundTrip(a: Address, rest: seq<bit>)
    requires Sendable(a)
    ensures ReadAddress(WriteAddress(a) + rest) == Ok(a, rest)
  {
    Widths();
    Associate(WriteString(a.ip), Digits(a.port, 16), rest);
    StringRoundTrip(a.ip, MAX_STRING_LENGTH, Digits(a.port, 16) + rest);
    UintRoundTrip(a.port, 16, rest);
  }

  lemma {:induction false} AddressesRoundTrip(all: seq<Address>, rest: seq<bit>)
    requires AllSendable(all)
    ensures ReadAddresses(WriteAddresses(all) + rest, |all|) == Batch(all, None, rest)
    decreases |all|
  {
    hide ReadAddress;
    hide WriteAddress;
    hide Sendable;
    if all == [] {
      assert WriteAddresses(all) + rest == rest;
    } else {
      var a, later := all[0], all[1..];
      assert a in all && all == [a] + later;
      Associate(WriteAddress(a), WriteAddresses(later), rest);
      AddressRoundTrip(a, WriteAddresses(later) + rest);
      AddressesRoundTrip(later, rest);
    }
  }

  lemma ChatRoundTrip(shards: seq<Address>, chat: Option<Address>, pad: seq<bit>)
    requires chat.Some? ==> Sendable(chat.value)
    ensures ReadChat(shards, WriteChat(chat) + pad) == Result(AssignedShard(shards, chat), None)
  {
    match chat
    case None => FlagRoundTrip(false, pad);
    case Some(a) =>
      Associate(Flag(true), WriteAddress(a), pad);
      FlagRoundTrip(true, WriteAddress(a) + pad);
      AddressRoundTrip(a, pad);
  }

  lemma ShardsRoundTrip(lead: bool, v: AssignedShard, pad: seq<bit>)
    requires Encodable(v)
    ensures ParseShards(WriteShards(lead, v) + pad) == Result(v, None)
  {
    hide Digits;
    hide ReadUint;
    hide ReadBool;
    hide Flag;
    hide ReadAddresses;
    hide WriteAddresses;
    hide WriteChat;
    hide ReadChat;
    Widths();
    var n, all, chat := Digits(|v.shards|, 8), WriteAddresses(v.shards), WriteChat(v.chat);
    Associate(Flag(lead), n + (all + chat), pad);
    Associate(n, all + chat, pad);
    Associate(all, chat, pad);
    FlagRoundTrip(lead, n + (all + (chat + pad)));
    UintRoundTrip(|v.shards|, 8, all + (chat + pad));
    AddressesRoundTrip(v.shards, chat + pad);
    ChatRoundTrip(v.shards, v.chat, pad);
  }

  lemma HandoffFieldsRoundTrip(d: DedicatedServer, rest: seq<bit>)
    requires Terminable(d.addr, MAX_STRING_LENGTH)
    ensures ReadHandoff(WriteFields(d) + rest) == Ok(d.(flag := false), rest)
  {
    hide Digits;
    hide ReadUint;
    hide ReadString;
    hide WriteString;
    Widths();
    var p, q, z := Digits(d.port, 16), Digits(d.session, 64), Digits(Unsigned(d.zone), 32);
    Associate(WriteString(d.addr), p + (q + z), rest);
    Associate(p, q + z, rest);
    Associate(q, z, rest);
    StringRoundTrip(d.addr, MAX_STRING_LENGTH, p + (q + (z + rest)));
    UintRoundTrip(d.port, 16, q + (z + rest));
    UintRoundTrip(d.session, 64, z + rest);
    UintRoundTrip(Unsigned(d.zone), 32, rest);
    SignedRoundTrip(d.zone);
  }

  lemma HandoffRoundTrip(d: DedicatedServer, pad: seq<bit>)
    requires Terminable(d.addr, MAX_STRING_LENGTH)
    ensures ParseHandoff(WriteHandoff(d) + pad) == Result(d, if d.addr == [] then Some(EmptyAddress) else None)
  {
    Associate(WriteFields(d), Flag(d.flag), pad);
    HandoffFieldsRoundTrip(d, Flag(d.flag) + pad);
    FlagRoundTrip(d.flag, pad);
  }

  // ---- Everything read is something written ----

  lemma BoolInverse(s: seq<bit>)
    requires ReadBool(s).Ok?
    ensures var r := ReadBool(s); s == Flag(r.value) + r.rest
  {
    Widths();
    UintInverse(s, 1);
  }

  lemma AddressInverse(s: seq<bit>)
    requires ReadAddress(s).Ok?
    ensures var r := ReadAddress(s); Sendable(r.value) && s == WriteAddress(r.value) + r.rest
  {
    Widths();
    StringInverse(s, MAX_STRING_LENGTH);
    var ip := ReadCString(s);
    UintInverse(ip.rest, 16);
    var port := ReadUint(ip.rest, 16);
    Associate(WriteString(ip.value), Digits(port.value, 16), port.rest);
  }

  /** The addresses read are whole and in order, and there are as many as were asked for unless the next one
      cannot be read. */
  lemma {:induction false} AddressesInverse(s: seq<bit>, n: nat)
    ensures var b := ReadAddresses(s, n);
            && |b.all| <= n && AllSendable(b.all) && s == WriteAddresses(b.all) + b.rest
            && (b.fault.None? <==> |b.all| == n) && (b.fault.Some? ==> ReadAddress(b.rest) == Failed(b.fault.value))
    decreases n
  {
    hide ReadAddress;
    hide WriteAddress;
    var a := ReadAddress(s);
    if n == 0 || a.Failed? {
      assert WriteAddresses([]) + s == s;
    } else {
      AddressInverse(s);
      AddressesInverse(a.rest, n - 1);
      var later := ReadAddresses(a.rest, n - 1);
      assert ([a.value] + later.all)[1..] == later.all;
      Associate(WriteAddress(a.value), WriteAddresses(later.all), later.rest);
    }
  }

  lemma {:induction false} StringIsWhole(t: seq<byte>)
    ensures |WriteString(t)| == 8 * |t| + 8
    decreases |t|
  {
    if t != [] {
      StringIsWhole(t[1..]);
    }
  }

  lemma {:induction false} AddressesAreWhole(all: seq<Address>)
    ensures |WriteAddresses(all)| % 8 == 0
    decreases |all|
  {
    if all != [] {
      StringIsWhole(all[0].ip);
      AddressesAreWhole(all[1..]);
    }
  }

  /** Behind the leading flag every field up to the chat flag fills whole octets, so in a buffer of
      octets the chat flag is never missing: the parser's tolerance for its absence is never used. */
  lemma ChatFlagIsNeverMissing(body: seq<byte>)
    requires ReadBool(Bits(body)).Ok?
    requires var s1 := ReadBool(Bits(body)).rest; ReadUint(s1, 8).Ok?
    requires var s2 := ReadUint(ReadBool(Bits(body)).rest, 8);
             ReadAddresses(s2.rest, s2.value).fault.None?
    ensures var s2 := ReadUint(ReadBool(Bits(body)).rest, 8);
            ReadBool(ReadAddresses(s2.rest, s2.value).rest).Ok?
  {
    hide Digits;
    hide ReadAddresses;
    hide WriteAddresses;
    var s1 := ReadBool(Bits(body)).rest;
    var c := ReadUint(s1, 8);
    var b := ReadAddresses(c.rest, c.value);
    BoolInverse(Bits(body));
    UintInverse(s1, 8);
    AddressesInverse(c.rest, c.value);
    AddressesAreWhole(b.all);
    assert |Bits(body)| == 1 + (8 + (|WriteAddresses(b.all)| + |b.rest|));
  }

  lemma FirstBit(s: seq<bit>)
    ensures ReadBool(s) == if s == [] then Failed(PastEnd) else Ok(s[0] == 1, s[1..])
  {
    if s != [] {
      Widths();
      assert s[..1] == [s[0]];
      NumberSnoc([], s[0]);
      NumberOfNothing();
      assert [] + [s[0]] == [s[0]];
    }
  }

  /** What the parser makes of any bits at all. Without a flag and a count there is nothing; else there are the
      addresses up to the first that cannot be read, which is complained of, or up to the count; then there is the
      chat address if its flag is there and set and it can be read, which again is complained of if not. */
  lemma AssignmentTells(s: seq<bit>)
    ensures |s| < 9 ==> ParseShards(s) == Rejected(PastEnd)
    ensures |s| >= 9 ==> ParseShards(s).Result?
    ensures |s| >= 9 ==>
              var v, fault := ParseShards(s).value, ParseShards(s).fault;
              var n := 9 + |WriteAddresses(v.shards)|;
              && n <= |s| && s[9..n] == WriteAddresses(v.shards) && AllSendable(v.shards)
              && |v.shards| <= Number(s[1..9])
              && if |v.shards| < Number(s[1..9]) then
                   v.chat.None? && fault.Some? && ReadAddress(s[n..]) == Failed(fault.value)
                 else if n == |s| || s[n] == 0 then v.chat.None? && fault.None?
                 else match ReadAddress(s[n + 1..])
                      case Failed(e) => v.chat.None? && fault == Some(e)
                      case Ok(a, _) => v.chat == Some(a) && fault.None?
  {
    hide ReadBool;
    hide ReadAddress;
    hide ReadAddresses;
    hide WriteAddresses;
    hide Number;
    FirstBit(s);
    if |s| >= 9 {
      assert s[1..][..8] == s[1..9] && s[1..][8..] == s[9..];
      var b := ReadAddresses(s[9..], Number(s[1..9]));
      AddressesInverse(s[9..], Number(s[1..9]));
      FirstBit(b.rest);
      var n := 9 + |WriteAddresses(b.all)|;
      assert s[9..n] == s[9..][..n - 9] && s[n..] == s[9..][n - 9..];
      assert b.rest != [] ==> b.rest[1..] == s[n + 1..];
    }
  }

  lemma ChatInverse(shards: seq<Address>, s: seq<bit>)
    requires ReadBool(s).Ok? && ReadChat(shards, s).fault.None?
    ensures var v := ReadChat(shards, s).value;
            && v.shards == shards && (v.chat.Some? ==> Sendable(v.chat.value))
            && WriteChat(v.chat) <= s
  {
    BoolInverse(s);
    var f := ReadBool(s);
    if f.value {
      AddressInverse(f.rest);
    }
  }

  lemma PrefixOfTail<T>(a: seq<T>, b: seq<T>, t: seq<T>)
    requires b <= t
    ensures a + b <= a + t
  {
  }

  lemma ShardsInverse(body: seq<byte>)
    requires ParseShards(Bits(body)).Result? && ParseShards(Bits(body)).fault.None?
    ensures var v := ParseShards(Bits(body)).value;
            Encodable(v) && WriteShards(ReadBool(Bits(body)).value, v) <= Bits(body)
  {
    hide Digits;
    hide ReadUint;
    hide ReadBool;
    hide Flag;
    hide ReadAddresses;
    hide WriteAddresses;
    hide WriteChat;
    hide ReadChat;
    Widths();
    var s := Bits(body);
    var lead := ReadBool(s);
    var c := ReadUint(lead.rest, 8);
    var b := ReadAddresses(c.rest, c.value);
    ChatFlagIsNeverMissing(body);
    BoolInverse(s);
    UintInverse(lead.rest, 8);
    AddressesInverse(c.rest, c.value);
    ChatInverse(b.all, b.rest);
    var v := ParseShards(s).value;
    assert v == ReadChat(b.all, b.rest).value;
    hide ParseShards;
    var n, all, chat := Digits(c.value, 8), WriteAddresses(b.all), WriteChat(v.chat);
    NestedPrefixes(Flag(lead.value), lead.rest, n, c.rest, all, b.rest, chat);
  }

  lemma NestedPrefixes<T>(f: seq<T>, s: seq<T>, n: seq<T>, t: seq<T>, all: seq<T>, u: seq<T>, chat: seq<T>)
    requires s == n + t && t == all + u && chat <= u
    ensures f + (n + (all + chat)) <= f + s
  {
    PrefixOfTail(all, chat, u);
    PrefixOfTail(n, all + chat, t);
    PrefixOfTail(f, n + (all + chat), s);
  }

  /** The parser accepts a body without complaint exactly when it begins with a writer's output, and
      then returns what was written: the encoding and the parser determine each other. */
  lemma ShardBodiesAreEncodings(body: seq<byte>, v: AssignedShard)
    ensures ParseShards(Bits(body)) == Result(v, None)
       <==> Encodable(v) && exists lead :: WriteShards(lead, v) <= Bits(body)
  {
    hide ParseShards;
    hide WriteShards;
    if ParseShards(Bits(body)) == Result(v, None) {
      ShardsInverse(body);
    }
    if Encodable(v) && exists lead :: WriteShards(lead, v) <= Bits(body) {
      var lead :| WriteShards(lead, v) <= Bits(body);
      var w := WriteShards(lead, v);
      assert w + Bits(body)[|w|..] == Bits(body);
      ShardsRoundTrip(lead, v, Bits(body)[|w|..]);
    }
  }

  /** A packed assignment comes back unchanged exactly when it has at most 255 shards and every
      address is free of NUL and at most 4095 bytes long. */
  lemma ShardBodyRoundTripsIff(lead: bool, v: AssignedShard)
    ensures ParseShards(Bits(Pack(WriteShards(lead, v)))) == Result(v, None) <==> Encodable(v)
  {
    var w := WriteShards(lead, v);
    PackRoundTrip(w);
    if Encodable(v) {
      ShardsRoundTrip(lead, v, Zeros(Padding(w)));
    } else {
      ShardBodiesAreEncodings(Pack(w), v);
    }
  }

  lemma HandoffInverse(s: seq<bit>)
    requires ReadHandoff(s).Ok?
    ensures var r := ReadHandoff(s);
            && Terminable(r.value.addr, MAX_STRING_LENGTH) && !r.value.flag
            && s == WriteFields(r.value) + r.rest
  {
    hide Digits;
    hide ReadUint;
    hide ReadString;
    hide WriteString;
    Widths();
    var a := ReadCString(s);
    var p := ReadUint(a.rest, 16);
    var q := ReadUint(p.rest, 64);
    var z := ReadUint(q.rest, 32);
    StringInverse(s, MAX_STRING_LENGTH);
    UintInverse(a.rest, 16);
    UintInverse(p.rest, 64);
    UintInverse(q.rest, 32);
    UnsignedRoundTrip(z.value);
    var w, x, y := Digits(p.value, 16), Digits(q.value, 64), Digits(z.value, 32);
    Associate(x, y, z.rest);
    Associate(w, x + y, z.rest);
    Associate(WriteString(a.value), w + (x + y), z.rest);
  }

  /** What the parser makes of any bits at all: the fields they begin with, and the flag if one more bit is there;
      it gives up exactly if they begin with no address, port, session and zone. */
  lemma HandoffTells(s: seq<bit>)
    ensures match ParseHandoff(s)
            case Rejected(_) => forall d: DedicatedServer :: Terminable(d.addr, 4096) ==> !(WriteFields(d) <= s)
            case Result(d, fault) =>
              var n := |WriteFields(d)|;
              && Terminable(d.addr, 4096) && n <= |s| && s[..n] == WriteFields(d)
              && (d.flag <==> n < |s| && s[n] == 1)
              && fault == if d.addr == [] then Some(EmptyAddress) else None
  {
    hide ReadHandoff;
    hide ReadBool;
    hide WriteString;
    hide Digits;
    var r := ReadHandoff(s);
    match r
    case Ok(d, rest) =>
      HandoffInverse(s);
      FirstBit(rest);
      assert WriteFields(d.(flag := ParseHandoff(s).value.flag)) == WriteFields(d);
    case Failed(_) =>
      forall d: DedicatedServer | Terminable(d.addr, 4096) && WriteFields(d) <= s
        ensures false
      {
        assert s == WriteFields(d) + s[|WriteFields(d)|..];
        HandoffFieldsRoundTrip(d, s[|WriteFields(d)|..]);
      }
  }

  /** A packed handoff comes back unchanged and without complaint exactly when its address is not
      empty and fits a string field. */
  lemma HandoffBodyRoundTripsIff(d: DedicatedServer)
    ensures ParseHandoff(Bits(Pack(WriteHandoff(d)))) == Result(d, None)
       <==> d.addr != [] && Terminable(d.addr, MAX_STRING_LENGTH)
  {
    var w := WriteHandoff(d);
    PackRoundTrip(w);
    if Terminable(d.addr, MAX_STRING_LENGTH) {
      HandoffRoundTrip(d, Zeros(Padding(w)));
    } else if ParseHandoff(Bits(Pack(w))) == Result(d, None) {
      HandoffInverse(Bits(Pack(w)));
    }
  }

  // ---- Truncated bodies ----

  lemma BoolContinues(s: seq<bit>, more: seq<bit>)
    ensures Continues(ReadBool(s), ReadBool(s + more), more)
  {
    UintContinues(s, 1, more);
  }

  lemma AddressContinues(s: seq<bit>, more: seq<bit>)
    ensures Continues(ReadAddress(s), ReadAddress(s + more), more)
  {
    StringContinues(s, MAX_STRING_LENGTH, more);
    if ReadCString(s).Ok? {
      UintContinues(ReadCString(s).rest, 16, more);
    }
  }

  /** With more input a batch only grows; once complete it does not change. */
  lemma {:induction false} AddressesContinue(s: seq<bit>, n: nat, more: seq<bit>)
    ensures var b, c := ReadAddresses(s, n), ReadAddresses(s + more, n);
            && b.all <= c.all
            && (b.fault.None? ==> c == Batch(b.all, None, b.rest + more))
            && (b.fault.Some? && b.fault.value != PastEnd ==> c.all == b.all && c.fault == b.fault)
    decreases n
  {
    hide ReadAddress;
    if n > 0 {
      AddressContinues(s, more);
      if ReadAddress(s).Ok? {
        AddressesContinue(ReadAddress(s).rest, n - 1, more);
      }
    }
  }

  lemma ChatContinues(shards: seq<Address>, s: seq<bit>, more: seq<bit>)
    ensures var p, q := ReadChat(shards, s), ReadChat(shards, s + more);
            && p.Result? && q.Result? && q.value.shards == shards
            && (p.value.chat.Some? ==> q == p)
  {
    BoolContinues(s, more);
    if ReadBool(s).Ok? && ReadBool(s).value {
      AddressContinues(ReadBool(s).rest, more);
    }
  }

  lemma ShardsContinue(s: seq<bit>, more: seq<bit>)
    requires ParseShards(s).Result?
    ensures var p, q := ParseShards(s), ParseShards(s + more);
            && q.Result? && p.value.shards <= q.value.shards
            && (p.value.chat.Some? ==> q == p)
  {
    BoolContinues(s, more);
    var s1 := ReadBool(s).rest;
    UintContinues(s1, 8, more);
    var c := ReadUint(s1, 8);
    AddressesContinue(c.rest, c.value, more);
    var b := ReadAddresses(c.rest, c.value);
    if b.fault.None? {
      ChatContinues(b.all, b.rest, more);
    } else {
      var b1 := ReadAddresses(c.rest + more, c.value);
      ChatContinues(b1.all, b1.rest, []);
    }
  }

  lemma BitsOfPrefix(p: seq<byte>, body: seq<byte>)
    requires p <= body
    ensures Bits(body) == Bits(p) + Bits(body[|p|..])
  {
    assert body == p + body[|p|..];
    BitsConcat(p, body[|p|..]);
  }

  /** Cutting a body short never invents or alters a shard: what the cut body yields is a prefix of
      what the whole body yields, and a chat endpoint once read is final. */
  lemma TruncationKeepsAPrefix(p: seq<byte>, body: seq<byte>)
    requires p <= body && ParseShards(Bits(p)).Result?
    ensures var short, whole := ParseShards(Bits(p)), ParseShards(Bits(body));
            && whole.Result? && short.value.shards <= whole.value.shards
            && (short.value.chat.Some? ==> whole == short)
  {
    BitsOfPrefix(p, body);
    ShardsContinue(Bits(p), Bits(body[|p|..]));
  }

  lemma HandoffContinues(s: seq<bit>, more: seq<bit>)
    ensures Continues(ReadHandoff(s), ReadHandoff(s + more), more)
  {
    StringContinues(s, MAX_STRING_LENGTH, more);
    var a := ReadCString(s);
    if a.Ok? {
      UintContinues(a.rest, 16, more);
      var p := ReadUint(a.rest, 16);
      if p.Ok? {
        UintContinues(p.rest, 64, more);
        var q := ReadUint(p.rest, 64);
        if q.Ok? {
          UintContinues(q.rest, 32, more);
        }
      }
    }
  }

  /** A cut handoff that still parses differs from the whole one at most in the trailing flag, and
      only by not having read it. */
  lemma TruncatedHandoffKeepsItsFields(p: seq<byte>, body: seq<byte>)
    requires p <= body && ParseHandoff(Bits(p)).Result?
    ensures var short, whole := ParseHandoff(Bits(p)), ParseHandoff(Bits(body));
            && whole.Result? && short == Result(whole.value.(flag := short.value.flag), whole.fault)
            && (short.value.flag ==> whole.value.flag)
  {
    BitsOfPrefix(p, body);
    var more := Bits(body[|p|..]);
    HandoffContinues(Bits(p), more);
    BoolContinues(ReadHandoff(Bits(p)).rest, more);
  }

  /** A packed handoff survives truncation exactly while every field before the flag is complete. */
  lemma HandoffNeedsAllItsFields(d: DedicatedServer, p: seq<byte>)
    requires Terminable(d.addr, MAX_STRING_LENGTH) && p <= Pack(WriteHandoff(d))
    ensures ParseHandoff(Bits(p)).Result? <==> |p| >= |d.addr| + 15
  {
    hide Digits;
    hide WriteString;
    hide ReadHandoff;
    hide Pack;
    hide Bits;
    var body := Pack(WriteHandoff(d));
    PackRoundTrip(WriteHandoff(d));
    BitsOfPrefix(p, body);
    StringIsWhole(d.addr);
    var f := WriteFields(d);
    assert |f| == 8 * (|d.addr| + 15);
    assert f <= Bits(body);
    if |p| >= |d.addr| + 15 {
      assert Bits(p) == f + Bits(p)[|f|..];
      HandoffFieldsRoundTrip(d, Bits(p)[|f|..]);
    } else if ReadHandoff(Bits(p)).Ok? {
      HandoffInverse(Bits(p));
      var r := ReadHandoff(Bits(p));
      StringIsWhole(r.value.addr);
      HandoffContinues(Bits(p), Bits(body[|p|..]));
      assert Bits(body) == f + Bits(body)[|f|..];
      HandoffFieldsRoundTrip(d, Bits(body)[|f|..]);
    }
  }

  // ---- The layout in octets ----

  function PutBE64(v: uint64): (r: seq<byte>)
    ensures |r| == 8
  {
    PutBE32(v / 0x1_0000_0000) + PutBE32(v % 0x1_0000_0000)
  }

  lemma Worth16(v: uint16)
    ensures BigEndian(PutBE16(v)) == v && BigEndian([0]) == 0
  {
    assert PutBE16(v)[..1] == [v / 0x100] && BigEndian([v / 0x100]) == v / 0x100;
  }

  lemma Worth32(v: uint32)
    ensures BigEndian(PutBE32(v)) == v
  {
    var a, b, c, d := v / 0x100_0000, v / 0x1_0000 % 0x100, v / 0x100 % 0x100, v % 0x100;
    Split32(v);
    BigEndianSnoc([], a);
    BigEndianSnoc([a], b);
    BigEndianSnoc([a, b], c);
    BigEndianSnoc([a, b, c], d);
    assert [] + [a] == [a] && [a] + [b] == [a, b] && [a, b] + [c] == [a, b, c] && [a, b, c] + [d] == PutBE32(v);
  }

  lemma BigEndianSnoc(buf: seq<byte>, b: byte)
    ensures BigEndian(buf + [b]) == 0x100 * BigEndian(buf) + b
  {
    assert (buf + [b])[..|buf|] == buf;
  }

  lemma BigEndianOfWords(h: seq<byte>, l: seq<byte>)
    requires |l| == 4
    ensures BigEndian(h + l) == 0x1_0000_0000 * BigEndian(h) + BigEndian(l)
  {
    hide BigEndian;
    BigEndianSnoc(h, l[0]);
    BigEndianSnoc(h + [l[0]], l[1]);
    BigEndianSnoc(h + [l[0]] + [l[1]], l[2]);
    BigEndianSnoc(h + [l[0]] + [l[1]] + [l[2]], l[3]);
    BigEndianSnoc([], l[0]);
    BigEndianSnoc([l[0]], l[1]);
    BigEndianSnoc([l[0]] + [l[1]], l[2]);
    BigEndianSnoc([l[0]] + [l[1]] + [l[2]], l[3]);
    assert BigEndian([]) == 0 by { Nothing(); }
    assert h + l == h + [l[0]] + [l[1]] + [l[2]] + [l[3]] && l == [l[0]] + [l[1]] + [l[2]] + [l[3]];
    assert [] + [l[0]] == [l[0]];
  }

  lemma Nothing()
    ensures BigEndian([]) == 0
  {
  }

  lemma Worth64(v: uint64)
    ensures BigEndian(PutBE64(v)) == v
  {
    Worth32(v / 0x1_0000_0000);
    Worth32(v % 0x1_0000_0000);
    BigEndianOfWords(PutBE32(v / 0x1_0000_0000), PutBE32(v % 0x1_0000_0000));
  }

  lemma OctetDigits(b: byte)
    ensures Digits(b, 8) == Bits([b])
  {
    DigitsAreOctets([b]);
    BigEndianSnoc([], b);
    assert [] + [b] == [b];
  }

  lemma {:induction false} StringLayout(t: seq<byte>)
    ensures WriteString(t) == Bits(t + [0])
    decreases |t|
  {
    hide Digits;
    hide Bits;
    if t == [] {
      OctetDigits(0);
      assert t + [0] == [0];
    } else {
      OctetDigits(t[0]);
      StringLayout(t[1..]);
      BitsConcat([t[0]], t[1..] + [0]);
      assert t + [0] == [t[0]] + (t[1..] + [0]);
    }
  }

  /** An address is its text, a zero octet, and the port with its more significant octet first. */
  function AddressOctets(a: Address): seq<byte> { a.ip + [0] + PutBE16(a.port) }

  function AddressesOctets(all: seq<Address>): seq<byte>
    decreases |all|
  {
    if all == [] then [] else AddressOctets(all[0]) + AddressesOctets(all[1..])
  }

  lemma AddressLayout(a: Address)
    ensures WriteAddress(a) == Bits(AddressOctets(a))
  {
    StringLayout(a.ip);
    Worth16(a.port);
    DigitsAreOctets(PutBE16(a.port));
    BitsConcat(a.ip + [0], PutBE16(a.port));
  }

  lemma {:induction false} AddressesLayout(all: seq<Address>)
    ensures WriteAddresses(all) == Bits(AddressesOctets(all))
    decreases |all|
  {
    hide WriteAddress;
    hide AddressOctets;
    if all != [] {
      AddressLayout(all[0]);
      AddressesLayout(all[1..]);
      BitsConcat(AddressOctets(all[0]), AddressesOctets(all[1..]));
    }
  }

  function BitFor(b: bool): bit { if b then 1 else 0 }

  lemma FlagLayout(b: bool)
    ensures Flag(b) == [BitFor(b)]
  {
    assert Digits(if b then 1 else 0, 1) == Digits(0, 0) + [BitFor(b)];
  }

  /** An assignment is a flag, then octets at an offset of one bit - the count and the addresses -, then the
      chat flag and, if it is set, the chat address. */
  lemma ShardLayout(lead: bool, v: AssignedShard)
    requires |v.shards| < 0x100
    ensures WriteShards(lead, v) == [BitFor(lead)] + Bits([|v.shards|] + AddressesOctets(v.shards))
              + [BitFor(v.chat.Some?)] + if v.chat.Some? then Bits(AddressOctets(v.chat.value)) else []
  {
    hide Digits;
    hide Bits;
    hide WriteAddress;
    hide WriteAddresses;
    hide AddressOctets;
    hide Flag;
    FlagLayout(lead);
    FlagLayout(v.chat.Some?);
    OctetDigits(|v.shards|);
    AddressesLayout(v.shards);
    BitsConcat([|v.shards|], AddressesOctets(v.shards));
    if v.chat.Some? {
      AddressLayout(v.chat.value);
    }
  }

  /** A handoff is an address, a session and a zone, octet for octet; the zone is in two's complement. */
  function HandoffOctets(d: DedicatedServer): seq<byte> {
    d.addr + [0] + PutBE16(d.port) + PutBE64(d.session) + PutBE32(if d.zone < 0 then d.zone + 0x1_0000_0000 else d.zone)
  }

  lemma HandoffLayout(d: DedicatedServer)
    ensures WriteFields(d) == Bits(HandoffOctets(d))
  {
    hide Digits;
    hide Bits;
    hide BigEndian;
    hide PutBE16;
    hide PutBE32;
    hide PutBE64;
    hide WriteString;
    var z := if d.zone < 0 then d.zone + 0x1_0000_0000 else d.zone;
    assert Unsigned(d.zone) == z;
    var a, b, e, f := d.addr + [0], PutBE16(d.port), PutBE64(d.session), PutBE32(z);
    StringLayout(d.addr);
    Worth16(d.port);
    Worth64(d.session);
    Worth32(z);
    DigitsAreOctets(b);
    DigitsAreOctets(e);
    DigitsAreOctets(f);
    BitsConcat(a, b);
    BitsConcat(a + b, e);
    BitsConcat(a + b + e, f);
    Associate(Bits(a), Bits(b), Bits(e) + Bits(f));
    Associate(Bits(a) + Bits(b), Bits(e), Bits(f));
  }

  /** What the parser makes of a handoff's octets: the fields, and behind them the first bit of whatever
      follows as the flag. An address of up to 4095 octets is read, an empty one is complained of. */
  lemma HandoffOfOctets(d: DedicatedServer, tail: seq<byte>)
    requires |d.addr| < 4096 && 0 !in d.addr && d.flag == (tail != [] && tail[0] >= 128)
    ensures ParseHandoff(Bits(HandoffOctets(d) + tail)) == Result(d, if d.addr == [] then Some(EmptyAddress) else None)
  {
    hide HandoffOctets;
    hide Bits;
    hide Digits;
    hide WriteFields;
    hide ReadHandoff;
    HandoffLayout(d);
    BitsConcat(HandoffOctets(d), tail);
    HandoffFieldsRoundTrip(d, Bits(tail));
    FlagOfTail(tail);
  }

  lemma FlagOfTail(tail: seq<byte>)
    ensures match ReadBool(Bits(tail))
            case Failed(_) => tail == []
            case Ok(b, _) => tail != [] && b == (tail[0] >= 128)
  {
    if tail != [] {
      Powers();
      NumberOfNothing();
      var s := Bits(tail);
      assert s[..1] == [s[0]];
      NumberSnoc([], s[0]);
      assert [] + [s[0]] == [s[0]];
    }
  }

  /** A text without a zero octet is read back if it has at most 4095 octets, and is unterminated otherwise. */
  lemma StringLimit(t: seq<byte>, rest: seq<bit>)
    requires 0 !in t
    ensures ReadCString(WriteString(t) + rest) == if |t| < 4096 then Ok(t, rest) else Failed(Unterminated)
  {
    hide ReadString;
    hide WriteString;
    if |t| < 4096 {
      StringRoundTrip(t, 4096, rest);
    } else {
      StringTooLong(t, 4096, rest);
    }
  }

  lemma {:induction false} StringTooLong(t: seq<byte>, room: nat, rest: seq<bit>)
    requires 0 !in t && |t| >= room
    ensures ReadString(WriteString(t) + rest, room) == Failed(Unterminated)
    decreases room
  {
    hide Digits;
    hide ReadUint;
    Powers();
    if room > 0 {
      assert t[0] in t;
      UintRoundTrip(t[0], 8, WriteString(t[1..]) + rest);
      Associate(Digits(t[0], 8), WriteString(t[1..]), rest);
      StringTooLong(t[1..], room - 1, rest);
    }
  }
}
