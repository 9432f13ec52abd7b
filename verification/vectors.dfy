/**
 Known answers: inputs and outputs recorded with the program, in its golden file and its tests, worked
 through the definitions of this model. They pin what no law can: byte orders, constants and texts.
 */
module Vectors {
  import opened Bytes
  import opened Checksums
  import Coverage
  import Flows
  import Framing
  import Journals
  import KeyValues
  import Pipelines
  import Streams
  import Text

  // ---- The golden packets ----

  lemma OctetBits(v: bv8)
    ensures Checksums.Bits(Value(v)) == v
  {
    ValueInjective(Checksums.Bits(Value(v)), v);
  }

  function Fed(h: bv32, a: bv8, b: bv8, c: bv8, d: bv8): bv32 { Xor(Mul(h), Scramble(Word(a, b, c, d))) }

  lemma AbsorbsWord(h: bv32, a: bv8, b: bv8, c: bv8, d: bv8)
    ensures Absorb(h, [Value(a), Value(b), Value(c), Value(d)]) == Fed(h, a, b, c, d)
  {
    hide Mul;
    hide Scramble;
    hide Word;
    hide Xor;
    hide Value;
    OctetBits(a);
    OctetBits(b);
    OctetBits(c);
    OctetBits(d);
  }

  lemma ThreeWords(h: bv32, u: seq<byte>, v: seq<byte>, w: seq<byte>)
    requires |u| == |v| == |w| == 4
    ensures GO.Fold(h, u + (v + w)) == Absorb(Absorb(Absorb(h, u), v), w)
  {
    hide Absorb;
    hide Tail;
    GO.FoldStep(h, u, v + w);
    GO.FoldStep(Absorb(h, u), v, w);
    assert w + [] == w;
    GO.FoldStep(Absorb(Absorb(h, u), v), w, []);
    NoTail(Absorb(Absorb(Absorb(h, u), v), w));
  }

  lemma NoTail(h: bv32)
    ensures GO.Fold(h, []) == h
  {
  }

  lemma SmallOctets(n: byte, q: byte, e: byte, t: byte)
    ensures HeaderOctets(n, q, e, t) == [n, 0, 0, 0] + ([q, 0, e, 0] + [t, 0, 0, 0])
  {
  }

  /** The state after a header whose four numbers are single octets. */
  lemma SmallHeader(n: bv8, q: bv8, e: bv8, t: bv8)
    ensures GO.Fold(GO.start, HeaderOctets(Value(n), Value(q), Value(e), Value(t)))
         == Fed(Fed(Fed(GO.start, n, 0, 0, 0), q, 0, e, 0), t, 0, 0, 0)
  {
    hide Fed;
    hide Absorb;
    hide HeaderOctets;
    assert Value(0) == 0;
    hide Value;
    SmallOctets(Value(n), Value(q), Value(e), Value(t));
    ThreeWords(GO.start, [Value(n), 0, 0, 0], [Value(q), 0, Value(e), 0], [Value(t), 0, 0, 0]);
    AbsorbsWord(GO.start, n, 0, 0, 0);
    AbsorbsWord(Fed(GO.start, n, 0, 0, 0), q, 0, e, 0);
    AbsorbsWord(Fed(Fed(GO.start, n, 0, 0, 0), q, 0, e, 0), t, 0, 0, 0);
  }

  lemma Numerals()
    ensures Value(0) == 0 && Value(1) == 1 && Value(2) == 2 && Value(3) == 3 && Value(5) == 5 && Value(6) == 6
    ensures Value(13) == 13 && Value(14) == 14 && Value(101) == 101 && Value(104) == 104 && Value(108) == 108
    ensures Value(111) == 111
  {
  }

  lemma OneOctetStates()
    ensures Fed(Fed(Fed(GO.start, 1, 0, 0, 0), 1, 0, 0, 0), 13, 0, 0, 0) == 0x60be73f5
    ensures Finish(Mul(Mix1(0x60be73f5, 1))) == 0xde2b9324
  {
    assert Fed(0x13375331, 1, 0, 0, 0) == 0x45cb9663;
    assert Fed(0x45cb9663, 1, 0, 0, 0) == 0x79163079;
    assert Fed(0x79163079, 13, 0, 0, 0) == 0x60be73f5;
    assert Mul(Mix1(0x60be73f5, 1)) == 0x0c969104;
  }

  lemma TwoOctetStates()
    ensures Fed(Fed(Fed(GO.start, 2, 0, 0, 0), 2, 0, 1, 0), 14, 0, 0, 0) == 0xdeb62110
    ensures Finish(Mul(Mix2(0xdeb62110, 1, 2))) == 0x74c06cd3
  {
    assert Fed(0x13375331, 2, 0, 0, 0) == 0x4fcd0be4;
    assert Fed(0x4fcd0be4, 2, 0, 1, 0) == 0x7f59cd53;
    assert Fed(0x7f59cd53, 14, 0, 0, 0) == 0xdeb62110;
    assert Mul(Mix2(0xdeb62110, 1, 2)) == 0x11cde1e5;
  }

  lemma ThreeOctetStates()
    ensures Fed(Fed(Fed(GO.start, 3, 0, 0, 0), 3, 0, 0, 0), 13, 0, 0, 0) == 0xe0410c7d
    ensures Finish(Mul(Mix3(0xe0410c7d, 1, 2, 3))) == 0x93cc62a4
  {
    assert Fed(0x13375331, 3, 0, 0, 0) == 0x77475899;
    assert Fed(0x77475899, 3, 0, 0, 0) == 0xbcb98e11;
    assert Fed(0xbcb98e11, 13, 0, 0, 0) == 0xe0410c7d;
    assert Mul(Mix3(0xe0410c7d, 1, 2, 3)) == 0x8cdd4a2c;
  }

  lemma FiveOctetStates()
    ensures Fed(Fed(Fed(GO.start, 5, 0, 0, 0), 6, 0, 0, 0), 0, 0, 0, 0) == 0x81ae3c7f
    ensures Finish(Mul(Mix1(Fed(0x81ae3c7f, 104, 101, 108, 108), 111))) == 0x650a465b
  {
    assert Fed(0x13375331, 5, 0, 0, 0) == 0xb604444f;
    assert Fed(0xb604444f, 6, 0, 0, 0) == 0xfd7010c3;
    assert Fed(0xfd7010c3, 0, 0, 0, 0) == 0x81ae3c7f;
    assert Fed(0x81ae3c7f, 104, 101, 108, 108) == 0xeab3417a;
    assert Mul(Mix1(0xeab3417a, 111)) == 0x59b5fe39;
  }

  /** The checksums of the golden file's bodies of one, two, three and five octets. */
  lemma OneOctet()
    ensures Sum(1, 1, 0, 13, [1]) == 37668
  {
    hide Absorb;
    hide Fed;
    hide Finish;
    hide Mix1;
    Numerals();
    SmallHeader(1, 1, 0, 13);
    OneOctetStates();
    OctetBits(1);
    assert GO.Fold(0x60be73f5, [1]) == Mul(Mix1(0x60be73f5, 1));
    assert Truncate(0xde2b9324) == 0x9324;
    assert Value16(0x9324) == 37668;
  }

  lemma TwoOctets()
    ensures Sum(2, 2, 1, 14, [1, 2]) == 27859
  {
    hide Fed;
    hide Finish;
    hide Mix2;
    Numerals();
    SmallHeader(2, 2, 1, 14);
    TwoOctetStates();
    OctetBits(1);
    OctetBits(2);
    assert GO.Fold(0xdeb62110, [1, 2]) == Mul(Mix2(0xdeb62110, 1, 2));
    assert Truncate(0x74c06cd3) == 0x6cd3;
    assert Value16(0x6cd3) == 27859;
  }

  lemma ThreeOctets()
    ensures Sum(3, 3, 0, 13, [1, 2, 3]) == 25252
  {
    hide Fed;
    hide Finish;
    hide Mix3;
    Numerals();
    SmallHeader(3, 3, 0, 13);
    ThreeOctetStates();
    OctetBits(1);
    OctetBits(2);
    OctetBits(3);
    assert GO.Fold(0xe0410c7d, [1, 2, 3]) == Mul(Mix3(0xe0410c7d, 1, 2, 3));
    assert Truncate(0x93cc62a4) == 0x62a4;
    assert Value16(0x62a4) == 25252;
  }

  lemma FiveOctets()
    ensures Sum(5, 6, 0, 0, [104, 101, 108, 108, 111]) == 18011
  {
    hide Fed;
    hide Finish;
    hide Mix1;
    hide Absorb;
    Numerals();
    SmallHeader(5, 6, 0, 0);
    FiveOctetStates();
    OctetBits(111);
    AbsorbsWord(0x81ae3c7f, 104, 101, 108, 108);
    assert [104, 101, 108, 108, 111] == [104, 101, 108, 108] + [111];
    GO.FoldStep(0x81ae3c7f, [104, 101, 108, 108], [111]);
    var h := Fed(0x81ae3c7f, 104, 101, 108, 108);
    assert GO.Fold(h, [111]) == Mul(Mix1(h, 111));
    assert Truncate(0x650a465b) == 0x465b;
    assert Value16(0x465b) == 18011;
  }

  /** The golden packets, octet for octet: built, and read back by a checking scanner. */
  lemma OneOctetPacket()
    ensures var packet: seq<byte> := [0, 0, 0, 1, 0, 1, 0, 0, 0, 13, 0x93, 0x24, 1];
            && Framing.Built(Sum, 13, 1, 0, [1]) == packet
            && Framing.ParseOne(Framing.CHECKED, packet)
               == Framing.Got(Framing.Message(Framing.Header(1, 1, 0, 13, 37668, false), [1], packet))
  {
    hide Sum;
    hide Framing.ParseOne;
    OneOctet();
    Framing.BuiltParses(Sum, Framing.CHECKED, 13, 1, 0, [1], []);
    var packet: seq<byte> := [0, 0, 0, 1, 0, 1, 0, 0, 0, 13, 0x93, 0x24, 1];
    assert Framing.Built(Sum, 13, 1, 0, [1]) == packet;
    assert packet + [] == packet;
  }

  lemma TwoOctetPacket()
    ensures var packet: seq<byte> := [0, 0, 0, 2, 0, 2, 0, 1, 0, 14, 0x6c, 0xd3, 1, 2];
            && Framing.Built(Sum, 14, 2, 1, [1, 2]) == packet
            && Framing.ParseOne(Framing.CHECKED, packet)
               == Framing.Got(Framing.Message(Framing.Header(2, 2, 1, 14, 27859, false), [1, 2], packet))
  {
    hide Sum;
    hide Framing.ParseOne;
    TwoOctets();
    Framing.BuiltParses(Sum, Framing.CHECKED, 14, 2, 1, [1, 2], []);
    var packet: seq<byte> := [0, 0, 0, 2, 0, 2, 0, 1, 0, 14, 0x6c, 0xd3, 1, 2];
    assert Framing.Built(Sum, 14, 2, 1, [1, 2]) == packet;
    assert packet + [] == packet;
  }

  function OneOctetWith(a: byte, b: byte): (r: seq<byte>)
    ensures |r| == 13
  {
    [0, 0, 0, 1, 0, 1, 0, 0, 0, 13, a, b, 1]
  }

  lemma HeaderWith(a: byte, b: byte)
    ensures Framing.ReadHeader(OneOctetWith(a, b)) == Framing.Header(1, 1, 0, 13, a * 0x100 + b, false)
    ensures |OneOctetWith(a, b)| == 13
    ensures OneOctetWith(a, b)[..13] == OneOctetWith(a, b) && OneOctetWith(a, b)[12..] == [1]
  {
  }

  /** With any other checksum the packet is refused. */
  lemma SpoiledPacket(a: byte, b: byte)
    ensures Framing.ParseOne(Framing.CHECKED, OneOctetWith(a, b)).Desync? <==> (a, b) != (0x93, 0x24)
  {
    hide Sum;
    hide OneOctetWith;
    hide Framing.ReadHeader;
    hide Framing.ParseOne;
    OneOctet();
    HeaderWith(a, b);
    Framing.OrdinaryParses(Framing.CHECKED, OneOctetWith(a, b), Framing.ReadHeader(OneOctetWith(a, b)));
  }

  // ---- Sentinels ----

  /** A length above 0xfffffc is no length: the frame is twelve octets whatever follows. At 0xfffffc it is
      one, and the body is waited for. */
  lemma SentinelsAreTwelveOctets(c: Framing.Checking, rest: seq<byte>)
    ensures Framing.ParseOne(c, [0xff, 0xff, 0xff, 0xff, 0, 0, 0, 0, 0, 0, 0, 0] + rest)
         == Framing.Got(Framing.Message(Framing.Header(0xffff_ffff, 0, 0, 0, 0, true), [],
                                        [0xff, 0xff, 0xff, 0xff, 0, 0, 0, 0, 0, 0, 0, 0]))
    ensures Framing.ParseOne(c, [0, 0xff, 0xff, 0xfd, 0, 1, 0, 0, 0, 13, 0, 0] + rest)
         == Framing.Got(Framing.Message(Framing.Header(0xff_fffd, 0, 0, 0, 0, true), [],
                                        [0, 0xff, 0xff, 0xfd, 0, 1, 0, 0, 0, 13, 0, 0]))
    ensures Framing.ParseOne(c, [0, 0xff, 0xff, 0xfc, 0, 1, 0, 0, 0, 13, 0, 0]) == Framing.NeedMore
  {
    hide Framing.ParseOne;
    PassedOver(c, [0xff, 0xff, 0xff, 0xff, 0, 0, 0, 0, 0, 0, 0, 0], rest);
    PassedOver(c, [0, 0xff, 0xff, 0xfd, 0, 1, 0, 0, 0, 13, 0, 0], rest);
    Framing.ShortParses(c, [0, 0xff, 0xff, 0xfc, 0, 1, 0, 0, 0, 13, 0, 0]);
  }

  lemma PassedOver(c: Framing.Checking, w: seq<byte>, rest: seq<byte>)
    requires |w| == 12 && Framing.ReadHeader(w).special
    ensures Framing.ParseOne(c, w + rest) == Framing.Got(Framing.Message(Framing.ReadHeader(w), [], w))
  {
    assert (w + rest)[..12] == w;
    Framing.SpecialParses(c, w + rest);
  }

  // ---- Poison ----

  /** What is fed at a gap: behind two octets it makes up a header that announces 57,005 more, and the scanner
      waits for them. */
  lemma PoisonAnnounces(c: Framing.Checking)
    ensures Streams.Poisoned(c, Framing.ScanState([0, 0], false))
         == Framing.ScanState([0, 0, 0xde, 0xad, 0xbe, 0xef, 0, 0, 0, 0, 0, 0, 0, 0], false)
  {
    var s: seq<byte> := [0, 0, 0xde, 0xad, 0xbe, 0xef, 0, 0, 0, 0, 0, 0, 0, 0];
    Framing.ShortParses(c, s);
    hide Framing.ParseOne;
    var two: seq<byte> := [0, 0];
    assert two + Streams.POISON == s;
  }

  /** Where no frame is known, the record cites one that cannot be. */
  lemma NothingToCite(n: nat)
    ensures Streams.Take([], n).0 == [Streams.FrameRef("", 0)]
  {
  }

  // ---- Texts ----

  lemma Tens()
    ensures Text.Decimal(80) == "80" && Text.Decimal(1000) == "1000" && Text.Decimal(11) == "11"
  {
    assert Text.Decimal(8) == "8" && Text.Decimal(1) == "1";
    assert Text.Decimal(10) == "1" + "0";
    assert Text.Decimal(100) == Text.Decimal(10) + "0";
    assert Text.Decimal(1000) == Text.Decimal(100) + "0";
    assert Text.Decimal(80) == "8" + "0" && Text.Decimal(11) == "1" + "1";
  }

  lemma Identifiers()
    ensures Flows.ConnID(1) == "c001" && Flows.ConnID(1000) == "c1000"
    ensures Flows.AddrKey(Flows.Endpoint("10.0.0.1", 80)) == "10.0.0.1:80"
  {
    Tens();
    assert Text.Zeros(2) == "00" && Text.Decimal(1) == "1";
    assert "00" + "1" == "001";
    assert "c" + "001" == "c001" && "c" + "1000" == "c1000";
    hide Text.Decimal;
    assert "10.0.0.1" + ":" == "10.0.0.1:";
  }

  lemma SegmentNames(stamp: Journals.Stamp, at: Journals.time)
    ensures Journals.SegmentName(stamp, 1, at) == "capture_00001_" + stamp(at) + ".pcapng"
  {
    assert Text.Zeros(4) == "0000" && Text.Decimal(1) == "1";
    assert "0000" + "1" == "00001";
    assert "capture_" + "00001" + "_" == "capture_00001_";
  }

  lemma KeyTexts()
    ensures Coverage.KeyText(Coverage.Told(Pipelines.Sighting(Pipelines.Element(Pipelines.AsyncRequest, 9), true)))
         == "async_request:9!"
    ensures Coverage.KeyText(Coverage.Told(Pipelines.Sighting(Pipelines.Element(Pipelines.MessageType, 11), false)))
         == "message_type:11"
    ensures Coverage.KeyText(Coverage.Told(Pipelines.Sighting(Pipelines.Element(Pipelines.Notification, 3), false)))
         == "notification:3"
  {
    Tens();
    assert Text.Decimal(9) == "9" && Text.Decimal(3) == "3";
    hide Text.Decimal;
    assert "async_request" + ":" + "9" + "!" == "async_request:9!";
    assert "message_type" + ":" + "11" + "" == "message_type:11";
    assert "notification" + ":" + "3" + "" == "notification:3";
  }

  // ---- A manifest ----

  /** Pairs and names indented and separated by tabs, with a carriage return behind them. */
  lemma PairLine(k: string, v: string)
    requires KeyValues.Clean(k) && KeyValues.Clean(v)
    ensures KeyValues.Classify("\t" + ("\"" + k + "\"" + "\t\t" + ("\"" + v + "\"")) + "\r") == KeyValues.Pair(k, v)
  {
    hide KeyValues.Classify;
    Shown(KeyValues.Pair(k, v), "\t", "\t\t", "\r", "\t" + ("\"" + k + "\"" + "\t\t" + ("\"" + v + "\"")) + "\r");
  }

  lemma NameLine(n: string)
    requires KeyValues.Clean(n)
    ensures KeyValues.Classify("\t\t" + ("\"" + n + "\"") + "\r") == KeyValues.Name(n)
  {
    hide KeyValues.Classify;
    Shown(KeyValues.Name(n), "\t\t", "", "\r", "\t\t" + ("\"" + n + "\"") + "\r");
  }

  lemma BraceLines()
    ensures KeyValues.Classify("\t{") == KeyValues.Open && KeyValues.Classify("\t}\r") == KeyValues.Close
    ensures KeyValues.Classify("") == KeyValues.Other
  {
    hide KeyValues.Classify;
    Shown(KeyValues.Open, "\t", "", "", "\t{");
    Shown(KeyValues.Close, "\t", "", "\r", "\t}\r");
    KeyValues.BlankIsOther("");
  }

  lemma Shown(l: KeyValues.Line, w0: string, w1: string, w2: string, s: string)
    requires KeyValues.Blank(w0) && KeyValues.Blank(w1) && KeyValues.Blank(w2)
    requires KeyValues.ShownAs(l, w0, w1, w2, s)
    ensures KeyValues.Classify(s) == l
  {
    KeyValues.ShownLineIsRead(l, s);
  }
}
