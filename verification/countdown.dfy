/** The dashboard's countdown: how many known elements were still unseen after each session. */
module Countdown {
  import opened Options
  import opened Sequences
  import Text

  datatype Element = Element(kind: string, state: string, session: string, utc: string)

  const DECODED := "decoded"
  const UNDECODED := "observed_undecoded"
  const NEVER := "never_observed"

  const MESSAGE_TYPE := "message_type"
  const ASYNC_REQUEST := "async_request"
  const NOTIFICATION := "notification"

  predicate KnownKind(kind: string) { kind == MESSAGE_TYPE || kind == ASYNC_REQUEST || kind == NOTIFICATION }

  // ---- Totals ----

  datatype Count = Count(known: nat, decoded: nat, undecoded: nat)

  const NOTHING := Count(0, 0, 0)

  function Plus(a: Count, b: Count): Count {
    Count(a.known + b.known, a.decoded + b.decoded, a.undecoded + b.undecoded)
  }

  function One(e: Element): Count {
    Count(1, if e.state == DECODED then 1 else 0, if e.state == UNDECODED then 1 else 0)
  }

  /** What the elements of one kind add up to. */
  function CountOf(es: seq<Element>, kind: string): Count
    decreases |es|
  {
    if es == [] then NOTHING else
    var e, c := es[|es| - 1], CountOf(es[..|es| - 1], kind);
    if e.kind == kind then Plus(c, One(e)) else c
  }

  /** Only the three kinds the dashboard shows are added up. */
  function Totals(es: seq<Element>): Count {
    Plus(CountOf(es, MESSAGE_TYPE), Plus(CountOf(es, ASYNC_REQUEST), CountOf(es, NOTIFICATION)))
  }

  // ---- Sessions ----

  datatype Session = Session(name: string, utc: string, count: nat)

  predicate Journeys(e: Element) { e.state != NEVER && e.session != "" }

  /** The elements first seen in a session: how many, and the earliest time any of them gives. */
  function SessionOf(es: seq<Element>, name: string): Option<Session>
    decreases |es|
  {
    if es == [] then None else
    var e, s := es[|es| - 1], SessionOf(es[..|es| - 1], name);
    if !Journeys(e) || e.session != name then s else Some(Joined(s, e))
  }

  function Joined(s: Option<Session>, e: Element): Session {
    if s.None? then Session(e.session, e.utc, 1) else
    var earlier := e.utc != "" && (s.value.utc == "" || Text.Less(e.utc, s.value.utc));
    Session(e.session, if earlier then e.utc else s.value.utc, s.value.count + 1)
  }

  function Journeying(es: seq<Element>): nat
    decreases |es|
  {
    if es == [] then 0 else Journeying(es[..|es| - 1]) + if Journeys(es[|es| - 1]) then 1 else 0
  }

  function CountIn(es: seq<Element>, name: string): nat {
    if SessionOf(es, name).Some? then SessionOf(es, name).value.count else 0
  }

  function Sum(es: seq<Element>, names: seq<string>): nat {
    if names == [] then 0 else CountIn(es, names[0]) + Sum(es, names[1..])
  }

  lemma CountInSnoc(es: seq<Element>, e: Element, name: string)
    ensures CountIn(es + [e], name) == CountIn(es, name) + if Journeys(e) && e.session == name then 1 else 0
  {
    assert (es + [e])[..|es|] == es;
  }

  lemma {:induction false} SumSnoc(es: seq<Element>, e: Element, names: seq<string>)
    requires NoDuplicates(names)
    ensures Sum(es + [e], names) == Sum(es, names) + if Journeys(e) && e.session in names then 1 else 0
    decreases |names|
  {
    if names != [] {
      CountInSnoc(es, e, names[0]);
      SumSnoc(es, e, names[1..]);
      assert names[0] !in names[1..];
    }
  }

  lemma {:induction false} SumOfNothing(names: seq<string>)
    ensures Sum([], names) == 0
    decreases |names|
  {
    if names != [] {
      SumOfNothing(names[1..]);
    }
  }

  /** Grouping loses no element: the sessions' counts add up to the elements grouped. */
  lemma {:induction false} GroupingConserves(es: seq<Element>, names: seq<string>)
    requires NoDuplicates(names) && forall e | e in es && Journeys(e) :: e.session in names
    ensures Sum(es, names) == Journeying(es)
    decreases |es|
  {
    if es == [] {
      SumOfNothing(names);
    } else {
      var before, e := es[..|es| - 1], es[|es| - 1];
      assert es == before + [e];
      GroupingConserves(before, names);
      SumSnoc(before, e, names);
    }
  }

  // ---- The time of a session ----

  predicate Member(e: Element, name: string) { Journeys(e) && e.session == name }

  /** The least time any element of the session gives, or nothing if none gives one. */
  ghost predicate Earliest(utc: string, es: seq<Element>, name: string) {
    && (forall e | e in es && Member(e, name) && e.utc != "" :: utc != "" && !Text.Less(e.utc, utc))
    && (utc != "" ==> exists e :: e in es && Member(e, name) && e.utc == utc)
  }

  lemma EarlierOf(utc: string, es: seq<Element>, e: Element, name: string)
    requires Earliest(utc, es, name) && Member(e, name)
    ensures Earliest(if e.utc != "" && (utc == "" || Text.Less(e.utc, utc)) then e.utc else utc, es + [e], name)
  {
    hide Text.Less;
    hide Member;
    assert e in es + [e] && forall x | x in es :: x in es + [e];
    Text.LessIrreflexive(e.utc);
    forall x | x in es && Member(x, name) && x.utc != "" && Text.Less(x.utc, e.utc) && Text.Less(e.utc, utc)
      ensures false
    {
      Text.LessTransitive(x.utc, e.utc, utc);
    }
  }

  lemma OthersTellNoTime(utc: string, es: seq<Element>, e: Element, name: string)
    requires Earliest(utc, es, name) && !Member(e, name)
    ensures Earliest(utc, es + [e], name)
  {
    hide Text.Less;
    hide Member;
    assert forall x | x in es :: x in es + [e];
  }

  lemma {:induction false} TimeIsEarliest(es: seq<Element>, name: string)
    ensures match SessionOf(es, name)
            case None => Earliest("", es, name)
            case Some(s) => s.name == name && Earliest(s.utc, es, name)
    decreases |es|
  {
    hide Earliest;
    hide Text.Less;
    if es == [] {
      NothingIsEarliest(name);
    } else {
      var before, e := es[..|es| - 1], es[|es| - 1];
      assert es == before + [e];
      TimeIsEarliest(before, name);
      var utc := if SessionOf(before, name).Some? then SessionOf(before, name).value.utc else "";
      if Member(e, name) {
        EarlierOf(utc, before, e, name);
      } else {
        OthersTellNoTime(utc, before, e, name);
      }
    }
  }

  lemma NothingIsEarliest(name: string)
    ensures Earliest("", [], name)
  {
  }

  lemma EarliestIsUnique(u: string, es: seq<Element>, v: string, fs: seq<Element>, name: string)
    requires multiset(es) == multiset(fs) && Earliest(u, es, name) && Earliest(v, fs, name)
    ensures u == v
  {
    hide Text.Less;
    hide Member;
    Text.LessTotal(u, v);
    SameMembers(es, fs);
  }

  lemma SameMembers<T>(a: seq<T>, b: seq<T>)
    requires multiset(a) == multiset(b)
    ensures forall x :: x in a <==> x in b
  {
    forall x
      ensures x in a <==> x in b
    {
      assert x in a <==> x in multiset(a);
      assert x in b <==> x in multiset(b);
    }
  }

  lemma {:induction false} CountInConcat(a: seq<Element>, b: seq<Element>, name: string)
    ensures CountIn(a + b, name) == CountIn(a, name) + CountIn(b, name)
    decreases |b|
  {
    hide CountIn;
    if b == [] {
      assert a + b == a;
      NoneCounted(name);
    } else {
      var n := |b| - 1;
      assert a + b == (a + b[..n]) + [b[n]] && b == b[..n] + [b[n]];
      CountInConcat(a, b[..n], name);
      CountInSnoc(a + b[..n], b[n], name);
      CountInSnoc(b[..n], b[n], name);
    }
  }

  lemma NoneCounted(name: string)
    ensures CountIn([], name) == 0
  {
  }

  lemma CountInMiddle(es: seq<Element>, i: nat, name: string)
    requires i < |es|
    ensures CountIn(es, name) == CountIn(es[..i] + es[i + 1..], name) + if Member(es[i], name) then 1 else 0
  {
    hide CountIn;
    var a, b := es[..i], es[i + 1..];
    assert es == (a + [es[i]]) + b;
    CountInConcat(a + [es[i]], b, name);
    CountInSnoc(a, es[i], name);
    CountInConcat(a, b, name);
  }

  lemma WithoutLastAndSame(es: seq<Element>, fs: seq<Element>, i: nat)
    requires multiset(es) == multiset(fs) && es != [] && i < |fs| && fs[i] == es[|es| - 1]
    ensures multiset(es[..|es| - 1]) == multiset(fs[..i] + fs[i + 1..])
  {
    var n := |es| - 1;
    WithoutOne(fs, i);
    WithoutOne(es, n);
    assert es[..n] + es[n + 1..] == es[..n];
  }

  lemma {:induction false} CountsAgree(es: seq<Element>, fs: seq<Element>, name: string)
    requires multiset(es) == multiset(fs)
    ensures CountIn(es, name) == CountIn(fs, name)
    decreases |es|
  {
    hide CountIn;
    if es == [] {
      assert |fs| == |multiset(fs)|;
      assert fs == [];
    } else {
      var n := |es| - 1;
      assert es == es[..n] + [es[n]];
      assert es[n] in multiset(fs);
      var i :| 0 <= i < |fs| && fs[i] == es[n];
      WithoutLastAndSame(es, fs, i);
      CountsAgree(es[..n], fs[..i] + fs[i + 1..], name);
      CountInMiddle(fs, i, name);
      CountInSnoc(es[..n], es[n], name);
    }
  }

  lemma {:induction false} SessionsHaveElements(es: seq<Element>, name: string)
    ensures SessionOf(es, name).Some? ==> SessionOf(es, name).value.count > 0
    decreases |es|
  {
    if es != [] {
      SessionsHaveElements(es[..|es| - 1], name);
    }
  }

  /** What is told of a session does not depend on the order in which the elements are met. */
  lemma SessionsAgree(es: seq<Element>, fs: seq<Element>, name: string)
    requires multiset(es) == multiset(fs)
    ensures SessionOf(es, name) == SessionOf(fs, name)
  {
    hide SessionOf;
    hide Earliest;
    TimeIsEarliest(es, name);
    TimeIsEarliest(fs, name);
    CountsAgree(es, fs, name);
    SessionsHaveElements(es, name);
    SessionsHaveElements(fs, name);
    var s, t := SessionOf(es, name), SessionOf(fs, name);
    if s.Some? && t.Some? {
      EarliestIsUnique(s.value.utc, es, t.value.utc, fs, name);
    }
  }

  // ---- The journey ----

  datatype Point = Point(title: string, value: int)

  function IndexOfMark(s: string): (i: nat)
    ensures i <= |s|
  {
    if s == [] || (|s| >= 2 && s[0] == '_' && s[1] == '_') then 0 else 1 + IndexOfMark(s[1..])
  }

  /** The second part of a bundle's name, parts being separated by two underscores. */
  function Scenario(name: string): string {
    var i := IndexOfMark(name);
    if i == |name| then "" else
    var rest := if i + 2 <= |name| then name[i + 2..] else "";
    rest[..IndexOfMark(rest)]
  }

  function Label(s: Session): string { if Scenario(s.name) == "" then "?" else Scenario(s.name) }

  function Steps(left: int, ss: seq<Session>): seq<Point>
    decreases |ss|
  {
    if ss == [] then [] else [Point(Label(ss[0]), left - ss[0].count)] + Steps(left - ss[0].count, ss[1..])
  }

  function Journey(known: int, ss: seq<Session>): seq<Point> { [Point("Start", known)] + Steps(known, ss) }

  function CountSum(ss: seq<Session>): nat { if ss == [] then 0 else ss[0].count + CountSum(ss[1..]) }

  predicate NeverRises(ps: seq<Point>) { forall i | 0 < i < |ps| :: ps[i].value <= ps[i - 1].value }

  predicate Falls(from: int, ps: seq<Point>)
    decreases |ps|
  {
    ps == [] || (ps[0].value <= from && Falls(ps[0].value, ps[1..]))
  }

  function LastValue(from: int, ps: seq<Point>): int { if ps == [] then from else ps[|ps| - 1].value }

  lemma {:induction false} StepsDescend(left: int, ss: seq<Session>)
    ensures Falls(left, Steps(left, ss)) && LastValue(left, Steps(left, ss)) == left - CountSum(ss)
    decreases |ss|
  {
    hide Label;
    if ss != [] {
      var now := left - ss[0].count;
      StepsDescend(now, ss[1..]);
      assert Steps(left, ss)[1..] == Steps(now, ss[1..]);
    }
  }

  lemma {:induction false} FallingNeverRises(p: Point, ps: seq<Point>)
    requires Falls(p.value, ps)
    ensures NeverRises([p] + ps)
    decreases |ps|
  {
    if ps != [] {
      var all, rest := [p] + ps, [ps[0]] + ps[1..];
      FallingNeverRises(ps[0], ps[1..]);
      assert rest == ps;
      forall i | 0 < i < |all|
        ensures all[i].value <= all[i - 1].value
      {
        assert all[i] == ps[i - 1] && (i > 1 ==> all[i - 1] == ps[i - 2]);
      }
    }
  }

  // ---- Collapsing runs of one label ----

  /** The last point of each run of equal labels. */
  function KeepLast(ps: seq<Point>): seq<Point>
    decreases |ps|
  {
    if |ps| <= 1 then ps
    else if ps[0].title == ps[1].title then KeepLast(ps[1..])
    else [ps[0]] + KeepLast(ps[1..])
  }

  /** Collapsing `all` amounts to what stands in front, followed by collapsing the rest behind `last`. */
  ghost predicate Merging(all: seq<Point>, front: seq<Point>, last: Point, rest: seq<Point>) {
    KeepLast(all) == front + KeepLast([last] + rest)
  }

  lemma MergingStarts(all: seq<Point>)
    requires all != []
    ensures Merging(all, [], all[0], all[1..])
  {
    assert [all[0]] + all[1..] == all;
    assert [] + KeepLast(all) == KeepLast(all);
  }

  lemma MergingStep(all: seq<Point>, front: seq<Point>, last: Point, p: Point, rest: seq<Point>)
    requires Merging(all, front, last, [p] + rest)
    ensures if last.title == p.title then Merging(all, front, p, rest) else Merging(all, front + [last], p, rest)
  {
    var tail := [last] + ([p] + rest);
    assert tail[1..] == [p] + rest && tail[1] == p;
    assert front + ([last] + KeepLast([p] + rest)) == (front + [last]) + KeepLast([p] + rest);
  }

  lemma MergingEnds(all: seq<Point>, front: seq<Point>, last: Point)
    requires Merging(all, front, last, [])
    ensures KeepLast(all) == front + [last]
  {
    assert [last] + [] == [last];
  }

  /** In place: the merged points grow at the front of the array while the rest is read behind them. */
  method Collapse(journey: array<Point>) returns (n: nat)
    modifies journey
    ensures n <= journey.Length && journey[..n] == KeepLast(old(journey[..]))
  {
    ghost var all := journey[..];
    if journey.Length <= 1 {
      assert journey[..journey.Length] == all;
      return journey.Length;
    }
    hide Merging;
    MergingStarts(all);
    n := 1;
    var r := 1;
    while r < journey.Length
      invariant 1 <= n <= r <= journey.Length && journey[r..] == all[r..]
      invariant Merging(all, journey[..n - 1], journey[n - 1], all[r..])
    {
      var p := journey[r];
      assert journey[r..][0] == p;
      assert all[r..] == [p] + all[r + 1..];
      MergingStep(all, journey[..n - 1], journey[n - 1], p, all[r + 1..]);
      n := Merge(journey, n, r, p);
      r := r + 1;
    }
    MergingEnds(all, journey[..n - 1], journey[n - 1]);
    assert journey[..n - 1] + [journey[n - 1]] == journey[..n];
  }

  /** Puts the point read at r behind the n merged ones, or into the last of them. */
  method Merge(journey: array<Point>, n: nat, r: nat, p: Point) returns (m: nat)
    requires 1 <= n <= r < journey.Length
    modifies journey
    ensures 1 <= m <= r + 1 && journey[m - 1] == p && journey[r + 1..] == old(journey[r + 1..])
    ensures var last := old(journey[n - 1]);
            if last.title == p.title then m == n && journey[..m - 1] == old(journey[..n - 1])
            else m == n + 1 && journey[..m - 1] == old(journey[..n - 1]) + [last]
  {
    if journey[n - 1].title == p.title {
      journey[n - 1] := Point(journey[n - 1].title, p.value);
      m := n;
    } else {
      journey[n] := p;
      m := n + 1;
    }
  }

  lemma {:induction false} CollapseKeeps(ps: seq<Point>)
    requires ps != [] && NeverRises(ps)
    ensures var qs := KeepLast(ps);
            && qs != [] && qs[|qs| - 1] == ps[|ps| - 1] && qs[0].title == ps[0].title && qs[0].value <= ps[0].value
            && NeverRises(qs) && (forall i | 0 < i < |qs| :: qs[i].title != qs[i - 1].title)
    decreases |ps|
  {
    if |ps| > 1 {
      var rest := ps[1..];
      assert forall i | 0 < i < |rest| :: rest[i] == ps[i + 1] && rest[i - 1] == ps[i];
      CollapseKeeps(rest);
      var qs, rs := KeepLast(ps), KeepLast(rest);
      hide KeepLast;
      if ps[0].title != ps[1].title {
        forall i | 0 < i < |qs|
          ensures qs[i].value <= qs[i - 1].value && qs[i].title != qs[i - 1].title
        {
          assert qs[i] == rs[i - 1] && (i > 1 ==> qs[i - 1] == rs[i - 2]);
        }
      }
    }
  }

  // ---- What the countdown promises ----

  /** Every session of the elements once, as grouped. */
  predicate Enumerates(es: seq<Element>, ss: seq<Session>) {
    && NoDuplicates(NamesOf(ss))
    && (forall s | s in ss :: SessionOf(es, s.name) == Some(s))
    && (forall e | e in es && Journeys(e) :: e.session in NamesOf(ss))
  }

  function NamesOf(ss: seq<Session>): (r: seq<string>)
    ensures |r| == |ss|
  {
    seq(|ss|, i requires 0 <= i < |ss| => ss[i].name)
  }

  lemma {:induction false} CountSumIsSum(es: seq<Element>, ss: seq<Session>)
    requires forall s | s in ss :: SessionOf(es, s.name) == Some(s)
    ensures CountSum(ss) == Sum(es, NamesOf(ss))
    decreases |ss|
  {
    if ss != [] {
      assert ss[0] in ss;
      assert NamesOf(ss)[1..] == NamesOf(ss[1..]);
      CountSumIsSum(es, ss[1..]);
    }
  }

  /** Known kinds, the three states, and a session for everything observed. */
  predicate RegularElement(e: Element) {
    && KnownKind(e.kind) && (e.state == DECODED || e.state == UNDECODED || e.state == NEVER)
    && (e.state != NEVER ==> e.session != "")
  }

  predicate Regular(es: seq<Element>) { forall e | e in es :: RegularElement(e) }

  lemma KindsDiffer()
    ensures MESSAGE_TYPE != ASYNC_REQUEST && MESSAGE_TYPE != NOTIFICATION && ASYNC_REQUEST != NOTIFICATION
  {
    assert MESSAGE_TYPE[0] == 'm' && ASYNC_REQUEST[0] == 'a' && NOTIFICATION[0] == 'n';
  }

  lemma CountOfSnoc(es: seq<Element>, e: Element, kind: string)
    ensures CountOf(es + [e], kind) == if e.kind == kind then Plus(CountOf(es, kind), One(e)) else CountOf(es, kind)
  {
    assert (es + [e])[..|es|] == es;
  }

  lemma TotalsSnoc(es: seq<Element>, e: Element)
    ensures Totals(es + [e]) == if KnownKind(e.kind) then Plus(Totals(es), One(e)) else Totals(es)
  {
    hide CountOf;
    KindsDiffer();
    CountOfSnoc(es, e, MESSAGE_TYPE);
    CountOfSnoc(es, e, ASYNC_REQUEST);
    CountOfSnoc(es, e, NOTIFICATION);
  }

  lemma RegularOne(e: Element)
    requires RegularElement(e)
    ensures One(e).known == 1 && One(e).decoded + One(e).undecoded == if Journeys(e) then 1 else 0
  {
    StatesDiffer();
  }

  lemma CountOfNothing(kind: string)
    ensures CountOf([], kind) == NOTHING
  {
  }

  lemma TotalsOfNothing(es: seq<Element>)
    requires |es| == 0
    ensures Totals(es) == NOTHING
  {
    assert es == [];
    CountOfNothing(MESSAGE_TYPE);
    CountOfNothing(ASYNC_REQUEST);
    CountOfNothing(NOTIFICATION);
  }

  lemma {:induction false} RegularTotals(es: seq<Element>)
    requires Regular(es)
    ensures Totals(es).known == |es| && Totals(es).decoded + Totals(es).undecoded == Journeying(es)
    decreases |es|
  {
    hide Totals;
    hide RegularElement;
    hide Journeys;
    if es == [] {
      TotalsOfNothing(es);
    } else {
      var before, e := es[..|es| - 1], es[|es| - 1];
      assert e in es;
      RegularTotals(before);
      RegularSnoc(before, e);
      assert before + [e] == es;
    }
  }

  lemma RegularSnoc(es: seq<Element>, e: Element)
    requires RegularElement(e)
    ensures var t, t1 := Totals(es), Totals(es + [e]);
            && t1.known == t.known + 1
            && t1.decoded + t1.undecoded == t.decoded + t.undecoded + if Journeys(e) then 1 else 0
  {
    hide Totals;
    TotalsSnoc(es, e);
    RegularOne(e);
  }

  lemma StatesDiffer()
    ensures DECODED != UNDECODED && DECODED != NEVER && UNDECODED != NEVER
  {
    assert DECODED[0] == 'd' && UNDECODED[0] == 'o' && NEVER[0] == 'n';
  }

  function NeverSeen(t: Count): int { t.known - t.decoded - t.undecoded }

  /** In whatever order the sessions come, the countdown never rises and ends at the known elements less
      those grouped; that is the total never seen exactly when as many elements are grouped as are
      counted observed, which holds of every regular store. */
  lemma CountdownConserves(es: seq<Element>, ss: seq<Session>)
    requires Enumerates(es, ss)
    ensures var ps := KeepLast(Journey(Totals(es).known, ss));
            && ps != [] && NeverRises(ps)
            && ps[|ps| - 1].value == Totals(es).known - Journeying(es)
            && (ps[|ps| - 1].value == NeverSeen(Totals(es))
               <==> Journeying(es) == Totals(es).decoded + Totals(es).undecoded)
            && (Regular(es) ==> ps[|ps| - 1].value == NeverSeen(Totals(es)))
            && (forall i | 0 < i < |ps| :: ps[i].title != ps[i - 1].title)
  {
    hide Totals;
    hide KeepLast;
    var known := Totals(es).known;
    var ps := Journey(known, ss);
    StepsDescend(known, ss);
    FallingNeverRises(Point("Start", known), Steps(known, ss));
    CollapseKeeps(ps);
    GroupingConserves(es, NamesOf(ss));
    CountSumIsSum(es, ss);
    if Regular(es) {
      RegularTotals(es);
    }
  }

  // ---- What the figures mean ----

  /** Which of the elements are of one of these kinds. */
  ghost function OfKinds(es: seq<Element>, kinds: set<string>): set<int> {
    set i | 0 <= i < |es| && es[i].kind in kinds
  }

  /** ... and in this state. */
  ghost function InState(es: seq<Element>, kinds: set<string>, state: string): set<int> {
    set i | 0 <= i < |es| && es[i].kind in kinds && es[i].state == state
  }

  ghost function HowMany(es: seq<Element>, kinds: set<string>): nat { |OfKinds(es, kinds)| }

  ghost function HowManyIn(es: seq<Element>, kinds: set<string>, state: string): nat { |InState(es, kinds, state)| }

  lemma HowManySnoc(es: seq<Element>, e: Element, kinds: set<string>)
    ensures HowMany(es + [e], kinds) == HowMany(es, kinds) + if e.kind in kinds then 1 else 0
  {
    assert OfKinds(es + [e], kinds) == OfKinds(es, kinds) + if e.kind in kinds then {|es|} else {};
  }

  lemma HowManyInSnoc(es: seq<Element>, e: Element, kinds: set<string>, state: string)
    ensures HowManyIn(es + [e], kinds, state)
         == HowManyIn(es, kinds, state) + if e.kind in kinds && e.state == state then 1 else 0
  {
    assert InState(es + [e], kinds, state)
        == InState(es, kinds, state) + if e.kind in kinds && e.state == state then {|es|} else {};
  }

  lemma NoneOfNone(es: seq<Element>, kinds: set<string>, state: string)
    requires |es| == 0
    ensures HowMany(es, kinds) == 0 && HowManyIn(es, kinds, state) == 0
  {
    assert forall i :: i !in OfKinds(es, kinds) && i !in InState(es, kinds, state);
  }

  /** A kind's row counts its elements, those decoded and those observed but not decoded. */
  lemma {:induction false} CountOfTells(es: seq<Element>, kind: string)
    ensures CountOf(es, kind) == Count(HowMany(es, {kind}), HowManyIn(es, {kind}, "decoded"),
                                       HowManyIn(es, {kind}, "observed_undecoded"))
    decreases |es|
  {
    hide HowMany;
    hide HowManyIn;
    if es == [] {
      NoneOfNone(es, {kind}, "decoded");
      NoneOfNone(es, {kind}, "observed_undecoded");
    } else {
      var before, e := es[..|es| - 1], es[|es| - 1];
      assert es == before + [e];
      CountOfTells(before, kind);
      HowManySnoc(before, e, {kind});
      HowManyInSnoc(before, e, {kind}, "decoded");
      HowManyInSnoc(before, e, {kind}, "observed_undecoded");
    }
  }

  /** The totals count the elements of the three kinds shown, and no others. */
  lemma {:induction false} TotalsTell(es: seq<Element>)
    ensures var kinds := {"message_type", "async_request", "notification"};
            Totals(es) == Count(HowMany(es, kinds), HowManyIn(es, kinds, "decoded"),
                                HowManyIn(es, kinds, "observed_undecoded"))
    decreases |es|
  {
    hide HowMany;
    hide HowManyIn;
    hide Totals;
    var kinds := {"message_type", "async_request", "notification"};
    if es == [] {
      TotalsOfNothing(es);
      NoneOfNone(es, kinds, "decoded");
      NoneOfNone(es, kinds, "observed_undecoded");
    } else {
      var before, e := es[..|es| - 1], es[|es| - 1];
      assert es == before + [e];
      TotalsTell(before);
      TotalsSnoc(before, e);
      HowManySnoc(before, e, kinds);
      HowManyInSnoc(before, e, kinds, "decoded");
      HowManyInSnoc(before, e, kinds, "observed_undecoded");
    }
  }

  /** The elements first seen in a session of this name. */
  ghost function Members(es: seq<Element>, name: string): set<int> {
    set i | 0 <= i < |es| && es[i].state != "never_observed" && es[i].session == name
  }

  /** A session is credited with the observed elements that name it, each once; a nameless one is none. */
  lemma {:induction false} CountInTells(es: seq<Element>, name: string)
    ensures CountIn(es, name) == if name == "" then 0 else |Members(es, name)|
    decreases |es|
  {
    hide CountIn;
    if es == [] {
      NoneCounted(name);
      assert Members(es, name) == {};
    } else {
      var before, e := es[..|es| - 1], es[|es| - 1];
      assert es == before + [e];
      CountInTells(before, name);
      CountInSnoc(before, e, name);
      var joins := e.state != "never_observed" && e.session == name;
      assert Members(es, name) == if joins then Members(before, name) + {|before|} else Members(before, name);
    }
  }

  /** The share is that many whole tenths of a percent, and not one more. */
  lemma PermilleTells(t: Count)
    ensures t.known == 0 ==> Permille(t) == 0
    ensures t.known > 0 ==>
              Permille(t) * t.known <= 1000 * (t.decoded + t.undecoded) < (Permille(t) + 1) * t.known
  {
  }

  /** After each session the countdown stands at what was known less all the elements credited so far. */
  lemma {:induction false} StepsTell(left: int, ss: seq<Session>, i: nat)
    requires i < |ss|
    ensures |Steps(left, ss)| == |ss|
    ensures Steps(left, ss)[i] == Point(Label(ss[i]), left - CountSum(ss[..i + 1]))
    decreases |ss|
  {
    hide Label;
    var now := left - ss[0].count;
    assert ss[..i + 1][1..] == ss[1..][..i];
    if i > 0 {
      StepsTell(now, ss[1..], i - 1);
    } else if |ss| > 1 {
      StepsTell(now, ss[1..], 0);
    }
  }

  predicate Unmarked(s: string) { forall i | 0 < i < |s| :: s[i - 1] != '_' || s[i] != '_' }

  lemma UnmarkedTail(s: string)
    requires s != [] && Unmarked(s)
    ensures Unmarked(s[1..])
  {
  }

  lemma {:induction false} MarkFound(a: string, rest: string)
    requires Unmarked(a + "_")
    ensures IndexOfMark(a + "__" + rest) == |a|
    decreases |a|
  {
    var s := a + "__" + rest;
    if a != [] {
      assert s[1..] == a[1..] + "__" + rest;
      assert (a + "_")[0] == s[0] && (a + "_")[1] == s[1];
      UnmarkedTail(a + "_");
      assert (a + "_")[1..] == a[1..] + "_";
      MarkFound(a[1..], rest);
    }
  }

  lemma {:induction false} MarkNotFound(s: string)
    requires Unmarked(s)
    ensures IndexOfMark(s) == |s|
    decreases |s|
  {
    if s != [] {
      MarkNotFound(s[1..]);
    }
  }

  /** A step is labelled with the part of the session's name between the first mark and the next or the end, with
      a question mark if there is no such part or it is empty. */
  lemma LabelTells(a: string, scenario: string, c: string, s: Session)
    requires Unmarked(a + "_")
    ensures Unmarked(scenario + "_") && s.name == a + "__" + scenario + "__" + c ==>
              Label(s) == if scenario == "" then "?" else scenario
    ensures Unmarked(scenario) && s.name == a + "__" + scenario ==> Label(s) == if scenario == "" then "?" else scenario
    ensures Unmarked(s.name) ==> Label(s) == "?"
  {
    if Unmarked(scenario + "_") && s.name == a + "__" + scenario + "__" + c {
      var rest := scenario + "__" + c;
      assert s.name == a + "__" + rest;
      MarkFound(a, rest);
      assert s.name[|a| + 2..] == rest;
      MarkFound(scenario, c);
    }
    if Unmarked(scenario) && s.name == a + "__" + scenario {
      MarkFound(a, scenario);
      assert s.name[|a| + 2..] == scenario;
      MarkNotFound(scenario);
    }
    if Unmarked(s.name) {
      MarkNotFound(s.name);
    }
  }

  /** One point more either takes the place of the last one, if it bears the same label, or follows it. */
  lemma {:induction false} CollapseSnoc(ps: seq<Point>, p: Point)
    requires ps != []
    ensures KeepLast(ps) != []
    ensures KeepLast(ps + [p]) == if ps[|ps| - 1].title == p.title then KeepLast(ps)[..|KeepLast(ps)| - 1] + [p]
                                  else KeepLast(ps) + [p]
    decreases |ps|
  {
    if |ps| > 1 {
      var rest, more := KeepLast(ps[1..]), KeepLast(ps[1..] + [p]);
      CollapseSnoc(ps[1..], p);
      assert (ps + [p])[1..] == ps[1..] + [p];
      assert KeepLast(ps + [p]) == if ps[0].title == ps[1].title then more else [ps[0]] + more;
      hide KeepLast;
      assert ([ps[0]] + rest)[..|rest|] == [ps[0]] + rest[..|rest| - 1];
    }
  }

  // ---- The dashboard's computation ----

  method CountOne(c: Count, e: Element) returns (d: Count)
    ensures d == Plus(c, One(e))
  {
    StatesDiffer();
    d := c.(known := c.known + 1);
    if e.state == DECODED {
      d := d.(decoded := d.decoded + 1);
    } else if e.state == UNDECODED {
      d := d.(undecoded := d.undecoded + 1);
    }
  }

  function Lookup(counts: map<string, Count>, kind: string): Count { if kind in counts then counts[kind] else NOTHING }

  method CountKinds(es: seq<Element>) returns (counts: map<string, Count>)
    ensures forall k :: Lookup(counts, k) == CountOf(es, k)
  {
    hide CountOf;
    hide Plus;
    hide One;
    counts := map[];
    assert es[..0] == [];
    forall k
      ensures CountOf([], k) == NOTHING
    {
      CountOfNothing(k);
    }
    for i := 0 to |es|
      invariant forall k :: Lookup(counts, k) == CountOf(es[..i], k)
    {
      var e := es[i];
      var c := CountOne(Lookup(counts, e.kind), e);
      ghost var before := counts;
      counts := counts[e.kind := c];
      assert es[..i + 1] == es[..i] + [e];
      forall k
        ensures Lookup(counts, k) == CountOf(es[..i + 1], k)
      {
        CountOfSnoc(es[..i], e, k);
        assert Lookup(before, k) == CountOf(es[..i], k);
      }
    }
    assert es[..|es|] == es;
  }

  method GroupSessions(es: seq<Element>) returns (sm: map<string, Session>)
    ensures forall n :: n in sm <==> SessionOf(es, n).Some?
    ensures forall n | n in sm :: Some(sm[n]) == SessionOf(es, n) && sm[n].name == n && Earliest(sm[n].utc, es, n)
  {
    hide Text.Less;
    hide Earliest;
    sm := map[];
    for i := 0 to |es|
      invariant forall n :: n in sm <==> SessionOf(es[..i], n).Some?
      invariant forall n | n in sm :: Some(sm[n]) == SessionOf(es[..i], n) && sm[n].name == n
    {
      var e := es[i];
      assert es[..i + 1][..i] == es[..i];
      if e.state == NEVER || e.session == "" {
        continue;
      }
      var s := if e.session in sm then Some(sm[e.session]) else None;
      sm := sm[e.session := Joined(s, e)];
    }
    assert es[..|es|] == es;
    forall n | n in sm
      ensures Earliest(sm[n].utc, es, n)
    {
      TimeIsEarliest(es, n);
    }
  }

  function InsertByTime(s: Session, ss: seq<Session>): seq<Session> {
    if ss == [] || !Text.Less(ss[0].utc, s.utc) then [s] + ss else [ss[0]] + InsertByTime(s, ss[1..])
  }

  predicate ByTime(ss: seq<Session>) { forall i | 0 < i < |ss| :: !Text.Less(ss[i].utc, ss[i - 1].utc) }

  lemma {:induction false} InsertPermutes(s: Session, ss: seq<Session>)
    ensures multiset(InsertByTime(s, ss)) == multiset(ss) + multiset{s}
    decreases |ss|
  {
    if ss == [] || !Text.Less(ss[0].utc, s.utc) {
      assert multiset([s] + ss) == multiset{s} + multiset(ss);
    } else {
      InsertPermutes(s, ss[1..]);
      assert ss == [ss[0]] + ss[1..];
    }
  }

  lemma {:induction false} InsertKeepsOrder(s: Session, ss: seq<Session>)
    requires ByTime(ss)
    ensures ByTime(InsertByTime(s, ss))
    ensures var r := InsertByTime(s, ss); r != [] && (r[0] == s || (ss != [] && r[0] == ss[0]))
    decreases |ss|
  {
    hide Text.Less;
    if ss != [] && Text.Less(ss[0].utc, s.utc) {
      var rest, r := ss[1..], InsertByTime(s, ss);
      assert forall i | 0 < i < |rest| :: rest[i] == ss[i + 1] && rest[i - 1] == ss[i];
      InsertKeepsOrder(s, rest);
      Text.LessAsymmetric(ss[0].utc, s.utc);
      var t := InsertByTime(s, rest);
      assert rest != [] ==> rest[0] == ss[1];
      forall i | 0 < i < |r|
        ensures !Text.Less(r[i].utc, r[i - 1].utc)
      {
        assert r[i] == t[i - 1] && (i > 1 ==> r[i - 1] == t[i - 2]);
      }
    }
  }

  /** The sessions in the order of their times; among equal times the order is open. */
  method SortSessions(sm: map<string, Session>) returns (ss: seq<Session>)
    requires forall n | n in sm :: sm[n].name == n
    ensures ByTime(ss) && NoDuplicates(NamesOf(ss))
    ensures forall s :: s in ss <==> s.name in sm && sm[s.name] == s
  {
    ss := [];
    var rest := sm.Keys;
    while rest != {}
      invariant rest <= sm.Keys && ByTime(ss) && NoDuplicates(NamesOf(ss))
      invariant forall s :: s in ss <==> s.name in sm.Keys - rest && sm[s.name] == s
      decreases |rest|
    {
      var n :| n in rest;
      rest := rest - {n};
      InsertKeepsOrder(sm[n], ss);
      InsertPermutes(sm[n], ss);
      ghost var before := ss;
      ss := InsertByTime(sm[n], ss);
      InsertedNames(sm[n], before);
      assert forall s :: s in ss <==> s in multiset(ss);
      assert forall s :: s in before <==> s in multiset(before);
    }
  }

  lemma ConsNoDuplicates<T>(x: T, s: seq<T>)
    ensures NoDuplicates([x] + s) <==> x !in s && NoDuplicates(s)
  {
    var r := [x] + s;
    if NoDuplicates(r) {
      forall i, j | 0 <= i < j < |s|
        ensures s[i] != s[j]
      {
        assert s[i] == r[i + 1] && s[j] == r[j + 1];
      }
      forall i | 0 <= i < |s|
        ensures s[i] != x
      {
        assert s[i] == r[i + 1] && r[0] == x;
      }
    }
  }

  lemma {:induction false} InsertedNames(s: Session, ss: seq<Session>)
    requires NoDuplicates(NamesOf(ss)) && s.name !in NamesOf(ss)
    ensures NoDuplicates(NamesOf(InsertByTime(s, ss)))
    ensures forall n :: n in NamesOf(InsertByTime(s, ss)) <==> n == s.name || n in NamesOf(ss)
    decreases |ss|
  {
    hide NoDuplicates;
    hide Text.Less;
    if ss == [] || !Text.Less(ss[0].utc, s.utc) {
      assert NamesOf([s] + ss) == [s.name] + NamesOf(ss);
      ConsNoDuplicates(s.name, NamesOf(ss));
    } else {
      assert NamesOf(ss) == [ss[0].name] + NamesOf(ss[1..]);
      ConsNoDuplicates(ss[0].name, NamesOf(ss[1..]));
      InsertedNames(s, ss[1..]);
      var rest := InsertByTime(s, ss[1..]);
      assert NamesOf([ss[0]] + rest) == [ss[0].name] + NamesOf(rest);
      ConsNoDuplicates(ss[0].name, NamesOf(rest));
    }
  }

  lemma {:induction false} EveryJourneyHasASession(es: seq<Element>, e: Element)
    requires e in es && Journeys(e)
    ensures SessionOf(es, e.session).Some?
    decreases |es|
  {
    if e != es[|es| - 1] {
      EveryJourneyHasASession(es[..|es| - 1], e);
    }
  }

  /** How one kind is shown. */
  datatype Meta = Meta(kind: string, title: string, prefix: string)

  const KINDS := [Meta(MESSAGE_TYPE, "Message types", "cmd_type"), Meta(ASYNC_REQUEST, "Async requests", "AC_*"),
                  Meta(NOTIFICATION, "Notifications", "SN_*")]

  datatype KindRow = KindRow(title: string, code: string, count: Count)

  function RowOf(m: Meta, c: Count): KindRow { KindRow(m.title, m.prefix + " \U{00B7} " + Text.Decimal(c.known), c) }

  /** The kinds in the order they are shown, each with its name, and the number known behind its prefix. */
  lemma RowsAreShown(c: Count)
    ensures KINDS[0].kind == "message_type" && KINDS[1].kind == "async_request" && KINDS[2].kind == "notification"
    ensures |KINDS| == 3
    ensures RowOf(KINDS[0], c) == KindRow("Message types", "cmd_type \U{00B7} " + Text.Decimal(c.known), c)
    ensures RowOf(KINDS[1], c) == KindRow("Async requests", "AC_* \U{00B7} " + Text.Decimal(c.known), c)
    ensures RowOf(KINDS[2], c) == KindRow("Notifications", "SN_* \U{00B7} " + Text.Decimal(c.known), c)
  {
    assert "cmd_type" + " \U{00B7} " == "cmd_type \U{00B7} ";
    assert "AC_*" + " \U{00B7} " == "AC_* \U{00B7} " && "SN_*" + " \U{00B7} " == "SN_* \U{00B7} ";
  }

  /** What the first n kinds add up to. */
  function TotalOver(es: seq<Element>, n: nat): Count
    requires n <= |KINDS|
  {
    if n == 0 then NOTHING else Plus(TotalOver(es, n - 1), CountOf(es, KINDS[n - 1].kind))
  }

  lemma TotalOverAll(es: seq<Element>)
    ensures TotalOver(es, |KINDS|) == Totals(es)
  {
    hide CountOf;
    assert TotalOver(es, 1) == Plus(NOTHING, CountOf(es, MESSAGE_TYPE));
    assert TotalOver(es, 2) == Plus(TotalOver(es, 1), CountOf(es, ASYNC_REQUEST));
  }

  /** The rows of the kinds, and what they add up to. */
  method Rows(es: seq<Element>) returns (rows: seq<KindRow>, t: Count)
    ensures t == Totals(es) && |rows| == |KINDS|
    ensures forall i | 0 <= i < |KINDS| :: rows[i] == RowOf(KINDS[i], CountOf(es, KINDS[i].kind))
  {
    hide CountOf;
    hide RowOf;
    hide Plus;
    hide Totals;
    TotalOverAll(es);
    hide KINDS;
    var counts := CountKinds(es);
    rows, t := [], NOTHING;
    for i := 0 to |KINDS|
      invariant |rows| == i && forall k | 0 <= k < i :: rows[k] == RowOf(KINDS[k], CountOf(es, KINDS[k].kind))
      invariant t == TotalOver(es, i)
    {
      var c := Lookup(counts, KINDS[i].kind);
      rows := rows + [RowOf(KINDS[i], c)];
      t := Plus(t, c);
    }
  }

  /** How much of what is known was observed, in tenths of a percent, rounded down. */
  function Permille(t: Count): nat { if t.known > 0 then 1000 * (t.decoded + t.undecoded) / t.known else 0 }

  datatype Payload = Payload(totals: Count, permille: nat, kinds: seq<KindRow>, journey: seq<Point>, sessions: nat)

  /** The dashboard's figures for a store whose elements are met in the order `es`. */
  method Build(es: seq<Element>) returns (pl: Payload, ghost ss: seq<Session>)
    ensures pl.totals == Totals(es) && pl.permille == Permille(pl.totals)
    ensures |pl.kinds| == |KINDS|
    ensures forall i | 0 <= i < |KINDS| :: pl.kinds[i] == RowOf(KINDS[i], CountOf(es, KINDS[i].kind))
    ensures Enumerates(es, ss) && ByTime(ss) && pl.sessions == |ss|
    ensures forall s | s in ss :: Earliest(s.utc, es, s.name)
    ensures pl.journey == KeepLast(Journey(pl.totals.known, ss))
  {
    hide Earliest;
    var kinds, t := Rows(es);
    var sm := GroupSessions(es);
    var sessions := SortSessions(sm);
    ss := sessions;
    forall e | e in es && Journeys(e)
      ensures e.session in NamesOf(ss)
    {
      EveryJourneyHasASession(es, e);
      assert sm[e.session] in ss;
      var i :| 0 <= i < |ss| && ss[i] == sm[e.session];
      assert NamesOf(ss)[i] == e.session;
    }
    var points := Journey(t.known, sessions);
    var a := new Point[|points|](i requires 0 <= i < |points| => points[i]);
    assert a[..] == points;
    var n := Collapse(a);
    pl := Payload(t, Permille(t), kinds, a[..n], |sessions|);
  }
}
