/**
 The store of protocol elements ever observed, and why it can be rebuilt from what each session left
 in its own bundle.
 */
module Coverage {
  import opened Bytes
  import opened Options
  import opened Sequences
  import Framing
  import Pipelines
  import Text

  /** An element as the store and the deltas name it. */
  datatype Element = Element(kind: string, id: uint16)

  /** An element seen, and whether its body was understood. */
  datatype Sighting = Sighting(element: Element, decoded: bool)

  datatype State = NeverObserved | ObservedUndecoded | Decoded

  function Rank(s: State): nat {
    match s
    case Decoded => 2
    case ObservedUndecoded => 1
    case NeverObserved => 0
  }

  function Higher(s: State, t: State): State { if Rank(t) > Rank(s) then t else s }

  /** Nanoseconds. */
  type time = int

  /** The session an element was first seen in, and when the store was told. */
  datatype Occasion = Occasion(session: string, at: time)

  const NEVER_SEEN := Occasion("", 0)

  datatype Entry = Entry(name: string, state: State, firstSeen: Occasion, observations: nat)

  /** An element with what is told of it, as the lists of novel elements and the deltas hold it. */
  datatype Listed = Listed(element: Element, entry: Entry)

  datatype Store = Store(elements: map<Element, Entry>, novel: seq<Listed>)

  /** What a build of the program knows: the names of the elements of its universe, and how it writes a
      text in upper case. */
  datatype Build = Build(names: map<Element, string>, upper: string -> string)

  function NameOf(b: Build, e: Element): string {
    if e in b.names then b.names[e] else b.upper(e.kind) + "_UNKNOWN_" + Text.Decimal(e.id)
  }

  function Unseen(name: string): Entry { Entry(name, NeverObserved, NEVER_SEEN, 0) }

  /** Folds in the elements a build knows that the store does not list yet. */
  function Loaded(d: Store, b: Build): Store {
    d.(elements := (map e | e in b.names :: Unseen(b.names[e])) + d.elements)
  }

  const EMPTY := Store(map[], [])

  function Counted(n: Entry, decoded: bool, o: Occasion): Entry {
    Entry(n.name, Higher(n.state, if decoded then Decoded else ObservedUndecoded),
          if n.firstSeen.session == "" then o else n.firstSeen, n.observations + 1)
  }

  function Observed(b: Build, d: Store, s: Sighting, o: Occasion): Store {
    var n := if s.element in d.elements then d.elements[s.element] else Unseen(NameOf(b, s.element));
    d.(elements := d.elements[s.element := Counted(n, s.decoded, o)])
  }

  /** A novel element with the name it was given. */
  datatype Named = Named(element: Element, name: string)

  /** A report of an element in one session. */
  function Report(e: Element, name: string, decoded: bool, o: Occasion): Listed {
    Listed(e, Entry(name, if decoded then Decoded else ObservedUndecoded, o, 1))
  }

  /** Counts one more sighting of a novel element, listing it if it is new. */
  function Bumped(ns: seq<Listed>, e: Named, o: Occasion): seq<Listed> {
    if ns == [] then [Report(e.element, e.name, false, o)]
    else if ns[0].element == e.element then [OnceMore(ns[0])] + ns[1..]
    else [ns[0]] + Bumped(ns[1..], e, o)
  }

  function OnceMore(n: Listed): Listed { n.(entry := n.entry.(observations := n.entry.observations + 1)) }

  /** What one session contributed. */
  datatype Delta = Delta(session: string, observed: seq<Listed>, novel: seq<Listed>)

  function SightingOf(l: Listed): Sighting { Sighting(l.element, l.entry.state == Decoded) }

  function Seen(x: Delta): (r: seq<Sighting>)
    ensures |r| == |x.observed|
  {
    seq(|x.observed|, i requires 0 <= i < |x.observed| => SightingOf(x.observed[i]))
  }

  function Discovered(x: Delta): (r: seq<Named>)
    ensures |r| == |x.novel|
  {
    seq(|x.novel|, i requires 0 <= i < |x.novel| => Named(x.novel[i].element, x.novel[i].entry.name))
  }

  function ElementsOf(es: seq<Named>): (r: seq<Element>)
    ensures |r| == |es|
  {
    seq(|es|, i requires 0 <= i < |es| => es[i].element)
  }

  function ObservedAll(b: Build, d: Store, ss: seq<Sighting>, o: Occasion): Store
    decreases |ss|
  {
    if ss == [] then d else Observed(b, ObservedAll(b, d, ss[..|ss| - 1], o), ss[|ss| - 1], o)
  }

  function BumpedAll(ns: seq<Listed>, es: seq<Named>, o: Occasion): seq<Listed>
    decreases |es|
  {
    if es == [] then ns else Bumped(BumpedAll(ns, es[..|es| - 1], o), es[|es| - 1], o)
  }

  /** A session's contribution folded into a store at a given time. */
  function Ingested(b: Build, d: Store, x: Delta, at: time): Store {
    var o := Occasion(x.session, at);
    ObservedAll(b, d, Seen(x), o).(novel := BumpedAll(d.novel, Discovered(x), o))
  }

  // ---- What a store says about one element ----

  function EntryOf(d: Store, e: Element): Entry { if e in d.elements then d.elements[e] else Unseen("") }

  function StateOf(d: Store, e: Element): State { EntryOf(d, e).state }

  function Observations(d: Store, e: Element): nat { EntryOf(d, e).observations }

  function NovelCount(ns: seq<Listed>, e: Element): nat {
    if ns == [] then 0 else if ns[0].element == e then ns[0].entry.observations else NovelCount(ns[1..], e)
  }

  function Undecoded(e: Element): Sighting { Sighting(e, false) }

  function Understood(e: Element): Sighting { Sighting(e, true) }

  /** The verdict on an element, given all sightings in no particular order. */
  function Verdict(all: multiset<Sighting>, e: Element): State {
    if Understood(e) in all then Decoded else if Undecoded(e) in all then ObservedUndecoded else NeverObserved
  }

  function Times(all: multiset<Sighting>, e: Element): nat { all[Undecoded(e)] + all[Understood(e)] }

  lemma {:induction false} ObservedAllTells(b: Build, d: Store, ss: seq<Sighting>, o: Occasion, e: Element)
    ensures var d1 := ObservedAll(b, d, ss, o);
            && StateOf(d1, e) == Higher(StateOf(d, e), Verdict(multiset(ss), e))
            && Observations(d1, e) == Observations(d, e) + Times(multiset(ss), e)
            && d1.novel == d.novel
    decreases |ss|
  {
    if ss != [] {
      ObservedAllTells(b, d, ss[..|ss| - 1], o, e);
      assert ss == ss[..|ss| - 1] + [ss[|ss| - 1]];
    }
  }

  lemma {:induction false} BumpedCounts(ns: seq<Listed>, x: Named, o: Occasion, e: Element)
    ensures NovelCount(Bumped(ns, x, o), e) == NovelCount(ns, e) + if x.element == e then 1 else 0
    decreases |ns|
  {
    if ns != [] && ns[0].element != x.element {
      BumpedCounts(ns[1..], x, o, e);
    }
  }

  lemma {:induction false} BumpedAt(ns: seq<Listed>, i: nat, e: Named, o: Occasion)
    requires i < |ns| && ns[i].element == e.element && forall k | 0 <= k < i :: ns[k].element != e.element
    ensures Bumped(ns, e, o) == ns[i := OnceMore(ns[i])]
    decreases i
  {
    if i > 0 {
      BumpedAt(ns[1..], i - 1, e, o);
    }
  }

  lemma {:induction false} BumpedAtEnd(ns: seq<Listed>, e: Named, o: Occasion)
    requires forall k | 0 <= k < |ns| :: ns[k].element != e.element
    ensures Bumped(ns, e, o) == ns + [Report(e.element, e.name, false, o)]
    decreases |ns|
  {
    if ns != [] {
      BumpedAtEnd(ns[1..], e, o);
    }
  }

  lemma {:induction false} BumpedAllCounts(ns: seq<Listed>, es: seq<Named>, o: Occasion, e: Element)
    ensures NovelCount(BumpedAll(ns, es, o), e) == NovelCount(ns, e) + multiset(ElementsOf(es))[e]
    decreases |es|
  {
    if es != [] {
      var n := |es| - 1;
      BumpedAllCounts(ns, es[..n], o, e);
      BumpedCounts(BumpedAll(ns, es[..n], o), es[n], o, e);
      assert ElementsOf(es) == ElementsOf(es[..n]) + [es[n].element];
    }
  }

  // ---- Many sessions ----

  /** One session of a store's life: the store is loaded by a build, then takes the contribution. */
  datatype Visit = Visit(build: Build, delta: Delta, at: time)

  function Lived(vs: seq<Visit>): Store
    decreases |vs|
  {
    if vs == [] then EMPTY else
    var v := vs[|vs| - 1];
    Ingested(v.build, Loaded(Lived(vs[..|vs| - 1]), v.build), v.delta, v.at)
  }

  function Sightings(vs: seq<Visit>): multiset<Sighting>
    decreases |vs|
  {
    if vs == [] then multiset{} else Sightings(vs[..|vs| - 1]) + multiset(Seen(vs[|vs| - 1].delta))
  }

  function Novelties(vs: seq<Visit>): multiset<Element>
    decreases |vs|
  {
    if vs == [] then multiset{} else Novelties(vs[..|vs| - 1]) + multiset(ElementsOf(Discovered(vs[|vs| - 1].delta)))
  }

  lemma LoadingTellsNothing(d: Store, b: Build, e: Element)
    ensures var d1 := Loaded(d, b);
            && StateOf(d1, e) == StateOf(d, e) && Observations(d1, e) == Observations(d, e)
            && EntryOf(d1, e).firstSeen == EntryOf(d, e).firstSeen && d1.novel == d.novel
  {
  }

  lemma HigherVerdict(a: multiset<Sighting>, b: multiset<Sighting>, e: Element)
    ensures Higher(Verdict(a, e), Verdict(b, e)) == Verdict(a + b, e)
    ensures Times(a + b, e) == Times(a, e) + Times(b, e)
  {
  }

  /** However a store came about, it says of every element: the highest state ever reported, one
      observation for each sighting, and one count for each report of a novel element. */
  lemma {:induction false} StoreIsTheSumOfItsSessions(vs: seq<Visit>, e: Element)
    ensures StateOf(Lived(vs), e) == Verdict(Sightings(vs), e)
    ensures Observations(Lived(vs), e) == Times(Sightings(vs), e)
    ensures NovelCount(Lived(vs).novel, e) == Novelties(vs)[e]
    decreases |vs|
  {
    hide Loaded;
    hide Seen;
    hide Discovered;
    if vs != [] {
      var before, v := vs[..|vs| - 1], vs[|vs| - 1];
      StoreIsTheSumOfItsSessions(before, e);
      var d, o := Loaded(Lived(before), v.build), Occasion(v.delta.session, v.at);
      LoadingTellsNothing(Lived(before), v.build, e);
      ObservedAllTells(v.build, d, Seen(v.delta), o, e);
      BumpedAllCounts(d.novel, Discovered(v.delta), o, e);
      HigherVerdict(Sightings(before), multiset(Seen(v.delta)), e);
    }
  }

  // ---- When an element was first seen ----

  predicate Sees(x: Delta, e: Element) { exists i :: 0 <= i < |x.observed| && x.observed[i].element == e }

  /** The first visit that told of the element under a session's name. */
  function FirstOccasion(vs: seq<Visit>, e: Element): Occasion
    decreases |vs|
  {
    if vs == [] then Occasion("", 0) else
    var early, v := FirstOccasion(vs[..|vs| - 1], e), vs[|vs| - 1];
    if early.session == "" && Sees(v.delta, e) then Occasion(v.delta.session, v.at) else early
  }

  lemma {:induction false} ObservedAllDates(b: Build, d: Store, ss: seq<Sighting>, o: Occasion, e: Element)
    ensures EntryOf(ObservedAll(b, d, ss, o), e).firstSeen
         == if EntryOf(d, e).firstSeen.session == "" && exists s :: s in ss && s.element == e then o
            else EntryOf(d, e).firstSeen
    decreases |ss|
  {
    if ss != [] {
      var before, s := ss[..|ss| - 1], ss[|ss| - 1];
      ObservedAllDates(b, d, before, o, e);
      assert forall t :: t in ss <==> t in before || t == s;
    }
  }

  lemma SeesByElement(x: Delta, e: Element)
    ensures Sees(x, e) <==> exists s :: s in Seen(x) && s.element == e
  {
    if Sees(x, e) {
      var i :| 0 <= i < |x.observed| && x.observed[i].element == e;
      assert Seen(x)[i] in Seen(x);
    }
  }

  /** A store dates every element by the first visit that told of it. */
  lemma {:induction false} StoreTellsFirstOccasion(vs: seq<Visit>, e: Element)
    ensures EntryOf(Lived(vs), e).firstSeen == FirstOccasion(vs, e)
    decreases |vs|
  {
    hide Loaded;
    hide Seen;
    hide Sees;
    if vs != [] {
      var before, v := vs[..|vs| - 1], vs[|vs| - 1];
      StoreTellsFirstOccasion(before, e);
      LoadingTellsNothing(Lived(before), v.build, e);
      SeesByElement(v.delta, e);
      ObservedAllDates(v.build, Loaded(Lived(before), v.build), Seen(v.delta), Occasion(v.delta.session, v.at), e);
    }
  }

  lemma {:induction false} FirstOccasionIsAVisit(vs: seq<Visit>, e: Element)
    ensures || FirstOccasion(vs, e) == Occasion("", 0)
            || exists v :: v in vs && FirstOccasion(vs, e) == Occasion(v.delta.session, v.at)
    decreases |vs|
  {
    if vs != [] {
      var before, v := vs[..|vs| - 1], vs[|vs| - 1];
      FirstOccasionIsAVisit(before, e);
      assert v in vs && forall w | w in before :: w in vs;
    }
  }

  // ---- Under which name an element is listed ----

  /** The visit's build knows the element, or its session saw it. */
  predicate Meets(v: Visit, e: Element) { e in v.build.names || Sees(v.delta, e) }

  lemma {:induction false} ObservedAllLists(b: Build, d: Store, ss: seq<Sighting>, o: Occasion, e: Element)
    ensures var d1 := ObservedAll(b, d, ss, o);
            && (e in d1.elements <==> e in d.elements || exists s :: s in ss && s.element == e)
            && (e in d.elements ==> d1.elements[e].name == d.elements[e].name)
            && (e in d1.elements && e !in d.elements ==> d1.elements[e].name == NameOf(b, e))
    decreases |ss|
  {
    hide NameOf;
    if ss != [] {
      var before, s := ss[..|ss| - 1], ss[|ss| - 1];
      ObservedAllLists(b, d, before, o, e);
      assert forall t :: t in ss <==> t in before || t == s;
    }
  }

  lemma LoadingLists(d: Store, b: Build, e: Element)
    ensures var d1 := Loaded(d, b);
            && (e in d1.elements <==> e in d.elements || e in b.names)
            && (e in d.elements ==> d1.elements[e] == d.elements[e])
            && (e in d1.elements && e !in d.elements ==> d1.elements[e].name == NameOf(b, e))
  {
  }

  lemma VisitLists(vs: seq<Visit>, v: Visit, e: Element)
    ensures var d, d1 := Lived(vs), Lived(vs + [v]);
            && (e in d1.elements <==> e in d.elements || Meets(v, e))
            && (e in d.elements ==> d1.elements[e].name == d.elements[e].name)
            && (e in d1.elements && e !in d.elements ==> d1.elements[e].name == NameOf(v.build, e))
  {
    hide NameOf;
    hide Seen;
    hide Sees;
    hide Loaded;
    assert (vs + [v])[..|vs|] == vs;
    SeesByElement(v.delta, e);
    LoadingLists(Lived(vs), v.build, e);
    ObservedAllLists(v.build, Loaded(Lived(vs), v.build), Seen(v.delta), Occasion(v.delta.session, v.at), e);
  }

  lemma {:induction false} UnmetIsUnlisted(vs: seq<Visit>, e: Element)
    requires forall k | 0 <= k < |vs| :: !Meets(vs[k], e)
    ensures e !in Lived(vs).elements
    decreases |vs|
  {
    hide Meets;
    hide Ingested;
    hide NameOf;
    if vs != [] {
      var n := |vs| - 1;
      UnmetIsUnlisted(vs[..n], e);
      assert !Meets(vs[n], e);
      VisitLists(vs[..n], vs[n], e);
      hide Lived;
      assert vs == vs[..n] + [vs[n]];
    }
  }

  /** An element is listed from the first visit on whose build knows it or whose session saw it, for ever under
      the name that build has for it; one it does not know is named for its kind and number. */
  lemma {:induction false} FirstNameIsKept(vs: seq<Visit>, i: nat, e: Element)
    requires i < |vs| && Meets(vs[i], e) && forall k | 0 <= k < i :: !Meets(vs[k], e)
    ensures e in Lived(vs).elements
    ensures var b, name := vs[i].build, Lived(vs).elements[e].name;
            name == if e in b.names then b.names[e] else b.upper(e.kind) + "_UNKNOWN_" + Text.Decimal(e.id)
    decreases |vs|
  {
    hide Meets;
    hide Ingested;
    var n := |vs| - 1;
    assert vs == vs[..n] + [vs[n]];
    VisitLists(vs[..n], vs[n], e);
    if i < n {
      FirstNameIsKept(vs[..n], i, e);
    } else {
      UnmetIsUnlisted(vs[..n], e);
    }
  }

  /** ... and no element is listed otherwise. */
  lemma ListedOnlyIfMet(vs: seq<Visit>, e: Element)
    requires e in Lived(vs).elements
    ensures exists v :: v in vs && Meets(v, e)
  {
    hide Meets;
    if forall v | v in vs :: !Meets(v, e) {
      forall k | 0 <= k < |vs|
        ensures !Meets(vs[k], e)
      {
        assert vs[k] in vs;
      }
      UnmetIsUnlisted(vs, e);
    }
  }

  // ---- What is told of a novel element ----

  function NovelAt(ns: seq<Listed>, e: Element): Option<Entry> {
    if ns == [] then None else if ns[0].element == e then Some(ns[0].entry) else NovelAt(ns[1..], e)
  }

  /** The name of the first report of an element among some. */
  function FirstReported(es: seq<Named>, e: Element): Option<string>
    decreases |es|
  {
    if es == [] then None else
    var early, last := FirstReported(es[..|es| - 1], e), es[|es| - 1];
    if early.None? && last.element == e then Some(last.name) else early
  }

  /** The first report of an element as novel: its name and its occasion. */
  function FirstDiscovery(vs: seq<Visit>, e: Element): Option<(string, Occasion)>
    decreases |vs|
  {
    if vs == [] then None else
    var early, v := FirstDiscovery(vs[..|vs| - 1], e), vs[|vs| - 1];
    if early.Some? then early else
    match FirstReported(Discovered(v.delta), e)
    case None => None
    case Some(name) => Some((name, Occasion(v.delta.session, v.at)))
  }

  lemma {:induction false} BumpedTells(ns: seq<Listed>, x: Named, o: Occasion, e: Element)
    ensures NovelAt(Bumped(ns, x, o), e)
         == if x.element != e then NovelAt(ns, e) else
            match NovelAt(ns, e)
            case None => Some(Entry(x.name, ObservedUndecoded, o, 1))
            case Some(n) => Some(Entry(n.name, n.state, n.firstSeen, n.observations + 1))
    decreases |ns|
  {
    if ns != [] && ns[0].element != x.element {
      BumpedTells(ns[1..], x, o, e);
    }
  }

  /** What is known of a novel element when it was first reported, counted n times. */
  predicate ToldAs(told: Option<Entry>, first: Option<(string, Occasion)>, n: nat) {
    match first
    case None => told.None?
    case Some((name, o)) => told == Some(Entry(name, ObservedUndecoded, o, n))
  }

  lemma {:induction false} BumpedAllTells(ns: seq<Listed>, es: seq<Named>, o: Occasion, e: Element,
                                          first: Option<(string, Occasion)>, n: nat)
    requires ToldAs(NovelAt(ns, e), first, n) && (first.None? ==> n == 0)
    ensures ToldAs(NovelAt(BumpedAll(ns, es, o), e),
                   if first.Some? then first else
                   match FirstReported(es, e)
                   case None => None
                   case Some(name) => Some((name, o)),
                   n + multiset(ElementsOf(es))[e])
    ensures FirstReported(es, e).None? ==> multiset(ElementsOf(es))[e] == 0
    decreases |es|
  {
    if es != [] {
      var m := |es| - 1;
      BumpedAllTells(ns, es[..m], o, e, first, n);
      BumpedTells(BumpedAll(ns, es[..m], o), es[m], o, e);
      assert ElementsOf(es) == ElementsOf(es[..m]) + [es[m].element];
    }
  }

  /** A novel element keeps the name and the occasion of its first report; later ones, of whatever name, are
      only counted. */
  lemma {:induction false} FirstDiscoveryIsKept(vs: seq<Visit>, e: Element)
    ensures ToldAs(NovelAt(Lived(vs).novel, e), FirstDiscovery(vs, e), Novelties(vs)[e])
    ensures FirstDiscovery(vs, e).None? ==> Novelties(vs)[e] == 0
    decreases |vs|
  {
    hide Loaded;
    hide Seen;
    hide Discovered;
    hide ElementsOf;
    hide ObservedAll;
    hide BumpedAll;
    if vs != [] {
      hide ToldAs;
      hide NovelAt;
      var before, v := vs[..|vs| - 1], vs[|vs| - 1];
      FirstDiscoveryIsKept(before, e);
      var d, o := Loaded(Lived(before), v.build), Occasion(v.delta.session, v.at);
      LoadingTellsNothing(Lived(before), v.build, e);
      ObservedAllTells(v.build, d, Seen(v.delta), o, e);
      BumpedAllTells(d.novel, Discovered(v.delta), o, e, FirstDiscovery(before, e), Novelties(before)[e]);
    }
  }

  predicate ListedOnce(ns: seq<Listed>) { forall i, k | 0 <= i < k < |ns| :: ns[i].element != ns[k].element }

  lemma BumpedStaysOnce(ns: seq<Listed>, x: Named, o: Occasion)
    requires ListedOnce(ns)
    ensures ListedOnce(Bumped(ns, x, o))
  {
    if i: nat :| i < |ns| && ns[i].element == x.element {
      assert forall k | 0 <= k < i :: ns[k].element != x.element;
      BumpedAt(ns, i, x, o);
    } else {
      BumpedAtEnd(ns, x, o);
    }
  }

  lemma {:induction false} BumpedAllStaysOnce(ns: seq<Listed>, es: seq<Named>, o: Occasion)
    requires ListedOnce(ns)
    ensures ListedOnce(BumpedAll(ns, es, o))
    decreases |es|
  {
    hide ListedOnce;
    if es != [] {
      BumpedAllStaysOnce(ns, es[..|es| - 1], o);
      BumpedStaysOnce(BumpedAll(ns, es[..|es| - 1], o), es[|es| - 1], o);
    }
  }

  /** However often it is reported, in however many sessions, a novel element is one discovery. */
  lemma {:induction false} NovelIsListedOnce(vs: seq<Visit>)
    ensures ListedOnce(Lived(vs).novel)
    decreases |vs|
  {
    hide Seen;
    hide Discovered;
    if vs != [] {
      var before, v := vs[..|vs| - 1], vs[|vs| - 1];
      NovelIsListedOnce(before);
      BumpedAllStaysOnce(Lived(before).novel, Discovered(v.delta), Occasion(v.delta.session, v.at));
    }
  }

  // ---- Rebuilding ----

  function Deltas(vs: seq<Visit>): (r: seq<Delta>)
    ensures |r| == |vs|
  {
    seq(|vs|, i requires 0 <= i < |vs| => vs[i].delta)
  }

  function SightingsIn(ds: seq<Delta>): multiset<Sighting>
    decreases |ds|
  {
    if ds == [] then multiset{} else SightingsIn(ds[..|ds| - 1]) + multiset(Seen(ds[|ds| - 1]))
  }

  function NoveltiesIn(ds: seq<Delta>): multiset<Element>
    decreases |ds|
  {
    if ds == [] then multiset{} else NoveltiesIn(ds[..|ds| - 1]) + multiset(ElementsOf(Discovered(ds[|ds| - 1])))
  }

  lemma {:induction false} TotalsOfDeltas(vs: seq<Visit>)
    ensures Sightings(vs) == SightingsIn(Deltas(vs)) && Novelties(vs) == NoveltiesIn(Deltas(vs))
    decreases |vs|
  {
    hide Seen;
    hide Discovered;
    hide ElementsOf;
    if vs != [] {
      TotalsOfDeltas(vs[..|vs| - 1]);
      assert Deltas(vs)[..|vs| - 1] == Deltas(vs[..|vs| - 1]);
    }
  }

  lemma TotalsSnoc(ds: seq<Delta>, x: Delta)
    ensures SightingsIn(ds + [x]) == SightingsIn(ds) + multiset(Seen(x))
    ensures NoveltiesIn(ds + [x]) == NoveltiesIn(ds) + multiset(ElementsOf(Discovered(x)))
  {
    assert (ds + [x])[..|ds|] == ds;
  }

  lemma {:induction false} TotalsWithout(a: seq<Delta>, x: Delta, b: seq<Delta>)
    ensures SightingsIn(a + [x] + b) == SightingsIn(a + b) + multiset(Seen(x))
    ensures NoveltiesIn(a + [x] + b) == NoveltiesIn(a + b) + multiset(ElementsOf(Discovered(x)))
    decreases |b|
  {
    hide SightingsIn;
    hide NoveltiesIn;
    if b == [] {
      assert a + [x] + b == a + [x] && a + b == a;
      TotalsSnoc(a, x);
    } else {
      var n := |b| - 1;
      TotalsWithout(a, x, b[..n]);
      assert a + [x] + b == (a + [x] + b[..n]) + [b[n]] && a + b == (a + b[..n]) + [b[n]];
      TotalsSnoc(a + [x] + b[..n], b[n]);
      TotalsSnoc(a + b[..n], b[n]);
    }
  }

  lemma TotalsAt(ds: seq<Delta>, i: nat)
    requires i < |ds|
    ensures SightingsIn(ds) == SightingsIn(ds[..i] + ds[i + 1..]) + multiset(Seen(ds[i]))
    ensures NoveltiesIn(ds) == NoveltiesIn(ds[..i] + ds[i + 1..]) + multiset(ElementsOf(Discovered(ds[i])))
  {
    hide SightingsIn;
    hide NoveltiesIn;
    hide Seen;
    hide Discovered;
    hide ElementsOf;
    assert ds[..i] + [ds[i]] + ds[i + 1..] == ds;
    TotalsWithout(ds[..i], ds[i], ds[i + 1..]);
  }

  lemma Partner<T>(ds: seq<T>, es: seq<T>) returns (i: nat)
    requires ds != [] && multiset(ds) == multiset(es)
    ensures i < |es| && es[i] == ds[0] && multiset(ds[1..]) == multiset(es[..i] + es[i + 1..])
  {
    assert ds[0] in multiset(es);
    i :| i < |es| && es[i] == ds[0];
    WithoutFirst(ds);
    WithoutOne(es, i);
  }

  lemma {:induction false} TotalsIgnoreOrder(ds: seq<Delta>, es: seq<Delta>)
    requires multiset(ds) == multiset(es)
    ensures SightingsIn(ds) == SightingsIn(es) && NoveltiesIn(ds) == NoveltiesIn(es)
    decreases |ds|
  {
    hide SightingsIn;
    hide NoveltiesIn;
    if ds == [] {
      assert |multiset(es)| == 0;
    } else {
      var i := Partner(ds, es);
      TotalsIgnoreOrder(ds[1..], es[..i] + es[i + 1..]);
      TotalsAt(ds, 0);
      assert ds[..0] + ds[1..] == ds[1..];
      TotalsAt(es, i);
    }
  }

  /** A lost store can be rebuilt: ingesting the same deltas in any order, with any builds, into a fresh
      store gives every element the state, the observations and the novelty count it had. */
  lemma CoverageCanBeRebuilt(live: seq<Visit>, rebuilt: seq<Visit>, e: Element)
    requires multiset(Deltas(live)) == multiset(Deltas(rebuilt))
    ensures StateOf(Lived(rebuilt), e) == StateOf(Lived(live), e)
    ensures Observations(Lived(rebuilt), e) == Observations(Lived(live), e)
    ensures NovelCount(Lived(rebuilt).novel, e) == NovelCount(Lived(live).novel, e)
  {
    StoreIsTheSumOfItsSessions(live, e);
    StoreIsTheSumOfItsSessions(rebuilt, e);
    TotalsOfDeltas(live);
    TotalsOfDeltas(rebuilt);
    TotalsIgnoreOrder(Deltas(live), Deltas(rebuilt));
  }

  /** What a rebuild does not give back is when an element was first seen: a store rebuilt in one go dates all
      that was ever seen with the time of the rebuild, whatever the bundles say. */
  lemma RebuildingForgetsTimes(rebuilt: seq<Visit>, now: time, e: Element)
    requires forall v | v in rebuilt :: v.at == now && v.delta.session != ""
    ensures Observations(Lived(rebuilt), e) > 0 ==> EntryOf(Lived(rebuilt), e).firstSeen.at == now
  {
    hide Lived;
    StoreTellsFirstOccasion(rebuilt, e);
    FirstOccasionIsAVisit(rebuilt, e);
    SeenIsDated(rebuilt, e);
  }

  /** Whatever was observed at all was observed on an occasion. */
  lemma {:induction false} SeenIsDated(vs: seq<Visit>, e: Element)
    requires forall v | v in vs :: v.delta.session != ""
    ensures Observations(Lived(vs), e) > 0 ==> FirstOccasion(vs, e).session != ""
    decreases |vs|
  {
    hide Loaded;
    hide Seen;
    hide Sees;
    hide Verdict;
    if vs != [] {
      var before, v := vs[..|vs| - 1], vs[|vs| - 1];
      assert v in vs && forall w | w in before :: w in vs;
      SeenIsDated(before, e);
      LoadingTellsNothing(Lived(before), v.build, e);
      ObservedAllTells(v.build, Loaded(Lived(before), v.build), Seen(v.delta), Occasion(v.delta.session, v.at), e);
      SeesByElement(v.delta, e);
      if Times(multiset(Seen(v.delta)), e) > 0 {
        assert Undecoded(e) in Seen(v.delta) || Understood(e) in Seen(v.delta);
      }
    }
  }

  /** No later session, however it decoded, lowers a state. */
  lemma {:induction false} StateNeverFalls(vs: seq<Visit>, more: seq<Visit>, e: Element)
    ensures Rank(StateOf(Lived(vs), e)) <= Rank(StateOf(Lived(vs + more), e))
    ensures Observations(Lived(vs), e) <= Observations(Lived(vs + more), e)
    decreases |more|
  {
    hide ObservedAll;
    hide BumpedAll;
    hide Loaded;
    if more == [] {
      assert vs + more == vs;
    } else {
      var all, v := vs + more, more[|more| - 1];
      assert all[..|all| - 1] == vs + more[..|more| - 1];
      StateNeverFalls(vs, more[..|more| - 1], e);
      var d := Lived(all[..|all| - 1]);
      LoadingTellsNothing(d, v.build, e);
      ObservedAllTells(v.build, Loaded(d, v.build), Seen(v.delta), Occasion(v.delta.session, v.at), e);
    }
  }

  // ---- The text of an element's key ----

  function KindName(k: Pipelines.Kind): string {
    match k
    case MessageType => "message_type"
    case AsyncRequest => "async_request"
    case Notification => "notification"
  }

  function ToldElement(e: Pipelines.Element): Element { Element(KindName(e.kind), e.id) }

  function Told(s: Pipelines.Sighting): Sighting { Sighting(ToldElement(s.element), s.decoded) }

  /** `kind:id`, with a `!` behind it for an element whose body was understood. */
  function KeyText(s: Sighting): string {
    s.element.kind + ":" + Text.Decimal(s.element.id) + if s.decoded then "!" else ""
  }

  function LastColonAt(s: string): (i: Option<nat>)
    ensures i.Some? ==> i.value < |s| && s[i.value] == ':'
    decreases |s|
  {
    if s == [] then None
    else if s[|s| - 1] == ':' then Some(|s| - 1)
    else LastColonAt(s[..|s| - 1])
  }

  predicate HasBang(s: string) { s != [] && s[|s| - 1] == '!' }

  function WithoutBang(s: string): string { if HasBang(s) then s[..|s| - 1] else s }

  function LeadingDigits(s: string): (n: nat)
    ensures n <= |s| && Text.Digits(s[..n])
  {
    if s == [] || !Text.IsDigit(s[0]) then 0 else
    var n := LeadingDigits(s[1..]);
    assert s[..n + 1] == [s[0]] + s[1..][..n];
    n + 1
  }

  /** Reads the decimal number a text begins with; what follows it is not looked at. */
  function ScanId(s: string): Option<uint16> {
    var n := LeadingDigits(s);
    if n == 0 || Text.Number(s[..n]) >= 0x1_0000 then None else Some(Text.Number(s[..n]))
  }

  function ParseKey(key: string): Option<Element> {
    match LastColonAt(key)
    case None => None
    case Some(i) =>
      match ScanId(WithoutBang(key[i + 1..]))
      case None => None
      case Some(id) => Some(Element(key[..i], id))
  }

  lemma {:induction false} LastColonFound(a: string, d: string)
    requires ':' !in d
    ensures LastColonAt(a + ":" + d) == Some(|a|)
    decreases |d|
  {
    var s := a + ":" + d;
    if d == [] {
      assert s[|s| - 1] == ':';
    } else {
      assert s[|s| - 1] == d[|d| - 1] && d[|d| - 1] in d;
      assert s[..|s| - 1] == a + ":" + d[..|d| - 1];
      LastColonFound(a, d[..|d| - 1]);
    }
  }

  lemma {:induction false} AllDigits(d: string)
    requires Text.Digits(d)
    ensures LeadingDigits(d) == |d|
    decreases |d|
  {
    if d != [] {
      AllDigits(d[1..]);
    }
  }

  lemma DecimalScans(id: uint16)
    ensures ScanId(Text.Decimal(id)) == Some(id)
  {
    hide Text.Decimal;
    var d := Text.Decimal(id);
    Text.DecimalRoundTrip(id);
    AllDigits(d);
    assert d[..|d|] == d;
  }

  /** A key text is taken apart into the element it was made of, whatever text its kind is, and its last
      character tells whether the element was understood. */
  lemma KeysAreReadBack(s: Sighting)
    ensures ParseKey(KeyText(s)) == Some(s.element) && (HasBang(KeyText(s)) <==> s.decoded)
  {
    hide Text.Decimal;
    hide LastColonAt;
    hide ScanId;
    hide HasBang;
    hide WithoutBang;
    var kind, tail := s.element.kind, Tail(s);
    var key := KeyText(s);
    assert key == kind + ":" + tail;
    TailIsRead(s);
    LastColonFound(kind, tail);
    assert key[|kind| + 1..] == tail && key[..|kind|] == kind;
    BangOfTail(kind, tail);
    DecimalScans(s.element.id);
  }

  lemma {:induction false} DigitsLead(d: string, rest: string)
    requires Text.Digits(d) && (rest == [] || !Text.IsDigit(rest[0]))
    ensures LeadingDigits(d + rest) == |d|
    decreases |d|
  {
    if d == [] {
      assert d + rest == rest;
    } else {
      assert (d + rest)[1..] == d[1..] + rest;
      DigitsLead(d[1..], rest);
    }
  }

  lemma TrimmedLeads(d: string, rest: string)
    requires Text.Digits(d) && (rest == [] || !Text.IsDigit(rest[0]))
    ensures var s := WithoutBang(d + rest); |d| <= |s| && LeadingDigits(s) == |d| && s[..|d|] == d
  {
    hide LeadingDigits;
    var tail := d + rest;
    if HasBang(tail) && rest != [] {
      assert WithoutBang(tail) == d + rest[..|rest| - 1];
      DigitsLead(d, rest[..|rest| - 1]);
    } else {
      assert rest == [] && d != [] ==> Text.IsDigit(tail[|d| - 1]);
      DigitsLead(d, rest);
    }
  }

  /** Any text at all is read up to its last colon as a kind, and the digits behind it, as far as they go, as the
      number; there must be some, and they must fit sixteen bits. */
  lemma AnyKeyIsRead(kind: string, d: string, rest: string)
    requires Text.Digits(d) && ':' !in rest && (rest == [] || !Text.IsDigit(rest[0]))
    ensures ParseKey(kind + ":" + (d + rest))
         == if d != [] && Text.Number(d) < 0x1_0000 then Some(Element(kind, Text.Number(d))) else None
  {
    hide LeadingDigits;
    hide WithoutBang;
    hide LastColonAt;
    hide Text.Number;
    var key, tail := kind + ":" + (d + rest), d + rest;
    DigitsAreNoColons(d);
    LastColonFound(kind, tail);
    TrimmedLeads(d, rest);
    hide Text.Digits;
    assert key[|kind| + 1..] == tail && key[..|kind|] == kind;
  }

  lemma {:induction false} NoColonNoKey(key: string)
    requires ':' !in key
    ensures ParseKey(key) == None
    decreases |key|
  {
    if key != [] {
      NoColonNoKey(key[..|key| - 1]);
    }
  }

  /** What stands behind the colon. */
  function Tail(s: Sighting): string { Text.Decimal(s.element.id) + if s.decoded then "!" else "" }

  lemma TailIsRead(s: Sighting)
    ensures Tail(s) != [] && ':' !in Tail(s)
    ensures WithoutBang(Tail(s)) == Text.Decimal(s.element.id) && (HasBang(Tail(s)) <==> s.decoded)
  {
    var d := Text.Decimal(s.element.id);
    hide Text.Decimal;
    DigitsAreNoColons(d);
    assert Text.IsDigit(d[|d| - 1]);
    assert d + "" == d && (d + "!")[..|d|] == d;
  }

  lemma BangOfTail(a: string, tail: string)
    requires tail != []
    ensures HasBang(a + ":" + tail) == HasBang(tail)
  {
  }

  lemma DigitsAreNoColons(d: string)
    requires Text.Digits(d)
    ensures ':' !in d
  {
    forall i | 0 <= i < |d|
      ensures d[i] != ':'
    {
      assert Text.IsDigit(d[i]);
    }
  }

  /** So the pipeline's map from key texts is a set of sightings: a text stands for one sighting. */
  lemma KeyTextsDiffer(s: Sighting, t: Sighting)
    requires KeyText(s) == KeyText(t)
    ensures s == t
  {
    KeysAreReadBack(s);
    KeysAreReadBack(t);
  }

  lemma KindNamesDiffer(k: Pipelines.Kind, l: Pipelines.Kind)
    requires KindName(k) == KindName(l)
    ensures k == l
  {
    assert KindName(k)[0] == KindName(l)[0];
  }

  lemma ToldDiffer(s: Pipelines.Sighting, t: Pipelines.Sighting)
    requires Told(s) == Told(t)
    ensures s == t
  {
    KindNamesDiffer(s.element.kind, t.element.kind);
  }

  // ---- From the records to the store ----

  /** What a key tells, if it can be read; others are passed over. */
  function ReadKey(key: string): seq<Sighting> {
    match ParseKey(key)
    case None => []
    case Some(e) => [Sighting(e, HasBang(key))]
  }

  function ReadKeys(keys: seq<string>): seq<Sighting>
    decreases |keys|
  {
    if keys == [] then [] else ReadKeys(keys[..|keys| - 1]) + ReadKey(keys[|keys| - 1])
  }

  /** The keys of the pipeline's map. */
  function Keys(seen: set<Pipelines.Sighting>): set<string> { set s | s in seen :: KeyText(Told(s)) }

  lemma {:induction false} ReadKeysCount(seen: set<Pipelines.Sighting>, keys: seq<string>, x: Sighting)
    requires forall k | k in keys :: k in Keys(seen)
    ensures multiset(ReadKeys(keys))[x] == multiset(keys)[KeyText(x)]
    decreases |keys|
  {
    hide ParseKey;
    hide KeyText;
    if keys != [] {
      var before, k := keys[..|keys| - 1], keys[|keys| - 1];
      assert keys == before + [k];
      assert k in keys;
      ReadKeysCount(seen, before, x);
      var s :| s in seen && KeyText(Told(s)) == k;
      KeysAreReadBack(Told(s));
      assert ReadKey(k) == [Told(s)];
      if KeyText(x) == k {
        KeyTextsDiffer(x, Told(s));
      }
    }
  }

  /** In whatever order the map yields its keys, each sighting is read exactly once and nothing else is. */
  lemma KeysTellSightings(seen: set<Pipelines.Sighting>, keys: seq<string>, s: Pipelines.Sighting)
    requires multiset(keys) == multiset(Keys(seen))
    ensures multiset(ReadKeys(keys))[Told(s)] == if s in seen then 1 else 0
  {
    hide KeyText;
    hide ReadKeys;
    forall k | k in keys
      ensures k in Keys(seen)
    {
      assert k in multiset(keys);
    }
    ReadKeysCount(seen, keys, Told(s));
    if KeyText(Told(s)) in Keys(seen) {
      var t :| t in seen && KeyText(Told(t)) == KeyText(Told(s));
      KeyTextsDiffer(Told(t), Told(s));
      ToldDiffer(t, s);
    }
  }

  /** How the delta names an element of its own session. */
  function NameIn(b: Build, e: Element): string { if e in b.names then b.names[e] else "" }

  function Reports(b: Build, ss: seq<Sighting>, o: Occasion): (r: seq<Listed>)
    ensures |r| == |ss|
  {
    seq(|ss|, i requires 0 <= i < |ss| => Report(ss[i].element, NameIn(b, ss[i].element), ss[i].decoded, o))
  }

  function NovelReports(es: seq<Named>, o: Occasion): (r: seq<Listed>)
    ensures |r| == |es|
  {
    seq(|es|, i requires 0 <= i < |es| => Report(es[i].element, es[i].name, false, o))
  }

  lemma ReportsSnoc(b: Build, ss: seq<Sighting>, s: Sighting, o: Occasion)
    ensures Reports(b, ss + [s], o) == Reports(b, ss, o) + [Report(s.element, NameIn(b, s.element), s.decoded, o)]
  {
  }

  /** The delta a session leaves in its bundle. */
  function DeltaOf(b: Build, o: Occasion, ss: seq<Sighting>, novel: seq<Named>): Delta {
    Delta(o.session, Reports(b, ss, o), NovelReports(novel, o))
  }

  /** The delta tells exactly what the session saw. */
  lemma DeltaTells(b: Build, o: Occasion, ss: seq<Sighting>, novel: seq<Named>)
    ensures var x := DeltaOf(b, o, ss, novel); Seen(x) == ss && Discovered(x) == novel
    ensures forall i | 0 <= i < |ss| :: DeltaOf(b, o, ss, novel).observed[i].entry
              == Entry(if ss[i].element in b.names then b.names[ss[i].element] else "",
                       if ss[i].decoded then Decoded else ObservedUndecoded, o, 1)
  {
  }

  function ToldAll(es: seq<Pipelines.Element>): (r: seq<Element>)
    ensures |r| == |es|
  {
    seq(|es|, i requires 0 <= i < |es| => ToldElement(es[i]))
  }

  lemma {:induction false} ToldOnce(es: seq<Pipelines.Element>, e: Pipelines.Element)
    requires NoDuplicates(es)
    ensures multiset(ToldAll(es))[ToldElement(e)] == if e in es then 1 else 0
    decreases |es|
  {
    if es != [] {
      var n := |es| - 1;
      ToldOnce(es[..n], e);
      assert es == es[..n] + [es[n]];
      assert ToldAll(es) == ToldAll(es[..n]) + [ToldElement(es[n])];
      if ToldElement(e) == ToldElement(es[n]) {
        KindNamesDiffer(e.kind, es[n].kind);
      }
    }
  }

  ghost predicate Recorded(records: seq<Pipelines.Record>, s: Pipelines.Sighting) {
    exists r :: r in records && s in r.reading.seen
  }

  ghost predicate RecordedNovel(records: seq<Pipelines.Record>, e: Pipelines.Element) {
    exists r :: r in records && e in r.reading.novel
  }

  /** Folding a whole capture into a store: in whatever order the keys are taken, an element gains one
      observation if some record saw it and one more if some record understood it, its state rises
      accordingly, and a novel element is counted once however often it was recorded. */
  lemma StoreLearnsWhatWasRecorded(c: Framing.Checking, u: Pipelines.Universe, fs: seq<Pipelines.Frame>, b: Build,
                                   d: Store, keys: seq<string>, novel: seq<Named>, o: Occasion, e: Pipelines.Element)
    requires multiset(keys) == multiset(Keys(Pipelines.RunPipeline(c, u, fs).observed))
    requires ElementsOf(novel) == ToldAll(Pipelines.RunPipeline(c, u, fs).novel)
    ensures var st := Pipelines.RunPipeline(c, u, fs);
            var d1 := Ingested(b, d, DeltaOf(b, o, ReadKeys(keys), novel), o.at);
            var t := ToldElement(e);
            var seen := Recorded(st.records, Pipelines.Sighting(e, false));
            var known := Recorded(st.records, Pipelines.Sighting(e, true));
            && Observations(d1, t) == Observations(d, t) + (if seen then 1 else 0) + (if known then 1 else 0)
            && StateOf(d1, t)
               == Higher(StateOf(d, t), if known then Decoded else if seen then ObservedUndecoded else NeverObserved)
            && NovelCount(d1.novel, t) == NovelCount(d.novel, t) + if RecordedNovel(st.records, e) then 1 else 0
  {
    hide Pipelines.RunPipeline;
    hide Pipelines.Counted;
    hide Pipelines.Announcing;
    hide ReadKeys;
    hide Keys;
    hide KindName;
    Pipelines.RunIsAccounted(c, u, fs);
    var st := Pipelines.RunPipeline(c, u, fs);
    var t := ToldElement(e);
    DeltaTells(b, o, ReadKeys(keys), novel);
    ObservedAllTells(b, d, ReadKeys(keys), o, t);
    BumpedAllCounts(d.novel, novel, o, t);
    ToldOnce(st.novel, e);
    var s0, s1 := Pipelines.Sighting(e, false), Pipelines.Sighting(e, true);
    KeysTellSightings(st.observed, keys, s0);
    KeysTellSightings(st.observed, keys, s1);
    assert Told(s0) == Undecoded(t) && Told(s1) == Understood(t);
    assert s0 in st.observed <==> Recorded(st.records, s0);
    assert s1 in st.observed <==> Recorded(st.records, s1);
  }

  // ---- The store as the program keeps it ----

  class Document {
    var elements: map<Element, Entry>
    var novel: seq<Listed>

    ghost function Model(): Store
      reads this
    {
      Store(elements, novel)
    }

    constructor (b: Build)
      ensures Model() == Loaded(EMPTY, b)
    {
      elements := map e | e in b.names :: Unseen(b.names[e]);
      novel := [];
    }

    method Observe(b: Build, s: Sighting, o: Occasion)
      modifies this`elements
      ensures Model() == Observed(b, old(Model()), s, o)
    {
      var e := if s.element in elements then elements[s.element] else Unseen(NameOf(b, s.element));
      e := e.(observations := e.observations + 1);
      if e.firstSeen.session == "" {
        e := e.(firstSeen := o);
      }
      var next := if s.decoded then Decoded else ObservedUndecoded;
      if Rank(next) > Rank(e.state) {
        e := e.(state := next);
      }
      elements := elements[s.element := e];
    }

    method Novelty(e: Named, o: Occasion)
      modifies this`novel
      ensures novel == Bumped(old(novel), e, o)
    {
      for i := 0 to |novel|
        invariant novel == old(novel) && forall k | 0 <= k < i :: novel[k].element != e.element
      {
        if novel[i].element == e.element {
          BumpedAt(novel, i, e, o);
          novel := novel[i := OnceMore(novel[i])];
          return;
        }
      }
      BumpedAtEnd(novel, e, o);
      novel := novel + [Listed(e.element, Entry(e.name, ObservedUndecoded, o, 1))];
    }

    /** Folds a session in, in whatever order the map yields its keys, and says in which: the delta left
        in the bundle holds what each readable key tells, and is all that a rebuild needs. */
    method RecordCoverage(b: Build, keys: set<string>, discovered: seq<Named>, o: Occasion)
      returns (delta: Delta, ghost order: seq<string>)
      modifies this
      ensures multiset(order) == multiset(keys)
      ensures delta == DeltaOf(b, o, ReadKeys(order), discovered)
      ensures Model() == Ingested(b, old(Model()), delta, o.at)
    {
      hide ParseKey;
      hide HasBang;
      order := [];
      var observed: seq<Listed> := [];
      ghost var seen: seq<Sighting> := [];
      var rest := keys;
      while rest != {}
        invariant rest <= keys && multiset(order) + multiset(rest) == multiset(keys)
        invariant seen == ReadKeys(order) && observed == Reports(b, seen, o)
                  && Model() == ObservedAll(b, old(Model()), seen, o)
        decreases |rest|
        modifies this`elements
      {
        var key :| key in rest;
        rest := rest - {key};
        order := order + [key];
        assert order[..|order| - 1] + [key] == order;
        var e := ParseKey(key);
        if e.None? {
          assert seen + [] == seen;
          continue;
        }
        var s := Sighting(e.value, HasBang(key));
        Observe(b, s, o);
        ReportsSnoc(b, seen, s, o);
        seen := seen + [s];
        observed := observed + [Report(e.value, NameIn(b, e.value), s.decoded, o)];
        assert seen[..|seen| - 1] + [s] == seen;
      }
      NoveltyAll(discovered, o);
      DeltaTells(b, o, seen, discovered);
      delta := Delta(o.session, observed, NovelReports(discovered, o));
    }

    method NoveltyAll(es: seq<Named>, o: Occasion)
      modifies this`novel
      ensures novel == BumpedAll(old(novel), es, o)
    {
      for i := 0 to |es|
        invariant novel == BumpedAll(old(novel), es[..i], o)
      {
        Novelty(es[i], o);
        assert es[..i + 1][..i] == es[..i];
      }
      assert es[..|es|] == es;
    }

    /** Folds a delta in at the time of the call; the times it tells are not looked at. */
    method IngestDelta(b: Build, x: Delta, at: time) returns (n: nat)
      modifies this
      ensures Model() == Ingested(b, old(Model()), x, at) && n == |x.observed| + |x.novel|
    {
      var o := Occasion(x.session, at);
      var seen, discovered := Seen(x), Discovered(x);
      for i := 0 to |seen|
        invariant Model() == ObservedAll(b, old(Model()), seen[..i], o)
        modifies this`elements
      {
        Observe(b, seen[i], o);
        assert seen[..i + 1][..i] == seen[..i];
      }
      assert seen[..|seen|] == seen;
      NoveltyAll(discovered, o);
      n := |x.observed| + |x.novel|;
    }
  }
}
