/** Reading a nested KeyValues manifest: the root's own pairs, and the manifest of every installed depot. */
module KeyValues {

  // ---- Lines ----

  /** White space as the Unicode standard defines it. */
  predicate IsSpace(c: char) {
    var n := c as int;
    || 0x09 <= n <= 0x0d || n == 0x20 || n == 0x85 || n == 0xa0 || n == 0x1680 || 0x2000 <= n <= 0x200a
    || n == 0x2028 || n == 0x2029 || n == 0x202f || n == 0x205f || n == 0x3000
  }

  function TrimLeft(s: string): string
    decreases |s|
  {
    if s != [] && IsSpace(s[0]) then TrimLeft(s[1..]) else s
  }

  function TrimRight(s: string): string
    decreases |s|
  {
    if s != [] && IsSpace(s[|s| - 1]) then TrimRight(s[..|s| - 1]) else s
  }

  function TrimSpace(s: string): string { TrimRight(TrimLeft(s)) }

  const QUOTE := '\"'

  /** The position of the first quote, or the length. */
  function Index(s: string): (i: nat)
    ensures i <= |s|
  {
    if s == [] || s[0] == QUOTE then 0 else 1 + Index(s[1..])
  }

  datatype Line = Open | Close | Pair(key: string, val: string) | Name(name: string) | Other

  /** `"key"  "value"` */
  function KvLine(line: string): Line {
    var s := TrimSpace(line);
    if s == [] || s[0] != QUOTE then Other else
    var rest := s[1..];
    var i := Index(rest);
    if i == |rest| then Other else
    var tail := TrimSpace(rest[i + 1..]);
    if tail == [] || tail[0] != QUOTE then Other else
    var j := Index(tail[1..]);
    if j == |tail| - 1 then Other else Pair(rest[..i], tail[1..][..j])
  }

  /** A lone `"name"`. */
  function BareToken(line: string): (l: Line)
    ensures l.Name? || l.Other?
  {
    var s := TrimSpace(line);
    if |s| < 2 || s[0] != QUOTE || s[|s| - 1] != QUOTE then Other else
    var inner := s[1..|s| - 1];
    if QUOTE in inner then Other else Name(inner)
  }

  function Classify(line: string): Line {
    var t := TrimSpace(line);
    if t == "{" then Open
    else if t == "}" then Close
    else if KvLine(t).Pair? then KvLine(t)
    else BareToken(t)
  }

  // ---- The parser ----

  /** Case mapping and case-insensitive comparison, as the string library does them. */
  datatype Casing = Casing(lower: string -> string, same: (string, string) -> bool)

  const DEPOTS := "InstalledDepots"
  const MANIFEST := "manifest"

  datatype State = State(section: seq<string>, depot: string, kv: map<string, string>, depots: map<string, string>)

  const START := State([], "", map[], map[])

  predicate InDepots(c: Casing, section: seq<string>) { |section| >= 2 && c.same(section[1], DEPOTS) }

  function Step(c: Casing, st: State, l: Line): State {
    match l
    case Open => st
    case Other => st
    case Close =>
      var section := if st.section != [] then st.section[..|st.section| - 1] else st.section;
      st.(section := section, depot := if |section| < 2 then "" else st.depot)
    case Pair(k, v) =>
      if |st.section| == 1 then st.(kv := st.kv[c.lower(k) := v])
      else if |st.section| == 3 && InDepots(c, st.section) && c.same(k, MANIFEST) then
        st.(depots := st.depots[st.depot := v])
      else st
    case Name(n) =>
      var section := st.section + [n];
      st.(section := section, depot := if |section| == 3 && InDepots(c, section) then n else st.depot)
  }

  function Run(c: Casing, st: State, ls: seq<Line>): State
    decreases |ls|
  {
    if ls == [] then st else Run(c, Step(c, st, ls[0]), ls[1..])
  }

  function Split(text: string): (r: seq<string>)
    ensures r != []
    decreases |text|
  {
    if text == [] then [[]]
    else if text[0] == '\n' then [[]] + Split(text[1..])
    else var rest := Split(text[1..]); [[text[0]] + rest[0]] + rest[1..]
  }

  function Lines(ss: seq<string>): (r: seq<Line>)
    ensures |r| == |ss|
  {
    seq(|ss|, i requires 0 <= i < |ss| => Classify(ss[i]))
  }

  /** No pairs at the top level is an error. */
  datatype Manifest = NoKeys | Manifest(kv: map<string, string>, depots: map<string, string>)

  function Parse(c: Casing, text: string): Manifest {
    var st := Run(c, START, Lines(Split(text)));
    if st.kv == map[] then NoKeys else Manifest(st.kv, st.depots)
  }

  method ParseACF(c: Casing, text: string) returns (m: Manifest)
    ensures m == Parse(c, text)
  {
    hide KvLine;
    hide BareToken;
    hide TrimSpace;
    hide Split;
    var kv: map<string, string>, depots: map<string, string> := map[], map[];
    var section: seq<string>, currentDepot: string := [], "";
    var lines := Split(text);
    for i := 0 to |lines|
      invariant Run(c, START, Lines(lines)) == Run(c, State(section, currentDepot, kv, depots), Lines(lines[i..]))
    {
      assert Lines(lines[i..])[1..] == Lines(lines[i + 1..]);
      var t := TrimSpace(lines[i]);
      if t == "{" {
        continue;
      } else if t == "}" {
        if |section| > 0 {
          section := section[..|section| - 1];
        }
        if |section| < 2 {
          currentDepot := "";
        }
        continue;
      }
      var p := KvLine(t);
      if p.Pair? {
        if |section| == 1 {
          kv := kv[c.lower(p.key) := p.val];
        } else if |section| == 3 && c.same(section[1], DEPOTS) && c.same(p.key, MANIFEST) {
          depots := depots[currentDepot := p.val];
        }
        continue;
      }
      var name := BareToken(t);
      if name.Name? {
        section := section + [name.name];
        if |section| == 3 && c.same(section[1], DEPOTS) {
          currentDepot := name.name;
        }
      }
    }
    return if kv == map[] then NoKeys else Manifest(kv, depots);
  }

  // ---- Trees ----

  datatype Node = Leaf(key: string, val: string) | Section(name: string, body: seq<Node>)

  function LinesOfNode(n: Node): seq<Line>
    decreases n
  {
    match n
    case Leaf(k, v) => [Pair(k, v)]
    case Section(name, body) => [Name(name), Open] + LinesOf(body) + [Close]
  }

  function LinesOf(ns: seq<Node>): seq<Line>
    decreases ns
  {
    if ns == [] then [] else LinesOfNode(ns[0]) + LinesOf(ns[1..])
  }

  /** The pairs directly under the root, keys in lower case, the last of equal keys winning. */
  function TopPairs(c: Casing, ns: seq<Node>, kv: map<string, string>): map<string, string>
    decreases |ns|
  {
    if ns == [] then kv else TopPairs(c, ns[1..], if ns[0].Leaf? then kv[c.lower(ns[0].key) := ns[0].val] else kv)
  }

  /** The manifest pairs directly under one depot. */
  function ManifestOf(c: Casing, depot: string, ns: seq<Node>, depots: map<string, string>): map<string, string>
    decreases |ns|
  {
    if ns == [] then depots else
    var found := ns[0].Leaf? && c.same(ns[0].key, MANIFEST);
    ManifestOf(c, depot, ns[1..], if found then depots[depot := ns[0].val] else depots)
  }

  /** The depots directly under one InstalledDepots section. */
  function DepotsUnder(c: Casing, ns: seq<Node>, depots: map<string, string>): map<string, string>
    decreases |ns|
  {
    if ns == [] then depots else
    DepotsUnder(c, ns[1..], if ns[0].Section? then ManifestOf(c, ns[0].name, ns[0].body, depots) else depots)
  }

  /** The InstalledDepots sections directly under the root. */
  function AllDepots(c: Casing, ns: seq<Node>, depots: map<string, string>): map<string, string>
    decreases |ns|
  {
    if ns == [] then depots else
    var found := ns[0].Section? && c.same(ns[0].name, DEPOTS);
    AllDepots(c, ns[1..], if found then DepotsUnder(c, ns[0].body, depots) else depots)
  }

  lemma {:induction false} RunConcat(c: Casing, st: State, a: seq<Line>, b: seq<Line>)
    ensures Run(c, st, a + b) == Run(c, Run(c, st, a), b)
    decreases |a|
  {
    if a == [] {
      assert a + b == b;
    } else {
      assert (a + b)[1..] == a[1..] + b;
      RunConcat(c, Step(c, st, a[0]), a[1..], b);
    }
  }

  function Entered(c: Casing, st: State, n: string): State { Step(c, st, Name(n)) }

  /** A section is its name, its body one level down, and a return to where it began. */
  lemma RunSection(c: Casing, st: State, n: string, body: seq<Node>)
    ensures Run(c, st, [Name(n), Open] + LinesOf(body) + [Close])
            == Step(c, Run(c, Entered(c, st, n), LinesOf(body)), Close)
  {
    var b := LinesOf(body);
    RunConcat(c, st, [Name(n), Open] + b, [Close]);
    RunConcat(c, st, [Name(n), Open], b);
    var in1 := Entered(c, st, n);
    assert [Name(n), Open][1..] == [Open];
    assert Run(c, st, [Name(n), Open]) == Run(c, in1, [Open]);
    assert Run(c, in1, [Open]) == Step(c, in1, Open);
    var end := Run(c, in1, b);
    assert Run(c, end, [Close]) == Step(c, end, Close);
  }

  function AfterNode(c: Casing, st: State, n: Node): State {
    match n
    case Leaf(k, v) => Step(c, st, Pair(k, v))
    case Section(name, body) => Step(c, Run(c, Entered(c, st, name), LinesOf(body)), Close)
  }

  lemma RunNodes(c: Casing, st: State, ns: seq<Node>)
    requires ns != []
    ensures Run(c, st, LinesOf(ns)) == Run(c, AfterNode(c, st, ns[0]), LinesOf(ns[1..]))
  {
    RunConcat(c, st, LinesOfNode(ns[0]), LinesOf(ns[1..]));
    match ns[0]
    case Leaf(k, v) => assert Run(c, st, [Pair(k, v)]) == Run(c, Step(c, st, Pair(k, v)), []);
    case Section(n, body) => RunSection(c, st, n, body);
  }

  /** Where no pair of any descendant is read. */
  predicate Quiet(c: Casing, section: seq<string>) { |section| >= 4 || (|section| >= 2 && !InDepots(c, section)) }

  lemma {:induction false} QuietSections(c: Casing, st: State, ns: seq<Node>)
    requires Quiet(c, st.section)
    ensures Run(c, st, LinesOf(ns)) == st
    decreases ns
  {
    if ns != [] {
      RunNodes(c, st, ns);
      match ns[0] {
        case Leaf(_, _) =>
        case Section(n, body) =>
          var in1 := Entered(c, st, n);
          QuietSections(c, in1, body);
          assert in1.section[..|in1.section| - 1] == st.section;
      }
      QuietSections(c, st, ns[1..]);
    }
  }

  lemma {:induction false} DepotBody(c: Casing, st: State, ns: seq<Node>)
    requires |st.section| == 3 && InDepots(c, st.section)
    ensures Run(c, st, LinesOf(ns)) == st.(depots := ManifestOf(c, st.depot, ns, st.depots))
    decreases ns
  {
    if ns != [] {
      RunNodes(c, st, ns);
      match ns[0]
      case Leaf(k, v) => DepotBody(c, Step(c, st, Pair(k, v)), ns[1..]);
      case Section(n, body) =>
        var in1 := Entered(c, st, n);
        QuietSections(c, in1, body);
        assert in1.section[..|in1.section| - 1] == st.section;
        DepotBody(c, st, ns[1..]);
    }
  }

  lemma {:induction false} DepotsBody(c: Casing, st: State, ns: seq<Node>)
    requires |st.section| == 2 && InDepots(c, st.section)
    ensures var st1 := Run(c, st, LinesOf(ns));
            st1 == st.(depots := DepotsUnder(c, ns, st.depots), depot := st1.depot)
    decreases ns
  {
    if ns != [] {
      RunNodes(c, st, ns);
      match ns[0]
      case Leaf(_, _) => DepotsBody(c, st, ns[1..]);
      case Section(n, body) =>
        var in1 := Entered(c, st, n);
        DepotBody(c, in1, body);
        assert in1.section[..|in1.section| - 1] == st.section;
        DepotsBody(c, Step(c, Run(c, in1, LinesOf(body)), Close), ns[1..]);
    }
  }

  lemma {:induction false} RootBody(c: Casing, st: State, ns: seq<Node>)
    requires |st.section| == 1
    ensures var st1 := Run(c, st, LinesOf(ns));
            st1.section == st.section && st1.kv == TopPairs(c, ns, st.kv) && st1.depots == AllDepots(c, ns, st.depots)
    decreases ns
  {
    hide DepotsUnder;
    hide LinesOfNode;
    if ns != [] {
      RunNodes(c, st, ns);
      match ns[0]
      case Leaf(k, v) => RootBody(c, Step(c, st, Pair(k, v)), ns[1..]);
      case Section(n, body) =>
        var in1 := Entered(c, st, n);
        if c.same(n, DEPOTS) {
          DepotsBody(c, in1, body);
        } else {
          QuietSections(c, in1, body);
        }
        assert in1.section[..|in1.section| - 1] == st.section;
        RootBody(c, Step(c, Run(c, in1, LinesOf(body)), Close), ns[1..]);
    }
  }

  /** What the parser should find in a one-rooted tree. */
  function Found(c: Casing, root: Node): Manifest
    requires root.Section?
  {
    var kv := TopPairs(c, root.body, map[]);
    if kv == map[] then NoKeys else Manifest(kv, AllDepots(c, root.body, map[]))
  }

  lemma ParsesTree(c: Casing, root: Node)
    requires root.Section?
    ensures var st := Run(c, START, LinesOf([root]));
            (if st.kv == map[] then NoKeys else Manifest(st.kv, st.depots)) == Found(c, root)
  {
    RunNodes(c, START, [root]);
    RootBody(c, Entered(c, START, root.name), root.body);
  }

  // ---- What is found in a tree ----

  predicate HasKey(c: Casing, n: Node, key: string) { n.Leaf? && c.lower(n.key) == key }

  ghost predicate LastWithKey(c: Casing, ns: seq<Node>, key: string, i: nat) {
    i < |ns| && HasKey(c, ns[i], key) && forall k | i < k < |ns| :: !HasKey(c, ns[k], key)
  }

  /** A key is found exactly if a pair directly under the root has it, and then with the last such pair's value. */
  lemma {:induction false} TopPairsTell(c: Casing, ns: seq<Node>, kv: map<string, string>, key: string)
    ensures var r := TopPairs(c, ns, kv);
            if forall n | n in ns :: !HasKey(c, n, key)
            then (key in r <==> key in kv) && (key in kv ==> r[key] == kv[key])
            else key in r && exists i: nat :: LastWithKey(c, ns, key, i) && r[key] == ns[i].val
    decreases |ns|
  {
    if ns != [] {
      var kv1 := if ns[0].Leaf? then kv[c.lower(ns[0].key) := ns[0].val] else kv;
      TopPairsTell(c, ns[1..], kv1, key);
      assert forall n :: n in ns <==> n == ns[0] || n in ns[1..];
      if forall n | n in ns[1..] :: !HasKey(c, n, key) {
        assert HasKey(c, ns[0], key) ==> LastWithKey(c, ns, key, 0);
      } else {
        var i: nat :| LastWithKey(c, ns[1..], key, i) && TopPairs(c, ns, kv)[key] == ns[1..][i].val;
        assert LastWithKey(c, ns, key, i + 1);
      }
    }
  }

  predicate IsManifest(c: Casing, n: Node) { n.Leaf? && c.same(n.key, "manifest") }

  ghost predicate LastManifest(c: Casing, ns: seq<Node>, i: nat) {
    i < |ns| && IsManifest(c, ns[i]) && forall k | i < k < |ns| :: !IsManifest(c, ns[k])
  }

  /** A depot has the value of its last manifest pair. */
  lemma {:induction false} ManifestOfTells(c: Casing, d: string, ns: seq<Node>, depots: map<string, string>)
    ensures var r := ManifestOf(c, d, ns, depots);
            if forall n | n in ns :: !IsManifest(c, n) then r == depots
            else exists i: nat :: LastManifest(c, ns, i) && r == depots[d := ns[i].val]
    decreases |ns|
  {
    if ns != [] {
      var depots1 := if IsManifest(c, ns[0]) then depots[d := ns[0].val] else depots;
      assert ManifestOf(c, d, ns, depots) == ManifestOf(c, d, ns[1..], depots1);
      hide IsManifest;
      hide ManifestOf;
      ManifestOfTells(c, d, ns[1..], depots1);
      assert forall n :: n in ns <==> n == ns[0] || n in ns[1..];
      if forall n | n in ns[1..] :: !IsManifest(c, n) {
        assert IsManifest(c, ns[0]) ==> LastManifest(c, ns, 0);
      } else {
        var i: nat :| LastManifest(c, ns[1..], i) && ManifestOf(c, d, ns, depots) == depots1[d := ns[1..][i].val];
        assert LastManifest(c, ns, i + 1);
        assert depots1[d := ns[i + 1].val] == depots[d := ns[i + 1].val];
      }
    }
  }

  /** The depot's section holds this manifest. */
  ghost predicate DepotHas(c: Casing, n: Node, d: string, v: string) {
    n.Section? && n.name == d && exists m :: m in n.body && IsManifest(c, m) && m.val == v
  }

  /** The section lists the depot with this manifest. */
  ghost predicate Installs(c: Casing, n: Node, d: string, v: string) {
    n.Section? && c.same(n.name, "InstalledDepots") && exists m :: m in n.body && DepotHas(c, m, d, v)
  }

  lemma {:induction false} DepotsUnderTell(c: Casing, ns: seq<Node>, depots: map<string, string>, d: string)
    ensures var r := DepotsUnder(c, ns, depots);
            && (d in r <==> d in depots || exists n, v :: n in ns && DepotHas(c, n, d, v))
            && (d in r ==> (d in depots && r[d] == depots[d]) || exists n :: n in ns && DepotHas(c, n, d, r[d]))
    decreases |ns|
  {
    if ns != [] {
      var n0 := ns[0];
      var depots1 := if n0.Section? then ManifestOf(c, n0.name, n0.body, depots) else depots;
      assert forall n :: n in ns <==> n == n0 || n in ns[1..];
      DepotsUnderTell(c, ns[1..], depots1, d);
      if n0.Section? {
        ManifestOfTells(c, n0.name, n0.body, depots);
        if m :| m in n0.body && IsManifest(c, m) {
          assert DepotHas(c, n0, n0.name, m.val);
        }
        if depots1 != depots {
          var i: nat :| LastManifest(c, n0.body, i) && depots1 == depots[n0.name := n0.body[i].val];
          assert n0.body[i] in n0.body;
          assert DepotHas(c, n0, n0.name, n0.body[i].val);
        }
      }
    }
  }

  /** A depot is found exactly if an InstalledDepots section directly under the root holds a section of its name
      with a manifest pair directly in it, and then with the value of such a pair. */
  lemma {:induction false} DepotsTell(c: Casing, ns: seq<Node>, depots: map<string, string>, d: string)
    ensures var r := AllDepots(c, ns, depots);
            && (d in r <==> d in depots || exists n, v :: n in ns && Installs(c, n, d, v))
            && (d in r ==> (d in depots && r[d] == depots[d]) || exists n :: n in ns && Installs(c, n, d, r[d]))
    decreases |ns|
  {
    hide DepotsUnder;
    hide DepotHas;
    if ns != [] {
      var n0 := ns[0];
      var found := n0.Section? && c.same(n0.name, DEPOTS);
      var depots1 := if found then DepotsUnder(c, n0.body, depots) else depots;
      assert forall n :: n in ns <==> n == n0 || n in ns[1..];
      DepotsTell(c, ns[1..], depots1, d);
      if found {
        DepotsUnderTell(c, n0.body, depots, d);
        if m, v :| m in n0.body && DepotHas(c, m, d, v) {
          assert Installs(c, n0, d, v);
        }
        if d in depots1 {
          assert (exists m :: m in n0.body && DepotHas(c, m, d, depots1[d])) ==> Installs(c, n0, d, depots1[d]);
        }
      }
    }
  }

  // ---- Text ----

  /** The code points of white space, one by one. */
  const SPACES := {0x09, 0x0a, 0x0b, 0x0c, 0x0d, 0x20, 0x85, 0xa0, 0x1680, 0x2000, 0x2001, 0x2002, 0x2003, 0x2004,
                   0x2005, 0x2006, 0x2007, 0x2008, 0x2009, 0x200a, 0x2028, 0x2029, 0x202f, 0x205f, 0x3000}

  lemma SpacesAreListed(c: char)
    ensures IsSpace(c) <==> c as int in SPACES
  {
    var n := c as int;
    if 0x2000 <= n <= 0x200a {
      assert n in SPACES;
    }
  }

  predicate White(w: string) { forall i | 0 <= i < |w| :: w[i] as int in SPACES }

  predicate Blank(w: string) { White(w) && '\n' !in w }

  predicate Clean(t: string) { QUOTE !in t && '\n' !in t }

  function Quoted(t: string): string { [QUOTE] + t + [QUOTE] }

  /** A line of text that shows this line of the file, with any white space around its tokens. */
  ghost predicate Shows(l: Line, s: string) {
    exists w0: string, w1: string, w2: string :: Blank(w0) && Blank(w1) && Blank(w2) && ShownAs(l, w0, w1, w2, s)
  }

  predicate ShownAs(l: Line, w0: string, w1: string, w2: string, s: string) {
    match l
    case Open => s == w0 + "{" + w2
    case Close => s == w0 + "}" + w2
    case Pair(k, v) => Clean(k) && Clean(v) && s == w0 + (Quoted(k) + w1 + Quoted(v)) + w2
    case Name(n) => Clean(n) && s == w0 + Quoted(n) + w2
    case Other => false
  }

  lemma {:induction false} TrimLeftBlank(w: string, s: string)
    requires White(w) && (s == [] || !IsSpace(s[0]))
    ensures TrimLeft(w + s) == s
    decreases |w|
  {
    if w == [] {
      assert w + s == s;
    } else {
      assert (w + s)[1..] == w[1..] + s;
      TrimLeftBlank(w[1..], s);
    }
  }

  lemma {:induction false} TrimRightBlank(s: string, w: string)
    requires White(w) && s != [] && !IsSpace(s[|s| - 1])
    ensures TrimRight(s + w) == s
    decreases |w|
  {
    if w == [] {
      assert s + w == s;
    } else {
      assert (s + w)[..|s + w| - 1] == s + w[..|w| - 1];
      TrimRightBlank(s, w[..|w| - 1]);
    }
  }

  lemma TrimBlanks(w: string, s: string, v: string)
    requires White(w) && White(v) && s != [] && !IsSpace(s[0]) && !IsSpace(s[|s| - 1])
    ensures TrimSpace(w + s + v) == s
  {
    assert w + s + v == w + (s + v);
    TrimLeftBlank(w, s + v);
    TrimRightBlank(s, v);
  }

  lemma {:induction false} IndexOfQuote(t: string, rest: string)
    requires QUOTE !in t
    ensures Index(t + [QUOTE] + rest) == |t|
    decreases |t|
  {
    var s := t + [QUOTE] + rest;
    if t != [] {
      assert s[1..] == t[1..] + [QUOTE] + rest;
      assert s[0] == t[0] && t[0] in t;
      IndexOfQuote(t[1..], rest);
    }
  }

  lemma TrimQuoted(s: string)
    requires |s| >= 2 && s[0] == QUOTE && s[|s| - 1] == QUOTE
    ensures TrimSpace(s) == s
  {
    TrimBlanks([], s, []);
    assert [] + s + [] == s;
  }

  /** Trimming behind a text that ends in no space leaves that text. */
  lemma {:induction false} TrimRightKeeps(s: string, w: string) returns (rest: string)
    requires s != [] && !IsSpace(s[|s| - 1])
    ensures TrimRight(s + w) == s + rest
    decreases |w|
  {
    if w == [] || !IsSpace(w[|w| - 1]) {
      rest := w;
      assert s + [] == s;
    } else {
      assert (s + w)[..|s + w| - 1] == s + w[..|w| - 1];
      rest := TrimRightKeeps(s, w[..|w| - 1]);
    }
  }

  /** White space in front is trimmed, and what follows is left, perhaps shorter. */
  lemma TrimKeeps(w: string, s: string, v: string) returns (rest: string)
    requires White(w) && s != [] && !IsSpace(s[0]) && !IsSpace(s[|s| - 1])
    ensures TrimSpace(w + s + v) == s + rest
  {
    assert w + s + v == w + (s + v);
    TrimLeftBlank(w, s + v);
    rest := TrimRightKeeps(s, v);
  }

  lemma PairIsRead(w0: string, k: string, w1: string, v: string, rest: string)
    requires White(w0) && White(w1) && QUOTE !in k && QUOTE !in v
    ensures KvLine(w0 + (Quoted(k) + w1 + Quoted(v)) + rest) == Pair(k, v)
  {
    hide TrimSpace;
    hide White;
    var rest1 := TrimKeeps(w0, Quoted(k) + w1 + Quoted(v), rest);
    var s := Quoted(k) + w1 + Quoted(v) + rest1;
    assert s[1..] == k + [QUOTE] + (w1 + Quoted(v) + rest1);
    IndexOfQuote(k, w1 + Quoted(v) + rest1);
    assert s[1..][|k| + 1..] == w1 + Quoted(v) + rest1 && s[1..][..|k|] == k;
    var rest2 := TrimKeeps(w1, Quoted(v), rest1);
    assert (Quoted(v) + rest2)[1..] == v + [QUOTE] + rest2;
    IndexOfQuote(v, rest2);
    assert (v + [QUOTE] + rest2)[..|v|] == v;
  }

  lemma NameIsRead(n: string)
    requires Clean(n)
    ensures KvLine(Quoted(n)) == Other && BareToken(Quoted(n)) == Name(n)
  {
    var s := Quoted(n);
    TrimQuoted(s);
    assert s[1..] == n + [QUOTE] + [];
    IndexOfQuote(n, []);
    assert s[1..][|n| + 1..] == [];
    assert s[1..|s| - 1] == n;
  }

  lemma ShownPairIsRead(w0: string, k: string, w1: string, v: string, w2: string)
    requires Blank(w0) && Blank(w1) && Blank(w2) && Clean(k) && Clean(v)
    ensures Classify(w0 + (Quoted(k) + w1 + Quoted(v)) + w2) == Pair(k, v)
  {
    hide TrimSpace;
    hide KvLine;
    hide BareToken;
    var t := Quoted(k) + w1 + Quoted(v);
    TrimBlanks(w0, t, w2);
    PairIsRead([], k, w1, v, []);
    assert [] + t + [] == t;
    assert t[0] == QUOTE;
  }

  lemma ShownNameIsRead(w0: string, n: string, w2: string)
    requires Blank(w0) && Blank(w2) && Clean(n)
    ensures Classify(w0 + Quoted(n) + w2) == Name(n)
  {
    hide TrimSpace;
    hide KvLine;
    hide BareToken;
    TrimBlanks(w0, Quoted(n), w2);
    NameIsRead(n);
    assert Quoted(n)[0] == QUOTE;
  }

  lemma ShownLineIsRead(l: Line, s: string)
    requires Shows(l, s)
    ensures Classify(s) == l
  {
    var w0: string, w1: string, w2: string :| Blank(w0) && Blank(w1) && Blank(w2) && ShownAs(l, w0, w1, w2, s);
    match l
    case Open => TrimBlanks(w0, "{", w2);
    case Close => TrimBlanks(w0, "}", w2);
    case Pair(k, v) =>
      ShownPairIsRead(w0, k, w1, v, w2);
    case Name(n) =>
      ShownNameIsRead(w0, n, w2);
  }

  lemma {:induction false} TrimLeftSplits(s: string) returns (w: string)
    ensures White(w) && s == w + TrimLeft(s)
    decreases |s|
  {
    if s != [] && IsSpace(s[0]) {
      SpacesAreListed(s[0]);
      var w1 := TrimLeftSplits(s[1..]);
      w := [s[0]] + w1;
    } else {
      w := [];
    }
  }

  lemma {:induction false} TrimRightSplits(s: string) returns (w: string)
    ensures White(w) && s == TrimRight(s) + w
    decreases |s|
  {
    if s != [] && IsSpace(s[|s| - 1]) {
      SpacesAreListed(s[|s| - 1]);
      var w1 := TrimRightSplits(s[..|s| - 1]);
      w := w1 + [s[|s| - 1]];
    } else {
      w := [];
    }
  }

  /** Trimming takes white space off both ends. */
  lemma TrimSplits(s: string) returns (w0: string, w2: string)
    ensures White(w0) && White(w2) && s == w0 + TrimSpace(s) + w2
  {
    w0 := TrimLeftSplits(s);
    w2 := TrimRightSplits(TrimLeft(s));
  }

  lemma {:induction false} IndexTells(s: string)
    ensures Index(s) < |s| ==> s == s[..Index(s)] + [QUOTE] + s[Index(s) + 1..] && QUOTE !in s[..Index(s)]
    decreases |s|
  {
    if s != [] && s[0] != QUOTE {
      IndexTells(s[1..]);
    }
  }

  ghost predicate IsPair(line: string, k: string, v: string, w0: string, w1: string, rest: string) {
    && White(w0) && White(w1) && QUOTE !in k && QUOTE !in v
    && line == w0 + (Quoted(k) + w1 + Quoted(v)) + rest
  }

  lemma Reassembled(line: string, w0: string, s: string, w2: string, q: string, rest: string, w1: string, t: string,
                    w3: string, r: string, tail: string)
    requires line == w0 + s + w2 && s == q + rest && rest == w1 + t + w3 && t == r + tail
    ensures line == w0 + (q + w1 + r) + (tail + w3 + w2)
  {
    assert s == (q + w1 + r) + (tail + w3);
  }

  lemma PairIsThere(line: string, k: string, v: string) returns (w0: string, w1: string, rest: string)
    requires KvLine(line) == Pair(k, v)
    ensures IsPair(line, k, v, w0, w1, rest)
  {
    hide TrimSpace;
    hide Index;
    hide White;
    var s := TrimSpace(line);
    var w2;
    w0, w2 := TrimSplits(line);
    IndexTells(s[1..]);
    var s2 := s[1..][|k| + 1..];
    var t := TrimSpace(s2);
    var w3;
    w1, w3 := TrimSplits(s2);
    IndexTells(t[1..]);
    var t2 := t[1..][|v| + 1..];
    assert s == Quoted(k) + s2;
    assert t == Quoted(v) + t2;
    hide KvLine;
    hide Quoted;
    Reassembled(line, w0, s, w2, Quoted(k), s2, w1, t, w3, Quoted(v), t2);
    rest := t2 + w3 + w2;
  }

  /** A line is read as a pair exactly if it begins with two quoted texts, with white space at most in front of
      and between them; what follows on the line is not looked at. */
  lemma PairLineIff(line: string, k: string, v: string)
    ensures KvLine(line) == Pair(k, v) <==> exists w0, w1, rest :: IsPair(line, k, v, w0, w1, rest)
  {
    hide KvLine;
    if KvLine(line) == Pair(k, v) {
      var w0, w1, rest := PairIsThere(line, k, v);
    }
    if w0, w1, rest :| IsPair(line, k, v, w0, w1, rest) {
      PairIsRead(w0, k, w1, v, rest);
    }
  }

  ghost predicate IsName(line: string, n: string, w0: string, w2: string) {
    White(w0) && White(w2) && QUOTE !in n && line == w0 + Quoted(n) + w2
  }

  /** A line is read as a name exactly if it is one quoted text and white space. */
  lemma NameLineIff(line: string, n: string)
    ensures BareToken(line) == Name(n) <==> exists w0, w2 :: IsName(line, n, w0, w2)
  {
    var w0, w2 := TrimSplits(line);
    if BareToken(line) == Name(n) {
      assert TrimSpace(line) == Quoted(n);
      assert IsName(line, n, w0, w2);
    }
    if v0, v2 :| IsName(line, n, v0, v2) {
      TrimBlanks(v0, Quoted(n), v2);
      assert Quoted(n)[1..|Quoted(n)| - 1] == n;
    }
  }

  function Join(ss: seq<string>): string
    requires ss != []
    decreases |ss|
  {
    if |ss| == 1 then ss[0] else ss[0] + "\n" + Join(ss[1..])
  }

  lemma {:induction false} SplitLine(a: string, rest: string)
    requires '\n' !in a
    ensures Split(a + "\n" + rest) == [a] + Split(rest)
    decreases |a|
  {
    var t := a + "\n" + rest;
    if a == [] {
      assert t[1..] == rest;
    } else {
      assert t[1..] == a[1..] + "\n" + rest && t[0] == a[0] && a[0] in a;
      SplitLine(a[1..], rest);
      assert [a[0]] + a[1..] == a;
    }
  }

  lemma {:induction false} SplitLast(a: string)
    requires '\n' !in a
    ensures Split(a) == [a]
    decreases |a|
  {
    if a != [] {
      assert a[0] in a;
      SplitLast(a[1..]);
      assert [a[0]] + a[1..] == a;
    }
  }

  lemma {:induction false} SplitJoin(ss: seq<string>)
    requires ss != [] && forall s | s in ss :: '\n' !in s
    ensures Split(Join(ss)) == ss
    decreases |ss|
  {
    assert ss[0] in ss;
    if |ss| == 1 {
      SplitLast(ss[0]);
    } else {
      SplitLine(ss[0], Join(ss[1..]));
      SplitJoin(ss[1..]);
      assert [ss[0]] + ss[1..] == ss;
    }
  }

  /** Lines of text that show these lines of the file in order, with any number of blank ones among them. */
  ghost predicate ShowsAll(ls: seq<Line>, ss: seq<string>)
    decreases |ss|
  {
    if ss == [] then ls == [] else
    || (Blank(ss[0]) && ShowsAll(ls, ss[1..]))
    || (ls != [] && Shows(ls[0], ss[0]) && '\n' !in ss[0] && ShowsAll(ls[1..], ss[1..]))
  }

  lemma {:induction false} TrimsToNothing(w: string)
    requires Blank(w)
    ensures TrimLeft(w) == []
    decreases |w|
  {
    if w != [] {
      TrimsToNothing(w[1..]);
    }
  }

  lemma BlankIsOther(w: string)
    requires Blank(w)
    ensures Classify(w) == Other
  {
    TrimsToNothing(w);
  }

  /** Blank lines change nothing, and every other line does what it shows. */
  lemma {:induction false} RunOfShown(c: Casing, st: State, ls: seq<Line>, ss: seq<string>)
    requires ShowsAll(ls, ss)
    ensures Run(c, st, Lines(ss)) == Run(c, st, ls)
    decreases |ss|
  {
    hide Shows;
    hide Blank;
    hide Classify;
    assert Step(c, st, Other) == st;
    hide Step;
    if ss != [] {
      assert Lines(ss)[1..] == Lines(ss[1..]);
      if Blank(ss[0]) && ShowsAll(ls, ss[1..]) {
        BlankIsOther(ss[0]);
        RunOfShown(c, st, ls, ss[1..]);
      } else {
        ShownLineIsRead(ls[0], ss[0]);
        RunOfShown(c, Step(c, st, ls[0]), ls[1..], ss[1..]);
      }
    }
  }

  lemma {:induction false} ShownHasNoBreaks(ls: seq<Line>, ss: seq<string>)
    requires ShowsAll(ls, ss)
    ensures forall s | s in ss :: '\n' !in s
    decreases |ss|
  {
    hide Shows;
    if ss != [] {
      if Blank(ss[0]) && ShowsAll(ls, ss[1..]) {
        ShownHasNoBreaks(ls, ss[1..]);
      } else {
        ShownHasNoBreaks(ls[1..], ss[1..]);
      }
    }
  }

  /** A file that shows a one-rooted tree, one token or pair to a line with any white space around it and any
      blank lines between, parses to exactly the root's direct pairs and the manifests directly under its
      InstalledDepots; no pair at any other depth leaks into either. */
  lemma ParseOfShownTree(c: Casing, root: Node, ss: seq<string>)
    requires root.Section? && ss != [] && ShowsAll(LinesOf([root]), ss)
    ensures Parse(c, Join(ss)) == Found(c, root)
  {
    hide LinesOf;
    hide ShowsAll;
    hide Split;
    hide Join;
    hide Found;
    ShownHasNoBreaks(LinesOf([root]), ss);
    SplitJoin(ss);
    RunOfShown(c, START, LinesOf([root]), ss);
    ParsesTree(c, root);
  }

  /** A brace on its name's own line is lost together with the name. */
  lemma BraceAfterNameIsLost(n: string, w: string)
    requires Clean(n) && Blank(w)
    ensures Classify(Quoted(n) + w + "{") == Other
  {
    var s := Quoted(n) + w + "{";
    TrimBlanks([], s, []);
    assert [] + s + [] == s;
    assert s[1..] == n + [QUOTE] + (w + "{");
    IndexOfQuote(n, w + "{");
    assert s[1..][|n| + 1..] == w + "{";
    TrimBlanks(w, "{", []);
    assert w + "{" + [] == w + "{";
  }
}
