/**
 * Walking a directory tree into the archive: which entries are ejected, under
 * which names and in which order, with the paths kept in two shared buffers
 * that are edited in place on the way down and put right on the way up.
 */
module ArchiveTraversal {
  import opened Bytes
  import opened Cpio

  datatype Child = Child(name: bytes, node: Node)
  datatype Node =
    | File(mode: nat, data: bytes)
    | Link(mode: nat, target: bytes)
    | Dir(mode: nat, entries: seq<Child>)      // in the order readdir yields them
    | Special(mode: nat)

  const SLASH: byte := 0x2f
  const DOT: byte := 0x2e
  const ROOT: bytes := [0x72, 0x6f, 0x6f, 0x74]
  const LINK_MAX := 1024

  predicate Skipped(name: bytes) {
    (name != [] && name[0] == DOT) || name == ROOT
  }

  /** The order of strcmp. */
  predicate Below(a: bytes, b: bytes) {
    if a == [] then b != []
    else b != [] && (a[0] < b[0] || (a[0] == b[0] && Below(a[1..], b[1..])))
  }

  lemma {:induction false} BelowTotal(a: bytes, b: bytes)
    ensures Below(a, b) || a == b || Below(b, a)
    ensures !(Below(a, b) && Below(b, a)) && !Below(a, a)
  {
    if a != [] && b != [] {
      BelowTotal(a[1..], b[1..]);
      assert a == [a[0]] + a[1..] && b == [b[0]] + b[1..];
    }
    if a != [] {
      BelowTotal(a[1..], a[1..]);
    }
  }

  lemma {:induction false} BelowTransitive(a: bytes, b: bytes, c: bytes)
    requires Below(a, b) && Below(b, c)
    ensures Below(a, c)
  {
    if a != [] && a[0] == b[0] == c[0] {
      BelowTransitive(a[1..], b[1..], c[1..]);
    }
  }

  // The children of a directory that are archived, sorted by name.

  function Kept(cs: seq<Child>): (r: seq<Child>)
    ensures |r| <= |cs| && forall c :: c in r <==> c in cs && !Skipped(c.name)
  {
    if cs == [] then [] else (if Skipped(cs[0].name) then [] else [cs[0]]) + Kept(cs[1..])
  }

  lemma {:induction false} KeptOneMore(cs: seq<Child>, c: Child)
    ensures Kept(cs + [c]) == Kept(cs) + if Skipped(c.name) then [] else [c]
  {
    if cs == [] {
      assert cs + [c] == [c] && [c][1..] == [];
    } else {
      var first := if Skipped(cs[0].name) then [] else [cs[0]];
      var last := if Skipped(c.name) then [] else [c];
      assert (cs + [c])[1..] == cs[1..] + [c] && (cs + [c])[0] == cs[0];
      KeptOneMore(cs[1..], c);
      Regroup(first, Kept(cs[1..]), last);
    }
  }

  function Insert(c: Child, cs: seq<Child>): (r: seq<Child>)
    ensures |r| == |cs| + 1 && multiset(r) == multiset(cs) + multiset{c}
    ensures forall x :: x in r <==> x == c || x in cs
  {
    if cs == [] || Below(c.name, cs[0].name) then [c] + cs
    else
      assert cs == [cs[0]] + cs[1..];
      [cs[0]] + Insert(c, cs[1..])
  }

  function Sorted(cs: seq<Child>): (r: seq<Child>)
    ensures |r| == |cs| && multiset(r) == multiset(cs)
    ensures forall x :: x in r <==> x in cs
  {
    if cs == [] then []
    else
      assert cs == [cs[0]] + cs[1..];
      Insert(cs[0], Sorted(cs[1..]))
  }

  ghost predicate Ascending(cs: seq<Child>) {
    cs == [] || ((forall c :: c in cs[1..] ==> Below(cs[0].name, c.name)) && Ascending(cs[1..]))
  }

  ghost predicate DistinctNames(cs: seq<Child>) {
    cs == [] || ((forall c :: c in cs[1..] ==> c.name != cs[0].name) && DistinctNames(cs[1..]))
  }

  lemma {:induction false} InsertAscending(c: Child, cs: seq<Child>)
    requires Ascending(cs) && forall x :: x in cs ==> x.name != c.name
    ensures Ascending(Insert(c, cs))
  {
    if cs != [] {
      BelowTotal(c.name, cs[0].name);
      if Below(c.name, cs[0].name) {
        forall x | x in cs[1..]
          ensures Below(c.name, x.name)
        {
          BelowTransitive(c.name, cs[0].name, x.name);
        }
        assert ([c] + cs)[1..] == cs;
      } else {
        InsertAscending(c, cs[1..]);
        assert Insert(c, cs)[1..] == Insert(c, cs[1..]);
      }
    } else {
      assert Insert(c, cs) == [c] && [c][1..] == [];
    }
  }

  lemma {:induction false} SortedAscending(cs: seq<Child>)
    requires DistinctNames(cs)
    ensures Ascending(Sorted(cs))
  {
    if cs != [] {
      SortedAscending(cs[1..]);
      InsertAscending(cs[0], Sorted(cs[1..]));
    }
  }

  lemma SameHead(s: seq<Child>, t: seq<Child>)
    requires Ascending(s) && Ascending(t) && s != [] && t != [] && s[0] in t && t[0] in s
    ensures s[0] == t[0]
  {
    assert s == [s[0]] + s[1..] && t == [t[0]] + t[1..];
    BelowTotal(s[0].name, t[0].name);
  }

  lemma SplitHead(s: seq<Child>)
    requires s != []
    ensures multiset(s) == multiset{s[0]} + multiset(s[1..])
  {
    assert s == [s[0]] + s[1..];
  }

  /** There is only one ascending order, so it does not matter how it was found. */
  lemma {:induction false} AscendingUnique(s: seq<Child>, t: seq<Child>)
    requires Ascending(s) && Ascending(t) && multiset(s) == multiset(t)
    ensures s == t
  {
    assert |s| == |multiset(s)| && |t| == |multiset(t)|;
    if s != [] {
      assert s[0] in multiset(t) && t[0] in multiset(s);
      SameHead(s, t);
      SplitHead(s);
      SplitHead(t);
      assert multiset(s[1..]) == multiset(s) - multiset{s[0]};
      AscendingUnique(s[1..], t[1..]);
      assert s == [s[0]] + s[1..] && t == [t[0]] + t[1..];
    }
  }

  lemma {:induction false} KeptDistinct(cs: seq<Child>)
    requires DistinctNames(cs)
    ensures DistinctNames(Kept(cs))
  {
    if cs != [] {
      KeptDistinct(cs[1..]);
      if !Skipped(cs[0].name) {
        assert Kept(cs)[1..] == Kept(cs[1..]);
      } else {
        assert Kept(cs) == Kept(cs[1..]);
      }
    }
  }

  function Children(dir: Node): (r: seq<Child>)
    requires dir.Dir?
    ensures |r| <= |dir.entries| && forall c :: c in r <==> c in dir.entries && !Skipped(c.name)
  {
    Sorted(Kept(dir.entries))
  }

  // What is archived.

  /** A visited node and the names that lead to it. */
  datatype Visit = Visit(path: seq<bytes>, node: Node)

  function Under(name: bytes, vs: seq<Visit>): (r: seq<Visit>)
    ensures |r| == |vs| && forall i :: 0 <= i < |r| ==> r[i] == Visit([name] + vs[i].path, vs[i].node)
  {
    if vs == [] then [] else [Visit([name] + vs[0].path, vs[0].node)] + Under(name, vs[1..])
  }

  /** The nodes below a directory, in preorder with siblings in order. */
  function Walk(dir: Node): seq<Visit>
    requires dir.Dir?
    decreases dir, |dir.entries| + 1
  {
    WalkList(dir, Children(dir))
  }

  function WalkList(dir: Node, cs: seq<Child>): seq<Visit>
    requires dir.Dir? && forall c :: c in cs ==> c in dir.entries
    decreases dir, |cs|
  {
    if cs == [] then []
    else
      var c := cs[0];
      assert c in dir.entries;
      var below := if c.node.Dir? then Under(c.name, Walk(c.node)) else [];
      [Visit([c.name], c.node)] + below + WalkList(dir, cs[1..])
  }

  /** The node a list of names leads to, if every name on the way is kept. */
  ghost predicate LeadsTo(dir: Node, path: seq<bytes>, node: Node)
    requires dir.Dir?
    decreases |path|
  {
    path != [] && exists c ::
      && c in dir.entries && !Skipped(c.name) && c.name == path[0]
      && if |path| == 1 then c.node == node else c.node.Dir? && LeadsTo(c.node, path[1..], node)
  }

  /** Lexicographic order on lists of names: a directory before what it holds, siblings by strcmp. */
  predicate Before(p: seq<bytes>, q: seq<bytes>) {
    if p == [] then q != []
    else q != [] && (Below(p[0], q[0]) || (p[0] == q[0] && Before(p[1..], q[1..])))
  }

  ghost predicate InOrder(vs: seq<Visit>) {
    forall i, j :: 0 <= i < j < |vs| ==> Before(vs[i].path, vs[j].path)
  }

  /** In every directory the names are distinct. */
  ghost predicate TreeOk(node: Node)
    decreases node
  {
    node.Dir? ==> DistinctNames(node.entries) && forall c :: c in node.entries ==> TreeOk(c.node)
  }

  lemma UnderMeans(name: bytes, vs: seq<Visit>, v: Visit)
    ensures v in Under(name, vs) <==> v.path != [] && v.path[0] == name && Visit(v.path[1..], v.node) in vs
  {
    var r := Under(name, vs);
    if v in r {
      var i :| 0 <= i < |r| && r[i] == v;
      assert v.path[1..] == vs[i].path && vs[i] == Visit(v.path[1..], v.node);
    }
    if v.path != [] && v.path[0] == name && Visit(v.path[1..], v.node) in vs {
      var i :| 0 <= i < |vs| && vs[i] == Visit(v.path[1..], v.node);
      assert v.path == [name] + v.path[1..] && r[i] == v;
    }
  }

  /** v is c, or lies below it. */
  ghost predicate Reaches(c: Child, v: Visit) {
    && v.path != [] && c.name == v.path[0]
    && if |v.path| == 1 then v.node == c.node else c.node.Dir? && Visit(v.path[1..], v.node) in Walk(c.node)
  }

  lemma {:induction false} NoEmptyPath(dir: Node, cs: seq<Child>, node: Node)
    requires dir.Dir? && forall c :: c in cs ==> c in dir.entries
    ensures Visit([], node) !in WalkList(dir, cs)
  {
    if cs != [] {
      NoEmptyPath(dir, cs[1..], node);
    }
  }

  lemma ChildMeans(c: Child, v: Visit)
    ensures Reaches(c, v) <==> v == Visit([c.name], c.node) || (c.node.Dir? && v in Under(c.name, Walk(c.node)))
  {
    if c.node.Dir? {
      UnderMeans(c.name, Walk(c.node), v);
      NoEmptyPath(c.node, Children(c.node), v.node);
    }
    assert |v.path| == 1 ==> v.path == [v.path[0]] && v.path[1..] == [];
  }

  lemma {:induction false} WalkListMeans(dir: Node, cs: seq<Child>, v: Visit)
    requires dir.Dir? && forall c :: c in cs ==> c in dir.entries
    ensures v in WalkList(dir, cs) <==> exists c :: c in cs && Reaches(c, v)
  {
    if cs != [] {
      var c := cs[0];
      WalkListMeans(dir, cs[1..], v);
      ChildMeans(c, v);
      assert cs == [c] + cs[1..];
      assert v in WalkList(dir, cs) <==> Reaches(c, v) || v in WalkList(dir, cs[1..]);
    }
  }

  /** Exactly the kept nodes are visited, each under the names that lead to it. */
  lemma {:induction false} WalkIsComplete(dir: Node, v: Visit)
    requires dir.Dir?
    ensures v in Walk(dir) <==> LeadsTo(dir, v.path, v.node)
    decreases |v.path|
  {
    WalkListMeans(dir, Children(dir), v);
    if |v.path| > 1 {
      forall c | c in Children(dir) && c.node.Dir?
        ensures Visit(v.path[1..], v.node) in Walk(c.node) <==> LeadsTo(c.node, v.path[1..], v.node)
      {
        WalkIsComplete(c.node, Visit(v.path[1..], v.node));
      }
    }
  }

  lemma InOrderAppend(a: seq<Visit>, b: seq<Visit>)
    requires InOrder(a) && InOrder(b)
    requires forall x, y :: x in a && y in b ==> Before(x.path, y.path)
    ensures InOrder(a + b)
  {
    forall i, j | 0 <= i < j < |a + b|
      ensures Before((a + b)[i].path, (a + b)[j].path)
    {
      if i < |a| <= j {
        assert (a + b)[i] in a && (a + b)[j] in b;
      }
    }
  }

  /** A child and what lies below it. */
  lemma ChildInOrder(c: Child)
    requires c.node.Dir? && InOrder(Walk(c.node))
    ensures InOrder([Visit([c.name], c.node)] + Under(c.name, Walk(c.node)))
  {
    var first, below := [Visit([c.name], c.node)], Under(c.name, Walk(c.node));
    forall i, j | 0 <= i < j < |below|
      ensures Before(below[i].path, below[j].path)
    {
      var p, q := Walk(c.node)[i].path, Walk(c.node)[j].path;
      assert Before(p, q) && ([c.name] + p)[1..] == p && ([c.name] + q)[1..] == q;
    }
    forall x, y | x in first && y in below
      ensures Before(x.path, y.path)
    {
      UnderMeans(c.name, Walk(c.node), y);
      NoEmptyPath(c.node, Children(c.node), y.node);
      assert y.path[1..] != [] && x.path[1..] == [];
    }
    InOrderAppend(first, below);
  }

  lemma {:induction false} WalkListInOrder(dir: Node, cs: seq<Child>)
    requires dir.Dir? && (forall c :: c in cs ==> c in dir.entries) && Ascending(cs) && TreeOk(dir)
    ensures InOrder(WalkList(dir, cs))
    decreases dir, |cs|
  {
    if cs != [] {
      var c := cs[0];
      assert c in dir.entries && TreeOk(c.node);
      var own := [Visit([c.name], c.node)] + if c.node.Dir? then Under(c.name, Walk(c.node)) else [];
      if c.node.Dir? {
        WalkInOrder(c.node);
        ChildInOrder(c);
      }
      WalkListInOrder(dir, cs[1..]);
      forall x, y | x in own && y in WalkList(dir, cs[1..])
        ensures Before(x.path, y.path)
      {
        ChildMeans(c, x);
        WalkListMeans(dir, cs[1..], y);
      }
      InOrderAppend(own, WalkList(dir, cs[1..]));
    }
  }

  /** Visits come in strictly increasing order of their paths; in particular each path once. */
  lemma WalkInOrder(dir: Node)
    requires dir.Dir? && TreeOk(dir)
    ensures InOrder(Walk(dir))
    decreases dir, |dir.entries| + 1
  {
    KeptDistinct(dir.entries);
    SortedAscending(Kept(dir.entries));
    WalkListInOrder(dir, Children(dir));
  }

  // The entries ejected for the visits.

  /** The archive name of a child of the directory archived as `dirName`; the top directory may have no name. */
  function Extend(dirName: bytes, name: bytes): bytes {
    if dirName == [] then name else dirName + [SLASH] + name
  }

  function NameOf(dirName: bytes, path: seq<bytes>): bytes
    decreases |path|
  {
    if path == [] then dirName else NameOf(Extend(dirName, path[0]), path[1..])
  }

  /** What is ejected for a node; `fix` is what fix_stat makes of its mode. */
  function EntryOf(fix: (bytes, nat) -> nat, name: bytes, node: Node): Entry {
    Entry(name, fix(name, node.mode),
          match node
          case File(_, data) => data
          case Link(_, target) => target[..Min(LINK_MAX, |target|)]
          case _ => [])
  }

  function Ejected(fix: (bytes, nat) -> nat, dirName: bytes, vs: seq<Visit>): (r: seq<Entry>)
    ensures |r| == |vs|
    ensures forall i :: 0 <= i < |r| ==> r[i] == EntryOf(fix, NameOf(dirName, vs[i].path), vs[i].node)
  {
    if vs == [] then []
    else [EntryOf(fix, NameOf(dirName, vs[0].path), vs[0].node)] + Ejected(fix, dirName, vs[1..])
  }

  lemma EjectedAppend(fix: (bytes, nat) -> nat, dirName: bytes, a: seq<Visit>, b: seq<Visit>)
    ensures Ejected(fix, dirName, a + b) == Ejected(fix, dirName, a) + Ejected(fix, dirName, b)
  {}

  lemma EjectedUnder(fix: (bytes, nat) -> nat, dirName: bytes, name: bytes, vs: seq<Visit>)
    ensures Ejected(fix, dirName, Under(name, vs)) == Ejected(fix, Extend(dirName, name), vs)
  {
    var below := Ejected(fix, dirName, Under(name, vs));
    var own := Ejected(fix, Extend(dirName, name), vs);
    forall i | 0 <= i < |vs|
      ensures below[i] == own[i]
    {
      assert ([name] + vs[i].path)[1..] == vs[i].path;
      assert NameOf(dirName, [name] + vs[i].path) == NameOf(Extend(dirName, name), vs[i].path);
    }
  }

  /** What a node archived as `name` contributes. */
  function EjectedAs(fix: (bytes, nat) -> nat, name: bytes, node: Node): seq<Entry> {
    [EntryOf(fix, name, node)] + if node.Dir? then Ejected(fix, name, Walk(node)) else []
  }

  lemma EjectedList(fix: (bytes, nat) -> nat, dirName: bytes, dir: Node, cs: seq<Child>)
    requires dir.Dir? && cs != [] && forall c :: c in cs ==> c in dir.entries
    ensures Ejected(fix, dirName, WalkList(dir, cs))
         == EjectedAs(fix, Extend(dirName, cs[0].name), cs[0].node) + Ejected(fix, dirName, WalkList(dir, cs[1..]))
  {
    var c := cs[0];
    var first := [Visit([c.name], c.node)];
    var below := if c.node.Dir? then Under(c.name, Walk(c.node)) else [];
    EjectedAppend(fix, dirName, first + below, WalkList(dir, cs[1..]));
    EjectedAppend(fix, dirName, first, below);
    assert NameOf(dirName, [c.name]) == Extend(dirName, c.name);
    if c.node.Dir? {
      EjectedUnder(fix, dirName, c.name, Walk(c.node));
    }
  }

  /** A reader of the archive of a directory finds exactly the walk: each kept node once, in order, nothing else. */
  lemma ArchiveHoldsTree(fix: (bytes, nat) -> nat, prefix: bytes, dir: Node, mode: nat)
    requires dir.Dir? && mode < WORD
    requires forall e :: e in Ejected(fix, prefix, Walk(dir)) ==> InRange(e) && e.name != TRAILER
    ensures Read(Cpio.Archive(Ejected(fix, prefix, Walk(dir)), mode)) == Found(Ejected(fix, prefix, Walk(dir)))
  {
    ParseBack(Ejected(fix, prefix, Walk(dir)), mode);
  }

  // Different nodes get different names.

  predicate CleanName(name: bytes) {
    name != [] && SLASH !in name
  }

  /** Every name below the node is one a directory can hold. */
  ghost predicate Clean(node: Node)
    decreases node
  {
    node.Dir? ==> forall c :: c in node.entries ==> CleanName(c.name) && Clean(c.node)
  }

  ghost predicate CleanPath(path: seq<bytes>) {
    forall i :: 0 <= i < |path| ==> CleanName(path[i])
  }

  lemma {:induction false} PathIsClean(dir: Node, path: seq<bytes>, node: Node)
    requires dir.Dir? && Clean(dir) && LeadsTo(dir, path, node)
    ensures path != [] && CleanPath(path)
    decreases |path|
  {
    var c :| c in dir.entries && !Skipped(c.name) && c.name == path[0]
             && if |path| == 1 then c.node == node else c.node.Dir? && LeadsTo(c.node, path[1..], node);
    if |path| > 1 {
      PathIsClean(c.node, path[1..], node);
      assert forall i :: 0 < i < |path| ==> path[i] == path[1..][i - 1];
    }
  }

  /** The names of a path, each behind a slash. */
  function Slashed(path: seq<bytes>): bytes {
    if path == [] then [] else [SLASH] + path[0] + Slashed(path[1..])
  }

  lemma {:induction false} NameIsSlashed(name: bytes, path: seq<bytes>)
    requires name != []
    ensures NameOf(name, path) == name + Slashed(path)
    decreases |path|
  {
    if path == [] {
      assert name + [] == name;
    } else {
      NameIsSlashed(Extend(name, path[0]), path[1..]);
      Regroup(name + [SLASH], path[0], Slashed(path[1..]));
      Regroup(name, [SLASH], path[0] + Slashed(path[1..]));
      Regroup([SLASH], path[0], Slashed(path[1..]));
    }
  }

  predicate AtSlash(s: bytes) {
    s == [] || s[0] == SLASH
  }

  lemma NotShorter(a: bytes, x: bytes, b: bytes, y: bytes)
    requires SLASH !in b && AtSlash(x) && a + x == b + y
    ensures |a| >= |b|
  {
    assert forall i :: 0 <= i < |b| ==> (b + y)[i] == b[i] && b[i] != SLASH;
    if x != [] {
      assert (a + x)[|a|] == SLASH;
    }
  }

  /** A name ends where the next slash is. */
  lemma SameUpToSlash(a: bytes, x: bytes, b: bytes, y: bytes)
    requires SLASH !in a && SLASH !in b && AtSlash(x) && AtSlash(y) && a + x == b + y
    ensures a == b && x == y
  {
    NotShorter(a, x, b, y);
    NotShorter(b, y, a, x);
    assert a == (a + x)[..|a|] && b == (b + y)[..|b|];
    assert x == (a + x)[|a|..] && y == (b + y)[|b|..];
  }

  lemma {:induction false} SlashedInjective(p: seq<bytes>, q: seq<bytes>)
    requires CleanPath(p) && CleanPath(q) && Slashed(p) == Slashed(q)
    ensures p == q
    decreases |p|
  {
    if p != [] && q != [] {
      var x, y := p[0] + Slashed(p[1..]), q[0] + Slashed(q[1..]);
      Regroup([SLASH], p[0], Slashed(p[1..]));
      Regroup([SLASH], q[0], Slashed(q[1..]));
      assert x == ([SLASH] + x)[1..] && y == ([SLASH] + y)[1..];
      SameUpToSlash(p[0], Slashed(p[1..]), q[0], Slashed(q[1..]));
      SlashedInjective(p[1..], q[1..]);
      assert p == [p[0]] + p[1..] && q == [q[0]] + q[1..];
    }
  }

  lemma NameInjective(prefix: bytes, p: seq<bytes>, q: seq<bytes>)
    requires CleanPath(p) && CleanPath(q) && p != [] && q != [] && NameOf(prefix, p) == NameOf(prefix, q)
    ensures p == q
  {
    if prefix != [] {
      NameIsSlashed(prefix, p);
      NameIsSlashed(prefix, q);
      assert Slashed(p) == (prefix + Slashed(p))[|prefix|..] && Slashed(q) == (prefix + Slashed(q))[|prefix|..];
      SlashedInjective(p, q);
    } else {
      NameIsSlashed(p[0], p[1..]);
      NameIsSlashed(q[0], q[1..]);
      SameUpToSlash(p[0], Slashed(p[1..]), q[0], Slashed(q[1..]));
      SlashedInjective(p[1..], q[1..]);
      assert p == [p[0]] + p[1..] && q == [q[0]] + q[1..];
    }
  }

  lemma {:induction false} BeforeDiffers(p: seq<bytes>)
    ensures !Before(p, p)
  {
    if p != [] {
      BelowTotal(p[0], p[0]);
      BeforeDiffers(p[1..]);
    }
  }

  /** No two nodes of a tree are archived under the same name. */
  lemma NamesDiffer(fix: (bytes, nat) -> nat, prefix: bytes, dir: Node, i: nat, j: nat)
    requires dir.Dir? && TreeOk(dir) && Clean(dir) && i < j < |Walk(dir)|
    ensures Ejected(fix, prefix, Walk(dir))[i].name != Ejected(fix, prefix, Walk(dir))[j].name
  {
    var v, w := Walk(dir)[i], Walk(dir)[j];
    WalkIsComplete(dir, v);
    WalkIsComplete(dir, w);
    PathIsClean(dir, v.path, v.node);
    PathIsClean(dir, w.path, w.node);
    WalkInOrder(dir);
    BeforeDiffers(v.path);
    if NameOf(prefix, v.path) == NameOf(prefix, w.path) {
      NameInjective(prefix, v.path, w.path);
    }
  }

  lemma NextChild(ejected: seq<Entry>, fix: (bytes, nat) -> nat, dirName: bytes, dir: Node, cs: seq<Child>, i: nat)
    requires dir.Dir? && i < |cs| && forall c :: c in cs[i..] ==> c in dir.entries
    ensures forall c :: c in cs[i + 1..] ==> c in dir.entries
    ensures ejected + Ejected(fix, dirName, WalkList(dir, cs[i..]))
         == (ejected + EjectedAs(fix, Extend(dirName, cs[i].name), cs[i].node))
            + Ejected(fix, dirName, WalkList(dir, cs[i + 1..]))
  {
    assert cs[i..][1..] == cs[i + 1..];
    EjectedList(fix, dirName, dir, cs[i..]);
    Regroup(ejected, EjectedAs(fix, Extend(dirName, cs[i].name), cs[i].node),
            Ejected(fix, dirName, WalkList(dir, cs[i + 1..])));
  }

  // The program.

  /** The tree `node` is what the file system has at `path`. */
  ghost predicate Mounted(fs: map<bytes, Node>, path: bytes, node: Node)
    decreases node
  {
    && path in fs && fs[path] == node
    && (node.Dir? ==> forall c :: c in node.entries ==> c.name != [] && Mounted(fs, path + [SLASH] + c.name, c.node))
  }

  /** Every path below the directory fits the buffers. */
  ghost predicate Fits(dir: Node, ilen: nat, olen: nat, inSize: nat, outSize: nat)
    requires dir.Dir?
    decreases dir
  {
    forall c :: c in dir.entries && !Skipped(c.name) ==>
      var i, o := ilen + 1 + |c.name|, if olen == 0 then |c.name| else olen + 1 + |c.name|;
      i < inSize && o < outSize && (c.node.Dir? ==> Fits(c.node, i, o, inSize, outSize))
  }

  /** Nothing that is archived is a device, a pipe or the like. */
  ghost predicate Plain(node: Node)
    decreases node
  {
    !node.Special? && (node.Dir? ==> forall c :: c in node.entries && !Skipped(c.name) ==> Plain(c.node))
  }

  /** The buffer holds s as a C string. */
  predicate Holds(a: array<byte>, s: bytes)
    reads a
  {
    |s| < a.Length && a[..|s|] == s && a[|s|] == 0
  }

  /** memcpy of a name and its NUL into a buffer. */
  method CopyName(a: array<byte>, at: nat, name: bytes)
    requires at + |name| < a.Length
    modifies a
    ensures a[..at] == old(a[..at]) && a[at..at + |name|] == name && a[at + |name|] == 0
  {
    for i := 0 to |name|
      invariant a[..at] == old(a[..at]) && a[at..at + i] == name[..i]
    {
      a[at + i] := name[i];
    }
    a[at + |name|] := 0;
  }

  /** A path with one more name. */
  method Descend(a: array<byte>, len: nat, name: bytes, ghost path: bytes)
    requires Holds(a, path) && len == |path| && len + 1 + |name| < a.Length
    modifies a
    ensures Holds(a, path + [SLASH] + name)
  {
    a[len] := SLASH;
    CopyName(a, len + 1, name);
    assert a[..len + 1] == path + [SLASH];
    assert a[..len + 1 + |name|] == a[..len + 1] + a[len + 1..len + 1 + |name|];
  }

  /** The path without what was added. */
  method CutBack(a: array<byte>, len: nat, ghost path: bytes, ghost added: bytes)
    requires Holds(a, path + added) && len == |path|
    modifies a
    ensures Holds(a, path)
  {
    assert a[..len] == a[..|path + added|][..len];
    a[len] := 0;
  }

  /** readdir, with what is not archived left out. */
  method ReadNames(entries: seq<Child>) returns (names: seq<Child>)
    ensures names == Kept(entries)
  {
    names := [];
    for i := 0 to |entries|
      invariant names == Kept(entries[..i])
    {
      KeptOneMore(entries[..i], entries[i]);
      assert entries[..i] + [entries[i]] == entries[..i + 1];
      if !Skipped(entries[i].name) {
        names := names + [entries[i]];
      }
    }
    assert entries[..|entries|] == entries;
  }

  class Archiving {
    const fs: map<bytes, Node>
    const fix: (bytes, nat) -> nat
    var ejected: seq<Entry>

    constructor (fs: map<bytes, Node>, fix: (bytes, nat) -> nat)
      ensures this.fs == fs && this.fix == fix && ejected == []
    {
      this.fs, this.fix, ejected := fs, fix, [];
    }

    /** _archive; `ok` is false where the program dies. */
    method Archive(inb: array<byte>, outb: array<byte>, ilen: nat, olen: nat,
                   ghost path: bytes, ghost name: bytes, ghost node: Node)
      returns (ok: bool)
      requires inb != outb && Holds(inb, path) && Holds(outb, name) && ilen == |path| && olen == |name| > 0
      requires Mounted(fs, path, node) && (node.Dir? ==> Fits(node, ilen, olen, inb.Length, outb.Length))
      modifies this`ejected, inb, outb
      ensures ok <==> Plain(node)
      ensures ok ==>
        && Holds(inb, path) && Holds(outb, name)
        && ejected == old(ejected) + EjectedAs(fix, name, node)
      decreases node, 1, 0
    {
      var found := fs[inb[..ilen]];
      if found.Special? {
        return false;
      }
      assert found == node && outb[..olen] == name;
      ejected := ejected + [EntryOf(fix, outb[..olen], found)];
      ok := true;
      if found.Dir? {
        Regroup(old(ejected), [EntryOf(fix, name, node)], Ejected(fix, name, Walk(node)));
        ok := ArchiveDir(inb, outb, ilen, olen, path, name, node);
      }
    }

    /** _archive_dir */
    method ArchiveDir(inb: array<byte>, outb: array<byte>, ilen: nat, olen: nat,
                      ghost path: bytes, ghost name: bytes, ghost dir: Node)
      returns (ok: bool)
      requires inb != outb && Holds(inb, path) && Holds(outb, name) && ilen == |path| && olen == |name|
      requires dir.Dir? && Mounted(fs, path, dir) && Fits(dir, ilen, olen, inb.Length, outb.Length)
      modifies this`ejected, inb, outb
      ensures ok <==> Plain(dir)
      ensures ok ==>
        && Holds(inb, path) && Holds(outb, name)
        && ejected == old(ejected) + Ejected(fix, name, Walk(dir))
      decreases dir, 0, 0
    {
      var names := ReadNames(fs[inb[..ilen]].entries);
      names := Sorted(names);
      assert names == Children(dir);
      ghost var whole := ejected + Ejected(fix, name, Walk(dir));
      for i := 0 to |names|
        invariant Holds(inb, path) && Holds(outb, name)
        invariant forall j :: 0 <= j < i ==> Plain(names[j].node)
        invariant forall c :: c in names[i..] ==> c in dir.entries
        invariant whole == ejected + Ejected(fix, name, WalkList(dir, names[i..]))
      {
        NextChild(ejected, fix, name, dir, names, i);
        ok := ArchiveChild(inb, outb, ilen, olen, names[i], path, name, dir);
        if !ok {
          return;
        }
      }
      ok := true;
    }

    /** One iteration of the loop of _archive_dir. */
    method ArchiveChild(inb: array<byte>, outb: array<byte>, ilen: nat, olen: nat, c: Child,
                        ghost path: bytes, ghost name: bytes, ghost dir: Node)
      returns (ok: bool)
      requires inb != outb && Holds(inb, path) && Holds(outb, name) && ilen == |path| && olen == |name|
      requires dir.Dir? && Mounted(fs, path, dir) && Fits(dir, ilen, olen, inb.Length, outb.Length)
      requires c in dir.entries && !Skipped(c.name)
      modifies this`ejected, inb, outb
      ensures ok <==> Plain(c.node)
      ensures ok ==>
        Holds(inb, path) && Holds(outb, name) && ejected == old(ejected) + EjectedAs(fix, Extend(name, c.name), c.node)
      decreases c.node, 2, 0
    {
      var t := |c.name|;
      Descend(inb, ilen, c.name, path);
      assert path + [SLASH] + c.name == path + ([SLASH] + c.name);
      if olen > 0 {
        Descend(outb, olen, c.name, name);
        assert name + [SLASH] + c.name == name + ([SLASH] + c.name);
        ok := Archive(inb, outb, ilen + t + 1, olen + t + 1, path + [SLASH] + c.name, name + [SLASH] + c.name, c.node);
      } else {
        CopyName(outb, 0, c.name);
        assert name == [] && name + c.name == c.name;
        ok := Archive(inb, outb, ilen + t + 1, t, path + [SLASH] + c.name, c.name, c.node);
      }
      if ok {
        CutBack(inb, ilen, path, [SLASH] + c.name);
        CutBack(outb, olen, name, if olen > 0 then [SLASH] + c.name else c.name);
      }
    }

    /** archive: the buffers start out with the directory's path and the prefix for its entries. */
    method ArchiveTree(start: bytes, prefix: bytes, ghost dir: Node, size: nat) returns (ok: bool)
      requires |start| < size && |prefix| < size
      requires dir.Dir? && Mounted(fs, start, dir) && Fits(dir, |start|, |prefix|, size, size)
      modifies this`ejected
      ensures ok <==> Plain(dir)
      ensures ok ==> ejected == old(ejected) + Ejected(fix, prefix, Walk(dir))
    {
      var inb, outb := new byte[size], new byte[size];
      CopyName(inb, 0, start);
      CopyName(outb, 0, prefix);
      ok := ArchiveDir(inb, outb, |start|, |prefix|, start, prefix, dir);
    }
  }
}
