/** A file system with symbolic links: pathname resolution as in section 4.13 of
    POSIX.1-2017 (Base Definitions), and the calls that change the tree. */
module FileTree {
  import opened Wrappers
  import opened PosixPath

  /** Components from the root. */
  type Path = seq<string>

  datatype Node = Dir | File(ino: nat) | Link(target: string)

  type Tree = map<Path, Node>

  /** The tree, the contents of each inode, and the next inode number. */
  datatype Fs = Fs(tree: Tree, data: map<nat, string>, nextIno: nat)

  function Parent(p: Path): Path
    requires p != []
  {
    p[..|p| - 1]
  }

  predicate AllPlain(p: Path) { forall k :: 0 <= k < |p| ==> Plain(p[k]) && '/' !in p[k] }

  /** The root is a directory and everything else lies in a directory. */
  ghost predicate WellFormed(tree: Tree) {
    && [] in tree && tree[[]] == Dir
    && forall p :: p in tree ==> AllPlain(p) && (p != [] ==> Parent(p) in tree && tree[Parent(p)] == Dir)
  }

  // ---- resolution ----

  /** Walk `rest` from the directory `at`, following at most `links` links; None
      when the kernel would report an error. */
  function Resolve(tree: Tree, at: Path, rest: seq<string>, links: nat): Option<Path>
    decreases links, |rest|
  {
    if rest == [] then Some(at)
    else if at !in tree || tree[at] != Dir then None
    else if rest[0] == "" || rest[0] == "." then Resolve(tree, at, rest[1..], links)
    else if rest[0] == ".." then Resolve(tree, if at == [] then [] else Parent(at), rest[1..], links)
    else if at + [rest[0]] !in tree then None
    else
      match tree[at + [rest[0]]]
      case Link(target) =>
        if links == 0 then None
        else Resolve(tree, if IsAbs(target) then [] else at, Comps(target) + rest[1..], links - 1)
      case _ => Resolve(tree, at + [rest[0]], rest[1..], links)
  }

  /** `os.path.realpath` of a path that exists; None for one that does not. */
  function RealPath(tree: Tree, p: Path, links: nat): Option<Path> {
    Resolve(tree, [], p, links)
  }

  predicate Exists(tree: Tree, p: Path, links: nat) { RealPath(tree, p, links).Some? }

  predicate IsDir(tree: Tree, p: Path, links: nat) {
    var r := RealPath(tree, p, links);
    r.Some? && r.value in tree && tree[r.value] == Dir
  }

  /** The directory entry a path names, links in its parent followed. */
  function Entry(tree: Tree, p: Path, links: nat): Option<Path>
    requires p != []
  {
    match RealPath(tree, Parent(p), links)
    case None => None
    case Some(q) => if q in tree && tree[q] == Dir then Some(q + [p[|p| - 1]]) else None
  }

  /** `lstat`: the node at that entry, itself not followed. */
  function LStat(tree: Tree, p: Path, links: nat): Option<Node>
    requires p != []
  {
    match Entry(tree, p, links)
    case None => None
    case Some(e) => if e in tree then Some(tree[e]) else None
  }

  // ---- calls that change the tree; the flag tells success ----

  function MkDir(fs: Fs, p: Path, links: nat): (Fs, bool) {
    if p == [] then (fs, false)
    else
      match Entry(fs.tree, p, links)
      case None => (fs, false)
      case Some(e) => if e in fs.tree then (fs, false) else (fs.(tree := fs.tree[e := Dir]), true)
  }

  /** `os.makedirs(p, exist_ok=True)`. */
  function MakeDirs(fs: Fs, p: Path, links: nat): (Fs, bool)
    decreases |p|
  {
    var head := if p == [] || Exists(fs.tree, Parent(p), links) then fs else MakeDirs(fs, Parent(p), links).0;
    var (fs', made) := MkDir(head, p, links);
    (fs', made || IsDir(fs'.tree, p, links))
  }

  /** `os.remove`. */
  function Remove(fs: Fs, p: Path, links: nat): (Fs, bool) {
    if p == [] then (fs, false)
    else
      match Entry(fs.tree, p, links)
      case None => (fs, false)
      case Some(e) => if e !in fs.tree || fs.tree[e] == Dir then (fs, false) else (fs.(tree := fs.tree - {e}), true)
  }

  /** Make a new entry, failing if the name is taken. */
  function Create(fs: Fs, p: Path, node: Node, links: nat): (Fs, bool) {
    if p == [] then (fs, false)
    else
      match Entry(fs.tree, p, links)
      case None => (fs, false)
      case Some(e) => if e in fs.tree then (fs, false) else (fs.(tree := fs.tree[e := node]), true)
  }

  /** `os.symlink`. */
  function SymLink(fs: Fs, target: string, p: Path, links: nat): (Fs, bool) {
    if target == "" then (fs, false) else Create(fs, p, Link(target), links)
  }

  /** `os.link`: not for directories. */
  function HardLink(fs: Fs, from: Path, p: Path, links: nat): (Fs, bool) {
    if from == [] then (fs, false)
    else
      match LStat(fs.tree, from, links)
      case None => (fs, false)
      case Some(node) => if node == Dir then (fs, false) else Create(fs, p, node, links)
  }

  /** `open(p, "wb")` on a name that is free, and the write. */
  function WriteNew(fs: Fs, p: Path, content: string, links: nat): (Fs, bool) {
    var (fs', made) := Create(fs, p, File(fs.nextIno), links);
    if made then (fs'.(data := fs.data[fs.nextIno := content], nextIno := fs.nextIno + 1), true) else (fs, false)
  }

  // ---- real paths ----

  /** No prefix of p is a link. */
  ghost predicate Solid(tree: Tree, p: Path) {
    AllPlain(p) && forall k :: 0 <= k <= |p| && p[..k] in tree ==> !tree[p[..k]].Link?
  }

  lemma {:induction false} PrefixesAreDirs(tree: Tree, p: Path, k: nat)
    requires WellFormed(tree) && p in tree && k <= |p|
    ensures p[..k] in tree && (k < |p| ==> tree[p[..k]] == Dir)
  {
    if k == |p| {
      assert p[..k] == p;
    } else {
      PrefixesAreDirs(tree, Parent(p), k);
      assert Parent(p)[..k] == p[..k];
      if k == |p| - 1 { assert p[..k] == Parent(p); }
    }
  }

  lemma RealIsSolid(tree: Tree, p: Path)
    requires WellFormed(tree) && p in tree && !tree[p].Link?
    ensures Solid(tree, p)
  {
    forall k | 0 <= k <= |p| && p[..k] in tree ensures !tree[p[..k]].Link? {
      PrefixesAreDirs(tree, p, k);
      if k == |p| { assert p[..k] == p; }
    }
  }

  lemma SolidParent(tree: Tree, p: Path)
    requires Solid(tree, p) && p != []
    ensures Solid(tree, Parent(p))
  {
    forall k | 0 <= k <= |Parent(p)| && Parent(p)[..k] in tree ensures !tree[Parent(p)[..k]].Link? {
      assert Parent(p)[..k] == p[..k];
    }
  }

  lemma SolidChild(tree: Tree, p: Path, name: string)
    requires Solid(tree, p) && Plain(name) && '/' !in name
    requires p + [name] in tree ==> !tree[p + [name]].Link?
    ensures Solid(tree, p + [name])
  {
    var q := p + [name];
    forall k | 0 <= k <= |q| && q[..k] in tree ensures !tree[q[..k]].Link? {
      if k <= |p| { assert q[..k] == p[..k]; } else { assert q[..k] == q; }
    }
  }

  /** Resolution ends at something that exists and is no link. */
  lemma {:induction false} ResolveIsReal(tree: Tree, at: Path, rest: seq<string>, links: nat)
    requires WellFormed(tree) && at in tree && !tree[at].Link?
    requires Resolve(tree, at, rest, links).Some?
    ensures var r := Resolve(tree, at, rest, links).value; r in tree && !tree[r].Link?
    decreases links, |rest|
  {
    if rest != [] {
      var c := rest[0];
      if c == "" || c == "." {
        ResolveIsReal(tree, at, rest[1..], links);
      } else if c == ".." {
        ResolveIsReal(tree, if at == [] then [] else Parent(at), rest[1..], links);
      } else {
        match tree[at + [c]]
        case Link(target) =>
          ResolveIsReal(tree, if IsAbs(target) then [] else at, Comps(target) + rest[1..], links - 1);
        case _ => ResolveIsReal(tree, at + [c], rest[1..], links);
      }
    }
  }

  /** A solid path resolves to itself if it exists, and otherwise to nothing. */
  lemma {:induction false} SolidResolves(tree: Tree, p: Path, k: nat, links: nat)
    requires WellFormed(tree) && Solid(tree, p) && k <= |p| && p[..k] in tree
    ensures Resolve(tree, p[..k], p[k..], links) == if p in tree then Some(p) else None
    decreases |p| - k
  {
    if k == |p| {
      assert p[..k] == p;
    } else {
      assert p[..k] + [p[k]] == p[..k + 1];
      assert p[k..][1..] == p[k + 1..];
      if p in tree { PrefixesAreDirs(tree, p, k); PrefixesAreDirs(tree, p, k + 1); }
      if p[..k + 1] in tree {
        SolidResolves(tree, p, k + 1, links);
      }
    }
  }

  lemma SolidRealPath(tree: Tree, p: Path, links: nat)
    requires WellFormed(tree) && Solid(tree, p)
    ensures RealPath(tree, p, links) == if p in tree then Some(p) else None
  {
    SolidResolves(tree, p, 0, links);
    assert p[..0] == [] && p[0..] == p;
  }

  /** Below a solid parent, the entry a path names is that path. */
  lemma SolidEntry(tree: Tree, p: Path, links: nat)
    requires WellFormed(tree) && p != [] && Solid(tree, Parent(p))
    ensures Entry(tree, p, links) == if Parent(p) in tree && tree[Parent(p)] == Dir then Some(p) else None
    ensures LStat(tree, p, links) == if p in tree then Some(tree[p]) else None
  {
    SolidRealPath(tree, Parent(p), links);
    assert Parent(p) + [p[|p| - 1]] == p;
  }

  // ---- resolving one component more, or in a larger tree ----

  /** What a longer walk says about its beginning. */
  lemma {:induction false} ResolveStart(tree: Tree, at: Path, rest: seq<string>, last: string, links: nat)
    requires Plain(last) && Resolve(tree, at, rest + [last], links).Some?
    ensures var q := Resolve(tree, at, rest, links);
            q.Some? && q.value in tree && tree[q.value] == Dir && q.value + [last] in tree
    decreases links, |rest|
  {
    var all := rest + [last];
    if rest == [] {
      assert all == [last];
    } else {
      var c := rest[0];
      assert all[0] == c && all[1..] == rest[1..] + [last];
      if c == "" || c == "." {
        ResolveStart(tree, at, rest[1..], last, links);
      } else if c == ".." {
        ResolveStart(tree, if at == [] then [] else Parent(at), rest[1..], last, links);
      } else {
        match tree[at + [c]]
        case Link(target) =>
          assert Comps(target) + all[1..] == (Comps(target) + rest[1..]) + [last];
          ResolveStart(tree, if IsAbs(target) then [] else at, Comps(target) + rest[1..], last, links - 1);
        case _ => ResolveStart(tree, at + [c], rest[1..], last, links);
      }
    }
  }

  /** One more component that is no link. */
  lemma {:induction false} ResolveOneMore(tree: Tree, at: Path, rest: seq<string>, last: string, links: nat)
    requires Plain(last) && Resolve(tree, at, rest, links).Some?
    requires var q := Resolve(tree, at, rest, links).value;
             q in tree && tree[q] == Dir && q + [last] in tree && !tree[q + [last]].Link?
    ensures Resolve(tree, at, rest + [last], links) == Some(Resolve(tree, at, rest, links).value + [last])
    decreases links, |rest|
  {
    var all := rest + [last];
    if rest == [] {
      assert all == [last] && all[1..] == [];
    } else {
      var c := rest[0];
      assert all[0] == c && all[1..] == rest[1..] + [last];
      if c == "" || c == "." {
        ResolveOneMore(tree, at, rest[1..], last, links);
      } else if c == ".." {
        ResolveOneMore(tree, if at == [] then [] else Parent(at), rest[1..], last, links);
      } else {
        match tree[at + [c]]
        case Link(target) =>
          assert Comps(target) + all[1..] == (Comps(target) + rest[1..]) + [last];
          ResolveOneMore(tree, if IsAbs(target) then [] else at, Comps(target) + rest[1..], last, links - 1);
        case _ => ResolveOneMore(tree, at + [c], rest[1..], last, links);
      }
    }
  }

  /** More nodes change no walk that succeeds. */
  lemma {:induction false} ResolveGrows(tree: Tree, more: Tree, at: Path, rest: seq<string>, links: nat)
    requires forall p :: p in tree ==> p in more && more[p] == tree[p]
    requires Resolve(tree, at, rest, links).Some?
    ensures Resolve(more, at, rest, links) == Resolve(tree, at, rest, links)
    decreases links, |rest|
  {
    if rest != [] {
      var c := rest[0];
      if c == "" || c == "." {
        ResolveGrows(tree, more, at, rest[1..], links);
      } else if c == ".." {
        ResolveGrows(tree, more, if at == [] then [] else Parent(at), rest[1..], links);
      } else {
        match tree[at + [c]]
        case Link(target) =>
          ResolveGrows(tree, more, if IsAbs(target) then [] else at, Comps(target) + rest[1..], links - 1);
        case _ => ResolveGrows(tree, more, at + [c], rest[1..], links);
      }
    }
  }

  /** One step down. */
  lemma ResolveDown(tree: Tree, at: Path, c: string, rest: seq<string>, links: nat)
    requires Plain(c) && at in tree && tree[at] == Dir && at + [c] in tree && !tree[at + [c]].Link?
    ensures Resolve(tree, at, [c] + rest, links) == Resolve(tree, at + [c], rest, links)
  {
    assert ([c] + rest)[1..] == rest;
  }

  /** One step through a link. */
  lemma ResolveLink(tree: Tree, at: Path, c: string, rest: seq<string>, links: nat)
    requires Plain(c) && at in tree && tree[at] == Dir && at + [c] in tree && tree[at + [c]].Link? && links > 0
    ensures var target := tree[at + [c]].target;
            Resolve(tree, at, [c] + rest, links) ==
            Resolve(tree, if IsAbs(target) then [] else at, Comps(target) + rest, links - 1)
  {
    assert ([c] + rest)[1..] == rest;
  }

  /** More links allowed change no walk that succeeds. */
  lemma {:induction false} ResolveMoreLinks(tree: Tree, at: Path, rest: seq<string>, links: nat, more: nat)
    requires links <= more && Resolve(tree, at, rest, links).Some?
    ensures Resolve(tree, at, rest, more) == Resolve(tree, at, rest, links)
    decreases links, |rest|
  {
    if rest != [] {
      var c := rest[0];
      if c == "" || c == "." {
        ResolveMoreLinks(tree, at, rest[1..], links, more);
      } else if c == ".." {
        ResolveMoreLinks(tree, if at == [] then [] else Parent(at), rest[1..], links, more);
      } else {
        match tree[at + [c]]
        case Link(target) =>
          ResolveMoreLinks(tree, if IsAbs(target) then [] else at, Comps(target) + rest[1..], links - 1, more - 1);
        case _ => ResolveMoreLinks(tree, at + [c], rest[1..], links, more);
      }
    }
  }

  /** A walk that succeeds is its first part and, from where that ends, the second. */
  lemma {:induction false} ResolveInTwo(tree: Tree, at: Path, a: seq<string>, b: seq<string>, links: nat)
    requires Resolve(tree, at, a + b, links).Some?
    ensures Resolve(tree, at, a, links).Some?
    ensures Resolve(tree, Resolve(tree, at, a, links).value, b, links) == Resolve(tree, at, a + b, links)
    decreases links, |a|
  {
    var all := a + b;
    if a == [] {
      assert all == b;
    } else {
      var c := a[0];
      assert all[0] == c && all[1..] == a[1..] + b;
      if c == "" || c == "." {
        ResolveInTwo(tree, at, a[1..], b, links);
      } else if c == ".." {
        ResolveInTwo(tree, if at == [] then [] else Parent(at), a[1..], b, links);
      } else {
        match tree[at + [c]]
        case Link(target) =>
          var from := if IsAbs(target) then [] else at;
          assert Comps(target) + all[1..] == (Comps(target) + a[1..]) + b;
          ResolveInTwo(tree, from, Comps(target) + a[1..], b, links - 1);
          ResolveMoreLinks(tree, Resolve(tree, at, a, links).value, b, links - 1, links);
        case _ => ResolveInTwo(tree, at + [c], a[1..], b, links);
      }
    }
  }

  /** From the root through a real directory: the walk continues from that directory. */
  lemma {:induction false} ResolveThrough(tree: Tree, p: Path, k: nat, rest: seq<string>, links: nat)
    requires WellFormed(tree) && p in tree && tree[p] == Dir && k <= |p|
    ensures Resolve(tree, p[..k], p[k..] + rest, links) == Resolve(tree, p, rest, links)
    decreases |p| - k
  {
    if k == |p| {
      assert p[..k] == p && p[k..] + rest == rest;
    } else {
      var all := p[k..] + rest;
      PrefixesAreDirs(tree, p, k);
      PrefixesAreDirs(tree, p, k + 1);
      assert all[0] == p[k] && all[1..] == p[k + 1..] + rest && p[..k] + [p[k]] == p[..k + 1];
      assert p[..|p|] == p && Plain(p[k]);
      ResolveThrough(tree, p, k + 1, rest, links);
    }
  }
}
