/** Unpacking an untrusted archive entry by entry into a destination directory, on
    a tree that the entries themselves fill with links. */
module TarExtract {
  import opened Wrappers
  import opened Text
  import opened PosixPath
  import opened FileTree
  import opened TarResolve
  import opened Bundle

  datatype TarEntry = TarEntry(name: string, kind: MemberType, linkname: string, content: string)

  /** `os.remove` if the name is taken; with `keepDirs`, unless it leads to a directory. */
  function Clear(fs: Fs, p: Path, keepDirs: bool, links: nat): (Fs, bool) {
    if p == [] || LStat(fs.tree, p, links).None? || (keepDirs && IsDir(fs.tree, p, links)) then (fs, true)
    else Remove(fs, p, links)
  }

  /** The parent is made and the name cleared. */
  function MakeRoom(fs: Fs, parent: Path, target: Path, keepDirs: bool, links: nat): (Fs, bool) {
    var (made, ok) := MakeDirs(fs, parent, links);
    if ok then Clear(made, target, keepDirs, links) else (made, false)
  }

  /** The file a hard link names; None where the source raises. */
  function LinkSource(tree: Tree, dest: Path, linkname: string, links: nat): Option<Path> {
    if IsAbs(linkname) || StartsWith(NormPath(linkname), "..") then None
    else
      match ResolveWithin(tree, dest, dest, Parts(NormPath(linkname)), links)
      case None => None
      case Some(p) => if Exists(tree, p, links) then Some(p) else None
  }

  /** One entry whose parent directory has been resolved. */
  function Place(fs: Fs, dest: Path, parent: Path, base: string, e: TarEntry, links: nat): (Fs, bool) {
    var target := parent + [base];
    if base == "." then (fs, e.kind == Directory || e.kind == OtherType)
    else
      match e.kind
      case Symlink =>
        var (room, ok) := MakeRoom(fs, parent, target, false, links);
        if ok then SymLink(room, e.linkname, target, links) else (room, false)
      case Hardlink =>
        (match LinkSource(fs.tree, dest, e.linkname, links)
         case None => (fs, false)
         case Some(source) =>
           var (room, ok) := MakeRoom(fs, parent, target, false, links);
           if ok then HardLink(room, source, target, links) else (room, false))
      case Directory => MakeDirs(fs, target, links)
      case _ =>
        var (room, ok) := MakeRoom(fs, parent, target, true, links);
        if ok && e.kind == Regular then WriteNew(room, target, e.content, links) else (room, ok)
  }

  function ParentOf(tree: Tree, dest: Path, name: string, links: nat): Option<Path> {
    var parent := Dirname(NormPath(name));
    if parent == "" then Some(dest) else ResolveWithin(tree, dest, dest, Parts(parent), links)
  }

  /** One round of the loop; the flag is false where the source raises. */
  function ExtractOne(fs: Fs, dest: Path, e: TarEntry, links: nat): (Fs, bool) {
    if !NameOk(e.name) || e.kind == Device then (fs, false)
    else
      match ParentOf(fs.tree, dest, e.name, links)
      case None => (fs, false)
      case Some(parent) => Place(fs, dest, parent, Basename(NormPath(e.name)), e, links)
  }

  function ExtractAll(fs: Fs, dest: Path, es: seq<TarEntry>, links: nat): (Fs, bool)
    decreases |es|
  {
    if es == [] then (fs, true)
    else
      var (fs', ok) := ExtractOne(fs, dest, es[0], links);
      if ok then ExtractAll(fs', dest, es[1..], links) else (fs', false)
  }

  class Disk {
    var fs: Fs

    /** `safe_extract_tar`: what an error leaves behind stays. `dest` is a real path. */
    method SafeExtract(dest: Path, es: seq<TarEntry>, links: nat) returns (ok: bool)
      modifies this
      ensures (fs, ok) == Extracted(old(fs), dest, es, links)
    {
      var (made, there) := MakeDirs(fs, dest, links);
      fs := made;
      if !there { return false; }
      var i := 0;
      while i < |es|
        invariant 0 <= i <= |es|
        invariant ExtractAll(fs, dest, es[i..], links) == ExtractAll(made, dest, es, links)
      {
        assert es[i..][1..] == es[i + 1..];
        var (next, done) := ExtractOne(fs, dest, es[i], links);
        fs := next;
        if !done { return false; }
        i := i + 1;
      }
      ok := true;
    }
  }

  function Extracted(fs: Fs, dest: Path, es: seq<TarEntry>, links: nat): (Fs, bool) {
    var (made, there) := MakeDirs(fs, dest, links);
    if there then ExtractAll(made, dest, es, links) else (made, false)
  }

  /** The entries are unpacked in their order, each on the disk the ones before it left. */
  lemma {:induction false} ExtractionInOrder(fs: Fs, dest: Path, a: seq<TarEntry>, b: seq<TarEntry>, links: nat)
    requires ExtractAll(fs, dest, a, links).1
    ensures ExtractAll(fs, dest, a + b, links) == ExtractAll(ExtractAll(fs, dest, a, links).0, dest, b, links)
    decreases |a|
  {
    hide ExtractOne;
    if a == [] {
      assert a + b == b;
    } else {
      ExtractionInOrder(ExtractOne(fs, dest, a[0], links).0, dest, a[1..], b, links);
      assert (a + b)[1..] == a[1..] + b;
    }
  }

  /** The first entry that fails ends the run; what it left stays, and no later entry is
      looked at. */
  lemma StopsAtError(fs: Fs, dest: Path, a: seq<TarEntry>, e: TarEntry, b: seq<TarEntry>, links: nat)
    requires ExtractAll(fs, dest, a, links).1 && !ExtractOne(ExtractAll(fs, dest, a, links).0, dest, e, links).1
    ensures ExtractAll(fs, dest, a + [e] + b, links) ==
            (ExtractOne(ExtractAll(fs, dest, a, links).0, dest, e, links).0, false)
  {
    hide ExtractOne;
    ExtractionInOrder(fs, dest, a, [e] + b, links);
    assert a + [e] + b == a + ([e] + b) && ([e] + b)[0] == e;
  }

  // ---- what a call may touch ----

  ghost predicate FsOk(fs: Fs) {
    && WellFormed(fs.tree)
    && (forall i :: i in fs.data ==> i < fs.nextIno)
    && (forall p :: p in fs.tree && fs.tree[p].File? ==> fs.tree[p].ino in fs.data)
  }

  /** Beside the target, the only change is new directories on the way to it; a
      directory stays one, and no file that existed has new contents. */
  ghost predicate Touches(before: Fs, after: Fs, target: Path) {
    && (forall p :: p in before.tree && p != target ==> p in after.tree && after.tree[p] == before.tree[p])
    && (forall p :: p in after.tree && p !in before.tree && p != target ==> p <= target && after.tree[p] == Dir)
    && (target in before.tree && before.tree[target] == Dir ==> target in after.tree && after.tree[target] == Dir)
    && (forall i :: i in before.data ==> i in after.data && after.data[i] == before.data[i])
  }

  /** Only new directories on the way to `target`, itself included. */
  ghost predicate Grown(before: Fs, after: Fs, target: Path) {
    && (forall p :: p in before.tree ==> p in after.tree && after.tree[p] == before.tree[p])
    && (forall p :: p in after.tree && p !in before.tree ==> p <= target && after.tree[p] == Dir)
    && after.data == before.data && after.nextIno == before.nextIno
  }

  lemma SolidGrows(before: Fs, after: Fs, target: Path, p: Path)
    requires Grown(before, after, target) && Solid(before.tree, p)
    ensures Solid(after.tree, p)
  {
  }

  lemma AddedNode(fs: Fs, p: Path, node: Node)
    requires FsOk(fs) && p != [] && AllPlain(p) && Parent(p) in fs.tree && fs.tree[Parent(p)] == Dir && p !in fs.tree
    ensures WellFormed(fs.tree[p := node])
  {
    forall q | q in fs.tree[p := node]
      ensures AllPlain(q) && (q != [] ==> Parent(q) in fs.tree[p := node] && fs.tree[p := node][Parent(q)] == Dir)
    {
      assert q != p ==> q in fs.tree;
    }
  }

  lemma MadeDir(fs: Fs, p: Path, links: nat)
    requires FsOk(fs) && AllPlain(p) && p != [] && Solid(fs.tree, Parent(p))
    ensures var (fs', made) := MkDir(fs, p, links);
            FsOk(fs') && Grown(fs, fs', p) && (made ==> IsDir(fs'.tree, p, links))
  {
    var (fs', made) := MkDir(fs, p, links);
    SolidEntry(fs.tree, p, links);
    if made {
      AddedNode(fs, p, Dir);
      RealIsSolid(fs'.tree, p);
      SolidRealPath(fs'.tree, p, links);
    }
  }

  lemma {:induction false} MakeDirsGrows(fs: Fs, p: Path, links: nat)
    requires FsOk(fs) && AllPlain(p) && (p != [] ==> Solid(fs.tree, Parent(p)))
    ensures var (fs', ok) := MakeDirs(fs, p, links);
            FsOk(fs') && Grown(fs, fs', p) && (ok ==> IsDir(fs'.tree, p, links))
    decreases |p|
  {
    if p != [] {
      hide MkDir, IsDir;
      var parent := Parent(p);
      var head := if Exists(fs.tree, parent, links) then fs else MakeDirs(fs, parent, links).0;
      if !Exists(fs.tree, parent, links) {
        if parent != [] { SolidParent(fs.tree, parent); }
        MakeDirsGrows(fs, parent, links);
        assert parent <= p;
      }
      SolidGrows(fs, head, p, parent);
      MadeDir(head, p, links);
    }
  }

  /** A real path that leads to a directory is that directory. */
  lemma SolidIsDir(tree: Tree, p: Path, links: nat)
    requires WellFormed(tree) && Solid(tree, p)
    ensures IsDir(tree, p, links) <==> p in tree && tree[p] == Dir
  {
    SolidRealPath(tree, p, links);
  }

  /** What MakeRoom leaves: below a directory, a free name or one that leads to a
      directory. */
  lemma RoomMade(fs: Fs, parent: Path, base: string, keepDirs: bool, links: nat)
    requires FsOk(fs) && Solid(fs.tree, parent) && Plain(base) && '/' !in base
    ensures var target := parent + [base];
            var (room, ok) := MakeRoom(fs, parent, target, keepDirs, links);
            && FsOk(room) && Touches(fs, room, target) && Solid(room.tree, parent)
            && room.data == fs.data && room.nextIno == fs.nextIno
            && (target in room.tree ==> target in fs.tree && room.tree[target] == fs.tree[target])
            && (ok ==> parent in room.tree && room.tree[parent] == Dir)
            && (ok ==> target !in room.tree || (keepDirs && IsDir(room.tree, target, links)))
  {
    var target := parent + [base];
    var (made, ok) := MakeDirs(fs, parent, links);
    assert Parent(target) == parent;
    if parent != [] { SolidParent(fs.tree, parent); }
    MakeDirsGrows(fs, parent, links);
    SolidGrows(fs, made, parent, parent);
    SolidIsDir(made.tree, parent, links);
    SolidEntry(made.tree, target, links);
    if ok && target in made.tree && made.tree[target] != Dir {
      RemovedLeaf(made, target);
      SolidWithout(made.tree, parent, target);
    }
  }

  lemma RemovedLeaf(fs: Fs, p: Path)
    requires FsOk(fs) && p in fs.tree && fs.tree[p] != Dir
    ensures FsOk(fs.(tree := fs.tree - {p}))
  {
  }

  lemma SolidWithout(tree: Tree, p: Path, gone: Path)
    requires Solid(tree, p)
    ensures Solid(tree - {gone}, p)
  {
  }

  /** A new entry under a free name in an existing directory. */
  lemma Created(fs: Fs, parent: Path, base: string, node: Node, links: nat)
    requires FsOk(fs) && Solid(fs.tree, parent) && Plain(base) && '/' !in base
    requires parent in fs.tree && fs.tree[parent] == Dir
    ensures var target := parent + [base];
            && WellFormed(Create(fs, target, node, links).0.tree)
            && Create(fs, target, node, links) ==
               if target in fs.tree then (fs, false) else (fs.(tree := fs.tree[target := node]), true)
  {
    var target := parent + [base];
    assert Parent(target) == parent;
    SolidEntry(fs.tree, target, links);
    if target !in fs.tree { AddedNode(fs, target, node); }
  }

  /** What one entry leaves behind when it succeeds. */
  ghost predicate Placed(before: Fs, after: Fs, dest: Path, target: Path, e: TarEntry, links: nat) {
    match e.kind
    case Symlink => target in after.tree && after.tree[target] == Link(e.linkname)
    case Hardlink =>
      var source := LinkSource(before.tree, dest, e.linkname, links);
      && source.Some? && dest <= source.value && source.value in before.tree && before.tree[source.value].File?
      && target in after.tree && after.tree[target] == before.tree[source.value]
    case Directory =>
      && IsDir(after.tree, target, links)
      && target in after.tree && after.tree[target] == (if target in before.tree then before.tree[target] else Dir)
    case Regular =>
      && target in after.tree && after.tree[target] == File(before.nextIno)
      && before.nextIno in after.data && after.data[before.nextIno] == e.content
    case _ => target in after.tree ==> target in before.tree && after.tree[target] == before.tree[target]
  }

  ghost predicate OneEntry(before: Fs, result: (Fs, bool), dest: Path, target: Path, e: TarEntry, links: nat) {
    && FsOk(result.0) && Touches(before, result.0, target)
    && (result.1 ==> Placed(before, result.0, dest, target, e, links))
  }

  /** A node put under the free name after the room was made. */
  lemma RoomFilled(fs: Fs, room: Fs, parent: Path, base: string, node: Node, links: nat)
    requires FsOk(room) && Touches(fs, room, parent + [base]) && Solid(room.tree, parent) && Plain(base) && '/' !in base
    requires parent in room.tree && room.tree[parent] == Dir && parent + [base] !in room.tree
    requires node.File? ==> node.ino in room.data
    ensures var target := parent + [base];
            var next := room.(tree := room.tree[target := node]);
            Create(room, target, node, links) == (next, true) && FsOk(next) && Touches(fs, next, target)
  {
    Created(room, parent, base, node, links);
  }

  lemma PlacedSymlink(fs: Fs, dest: Path, parent: Path, base: string, e: TarEntry, links: nat)
    requires FsOk(fs) && Solid(fs.tree, parent) && Plain(base) && '/' !in base && e.kind == Symlink
    ensures OneEntry(fs, Place(fs, dest, parent, base, e, links), dest, parent + [base], e, links)
  {
    hide LStat, MakeRoom, LinkSource, Create, Touches, FsOk, Solid;
    RoomMade(fs, parent, base, false, links);
    var (room, ok) := MakeRoom(fs, parent, parent + [base], false, links);
    if ok { RoomFilled(fs, room, parent, base, Link(e.linkname), links); }
  }

  /** A new file, with its contents. */
  lemma FileFilled(fs: Fs, room: Fs, parent: Path, base: string, content: string, links: nat)
    requires FsOk(room) && Touches(fs, room, parent + [base]) && Solid(room.tree, parent) && Plain(base) && '/' !in base
    requires parent in room.tree && room.tree[parent] == Dir && room.data == fs.data
    ensures var target := parent + [base];
            var (next, ok) := WriteNew(room, target, content, links);
            && FsOk(next) && Touches(fs, next, target) && (ok <==> target !in room.tree)
            && (ok ==> target in next.tree && next.tree[target] == File(room.nextIno)
                       && room.nextIno in next.data && next.data[room.nextIno] == content)
  {
    Created(room, parent, base, File(room.nextIno), links);
  }

  lemma PlacedRegular(fs: Fs, dest: Path, parent: Path, base: string, e: TarEntry, links: nat)
    requires FsOk(fs) && Solid(fs.tree, parent) && Plain(base) && '/' !in base
    requires e.kind == Regular || e.kind == OtherType || e.kind == Device
    ensures OneEntry(fs, Place(fs, dest, parent, base, e, links), dest, parent + [base], e, links)
  {
    hide LStat, MakeRoom, LinkSource, WriteNew, Touches, FsOk, Solid, IsDir;
    RoomMade(fs, parent, base, true, links);
    var (room, ok) := MakeRoom(fs, parent, parent + [base], true, links);
    if ok { FileFilled(fs, room, parent, base, e.content, links); }
  }

  lemma PlacedDirectory(fs: Fs, dest: Path, parent: Path, base: string, e: TarEntry, links: nat)
    requires FsOk(fs) && Solid(fs.tree, parent) && Plain(base) && '/' !in base && e.kind == Directory
    ensures OneEntry(fs, Place(fs, dest, parent, base, e, links), dest, parent + [base], e, links)
  {
    var target := parent + [base];
    assert Parent(target) == parent;
    MakeDirsGrows(fs, target, links);
    var made := MakeDirs(fs, target, links).0;
    if target !in fs.tree {
      SolidGrows(fs, made, target, parent);
      SolidChild(made.tree, parent, base);
      SolidIsDir(made.tree, target, links);
    }
  }

  lemma PlacedHardlink(fs: Fs, dest: Path, parent: Path, base: string, e: TarEntry, links: nat)
    requires FsOk(fs) && Solid(fs.tree, parent) && Plain(base) && '/' !in base && e.kind == Hardlink
    requires var source := LinkSource(fs.tree, dest, e.linkname, links);
             source.Some? ==> dest <= source.value && Solid(fs.tree, source.value) && source.value in fs.tree
    ensures OneEntry(fs, Place(fs, dest, parent, base, e, links), dest, parent + [base], e, links)
  {
    hide MakeRoom, LinkSource, LStat, Create, Touches, FsOk, Solid;
    var source := LinkSource(fs.tree, dest, e.linkname, links);
    RoomMade(fs, parent, base, false, links);
    var target := parent + [base];
    TouchesNothing(fs, target);
    var (room, ok) := MakeRoom(fs, parent, target, false, links);
    if source.Some? && ok {
      var from := source.value;
      if from != [] { SourceStays(fs, room, target, from, links); }
      if from != [] && LStat(room.tree, from, links).Some? {
        var node := LStat(room.tree, from, links).value;
        KnownInode(fs, room, target, from);
        RoomFilled(fs, room, parent, base, node, links);
      }
    }
  }

  lemma TouchesNothing(fs: Fs, target: Path)
    ensures Touches(fs, fs, target)
  {
  }

  lemma KnownInode(before: Fs, after: Fs, target: Path, from: Path)
    requires FsOk(before) && Touches(before, after, target) && from in before.tree
    ensures before.tree[from].File? ==> before.tree[from].ino in after.data
  {
  }

  lemma SourceStays(before: Fs, after: Fs, target: Path, from: Path, links: nat)
    requires FsOk(before) && FsOk(after) && Touches(before, after, target) && target !in after.tree
    requires Solid(before.tree, from) && from in before.tree && from != []
    ensures var found := LStat(after.tree, from, links);
            found.Some? ==> found == Some(before.tree[from]) && !before.tree[from].Link?
  {
    assert from[..|from|] == from;
    RealIsSolid(after.tree, Parent(from));
    SolidEntry(after.tree, from, links);
  }

  // ---- when an entry succeeds ----

  /** Whatever exists on the way to p, and p itself, is a directory. */
  ghost predicate Open(tree: Tree, p: Path) {
    forall k :: 0 <= k <= |p| && p[..k] in tree ==> tree[p[..k]] == Dir
  }

  lemma OpenParent(tree: Tree, p: Path)
    requires p != []
    ensures Open(tree, p) <==> Open(tree, Parent(p)) && (p in tree ==> tree[p] == Dir)
  {
    assert p[..|p|] == p;
    assert forall k :: 0 <= k < |p| ==> Parent(p)[..k] == p[..k];
  }

  lemma ExistingIsOpen(tree: Tree, p: Path)
    requires WellFormed(tree) && p in tree
    ensures Open(tree, p) <==> tree[p] == Dir
  {
    forall k | 0 <= k <= |p| ensures p[..k] in tree && (k < |p| ==> tree[p[..k]] == Dir) {
      PrefixesAreDirs(tree, p, k);
    }
    assert p[..|p|] == p;
  }

  /** `makedirs` with `exist_ok` succeeds on a real path exactly if nothing but
      directories is in the way. */
  lemma {:induction false} MakeDirsSucceeds(fs: Fs, p: Path, links: nat)
    requires FsOk(fs) && Solid(fs.tree, p)
    ensures MakeDirs(fs, p, links).1 <==> Open(fs.tree, p)
    decreases |p|
  {
    if p == [] {
      assert p[..0] == [];
    } else {
      hide Open, MkDir, Solid;
      var parent := Parent(p);
      SolidParent(fs.tree, p);
      OpenParent(fs.tree, p);
      SolidRealPath(fs.tree, parent, links);
      var head := if Exists(fs.tree, parent, links) then fs else MakeDirs(fs, parent, links).0;
      if parent in fs.tree {
        ExistingIsOpen(fs.tree, parent);
      } else {
        MakeDirsSucceeds(fs, parent, links);
        ParentMade(fs, parent, links);
      }
      LastDir(fs, head, p, links);
    }
  }

  /** When the parents of an absent path are made, the path is a directory or absent still. */
  lemma ParentMade(fs: Fs, parent: Path, links: nat)
    requires FsOk(fs) && Solid(fs.tree, parent) && parent !in fs.tree
    ensures var (head, ok) := MakeDirs(fs, parent, links);
            FsOk(head) && Grown(fs, head, parent) && (ok <==> parent in head.tree && head.tree[parent] == Dir)
  {
    if parent != [] { SolidParent(fs.tree, parent); }
    MakeDirsGrows(fs, parent, links);
    var (head, ok) := MakeDirs(fs, parent, links);
    SolidGrows(fs, head, parent, parent);
    SolidIsDir(head.tree, parent, links);
    MadeIfDir(fs, parent, links);
  }

  lemma MadeIfDir(fs: Fs, p: Path, links: nat)
    ensures IsDir(MakeDirs(fs, p, links).0.tree, p, links) ==> MakeDirs(fs, p, links).1
  {
  }

  lemma LastDir(fs: Fs, head: Fs, p: Path, links: nat)
    requires FsOk(fs) && FsOk(head) && p != [] && Solid(fs.tree, p)
    requires head == if Exists(fs.tree, Parent(p), links) then fs else MakeDirs(fs, Parent(p), links).0
    requires Grown(fs, head, Parent(p))
    ensures MakeDirs(fs, p, links).1 <==>
            Parent(p) in head.tree && head.tree[Parent(p)] == Dir && (p in fs.tree ==> fs.tree[p] == Dir)
  {
    SolidParent(fs.tree, p);
    SolidGrows(fs, head, Parent(p), p);
    SolidGrows(fs, head, Parent(p), Parent(p));
    SolidEntry(head.tree, p, links);
    assert p in head.tree ==> p in fs.tree;
    var (fs', made) := MkDir(head, p, links);
    SolidRealPath(head.tree, p, links);
    if made {
    } else {
      assert fs' == head;
    }
  }

  lemma MakeDirsThere(fs: Fs, p: Path, links: nat)
    requires FsOk(fs) && p in fs.tree && fs.tree[p] == Dir
    ensures MakeDirs(fs, p, links) == (fs, true)
  {
    RealIsSolid(fs.tree, p);
    SolidIsDir(fs.tree, p, links);
    if p != [] {
      SolidParent(fs.tree, p);
      SolidRealPath(fs.tree, Parent(p), links);
      SolidEntry(fs.tree, p, links);
    }
  }

  /** Room for an entry is made exactly if its parent can be a directory and no
      directory has its name; `keepDirs` leaves one there. */
  lemma RoomSucceeds(fs: Fs, parent: Path, base: string, keepDirs: bool, links: nat)
    requires FsOk(fs) && Solid(fs.tree, parent) && Plain(base) && '/' !in base
    ensures var target := parent + [base];
            var (room, ok) := MakeRoom(fs, parent, target, keepDirs, links);
            && (ok <==> Open(fs.tree, parent) && (target in fs.tree && fs.tree[target] == Dir ==> keepDirs))
            && (ok ==> (target in room.tree <==> keepDirs && target in fs.tree && IsDir(fs.tree, target, links)))
  {
    hide Open;
    var target := parent + [base];
    assert Parent(target) == parent;
    var (made, ok) := MakeDirs(fs, parent, links);
    MakeDirsSucceeds(fs, parent, links);
    if parent != [] { SolidParent(fs.tree, parent); }
    MakeDirsGrows(fs, parent, links);
    SolidGrows(fs, made, parent, parent);
    SolidIsDir(made.tree, parent, links);
    SolidEntry(made.tree, target, links);
    if target in fs.tree {
      MakeDirsThere(fs, parent, links);
      if fs.tree[target] == Dir {
        RealIsSolid(fs.tree, target);
        SolidIsDir(fs.tree, target, links);
      }
    }
  }

  /** What an entry needs, once its parent directory is known. */
  ghost predicate Fits(fs: Fs, dest: Path, parent: Path, target: Path, e: TarEntry, links: nat) {
    var taken := target in fs.tree && fs.tree[target] == Dir;
    && (e.kind == Directory || Open(fs.tree, parent))
    && match e.kind
       case Symlink => !taken && e.linkname != ""
       case Hardlink =>
         var source := LinkSource(fs.tree, dest, e.linkname, links);
         source.Some? && !taken && source.value != target && source.value in fs.tree && fs.tree[source.value] != Dir
       case Directory => if target in fs.tree then IsDir(fs.tree, target, links) else Open(fs.tree, parent)
       case Regular => !(target in fs.tree && IsDir(fs.tree, target, links))
       case _ => true
  }

  lemma FitsHardlink(fs: Fs, dest: Path, parent: Path, base: string, e: TarEntry, links: nat)
    requires FsOk(fs) && Solid(fs.tree, parent) && Plain(base) && '/' !in base && e.kind == Hardlink
    requires var source := LinkSource(fs.tree, dest, e.linkname, links);
             source.Some? ==> Solid(fs.tree, source.value) && source.value in fs.tree
    ensures Place(fs, dest, parent, base, e, links).1 <==> Fits(fs, dest, parent, parent + [base], e, links)
  {
    hide MakeRoom, LinkSource, LStat, Open;
    var source := LinkSource(fs.tree, dest, e.linkname, links);
    var target := parent + [base];
    RoomMade(fs, parent, base, false, links);
    RoomSucceeds(fs, parent, base, false, links);
    var (room, ok) := MakeRoom(fs, parent, target, false, links);
    if source.Some? && ok {
      var from := source.value;
      if from != [] {
        SourceFound(fs, room, target, from, links);
        if LStat(room.tree, from, links).Some? {
          Created(room, parent, base, LStat(room.tree, from, links).value, links);
        }
      }
    }
  }

  lemma SourceFound(before: Fs, after: Fs, target: Path, from: Path, links: nat)
    requires FsOk(before) && FsOk(after) && Touches(before, after, target) && target !in after.tree
    requires Solid(before.tree, from) && from in before.tree && from != []
    ensures LStat(after.tree, from, links) == if from == target then None else Some(before.tree[from])
  {
    RealIsSolid(after.tree, Parent(from));
    SolidEntry(after.tree, from, links);
  }

  lemma FitsDirectory(fs: Fs, dest: Path, parent: Path, base: string, e: TarEntry, links: nat)
    requires FsOk(fs) && Solid(fs.tree, parent) && Plain(base) && '/' !in base && e.kind == Directory
    ensures Place(fs, dest, parent, base, e, links).1 <==> Fits(fs, dest, parent, parent + [base], e, links)
  {
    var target := parent + [base];
    assert Parent(target) == parent;
    if target in fs.tree && fs.tree[target].Link? {
      RealIsSolid(fs.tree, parent);
      SolidRealPath(fs.tree, parent, links);
      SolidEntry(fs.tree, target, links);
    } else {
      hide Open;
      SolidChild(fs.tree, parent, base);
      MakeDirsSucceeds(fs, target, links);
      OpenParent(fs.tree, target);
      SolidIsDir(fs.tree, target, links);
      if target in fs.tree { ExistingIsOpen(fs.tree, parent); }
    }
  }

  lemma FitsOther(fs: Fs, dest: Path, parent: Path, base: string, e: TarEntry, links: nat)
    requires FsOk(fs) && Solid(fs.tree, parent) && Plain(base) && '/' !in base
    requires e.kind == Symlink || e.kind == Regular || e.kind == OtherType
    ensures Place(fs, dest, parent, base, e, links).1 <==> Fits(fs, dest, parent, parent + [base], e, links)
  {
    hide MakeRoom, LinkSource, LStat, Open, IsDir;
    var keepDirs := e.kind != Symlink;
    RoomMade(fs, parent, base, keepDirs, links);
    RoomSucceeds(fs, parent, base, keepDirs, links);
    var (room, ok) := MakeRoom(fs, parent, parent + [base], keepDirs, links);
    if ok {
      Created(room, parent, base, if e.kind == Symlink then Link(e.linkname) else File(room.nextIno), links);
    }
  }
}
