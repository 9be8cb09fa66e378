/** Where the entries of an archive land physically, and exactly when an extraction
    leaves everything outside its destination alone. */
module TarConfinement {
  import opened Wrappers
  import opened Text
  import opened PosixPath
  import opened FileTree
  import opened TarResolve
  import opened Bundle
  import opened TarExtract

  // ---- where a path leads, whether or not it exists ----

  /** The real path of the longest existing part of p, and the rest of p below it;
      None when something that is no directory is in the way. */
  function Landing(tree: Tree, p: Path, links: nat): Option<Path>
    decreases |p|
  {
    match RealPath(tree, p, links)
    case Some(r) => if r in tree && tree[r] == Dir then Some(r) else None
    case None =>
      if p == [] then None
      else
        match Landing(tree, Parent(p), links)
        case None => None
        case Some(l) => if l + [p[|p| - 1]] in tree then None else Some(l + [p[|p| - 1]])
  }

  lemma {:induction false} LandingFacts(tree: Tree, p: Path, links: nat)
    requires WellFormed(tree) && AllPlain(p) && Landing(tree, p, links).Some?
    ensures var l := Landing(tree, p, links).value;
            && AllPlain(l) && Solid(tree, l) && Open(tree, l)
            && (l in tree <==> Exists(tree, p, links))
    decreases |p|
  {
    hide Resolve;
    var l := Landing(tree, p, links).value;
    if RealPath(tree, p, links).Some? {
      ResolveIsReal(tree, [], p, links);
      RealIsSolid(tree, l);
      ExistingIsOpen(tree, l);
    } else {
      LandingFacts(tree, Parent(p), links);
      SolidChild(tree, Parent(l), p[|p| - 1]);
      OpenParent(tree, l);
    }
  }

  /** A real path leads to itself, if nothing but directories is in the way. */
  lemma {:induction false} LandingOfReal(tree: Tree, p: Path, links: nat)
    requires WellFormed(tree) && Solid(tree, p)
    ensures Landing(tree, p, links) == if Open(tree, p) then Some(p) else None
    decreases |p|
  {
    hide Resolve, Open, Solid;
    SolidRealPath(tree, p, links);
    if p in tree {
      ExistingIsOpen(tree, p);
    } else {
      SolidParent(tree, p);
      LandingOfReal(tree, Parent(p), links);
      OpenParent(tree, p);
      assert Parent(p) + [p[|p| - 1]] == p;
    }
  }

  /** The last component of a path that does not exist, below one that leads to l. */
  lemma LastComponent(tree: Tree, p: Path, links: nat)
    requires p != [] && AllPlain(p)
    ensures Exists(tree, p, links) ==>
              Entry(tree, p, links).Some? && Entry(tree, p, links).value in tree && Exists(tree, Parent(p), links)
  {
    assert Parent(p) + [p[|p| - 1]] == p;
    if Exists(tree, p, links) { ResolveStart(tree, [], Parent(p), p[|p| - 1], links); }
  }

  ghost predicate MadeAt(fs: Fs, p: Path, l: Path, links: nat) {
    var (made, ok) := MakeDirs(fs, p, links);
    && ok && MakeDirs(fs, l, links) == (made, true)
    && FsOk(made) && Grown(fs, made, l)
    && l in made.tree && made.tree[l] == Dir && RealPath(made.tree, p, links) == Some(l)
  }

  /** `makedirs` on any path works at the place the path leads to. */
  lemma {:induction false} MakeDirsLands(fs: Fs, p: Path, links: nat)
    requires FsOk(fs) && AllPlain(p)
    ensures match Landing(fs.tree, p, links)
            case None => MakeDirs(fs, p, links) == (fs, false)
            case Some(l) => MadeAt(fs, p, l, links)
    decreases |p|
  {
    hide Resolve, Open, Solid, Grown;
    RootExists(fs.tree, links);
    if Exists(fs.tree, p, links) {
      MakeDirsOfExisting(fs, p, links);
    } else {
      MakeDirsLands(fs, Parent(p), links);
      match Landing(fs.tree, Parent(p), links)
      case None => NothingMade(fs, p, links);
      case Some(l) => OneMoreMade(fs, p, l, links);
    }
  }

  lemma RootExists(tree: Tree, links: nat)
    ensures Exists(tree, [], links)
  {
  }

  lemma GrownNothing(fs: Fs)
    ensures forall p :: Grown(fs, fs, p)
  {
  }

  lemma MakeDirsOfExisting(fs: Fs, p: Path, links: nat)
    requires FsOk(fs) && AllPlain(p) && Exists(fs.tree, p, links)
    ensures match Landing(fs.tree, p, links)
            case None => MakeDirs(fs, p, links) == (fs, false)
            case Some(l) => MadeAt(fs, p, l, links)
  {
    hide Resolve, Grown, FsOk;
    GrownNothing(fs);
    if p != [] { LastComponent(fs.tree, p, links); }
    var r := RealPath(fs.tree, p, links).value;
    if r in fs.tree && fs.tree[r] == Dir { MakeDirsThere(fs, r, links); }
  }

  lemma NothingMade(fs: Fs, p: Path, links: nat)
    requires FsOk(fs) && AllPlain(p) && p != [] && !Exists(fs.tree, p, links)
    requires Landing(fs.tree, Parent(p), links).None?
    requires Exists(fs.tree, Parent(p), links) || MakeDirs(fs, Parent(p), links) == (fs, false)
    ensures Landing(fs.tree, p, links).None? && MakeDirs(fs, p, links) == (fs, false)
  {
    hide Resolve;
  }

  lemma OneMoreMade(fs: Fs, p: Path, l: Path, links: nat)
    requires FsOk(fs) && AllPlain(p) && p != [] && !Exists(fs.tree, p, links)
    requires Landing(fs.tree, Parent(p), links) == Some(l) && MadeAt(fs, Parent(p), l, links)
    ensures match Landing(fs.tree, p, links)
            case None => MakeDirs(fs, p, links) == (fs, false)
            case Some(m) => MadeAt(fs, p, m, links)
  {
    hide Resolve, Open;
    LandingFacts(fs.tree, Parent(p), links);
    var x := p[|p| - 1];
    var m := l + [x];
    assert Parent(m) == l;
    if m in fs.tree {
      assert l in fs.tree;
    } else {
      var head := if Exists(fs.tree, Parent(p), links) then fs else MakeDirs(fs, Parent(p), links).0;
      SolidRealPath(fs.tree, l, links);
      BelowParent(fs, head, p, l, links);
    }
  }

  lemma BelowParent(fs: Fs, head: Fs, p: Path, l: Path, links: nat)
    requires FsOk(fs) && FsOk(head) && AllPlain(p) && p != [] && Grown(fs, head, l) && Solid(fs.tree, l)
    requires !Exists(fs.tree, p, links) && l + [p[|p| - 1]] !in fs.tree
    requires head == if Exists(fs.tree, Parent(p), links) then fs else MakeDirs(fs, Parent(p), links).0
    requires head == if Exists(fs.tree, l, links) then fs else MakeDirs(fs, l, links).0
    requires l in head.tree && head.tree[l] == Dir && RealPath(head.tree, Parent(p), links) == Some(l)
    ensures MadeAt(fs, p, l + [p[|p| - 1]], links)
  {
    hide Resolve, Solid, FsOk, Grown, MkDir;
    var m := l + [p[|p| - 1]];
    var made := head.(tree := head.tree[m := Dir]);
    assert Parent(m) == l;
    MkDirBelow(fs, head, p, l, links);
  }

  lemma MkDirBelow(fs: Fs, head: Fs, p: Path, l: Path, links: nat)
    requires FsOk(head) && AllPlain(p) && p != [] && Grown(fs, head, l) && Solid(fs.tree, l)
    requires l + [p[|p| - 1]] !in fs.tree
    requires l in head.tree && head.tree[l] == Dir && RealPath(head.tree, Parent(p), links) == Some(l)
    ensures var m := l + [p[|p| - 1]];
            var made := head.(tree := head.tree[m := Dir]);
            && MkDir(head, p, links) == (made, true) && MkDir(head, m, links) == (made, true)
            && FsOk(made) && Grown(fs, made, m) && RealPath(made.tree, p, links) == Some(m)
  {
    hide Resolve, Solid;
    var x := p[|p| - 1];
    var m := l + [x];
    assert Parent(m) == l && m[|m| - 1] == x && Parent(p) + [x] == p;
    SolidGrows(fs, head, l, l);
    SolidEntry(head.tree, m, links);
    assert m !in head.tree;
    LandsPlain(head.tree, l);
    AddedNode(head, m, Dir);
    var made := head.(tree := head.tree[m := Dir]);
    ResolveGrows(head.tree, made.tree, [], Parent(p), links);
    ResolveOneMore(made.tree, [], Parent(p), x, links);
  }

  lemma LandsPlain(tree: Tree, l: Path)
    requires WellFormed(tree) && l in tree
    ensures AllPlain(l)
  {
  }

  // ---- one entry is placed where its parent leads ----

  /** Below a path where nothing is, an entry meets nothing: it is placed in a new
      directory. */
  lemma RoomInNewDirectory(fs: Fs, p: Path, l: Path, base: string, keepDirs: bool, links: nat)
    requires FsOk(fs) && Plain(base) && '/' !in base && AllPlain(p)
    requires MadeAt(fs, p, l, links) && l !in fs.tree && Solid(fs.tree, l)
    ensures var made := MakeDirs(fs, p, links).0;
            && MakeRoom(fs, p, p + [base], keepDirs, links) == (made, true)
            && MakeRoom(fs, l, l + [base], keepDirs, links) == (made, true)
            && Entry(made.tree, p + [base], links) == Some(l + [base]) == Entry(made.tree, l + [base], links)
  {
    hide Resolve;
    var made := MakeDirs(fs, p, links).0;
    assert Parent(p + [base]) == p && Parent(l + [base]) == l;
    assert l + [base] !in fs.tree;
    RealIsSolid(made.tree, l);
    SolidRealPath(made.tree, l, links);
  }

  lemma PlaceInNewDirectory(fs: Fs, dest: Path, p: Path, l: Path, base: string, e: TarEntry, links: nat)
    requires FsOk(fs) && Plain(base) && '/' !in base && base != "." && AllPlain(p) && e.kind != Directory
    requires MadeAt(fs, p, l, links) && l !in fs.tree && Solid(fs.tree, l)
    ensures Place(fs, dest, p, base, e, links) == Place(fs, dest, l, base, e, links)
  {
    hide MakeRoom, LinkSource, Resolve, Entry;
    RoomInNewDirectory(fs, p, l, base, e.kind == Regular || e.kind == OtherType || e.kind == Device, links);
    SameCreate(MakeDirs(fs, p, links).0, p + [base], l + [base], links);
  }

  lemma SameCreate(fs: Fs, p: Path, q: Path, links: nat)
    requires p != [] && q != [] && Entry(fs.tree, p, links) == Entry(fs.tree, q, links)
    ensures forall node :: Create(fs, p, node, links) == Create(fs, q, node, links)
  {
  }

  /** Placing an entry below p is placing it where p leads. */
  lemma PlaceLands(fs: Fs, dest: Path, p: Path, base: string, e: TarEntry, links: nat)
    requires FsOk(fs) && Landed(fs.tree, p, links) && Plain(base) && '/' !in base
    ensures match Landing(fs.tree, p, links)
            case None => Place(fs, dest, p, base, e, links) == (fs, false)
            case Some(l) => Place(fs, dest, p, base, e, links) == Place(fs, dest, l, base, e, links)
  {
    hide Resolve, Landing, LinkSource, MakeDirs;
    MakeDirsLands(fs, p, links);
    ChildLands(fs, p, base, links);
    match Landing(fs.tree, p, links)
    case None =>
    case Some(l) =>
      LandingFacts(fs.tree, p, links);
      if Solid(fs.tree, p) {
        LandingOfReal(fs.tree, p, links);
      } else if e.kind != Directory {
        PlaceInNewDirectory(fs, dest, p, l, base, e, links);
      }
  }

  /** The same for the directory an entry itself makes. */
  lemma ChildLands(fs: Fs, p: Path, base: string, links: nat)
    requires FsOk(fs) && Landed(fs.tree, p, links) && Plain(base) && '/' !in base
    ensures match Landing(fs.tree, p, links)
            case None => MakeDirs(fs, p + [base], links) == (fs, false)
            case Some(l) => MakeDirs(fs, p + [base], links) == MakeDirs(fs, l + [base], links)
  {
    hide Resolve, MakeDirs, Solid;
    var q := p + [base];
    assert Parent(q) == p;
    MakeDirsLands(fs, q, links);
    LastComponent(fs.tree, q, links);
    match Landing(fs.tree, p, links)
    case None =>
    case Some(l) =>
      LandingFacts(fs.tree, p, links);
      if Solid(fs.tree, p) {
        LandingOfReal(fs.tree, p, links);
      } else {
        assert Parent(l + [base]) == l;
        assert l + [base] !in fs.tree;
      }
  }

  // ---- names ----

  lemma NameParts(name: string)
    requires NameOk(name)
    ensures AllPlain(Parts(NormPath(name))) && AllPlain(Parts(Dirname(NormPath(name))))
    ensures var base := Basename(NormPath(name)); base == "." || (Plain(base) && '/' !in base)
  {
    hide NormPath, Norm, Comps, Join, Dirname, Basename, Parts, Plain;
    PassedPath(name);
    var n := Norm(Comps(name), false);
    if n == [] {
      DotParts();
    } else {
      assert AllPlain(n);
      NormalParts(n);
    }
  }

  lemma NormalParts(n: Path)
    requires AllPlain(n) && n != []
    ensures var text := Join(n, "/");
            && AllPlain(Parts(text)) && AllPlain(Parts(Dirname(text)))
            && Plain(Basename(text)) && '/' !in Basename(text)
  {
    hide Join, Dirname, Basename, Parts;
    PartsOfJoin(n);
    PartsOfJoin(n[..|n| - 1]);
    SplitNormalised(n);
  }

  lemma DotParts()
    ensures Parts(".") == [] && Basename(".") == "." && Dirname(".") == "" && Parts("") == []
  {
    SplitWord(".", '/');
    assert ["."][1..] == [];
    LastSlashUnique(".", 0);
    PartsOfJoin([]);
  }

  lemma NotAbsolute(path: string)
    requires !IsAbs(path) && !StartsWith(NormPath(path), "..")
    ensures !IsAbs(NormPath(path))
  {
    hide Norm, Comps;
    PassedPath(path);
    var n := Norm(Comps(path), false);
    if n != [] { JoinEnd(n); }
    var text := NormPath(path);
    assert text[..1] == [text[0]] != "/";
  }

  /** The directory an entry is to go to, before it is known where that leads. */
  lemma ParentLands(tree: Tree, dest: Path, name: string, links: nat)
    requires WellFormed(tree) && Solid(tree, dest) && NameOk(name) && ParentOf(tree, dest, name, links).Some?
    ensures var p := ParentOf(tree, dest, name, links).value; dest <= p && Landed(tree, p, links)
    ensures Basename(NormPath(name)) == "." ==> ParentOf(tree, dest, name, links) == Some(dest)
  {
    hide Parts, Dirname, NormPath, ResolveWithin, Basename;
    NameParts(name);
    var parent := Dirname(NormPath(name));
    if parent != "" { WalkLands(tree, dest, dest, Parts(parent), links); }
    if Basename(NormPath(name)) == "." { DotParent(name); }
  }

  lemma DotParent(name: string)
    requires NameOk(name) && Basename(NormPath(name)) == "."
    ensures Dirname(NormPath(name)) == ""
  {
    hide Norm, Comps, Basename, Dirname, Join;
    PassedPath(name);
    var n := Norm(Comps(name), false);
    if n == [] { DotParts(); } else { SplitNormalised(n); }
  }

  /** A hard link is made to a file at or below the destination. */
  lemma SourceStaysWithin(tree: Tree, dest: Path, linkname: string, links: nat)
    requires WellFormed(tree) && Solid(tree, dest) && LinkSource(tree, dest, linkname, links).Some?
    ensures var source := LinkSource(tree, dest, linkname, links).value;
            dest <= source && Solid(tree, source) && source in tree
  {
    hide Parts, NormPath, ResolveWithin, Resolve;
    PassedPath(linkname);
    assert NameOk(linkname) by { NotAbsolute(linkname); }
    NameParts(linkname);
    WalkLands(tree, dest, dest, Parts(NormPath(linkname)), links);
    SolidRealPath(tree, LinkSource(tree, dest, linkname, links).value, links);
  }

  // ---- one entry ----

  /** The directory an entry physically goes to; None when the entry is refused for
      its name, its kind or a link on its way, or the way is blocked. */
  function Spot(tree: Tree, dest: Path, e: TarEntry, links: nat): Option<Path> {
    if !NameOk(e.name) || e.kind == Device then None
    else
      match ParentOf(tree, dest, e.name, links)
      case None => None
      case Some(p) => Landing(tree, p, links)
  }

  lemma SpotIsReal(tree: Tree, dest: Path, e: TarEntry, links: nat)
    requires WellFormed(tree) && Solid(tree, dest) && dest in tree && tree[dest] == Dir &&
             Spot(tree, dest, e, links).Some?
    ensures var l := Spot(tree, dest, e, links).value;
            && Solid(tree, l) && Open(tree, l)
            && (l in tree ==> dest <= l)
            && (Basename(NormPath(e.name)) == "." ==> l == dest)
  {
    hide NormPath, Basename, ParentOf, Open, Solid, Resolve, Landing;
    ParentLands(tree, dest, e.name, links);
    var p := ParentOf(tree, dest, e.name, links).value;
    LandingFacts(tree, p, links);
    if Solid(tree, p) { LandingOfReal(tree, p, links); }
    LandingOfReal(tree, dest, links);
  }

  /** Extracting an entry is placing it at its spot. */
  lemma EntryIsPlaced(fs: Fs, dest: Path, e: TarEntry, links: nat)
    requires FsOk(fs) && Solid(fs.tree, dest) && dest in fs.tree && fs.tree[dest] == Dir
    ensures match Spot(fs.tree, dest, e, links)
            case None => ExtractOne(fs, dest, e, links) == (fs, false)
            case Some(l) => ExtractOne(fs, dest, e, links) == Place(fs, dest, l, Basename(NormPath(e.name)), e, links)
  {
    hide NormPath, Basename, ParentOf, Place, Solid, Resolve, Landing, Landed;
    if NameOk(e.name) && e.kind != Device && ParentOf(fs.tree, dest, e.name, links).Some? {
      var p, base := ParentOf(fs.tree, dest, e.name, links).value, Basename(NormPath(e.name));
      NameParts(e.name);
      ParentLands(fs.tree, dest, e.name, links);
      if base == "." {
        LandingOfReal(fs.tree, dest, links);
        ExistingIsOpen(fs.tree, dest);
      } else {
        PlaceLands(fs, dest, p, base, e, links);
      }
    }
  }

  /** Where an entry lands: only its name at its spot changes, beside new directories
      on the way there, and on success the entry is there. */
  lemma EntryLands(fs: Fs, dest: Path, e: TarEntry, links: nat)
    requires FsOk(fs) && Solid(fs.tree, dest) && dest in fs.tree && fs.tree[dest] == Dir
    ensures var base := Basename(NormPath(e.name));
            match Spot(fs.tree, dest, e, links)
            case None => ExtractOne(fs, dest, e, links) == (fs, false)
            case Some(l) =>
              if base == "." then ExtractOne(fs, dest, e, links) == (fs, e.kind == Directory || e.kind == OtherType)
              else OneEntry(fs, ExtractOne(fs, dest, e, links), dest, l + [base], e, links)
  {
    hide NormPath, Basename, Place, LinkSource, Spot, OneEntry, ExtractOne, Solid;
    EntryIsPlaced(fs, dest, e, links);
    var spot, base := Spot(fs.tree, dest, e, links), Basename(NormPath(e.name));
    if spot.Some? {
      var l := spot.value;
      SpotIsReal(fs.tree, dest, e, links);
      SpotName(fs.tree, dest, e, links);
      if base == "." {
        PlacedAtDot(fs, dest, l, e, links);
      } else {
        match e.kind
        case Symlink => PlacedSymlink(fs, dest, l, base, e, links);
        case Hardlink =>
          if LinkSource(fs.tree, dest, e.linkname, links).Some? { SourceStaysWithin(fs.tree, dest, e.linkname, links); }
          PlacedHardlink(fs, dest, l, base, e, links);
        case Directory => PlacedDirectory(fs, dest, l, base, e, links);
        case _ => PlacedRegular(fs, dest, l, base, e, links);
      }
    }
  }

  lemma SpotName(tree: Tree, dest: Path, e: TarEntry, links: nat)
    requires Spot(tree, dest, e, links).Some?
    ensures NameOk(e.name) && e.kind != Device
    ensures var base := Basename(NormPath(e.name)); base == "." || (Plain(base) && '/' !in base)
  {
    hide NormPath, Basename;
    NameParts(e.name);
  }

  lemma PlacedAtDot(fs: Fs, dest: Path, parent: Path, e: TarEntry, links: nat)
    ensures Place(fs, dest, parent, ".", e, links) == (fs, e.kind == Directory || e.kind == OtherType)
  {
  }

  /** An entry is refused exactly for its name, its kind, a link that leads outside,
      or because it does not fit what is there already. */
  lemma EntrySucceeds(fs: Fs, dest: Path, e: TarEntry, links: nat)
    requires FsOk(fs) && Solid(fs.tree, dest) && dest in fs.tree && fs.tree[dest] == Dir
    ensures var spot, base := Spot(fs.tree, dest, e, links), Basename(NormPath(e.name));
            ExtractOne(fs, dest, e, links).1 <==>
            && spot.Some?
            && if base == "." then e.kind == Directory || e.kind == OtherType
               else Fits(fs, dest, spot.value, spot.value + [base], e, links)
  {
    hide NormPath, Basename, Place, LinkSource, Spot, Fits, ExtractOne, Solid;
    EntryIsPlaced(fs, dest, e, links);
    var spot, base := Spot(fs.tree, dest, e, links), Basename(NormPath(e.name));
    if spot.Some? {
      var l := spot.value;
      SpotIsReal(fs.tree, dest, e, links);
      SpotName(fs.tree, dest, e, links);
      if base == "." {
        PlacedAtDot(fs, dest, l, e, links);
      } else {
        match e.kind
        case Hardlink =>
          if LinkSource(fs.tree, dest, e.linkname, links).Some? { SourceStaysWithin(fs.tree, dest, e.linkname, links); }
          FitsHardlink(fs, dest, l, base, e, links);
        case Directory => FitsDirectory(fs, dest, l, base, e, links);
        case _ => FitsOther(fs, dest, l, base, e, links);
      }
    }
  }

  // ---- when an entry stays inside ----

  /** Nothing outside `dest` appears, disappears or changes, and no file that
      existed, inside or outside, has new contents. */
  ghost predicate Confined(dest: Path, before: Fs, after: Fs) {
    && (forall p :: !(dest <= p) ==> (p in before.tree <==> p in after.tree))
    && (forall p :: !(dest <= p) && p in before.tree ==> after.tree[p] == before.tree[p])
    && (forall i :: i in before.data ==> i in after.data && after.data[i] == before.data[i])
    && dest in after.tree && after.tree[dest] == Dir
  }

  lemma TouchesConfined(dest: Path, before: Fs, after: Fs, target: Path)
    requires FsOk(before) && dest in before.tree && before.tree[dest] == Dir
    requires dest <= target && Touches(before, after, target)
    ensures Confined(dest, before, after)
  {
    forall p | !(dest <= p) && p in after.tree ensures p in before.tree {
      if p <= target && |p| < |dest| {
        assert p == dest[..|p|];
        PrefixesAreDirs(before.tree, dest, |p|);
      }
    }
  }

  /** The entry would be placed outside: its spot is new and not below `dest`. */
  predicate Strays(tree: Tree, dest: Path, e: TarEntry, links: nat) {
    && Spot(tree, dest, e, links).Some?
    && !(dest <= Spot(tree, dest, e, links).value)
    && (e.kind == Hardlink ==> LinkSource(tree, dest, e.linkname, links).Some?)
  }

  /** An entry whose walked links all lead somewhere does not stray. */
  lemma LeadingLinksStay(tree: Tree, dest: Path, e: TarEntry, links: nat)
    requires WellFormed(tree) && dest in tree && tree[dest] == Dir
    requires var parent := Dirname(NormPath(e.name));
             parent != "" ==> LinksLead(tree, dest, dest, Parts(parent), links)
    ensures !Strays(tree, dest, e, links)
  {
    hide NormPath, Dirname, Parts, LinksLead, Resolve, Landing, Solid, LinkSource;
    RealIsSolid(tree, dest);
    if Spot(tree, dest, e, links).Some? {
      NameParts(e.name);
      var parent := Dirname(NormPath(e.name));
      if parent != "" { WalkStaysWithin(tree, dest, Parts(parent), links); }
      LandingOfReal(tree, ParentOf(tree, dest, e.name, links).value, links);
    }
  }

  /** Whatever else happens, an entry placed in a new directory makes it. */
  lemma SpotIsMade(fs: Fs, dest: Path, l: Path, base: string, e: TarEntry, links: nat)
    requires FsOk(fs) && Solid(fs.tree, l) && Open(fs.tree, l) && l !in fs.tree
    requires Plain(base) && '/' !in base && e.kind != Device
    requires e.kind == Hardlink ==> LinkSource(fs.tree, dest, e.linkname, links).Some?
    ensures var tree := Place(fs, dest, l, base, e, links).0.tree; l in tree && tree[l] == Dir
  {
    hide MakeRoom, LinkSource, Open, Resolve, Solid;
    assert Parent(l + [base]) == l;
    assert l + [base] !in fs.tree;
    if e.kind == Directory {
      DirectoryMakesSpot(fs, l, base, links);
    } else {
      var keepDirs := e.kind == Regular || e.kind == OtherType;
      RoomMade(fs, l, base, keepDirs, links);
      RoomSucceeds(fs, l, base, keepDirs, links);
    }
  }

  lemma DirectoryMakesSpot(fs: Fs, l: Path, base: string, links: nat)
    requires FsOk(fs) && Solid(fs.tree, l) && Open(fs.tree, l) && l !in fs.tree && Plain(base) && '/' !in base
    requires l + [base] !in fs.tree
    ensures var tree := MakeDirs(fs, l + [base], links).0.tree; l in tree && tree[l] == Dir
  {
    hide Open, Solid, Resolve;
    var target := l + [base];
    assert Parent(target) == l;
    SolidRealPath(fs.tree, l, links);
    MakeDirsSucceeds(fs, l, links);
    ParentMade(fs, l, links);
    SolidChild(fs.tree, l, base);
    MakeDirsGrows(fs, target, links);
    var head := MakeDirs(fs, l, links).0;
    KeepsUp(head, target, links);
  }

  lemma KeepsUp(head: Fs, p: Path, links: nat)
    ensures forall q :: q in head.tree ==>
            q in MkDir(head, p, links).0.tree && MkDir(head, p, links).0.tree[q] == head.tree[q]
  {
  }

  /** An entry changes nothing outside the destination exactly if it does not stray. */
  lemma EntryConfined(fs: Fs, dest: Path, e: TarEntry, links: nat)
    requires FsOk(fs) && dest in fs.tree && fs.tree[dest] == Dir
    ensures Confined(dest, fs, ExtractOne(fs, dest, e, links).0) <==> !Strays(fs.tree, dest, e, links)
    ensures Strays(fs.tree, dest, e, links) ==>
              Spot(fs.tree, dest, e, links).Some? &&
              var l := Spot(fs.tree, dest, e, links).value;
              && !(dest <= l) && l !in fs.tree
              && l in ExtractOne(fs, dest, e, links).0.tree && ExtractOne(fs, dest, e, links).0.tree[l] == Dir
  {
    hide NormPath, Basename, Place, LinkSource, Spot, ExtractOne, Solid, Open, Touches;
    RealIsSolid(fs.tree, dest);
    EntryIsPlaced(fs, dest, e, links);
    EntryLands(fs, dest, e, links);
    var spot, base := Spot(fs.tree, dest, e, links), Basename(NormPath(e.name));
    if spot.Some? {
      SpotIsReal(fs.tree, dest, e, links);
      SpotName(fs.tree, dest, e, links);
      if base != "." {
        if dest <= spot.value {
          TouchesConfined(dest, fs, ExtractOne(fs, dest, e, links).0, spot.value + [base]);
        } else if Strays(fs.tree, dest, e, links) {
          SpotIsMade(fs, dest, spot.value, base, e, links);
        } else {
          NoSource(fs, dest, spot.value, base, e, links);
        }
      }
    }
  }

  lemma NoSource(fs: Fs, dest: Path, l: Path, base: string, e: TarEntry, links: nat)
    requires e.kind == Hardlink && LinkSource(fs.tree, dest, e.linkname, links).None? && base != "."
    ensures Place(fs, dest, l, base, e, links) == (fs, false)
  {
  }

  // ---- the whole extraction ----

  /** No entry that is reached strays, in the tree as it is at that entry. */
  predicate AllStay(fs: Fs, dest: Path, es: seq<TarEntry>, links: nat)
    decreases |es|
  {
    es != [] ==>
      && !Strays(fs.tree, dest, es[0], links)
      && var (next, ok) := ExtractOne(fs, dest, es[0], links);
         ok ==> AllStay(next, dest, es[1..], links)
  }

  /** The state stays sound and no directory ever goes away, confined or not. */
  lemma EntryKeepsDirs(fs: Fs, dest: Path, e: TarEntry, links: nat)
    requires FsOk(fs) && dest in fs.tree && fs.tree[dest] == Dir
    ensures var next := ExtractOne(fs, dest, e, links).0;
            FsOk(next) && forall p :: p in fs.tree && fs.tree[p] == Dir ==> p in next.tree && next.tree[p] == Dir
  {
    hide NormPath, Basename, Spot, ExtractOne, Placed;
    RealIsSolid(fs.tree, dest);
    EntryLands(fs, dest, e, links);
  }

  lemma {:induction false} AllKeepDirs(fs: Fs, dest: Path, es: seq<TarEntry>, links: nat)
    requires FsOk(fs) && dest in fs.tree && fs.tree[dest] == Dir
    ensures var after := ExtractAll(fs, dest, es, links).0;
            FsOk(after) && forall p :: p in fs.tree && fs.tree[p] == Dir ==> p in after.tree && after.tree[p] == Dir
    decreases |es|
  {
    if es != [] {
      hide ExtractOne, FsOk;
      EntryKeepsDirs(fs, dest, es[0], links);
      var (next, ok) := ExtractOne(fs, dest, es[0], links);
      if ok { AllKeepDirs(next, dest, es[1..], links); }
    }
  }

  lemma ConfinedThen(dest: Path, a: Fs, b: Fs, c: Fs)
    requires Confined(dest, a, b) && Confined(dest, b, c)
    ensures Confined(dest, a, c)
  {
  }

  lemma {:induction false} StayingIsConfined(fs: Fs, dest: Path, es: seq<TarEntry>, links: nat)
    requires FsOk(fs) && dest in fs.tree && fs.tree[dest] == Dir
    requires AllStay(fs, dest, es, links)
    ensures Confined(dest, fs, ExtractAll(fs, dest, es, links).0)
    decreases |es|
  {
    if es != [] {
      hide ExtractOne, FsOk, Strays, Confined;
      EntryKeepsDirs(fs, dest, es[0], links);
      EntryConfined(fs, dest, es[0], links);
      var (next, ok) := ExtractOne(fs, dest, es[0], links);
      if ok {
        StayingIsConfined(next, dest, es[1..], links);
        ConfinedThen(dest, fs, next, ExtractAll(next, dest, es[1..], links).0);
      }
    } else {
      assert Confined(dest, fs, fs);
    }
  }

  /** A directory made outside stays there to the end. */
  lemma {:induction false} StrayingIsNot(fs: Fs, dest: Path, es: seq<TarEntry>, links: nat) returns (l: Path)
    requires FsOk(fs) && dest in fs.tree && fs.tree[dest] == Dir
    requires !AllStay(fs, dest, es, links)
    ensures !(dest <= l) && l !in fs.tree && l in ExtractAll(fs, dest, es, links).0.tree
    decreases |es|
  {
    hide ExtractOne, FsOk, Strays, Spot;
    EntryKeepsDirs(fs, dest, es[0], links);
    EntryConfined(fs, dest, es[0], links);
    var (next, ok) := ExtractOne(fs, dest, es[0], links);
    if Strays(fs.tree, dest, es[0], links) {
      l := Spot(fs.tree, dest, es[0], links).value;
      if ok { NodesStay(next, dest, es[1..], l, links); }
    } else {
      l := StrayingIsNot(next, dest, es[1..], links);
    }
  }

  lemma NodesStay(fs: Fs, dest: Path, es: seq<TarEntry>, l: Path, links: nat)
    requires FsOk(fs) && dest in fs.tree && fs.tree[dest] == Dir && l in fs.tree && fs.tree[l] == Dir
    ensures l in ExtractAll(fs, dest, es, links).0.tree
  {
    AllKeepDirs(fs, dest, es, links);
  }

  /** The extraction changes nothing outside the destination, whether it ends
      normally or stops at an error, exactly if no entry it reaches strays. */
  lemma ExtractionConfined(fs: Fs, dest: Path, es: seq<TarEntry>, links: nat)
    requires FsOk(fs) && dest in fs.tree && fs.tree[dest] == Dir
    ensures Confined(dest, fs, ExtractAll(fs, dest, es, links).0) <==> AllStay(fs, dest, es, links)
  {
    hide ExtractAll, AllStay, FsOk;
    if AllStay(fs, dest, es, links) {
      StayingIsConfined(fs, dest, es, links);
    } else {
      var l := StrayingIsNot(fs, dest, es, links);
    }
  }

  /** `safe_extract_tar` from the start: directories are made on the way to the
      destination, and then the same holds. */
  lemma SafeExtractConfined(fs: Fs, dest: Path, es: seq<TarEntry>, links: nat)
    requires FsOk(fs) && Solid(fs.tree, dest)
    ensures var (made, there) := MakeDirs(fs, dest, links);
            var after := Extracted(fs, dest, es, links).0;
            && Grown(fs, made, dest)
            && (!there ==> after == made)
            && (there ==> (Confined(dest, made, after) <==> AllStay(made, dest, es, links)))
  {
    hide ExtractAll, AllStay, Grown, Confined;
    if dest != [] { SolidParent(fs.tree, dest); }
    MakeDirsGrows(fs, dest, links);
    var (made, there) := MakeDirs(fs, dest, links);
    SolidGrows(fs, made, dest, dest);
    if there {
      SolidIsDir(made.tree, dest, links);
      ExtractionConfined(made, dest, es, links);
    }
  }
}
