/** Archives that are safe to extract by their names alone, and one that is not. */
module TarArchives {
  import opened Wrappers
  import opened Text
  import opened PosixPath
  import opened FileTree
  import opened TarResolve
  import opened Bundle
  import opened TarExtract
  import opened TarConfinement

  // ---- archives without members below links ----

  /** The components of a member's name. */
  function NameOf(e: TarEntry): Path { Norm(Comps(e.name), false) }

  function ParentNames(e: TarEntry): Path {
    if NameOf(e) == [] then [] else Parent(NameOf(e))
  }

  /** No member, and no file a hard link names, lies below a member that is a
      symbolic link. An archive of a directory tree is of this kind. */
  predicate NoneBelowLinks(es: seq<TarEntry>) {
    forall i, j :: 0 <= i < |es| && 0 <= j < |es| && es[i].kind == Symlink && NameOf(es[i]) != [] ==>
      && !(NameOf(es[i]) <= ParentNames(es[j]))
      && (es[j].kind == Hardlink ==> !(NameOf(es[i]) <= Norm(Comps(es[j].linkname), false)))
  }

  ghost predicate NoLinksBelow(tree: Tree, dest: Path) {
    forall p :: p in tree && dest <= p ==> !tree[p].Link?
  }

  /** Every link below the destination is a member that is a symbolic link. */
  ghost predicate LinksAreMembers(tree: Tree, dest: Path, es: seq<TarEntry>) {
    forall p :: p in tree && dest <= p && tree[p].Link? ==>
      exists i :: 0 <= i < |es| && es[i].kind == Symlink && NameOf(es[i]) != [] && p == dest + NameOf(es[i])
  }

  lemma NameIsPlain(e: TarEntry)
    requires NameOk(e.name)
    ensures AllPlain(NameOf(e)) && AllPlain(ParentNames(e))
  {
    hide Norm, Comps, NormPath;
    PassedPath(e.name);
  }

  /** Below the destination the way to a name that no link is a prefix of is real. */
  lemma WayIsReal(tree: Tree, dest: Path, es: seq<TarEntry>, parts: Path)
    requires WellFormed(tree) && Solid(tree, dest) && AllPlain(parts) && LinksAreMembers(tree, dest, es)
    requires forall i :: 0 <= i < |es| && es[i].kind == Symlink && NameOf(es[i]) != [] ==> !(NameOf(es[i]) <= parts)
    ensures Solid(tree, dest + parts)
  {
    hide NameOf;
    var p := dest + parts;
    forall k | 0 <= k <= |p| && p[..k] in tree ensures !tree[p[..k]].Link? {
      if k <= |dest| {
        assert p[..k] == dest[..k];
      } else {
        assert dest <= p[..k];
        forall i | 0 <= i < |es| && !(NameOf(es[i]) <= parts) ensures p[..k] != dest + NameOf(es[i]) {
          NotOnTheWay(dest, NameOf(es[i]), parts, k);
        }
      }
    }
  }

  lemma NotOnTheWay(dest: Path, name: Path, parts: Path, k: nat)
    requires !(name <= parts) && |dest| <= k <= |dest + parts|
    ensures (dest + parts)[..k] != dest + name
  {
    assert (dest + parts)[..k] == dest + parts[..k - |dest|];
    assert (dest + name)[|dest|..] == name && (dest + parts[..k - |dest|])[|dest|..] == parts[..k - |dest|];
  }

  /** The texts that the loop walks. */
  lemma WalkedTexts(name: string)
    requires NameOk(name)
    ensures var n := Norm(Comps(name), false);
            && Parts(NormPath(name)) == n
            && Dirname(NormPath(name)) == (if n == [] then "" else Join(Parent(n), "/"))
            && Parts(Dirname(NormPath(name))) == (if n == [] then [] else Parent(n))
            && (n != [] ==> Basename(NormPath(name)) == n[|n| - 1])
            && (n == [] ==> Basename(NormPath(name)) == ".")
  {
    hide Norm, Comps, Join, Dirname, Basename, Parts;
    PassedPath(name);
    var n := Norm(Comps(name), false);
    if n == [] {
      DotParts();
    } else {
      SplitNormalised(n);
      PartsOfJoin(n);
      PartsOfJoin(Parent(n));
    }
  }

  /** In such a tree an entry goes straight to the place its name says. */
  lemma GoesToItsName(tree: Tree, dest: Path, es: seq<TarEntry>, j: nat, links: nat)
    requires WellFormed(tree) && dest in tree && tree[dest] == Dir
    requires NoneBelowLinks(es) && LinksAreMembers(tree, dest, es) && j < |es| && NameOk(es[j].name)
    ensures ParentOf(tree, dest, es[j].name, links) == Some(dest + ParentNames(es[j]))
    ensures Solid(tree, dest + ParentNames(es[j]))
  {
    hide Norm, Comps, Dirname, NormPath, Join, Parts, Solid;
    var e := es[j];
    RealIsSolid(tree, dest);
    NameIsPlain(e);
    WayIsReal(tree, dest, es, ParentNames(e));
    WalkedTexts(e.name);
    WalkWithoutLinks(tree, dest, dest, ParentNames(e), links);
    if Dirname(NormPath(e.name)) == "" {
      WalkedNothing(e.name);
      assert dest + [] == dest;
    }
  }

  lemma WalkedNothing(name: string)
    requires NameOk(name) && Dirname(NormPath(name)) == ""
    ensures var n := Norm(Comps(name), false); n == [] || Parent(n) == []
  {
    hide Norm, Comps, Dirname, NormPath, Join, Parts;
    WalkedTexts(name);
    PassedPath(name);
    var n := Norm(Comps(name), false);
    if n != [] && Parent(n) != [] { JoinEnd(Parent(n)); }
  }

  lemma StaysAtItsName(tree: Tree, dest: Path, es: seq<TarEntry>, j: nat, links: nat)
    requires WellFormed(tree) && dest in tree && tree[dest] == Dir
    requires NoneBelowLinks(es) && LinksAreMembers(tree, dest, es) && j < |es|
    ensures !Strays(tree, dest, es[j], links)
    ensures Spot(tree, dest, es[j], links).Some? ==>
              NameOk(es[j].name) && Spot(tree, dest, es[j], links) == Some(dest + ParentNames(es[j]))
  {
    hide NameOk, ParentOf, Landing, LinkSource, NoneBelowLinks, ParentNames;
    if NameOk(es[j].name) {
      GoesToItsName(tree, dest, es, j, links);
      LandingOfReal(tree, dest + ParentNames(es[j]), links);
    }
  }

  /** An entry that succeeds leaves only members as links. */
  lemma LinksStayMembers(fs: Fs, dest: Path, es: seq<TarEntry>, j: nat, links: nat)
    requires FsOk(fs) && dest in fs.tree && fs.tree[dest] == Dir
    requires NoneBelowLinks(es) && LinksAreMembers(fs.tree, dest, es) && j < |es|
    requires ExtractOne(fs, dest, es[j], links).1
    ensures LinksAreMembers(ExtractOne(fs, dest, es[j], links).0.tree, dest, es)
  {
    hide NameOk, Spot, ExtractOne, NoneBelowLinks, NormPath, Basename, LinkSource, NameOf;
    var e, next := es[j], ExtractOne(fs, dest, es[j], links).0;
    RealIsSolid(fs.tree, dest);
    EntryLands(fs, dest, e, links);
    StaysAtItsName(fs.tree, dest, es, j, links);
    var base := Basename(NormPath(e.name));
    if base != "." {
      MemberPath(dest, e);
      var target := dest + NameOf(e);
      forall p | p in next.tree && dest <= p && next.tree[p].Link?
        ensures exists i :: 0 <= i < |es| && es[i].kind == Symlink && NameOf(es[i]) != [] && p == dest + NameOf(es[i])
      {
        if p != target || e.kind != Symlink { assert p in fs.tree && fs.tree[p] == next.tree[p]; }
      }
    }
  }

  lemma MemberPath(dest: Path, e: TarEntry)
    requires NameOk(e.name) && Basename(NormPath(e.name)) != "."
    ensures NameOf(e) != [] && dest + ParentNames(e) + [Basename(NormPath(e.name))] == dest + NameOf(e)
  {
    hide Norm, Comps, NormPath, Basename, Dirname, Parts, Join;
    WalkedTexts(e.name);
    BehindParent(dest, NameOf(e));
  }

  lemma BehindParent(dest: Path, n: Path)
    requires n != []
    ensures dest + Parent(n) + [n[|n| - 1]] == dest + n
  {
  }

  lemma {:induction false} MembersStay(fs: Fs, dest: Path, es: seq<TarEntry>, k: nat, links: nat)
    requires FsOk(fs) && dest in fs.tree && fs.tree[dest] == Dir
    requires NoneBelowLinks(es) && LinksAreMembers(fs.tree, dest, es) && k <= |es|
    ensures AllStay(fs, dest, es[k..], links)
    decreases |es| - k
  {
    if k < |es| {
      hide Strays, ExtractOne, NoneBelowLinks, LinksAreMembers, FsOk;
      StaysAtItsName(fs.tree, dest, es, k, links) by { WellFormedOf(fs); }
      EntryKeepsDirs(fs, dest, es[k], links);
      var (next, ok) := ExtractOne(fs, dest, es[k], links);
      assert es[k..][1..] == es[k + 1..];
      if ok {
        LinksStayMembers(fs, dest, es, k, links);
        MembersStay(next, dest, es, k + 1, links);
      }
    }
  }

  lemma WellFormedOf(fs: Fs)
    requires FsOk(fs)
    ensures WellFormed(fs.tree)
  {
  }

  /** A test before the call: an archive without members below links, extracted into
      a directory without links, changes nothing outside it. */
  lemma OrdinaryArchivesAreConfined(fs: Fs, dest: Path, es: seq<TarEntry>, links: nat)
    requires FsOk(fs) && dest in fs.tree && fs.tree[dest] == Dir
    requires NoLinksBelow(fs.tree, dest) && NoneBelowLinks(es)
    ensures Confined(dest, fs, ExtractAll(fs, dest, es, links).0)
  {
    hide ExtractAll, AllStay, Confined, NoneBelowLinks;
    MembersStay(fs, dest, es, 0, links);
    assert es[0..] == es;
    ExtractionConfined(fs, dest, es, links);
  }

  // ---- entries behind links ----

  /** An entry whose parent exists, behind links without `..` that stay inside, goes to
      the real path of that parent. */
  lemma ParentIsRealPath(tree: Tree, dest: Path, e: TarEntry, links: nat)
    requires WellFormed(tree) && dest in tree && tree[dest] == Dir && NameOk(e.name)
    requires RealPath(tree, dest + ParentNames(e), links).Some?
    requires LinksGoDown(tree, dest, dest, ParentNames(e), links)
    requires LinksStayInside(tree, dest, dest, ParentNames(e), links)
    ensures ParentOf(tree, dest, e.name, links) == RealPath(tree, dest + ParentNames(e), links)
    ensures e.kind != Device && IsDir(tree, dest + ParentNames(e), links) ==>
              Spot(tree, dest, e, links) == RealPath(tree, dest + ParentNames(e), links)
  {
    hide Norm, Comps, Dirname, NormPath, Join, Parts, Solid, Resolve, LinksGoDown, LinksStayInside, NameOk;
    var names, r := ParentNames(e), RealPath(tree, dest + ParentNames(e), links).value;
    NameIsPlain(e);
    WalkedTexts(e.name);
    WalkFindsRealPath(tree, dest, names, links);
    if Dirname(NormPath(e.name)) == "" {
      WalkedNothing(e.name);
      assert dest + [] == dest;
      RealIsSolid(tree, dest);
      SolidRealPath(tree, dest, links);
    }
    RealPathIsReal(tree, dest + names, links);
    RealIsSolid(tree, r);
    LandingOfReal(tree, r, links);
    ExistingIsOpen(tree, r);
  }

  lemma RealPathIsReal(tree: Tree, p: Path, links: nat)
    requires WellFormed(tree) && RealPath(tree, p, links).Some?
    ensures var r := RealPath(tree, p, links).value; r in tree && !tree[r].Link?
  {
    ResolveIsReal(tree, [], p, links);
  }

  /** So does the file that a hard link names. */
  lemma SourceIsRealPath(tree: Tree, dest: Path, linkname: string, links: nat)
    requires WellFormed(tree) && dest in tree && tree[dest] == Dir && NameOk(linkname)
    requires var names := Norm(Comps(linkname), false);
             && RealPath(tree, dest + names, links).Some?
             && LinksGoDown(tree, dest, dest, names, links) && LinksStayInside(tree, dest, dest, names, links)
    ensures LinkSource(tree, dest, linkname, links) ==
            RealPath(tree, dest + Norm(Comps(linkname), false), links)
  {
    hide Norm, Comps, NormPath, Join, Parts, Resolve, LinksGoDown, LinksStayInside, StartsWith;
    var names := Norm(Comps(linkname), false);
    PassedPath(linkname);
    WalkedTexts(linkname);
    assert AllPlain(names);
    WalkFindsRealPath(tree, dest, names, links);
    RealPathIsReal(tree, dest + names, links);
    var r := RealPath(tree, dest + names, links).value;
    RealIsSolid(tree, r);
    SolidRealPath(tree, r, links);
  }

  // ---- an archive that is not confined ----

  /** What `d` and `x` look like before, and three members: `b -> /x`, `a -> b/n` and
      the file `a/f`. */
  ghost function Before(): Tree { map[[] := Dir, ["d"] := Dir, ["x"] := Dir] }

  function Members(content: string): seq<TarEntry> {
    [TarEntry("b", Symlink, "/x", ""), TarEntry("a", Symlink, "b/n", ""), TarEntry("a/f", Regular, "", content)]
  }

  /** A name that is its own normal form. */
  lemma OwnNormalForm(n: Path)
    requires AllPlain(n) && n != [] && n[0][0] != '.'
    ensures var name := Join(n, "/");
            && NameOk(name) && Basename(NormPath(name)) == n[|n| - 1]
            && Dirname(NormPath(name)) == Join(Parent(n), "/") && Parts(Dirname(NormPath(name))) == Parent(n)
  {
    hide Join, Comps, Norm, NormPath, Dirname, Basename, Parts, NameOk;
    var name := Join(n, "/");
    NormalText(n);
    SplitNormalised(n);
    PartsOfJoin(Parent(n));
  }

  lemma TopName(name: string)
    requires Plain(name) && '/' !in name && name[0] != '.'
    ensures NameOk(name) && Basename(NormPath(name)) == name && Dirname(NormPath(name)) == ""
  {
    OwnNormalForm([name]);
    assert Join([name], "/") == name && Parent([name]) == [];
  }

  /** Only the target changes, if its directory was there. */
  lemma OnlyTarget(before: Fs, after: Fs, target: Path)
    requires FsOk(before) && Touches(before, after, target) && target != [] && target in after.tree
    requires Parent(target) in before.tree
    ensures after.tree == before.tree[target := after.tree[target]]
  {
    forall p | p in after.tree && p != target ensures p in before.tree {
      if p <= target {
        assert p == Parent(target)[..|p|];
        PrefixesAreDirs(before.tree, Parent(target), |p|);
      }
    }
  }

  /** A new link directly below the destination. */
  lemma LinkPlaced(fs: Fs, dest: Path, name: string, target: string, links: nat)
    requires FsOk(fs) && dest in fs.tree && fs.tree[dest] == Dir
    requires Plain(name) && '/' !in name && name[0] != '.' && target != "" && dest + [name] !in fs.tree
    ensures var (next, ok) := ExtractOne(fs, dest, TarEntry(name, Symlink, target, ""), links);
            ok && FsOk(next) && next.tree == fs.tree[dest + [name] := Link(target)]
  {
    hide NormPath, Basename, Dirname, Landing, Place, ExtractOne, NameOk;
    var e := TarEntry(name, Symlink, target, "");
    TopName(name);
    RealIsSolid(fs.tree, dest);
    ExistingIsOpen(fs.tree, dest);
    LandingOfReal(fs.tree, dest, links);
    EntryLands(fs, dest, e, links);
    EntrySucceeds(fs, dest, e, links);
    assert Parent(dest + [name]) == dest;
    OnlyTarget(fs, ExtractOne(fs, dest, e, links).0, dest + [name]);
  }

  lemma SpotOfFile(e: TarEntry)
    requires e.name == "a/f" && e.kind == Regular
    ensures Spot(Example(), ["d"], e, 40) == Some(["x", "n"]) && Basename(NormPath(e.name)) == "f"
  {
    hide NormPath, Basename, Dirname, Join, Resolve, ResolveWithin, NameOk;
    var tree, n := Example(), ["a", "f"];
    TwoNames("a", "f");
    assert "a" + "/" + "f" == "a/f" && Parent(n) == ["a"];
    OwnNormalForm(n);
    JoinOne("a");
    AbsentTargetIsNotReal();
    ExampleResolves();
    assert Parent(["d", "b", "n"]) == ["d", "b"] && ["x"] + ["n"] == ["x", "n"];
    assert Landing(tree, ["d", "b"], 40) == Some(["x"]);
  }

  lemma JoinOne(name: string)
    ensures Join([name], "/") == name
  {
  }

  /** The third member is placed outside `d`. */
  lemma FilePlaced(fs: Fs, content: string)
    requires FsOk(fs) && fs.tree == Example()
    ensures var e := TarEntry("a/f", Regular, "", content);
            var (after, ok) := ExtractOne(fs, ["d"], e, 40);
            && ok && Strays(fs.tree, ["d"], e, 40)
            && ["x", "n", "f"] in after.tree && after.tree[["x", "n", "f"]] == File(fs.nextIno)
            && fs.nextIno in after.data && after.data[fs.nextIno] == content
  {
    hide NormPath, Basename, Place, ExtractOne, Spot, Resolve;
    var e := TarEntry("a/f", Regular, "", content);
    SpotOfFile(e);
    AbsentTargetIsNotReal();
    EntryLands(fs, ["d"], e, 40);
    EntrySucceeds(fs, ["d"], e, 40);
    SpotIsReal(fs.tree, ["d"], e, 40);
    assert ["x", "n"] + ["f"] == ["x", "n", "f"];
  }

  /** The claim of the function does not hold for every archive: this one succeeds
      and leaves a file outside the destination. */
  lemma ConfinementFails(fs: Fs, content: string)
    requires FsOk(fs) && fs.tree == Before()
    ensures var (after, ok) := ExtractAll(fs, ["d"], Members(content), 40);
            && ok && !Confined(["d"], fs, after)
            && ["x", "n", "f"] in after.tree && after.tree[["x", "n", "f"]].File?
            && after.tree[["x", "n", "f"]].ino in after.data
            && after.data[after.tree[["x", "n", "f"]].ino] == content
  {
    hide ExtractOne, Strays, Spot, FsOk;
    var es := Members(content);
    assert ["d"] + ["b"] == ["d", "b"] && ["d"] + ["a"] == ["d", "a"];
    LinkPlaced(fs, ["d"], "b", "/x", 40);
    var fs1 := ExtractOne(fs, ["d"], es[0], 40).0;
    LinkPlaced(fs1, ["d"], "a", "b/n", 40);
    var fs2 := ExtractOne(fs1, ["d"], es[1], 40).0;
    assert fs2.tree == Example();
    FilePlaced(fs2, content);
    ThreeRounds(fs, fs1, fs2, es);
    assert ["x", "n", "f"][0] != ["d"][0];
    assert ["x", "n", "f"] !in fs.tree;
  }

  lemma ThreeRounds(fs: Fs, fs1: Fs, fs2: Fs, es: seq<TarEntry>)
    requires |es| == 3 && ExtractOne(fs, ["d"], es[0], 40) == (fs1, true) &&
             ExtractOne(fs1, ["d"], es[1], 40) == (fs2, true)
    requires ExtractOne(fs2, ["d"], es[2], 40).1
    ensures ExtractAll(fs, ["d"], es, 40) == ExtractOne(fs2, ["d"], es[2], 40)
  {
    hide ExtractOne;
    var rest, last := es[1..], es[2..];
    assert rest[1..] == last && last[1..] == [];
    assert ExtractAll(fs2, ["d"], last, 40) == ExtractOne(fs2, ["d"], es[2], 40);
    assert ExtractAll(fs1, ["d"], rest, 40) == ExtractAll(fs2, ["d"], last, 40);
  }

  // ---- a file behind a link inside ----

  /** The directory `usr/lib`, a link `lib` to it, and the file `lib/f`. */
  function LibraryMembers(content: string): seq<TarEntry> {
    [TarEntry("usr/lib", Directory, "", ""), TarEntry("lib", Symlink, "usr/lib", ""),
     TarEntry("lib/f", Regular, "", content)]
  }

  ghost function Empty(): Tree { map[[] := Dir, ["d"] := Dir] }

  ghost function WithUsrLib(): Tree { Empty()[["d", "usr"] := Dir][["d", "usr", "lib"] := Dir] }

  ghost function WithLib(): Tree { WithUsrLib()[["d", "lib"] := Link("usr/lib")] }

  lemma TwoNamed(a: string, b: string)
    requires Plain(a) && Plain(b) && '/' !in a && '/' !in b && a[0] != '.'
    ensures var name := a + "/" + b;
            && NameOk(name) && Basename(NormPath(name)) == b && Norm(Comps(name), false) == [a, b]
            && Dirname(NormPath(name)) == a && Parts(Dirname(NormPath(name))) == [a]
  {
    TwoNames(a, b);
    var n := [a, b];
    assert Parent(n) == [a];
    OwnNormalForm(n);
    JoinOne(a);
    TwoComps(a, b);
    NormPlain(n, false);
  }

  lemma UsrLibMade(fs: Fs)
    requires FsOk(fs) && fs.tree == Empty()
    ensures var (next, ok) := ExtractOne(fs, ["d"], TarEntry("usr/lib", Directory, "", ""), 40);
            ok && FsOk(next) && next.tree == WithUsrLib()
  {
    hide NormPath, Basename, Dirname, NameOk, Norm, Comps, Parts, ExtractOne, Resolve, Join, Place;
    var e, dest := TarEntry("usr/lib", Directory, "", ""), ["d"];
    var usr := dest + ["usr"];
    TwoNamed("usr", "lib");
    assert "usr" + "/" + "lib" == "usr/lib" && usr == ["d", "usr"] && usr + ["lib"] == ["d", "usr", "lib"];
    RealIsSolid(fs.tree, dest);
    SolidChild(fs.tree, dest, "usr");
    WalkWithoutLinks(fs.tree, dest, dest, ["usr"], 40);
    ExistingIsOpen(fs.tree, dest);
    assert Parent(usr) == dest;
    OpenParent(fs.tree, usr);
    LandingOfReal(fs.tree, usr, 40);
    assert Spot(fs.tree, dest, e, 40) == Some(usr);
    EntrySucceeds(fs, dest, e, 40);
    EntryLands(fs, dest, e, 40);
    UsrLibOnly(fs, ExtractOne(fs, dest, e, 40).0);
  }

  lemma UsrLibOnly(fs: Fs, next: Fs)
    requires FsOk(next) && fs.tree == Empty() && Touches(fs, next, ["d", "usr", "lib"])
    requires ["d", "usr", "lib"] in next.tree && next.tree[["d", "usr", "lib"]] == Dir
    ensures next.tree == WithUsrLib()
  {
    var target := ["d", "usr", "lib"];
    assert Parent(target) == ["d", "usr"];
    forall p | p in next.tree ensures p in WithUsrLib() && next.tree[p] == WithUsrLib()[p] {
      if p !in fs.tree && p != target {
        assert p == target[..|p|] && target[..2] == ["d", "usr"] && target[..1] == ["d"] && target[..3] == target;
      }
    }
  }

  lemma LibIsWellFormed()
    ensures WellFormed(WithLib())
  {
    var tree := WithLib();
    forall p | p in tree ensures AllPlain(p) && (p != [] ==> Parent(p) in tree && tree[Parent(p)] == Dir) {
      assert p == [] || Parent(p) == [] || Parent(p) == ["d"] || Parent(p) == ["d", "usr"];
    }
  }

  lemma UsrLibComps()
    ensures Comps("usr/lib") == ["usr", "lib"]
  {
    TwoComps("usr", "lib");
    assert "usr" + "/" + "lib" == "usr/lib";
  }

  lemma LibResolves()
    ensures Resolve(WithLib(), ["d"], ["lib"], 40) == Some(["d", "usr", "lib"])
  {
    hide Resolve, Comps;
    var tree := WithLib();
    UsrLibComps();
    assert ["d"] + ["lib"] == ["d", "lib"] && ["d"] + ["usr"] == ["d", "usr"];
    assert ["d", "usr"] + ["lib"] == ["d", "usr", "lib"];
    NotStarting("usr/lib", "/");
    ResolveLink(tree, ["d"], "lib", [], 40);
    ResolveDown(tree, ["d"], "usr", ["lib"], 39);
    ResolveDown(tree, ["d", "usr"], "lib", [], 39);
    assert ["lib"] + [] == ["lib"] && ["usr", "lib"] + [] == ["usr"] + ["lib"];
    LibEnds();
  }

  lemma LibEnds()
    ensures Resolve(WithLib(), ["d", "usr", "lib"], [], 39) == Some(["d", "usr", "lib"])
  {
  }

  lemma LibIsFollowed()
    ensures RealPath(WithLib(), ["d", "lib"], 40) == Some(["d", "usr", "lib"])
    ensures LinksGoDown(WithLib(), ["d"], ["d"], ["lib"], 40)
    ensures LinksStayInside(WithLib(), ["d"], ["d"], ["lib"], 40)
  {
    hide Resolve, WalkInto, WellFormed;
    LibIsWellFormed();
    LibResolves();
    UsrLibComps();
    ResolveThrough(WithLib(), ["d"], 0, ["lib"], 40);
    assert ["d"][..0] == [] && ["d"][0..] + ["lib"] == ["d", "lib"];
    assert ["lib"][1..] == [] && ["d"] + ["lib"] == ["d", "lib"];
  }

  lemma SpotBehindLib(e: TarEntry)
    requires e.name == "lib/f" && e.kind == Regular
    ensures Spot(WithLib(), ["d"], e, 40) == Some(["d", "usr", "lib"]) && Basename(NormPath(e.name)) == "f"
  {
    hide NormPath, Basename, Dirname, NameOk, Norm, Comps, Parts, Resolve, Join, LinksGoDown, LinksStayInside;
    hide Spot, WellFormed;
    TwoNamed("lib", "f");
    assert "lib" + "/" + "f" == "lib/f" && Parent(["lib", "f"]) == ["lib"] && ["d"] + ["lib"] == ["d", "lib"];
    LibIsWellFormed();
    LibIsFollowed();
    ParentIsRealPath(WithLib(), ["d"], e, 40);
  }

  lemma FileBehindLib(fs: Fs, content: string)
    requires FsOk(fs) && fs.tree == WithLib()
    ensures var (next, ok) := ExtractOne(fs, ["d"], TarEntry("lib/f", Regular, "", content), 40);
            && ok && next.tree == fs.tree[["d", "usr", "lib", "f"] := File(fs.nextIno)]
            && fs.nextIno in next.data && next.data[fs.nextIno] == content
  {
    hide NormPath, Basename, NameOk, ExtractOne, Resolve, Place, Spot;
    var e, dest, l := TarEntry("lib/f", Regular, "", content), ["d"], ["d", "usr", "lib"];
    SpotBehindLib(e);
    assert l + ["f"] == ["d", "usr", "lib", "f"] && Parent(l + ["f"]) == l;
    ExistingIsOpen(fs.tree, l);
    RealIsSolid(fs.tree, dest);
    EntrySucceeds(fs, dest, e, 40);
    EntryLands(fs, dest, e, 40);
    OnlyTarget(fs, ExtractOne(fs, dest, e, 40).0, l + ["f"]);
  }

  /** The file ends in the directory that the link leads to. */
  lemma LibraryExtracted(fs: Fs, content: string)
    requires FsOk(fs) && fs.tree == Empty()
    ensures var (after, ok) := ExtractAll(fs, ["d"], LibraryMembers(content), 40);
            && ok && ["d", "usr", "lib", "f"] in after.tree && ["d", "f"] !in after.tree
            && var node := after.tree[["d", "usr", "lib", "f"]];
               node.File? && node.ino in after.data && after.data[node.ino] == content
  {
    hide ExtractOne, FsOk;
    var es := LibraryMembers(content);
    UsrLibMade(fs);
    var fs1 := ExtractOne(fs, ["d"], es[0], 40).0;
    assert ["d"] + ["lib"] == ["d", "lib"];
    LinkPlaced(fs1, ["d"], "lib", "usr/lib", 40);
    var fs2 := ExtractOne(fs1, ["d"], es[1], 40).0;
    FileBehindLib(fs2, content);
    ThreeRounds(fs, fs1, fs2, es);
  }
}
