/** Where an archive entry lands: resolving a path below the destination one
    component at a time, stopping as soon as a link leads outside. */
module TarResolve {
  import opened Wrappers
  import opened Text
  import opened PosixPath
  import opened FileTree

  /** An absolute path without links, written out. */
  function PathText(p: Path): string { "/" + Join(p, "/") }

  /** The components of a path, empty ones and `.` left out. */
  function Parts(text: string): seq<string> { Named(Comps(text)) }

  /** The textual test that a path is the destination or lies below it. */
  predicate Within(dest: Path, text: string) {
    text == PathText(dest) || StartsWith(text, PathText(dest) + "/")
  }

  /** Where a link in directory `at` points, `..` removed textually. */
  function LexicalTarget(at: Path, target: string): string {
    NormPath(if IsAbs(target) then target else JoinPath(PathText(at), target))
  }

  /** One component: below a directory whose real path is `current`. */
  function WalkInto(tree: Tree, dest: Path, current: Path, part: string, links: nat): Option<Path> {
    match LStat(tree, current + [part], links)
    case Some(Link(target)) =>
      var lexical := LexicalTarget(current, target);
      (match RealPath(tree, Parts(lexical), links)
       case Some(actual) => if Within(dest, PathText(actual)) then Some(actual) else None
       case None => if Within(dest, lexical) then Some(Parts(lexical)) else None)
    case _ => Some(current + [part])
  }

  function ResolveWithin(tree: Tree, dest: Path, current: Path, parts: seq<string>, links: nat): Option<Path>
    decreases |parts|
  {
    if parts == [] then Some(current)
    else
      match WalkInto(tree, dest, current, parts[0], links)
      case None => None
      case Some(next) => ResolveWithin(tree, dest, next, parts[1..], links)
  }

  /** The loop over the components; None where the source raises. */
  method WalkParts(tree: Tree, dest: Path, parts: seq<string>, links: nat) returns (found: Option<Path>)
    ensures found == ResolveWithin(tree, dest, dest, parts, links)
  {
    var current, i := dest, 0;
    while i < |parts|
      invariant 0 <= i <= |parts|
      invariant ResolveWithin(tree, dest, current, parts[i..], links) == ResolveWithin(tree, dest, dest, parts, links)
    {
      assert parts[i..][1..] == parts[i + 1..];
      current :- WalkInto(tree, dest, current, parts[i], links);
      i := i + 1;
    }
    found := Some(current);
  }

  // ---- path texts and their components ----

  lemma {:induction false} NamedPlain(comps: seq<string>)
    requires forall k :: 0 <= k < |comps| ==> Plain(comps[k])
    ensures Named(comps) == comps
  {
    if comps != [] { NamedPlain(comps[1..]); }
  }

  lemma PartsBehindSlash(text: string)
    ensures Parts("/" + text) == Parts(text)
  {
    SplitCons("", '/', text);
    assert "" + ['/'] + text == "/" + text;
  }

  lemma NoParts()
    ensures Parts("") == []
  {
    assert Comps("") == [""] && [""][1..] == [];
    assert Parts("") == Named([]);
  }

  lemma PartsOfJoin(p: Path)
    requires AllPlain(p)
    ensures Parts(Join(p, "/")) == p
    ensures Parts(PathText(p)) == p
    ensures Parts("//" + Join(p, "/")) == p
  {
    hide Named;
    if p == [] {
      NoParts();
    } else {
      SplitJoin(p, '/');
      NamedPlain(p);
    }
    PartsBehindSlash(Join(p, "/"));
    PartsBehindSlash("/" + Join(p, "/"));
    assert "/" + ("/" + Join(p, "/")) == "//" + Join(p, "/");
  }

  /** An absolute normal form has no `..` at all. */
  lemma {:induction false} AbsoluteNormPlain(comps: seq<string>)
    requires forall k :: 0 <= k < |comps| ==> '/' !in comps[k]
    ensures AllPlain(Norm(comps, true))
  {
    if comps != [] { AbsoluteNormPlain(comps[..|comps| - 1]); }
  }

  lemma LexicalParts(at: Path, target: string)
    ensures AllPlain(Parts(LexicalTarget(at, target)))
    ensures var p := Parts(LexicalTarget(at, target));
            LexicalTarget(at, target) == PathText(p) || LexicalTarget(at, target) == "//" + Join(p, "/")
  {
    hide Comps, Norm, Join;
    var joined := if IsAbs(target) then target else JoinPath(PathText(at), target);
    assert IsAbs(joined) by {
      if !IsAbs(target) { assert PathText(at)[0] == '/' && joined[0] == '/'; }
    }
    var n := Norm(Comps(joined), true);
    AbsoluteNormPlain(Comps(joined));
    PartsOfJoin(n);
    assert Slashes(joined) == "/" || Slashes(joined) == "//";
    assert NormPath(joined) == Slashes(joined) + Join(n, "/");
  }

  lemma JoinInjective(p: Path, q: Path)
    requires AllPlain(p) && AllPlain(q) && Join(p, "/") == Join(q, "/")
    ensures p == q
  {
    PartsOfJoin(p);
    PartsOfJoin(q);
  }

  lemma WithinStarts(dest: Path, text: string)
    requires Within(dest, "/" + text)
    ensures text == Join(dest, "/") || exists rest :: text == Join(dest, "/") + "/" + rest
  {
    hide Join;
    var d := Join(dest, "/");
    if "/" + text == PathText(dest) {
      assert ("/" + text)[1..] == text && PathText(dest)[1..] == d;
    } else {
      var rest := text[|d| + 1..];
      assert "/" + text == PathText(dest) + "/" + rest;
      assert ("/" + text)[1..] == d + "/" + rest;
    }
  }

  lemma {:induction false} PrefixText(dest: Path, p: Path)
    requires dest <= p && dest != []
    ensures Within(dest, PathText(p))
  {
    if dest == p {
    } else {
      JoinAppend(dest, p[|dest|..], "/");
      assert dest + p[|dest|..] == p;
      assert PathText(p) == PathText(dest) + "/" + Join(p[|dest|..], "/");
    }
  }

  /** The textual test is the prefix test on components: the separator behind the
      destination keeps `/tmp/ab` out of `/tmp/a`. Only for the root it is another:
      it takes the root itself, and the texts that begin with two slashes. */
  lemma WithinIsPrefix(dest: Path, p: Path)
    requires AllPlain(dest) && AllPlain(p)
    ensures Within(dest, PathText(p)) <==> if dest == [] then p == [] else dest <= p
    ensures Within(dest, "//" + Join(p, "/")) <==> dest == []
  {
    hide Join, Comps;
    var t := Join(p, "/");
    if dest == [] {
      WithinRoot(p);
    } else {
      if Within(dest, PathText(p)) { TextBelow(dest, t, p); }
      if dest <= p { PrefixText(dest, p); }
      if Within(dest, "//" + t) { WithinSecond(dest, "//" + t); }
    }
  }

  lemma WithinRoot(p: Path)
    requires AllPlain(p)
    ensures Within([], PathText(p)) <==> p == []
    ensures Within([], "//" + Join(p, "/"))
  {
    assert Join([], "/") == "";
    var t := Join(p, "/");
    if p != [] {
      JoinEnd(p);
      assert PathText(p)[1] == t[0];
      assert |PathText(p)| >= 2 && PathText(p)[..2][1] != "//"[1];
    }
    assert ("//" + t)[..2] == "//";
  }

  lemma WithinSecond(dest: Path, text: string)
    requires AllPlain(dest) && dest != [] && Within(dest, text)
    ensures |text| > 1 && text[1] != '/'
  {
    JoinEnd(dest);
    assert PathText(dest)[1] == Join(dest, "/")[0];
  }

  lemma TextBelow(dest: Path, text: string, p: Path)
    requires AllPlain(dest) && AllPlain(p) && dest != []
    requires text == Join(p, "/") && Within(dest, "/" + text)
    ensures dest <= p
  {
    hide Within;
    WithinStarts(dest, text);
    if text == Join(dest, "/") {
      JoinInjective(p, dest);
    } else {
      var rest :| text == Join(dest, "/") + "/" + rest;
      CompsBehind(dest, rest);
      assert text != "";
      SplitJoin(p, '/');
    }
  }

  // ---- what the walk ends at ----

  /** A link leads to something that exists, or else the text of its target passes
      through no link. */
  ghost predicate LinkLeads(tree: Tree, current: Path, part: string, links: nat) {
    match LStat(tree, current + [part], links)
    case Some(Link(target)) =>
      var lexical := Parts(LexicalTarget(current, target));
      Exists(tree, lexical, links) || Solid(tree, lexical)
    case _ => true
  }

  /** So does every link the walk follows. */
  ghost predicate LinksLead(tree: Tree, dest: Path, current: Path, parts: seq<string>, links: nat)
    decreases |parts|
  {
    parts != [] ==>
      var next := WalkInto(tree, dest, current, parts[0], links);
      next.Some? ==>
        LinkLeads(tree, current, parts[0], links) && LinksLead(tree, dest, next.value, parts[1..], links)
  }

  /** Every path the walk passes is its own real path, at or below the destination. */
  ghost predicate EachReal(tree: Tree, dest: Path, current: Path, parts: seq<string>, links: nat)
    decreases |parts|
  {
    && dest <= current && Solid(tree, current)
    && (parts != [] ==>
          var next := WalkInto(tree, dest, current, parts[0], links);
          next.Some? ==> EachReal(tree, dest, next.value, parts[1..], links))
  }

  lemma WithinBelow(dest: Path, p: Path, text: string)
    requires AllPlain(dest) && AllPlain(p) && Within(dest, text)
    requires text == PathText(p) || text == "//" + Join(p, "/")
    ensures dest <= p
  {
    hide Within;
    if dest != [] { WithinIsPrefix(dest, p); }
  }

  lemma WalkIntoReal(tree: Tree, dest: Path, current: Path, part: string, links: nat)
    requires WellFormed(tree) && AllPlain(dest) && dest <= current && Solid(tree, current)
    requires Plain(part) && '/' !in part
    requires WalkInto(tree, dest, current, part, links).Some?
    ensures var next := WalkInto(tree, dest, current, part, links).value;
            dest <= next && (Solid(tree, next) <==> LinkLeads(tree, current, part, links))
  {
    hide LexicalTarget, Parts, PathText, Within, Join;
    var candidate := current + [part];
    assert Parent(candidate) == current;
    SolidEntry(tree, candidate, links);
    if candidate in tree && tree[candidate].Link? {
      var lexical := LexicalTarget(current, tree[candidate].target);
      LexicalParts(current, tree[candidate].target);
      var found := RealPath(tree, Parts(lexical), links);
      if found.Some? {
        ResolveIsReal(tree, [], Parts(lexical), links);
        RealIsSolid(tree, found.value);
        WithinBelow(dest, found.value, PathText(found.value));
      } else {
        WithinBelow(dest, Parts(lexical), lexical);
      }
    } else {
      SolidChild(tree, current, part);
    }
  }

  /** The walk passes only real paths at or below the destination exactly when the
      links it follows lead somewhere. */
  lemma {:induction false} RealWalks(tree: Tree, dest: Path, current: Path, parts: seq<string>, links: nat)
    requires WellFormed(tree) && AllPlain(dest) && dest <= current && Solid(tree, current)
    requires AllPlain(parts)
    ensures LinksLead(tree, dest, current, parts, links) <==> EachReal(tree, dest, current, parts, links)
    decreases |parts|
  {
    if parts != [] {
      hide LinkLeads, WalkInto, Solid;
      var next := WalkInto(tree, dest, current, parts[0], links);
      if next.Some? {
        WalkIntoReal(tree, dest, current, parts[0], links);
        assert AllPlain(parts[1..]);
        if Solid(tree, next.value) { RealWalks(tree, dest, next.value, parts[1..], links); }
      }
    }
  }

  lemma {:induction false} WalkEnds(tree: Tree, dest: Path, current: Path, parts: seq<string>, links: nat)
    requires EachReal(tree, dest, current, parts, links)
    requires ResolveWithin(tree, dest, current, parts, links).Some?
    ensures var end := ResolveWithin(tree, dest, current, parts, links).value; dest <= end && Solid(tree, end)
    decreases |parts|
  {
    hide Solid, WalkInto;
    if parts != [] { WalkEnds(tree, dest, WalkInto(tree, dest, current, parts[0], links).value, parts[1..], links); }
  }

  /** While the links it follows lead somewhere, `_resolve_within` returns a path
      that is its own real path and lies at or below the destination. */
  lemma WalkStaysWithin(tree: Tree, dest: Path, parts: seq<string>, links: nat)
    requires WellFormed(tree) && Solid(tree, dest) && AllPlain(parts)
    requires LinksLead(tree, dest, dest, parts, links)
    requires ResolveWithin(tree, dest, dest, parts, links).Some?
    ensures var end := ResolveWithin(tree, dest, dest, parts, links).value;
            dest <= end && Solid(tree, end) && RealPath(tree, end, links) == if end in tree then Some(end) else None
  {
    RealWalks(tree, dest, dest, parts, links);
    WalkEnds(tree, dest, dest, parts, links);
    SolidRealPath(tree, ResolveWithin(tree, dest, dest, parts, links).value, links);
  }

  /** One component without any condition: at or below the destination, and a real
      path unless nothing is there. */
  lemma WalkIntoWithin(tree: Tree, dest: Path, current: Path, part: string, links: nat)
    requires WellFormed(tree) && AllPlain(dest) && dest <= current && Landed(tree, current, links)
    requires Plain(part) && '/' !in part
    requires WalkInto(tree, dest, current, part, links).Some?
    ensures var next := WalkInto(tree, dest, current, part, links).value; dest <= next && Landed(tree, next, links)
  {
    hide LexicalTarget, Parts, PathText, Within, Join, Resolve;
    var candidate := current + [part];
    assert Parent(candidate) == current;
    if Solid(tree, current) {
      WalkIntoReal(tree, dest, current, part, links);
      SolidEntry(tree, candidate, links);
      if candidate in tree && tree[candidate].Link? { LexicalParts(current, tree[candidate].target); }
    } else if RealPath(tree, candidate, links).Some? {
      ResolveStart(tree, [], current, part, links);
    }
  }

  /** A real path, or one where nothing is. */
  ghost predicate Landed(tree: Tree, p: Path, links: nat) {
    AllPlain(p) && (Solid(tree, p) || RealPath(tree, p, links).None?)
  }

  /** `_resolve_within` on any tree: the text of its result lies at or below the
      destination, and it is a real path unless nothing is there. */
  lemma {:induction false} WalkLands(tree: Tree, dest: Path, current: Path, parts: seq<string>, links: nat)
    requires WellFormed(tree) && AllPlain(dest) && dest <= current && Landed(tree, current, links)
    requires AllPlain(parts)
    requires ResolveWithin(tree, dest, current, parts, links).Some?
    ensures var end := ResolveWithin(tree, dest, current, parts, links).value; dest <= end && Landed(tree, end, links)
    decreases |parts|
  {
    if parts != [] {
      hide Landed, WalkInto;
      WalkIntoWithin(tree, dest, current, parts[0], links);
      assert AllPlain(parts[1..]);
      WalkLands(tree, dest, WalkInto(tree, dest, current, parts[0], links).value, parts[1..], links);
    }
  }

  /** Where no link is on the way, the walk goes straight down. */
  lemma {:induction false} WalkWithoutLinks(tree: Tree, dest: Path, current: Path, parts: seq<string>, links: nat)
    requires WellFormed(tree) && AllPlain(parts)
    requires Solid(tree, current + parts)
    ensures ResolveWithin(tree, dest, current, parts, links) == Some(current + parts)
    decreases |parts|
  {
    var p := current + parts;
    if parts == [] {
      assert p == current;
    } else {
      hide Solid;
      var next := current + [parts[0]];
      assert next + parts[1..] == p;
      SolidPrefix(tree, p, |current|);
      SolidPrefix(tree, p, |current| + 1);
      assert p[..|current|] == current && p[..|current| + 1] == next && Parent(next) == current;
      SolidEntry(tree, next, links);
      NoLink(tree, next);
      WalkWithoutLinks(tree, dest, next, parts[1..], links);
    }
  }

  lemma SolidPrefix(tree: Tree, p: Path, n: nat)
    requires Solid(tree, p) && n <= |p|
    ensures Solid(tree, p[..n])
  {
    assert forall k :: 0 <= k <= n ==> p[..n][..k] == p[..k];
  }

  lemma NoLink(tree: Tree, p: Path)
    requires Solid(tree, p)
    ensures p in tree ==> !tree[p].Link?
  {
    assert p[..|p|] == p;
  }

  // ---- links that lead somewhere inside are followed as the kernel follows them ----

  /** Empty components and `.` can be left out of a walk that succeeds. */
  lemma {:induction false} ResolveNamed(tree: Tree, at: Path, a: seq<string>, b: seq<string>, links: nat)
    requires Resolve(tree, at, a + b, links).Some?
    ensures Resolve(tree, at, a + Named(b), links) == Resolve(tree, at, a + b, links)
    decreases links, |a| + |b|, |b|
  {
    var all, named := a + b, a + Named(b);
    if a == [] {
      assert all == b && named == Named(b);
      if b != [] {
        if b[0] == "" || b[0] == "." {
          assert [] + b[1..] == b[1..] && [] + Named(b[1..]) == Named(b);
          ResolveNamed(tree, at, [], b[1..], links);
        } else {
          assert [b[0]] + b[1..] == b && [b[0]] + Named(b[1..]) == Named(b);
          ResolveNamed(tree, at, [b[0]], b[1..], links);
        }
      }
    } else {
      var c := a[0];
      assert all[0] == c && all[1..] == a[1..] + b;
      assert named[0] == c && named[1..] == a[1..] + Named(b);
      if c == "" || c == "." {
        ResolveNamed(tree, at, a[1..], b, links);
      } else if c == ".." {
        ResolveNamed(tree, if at == [] then [] else Parent(at), a[1..], b, links);
      } else {
        match tree[at + [c]]
        case Link(target) =>
          assert Comps(target) + all[1..] == (Comps(target) + a[1..]) + b;
          assert Comps(target) + named[1..] == (Comps(target) + a[1..]) + Named(b);
          ResolveNamed(tree, if IsAbs(target) then [] else at, Comps(target) + a[1..], b, links - 1);
        case _ => ResolveNamed(tree, at + [c], a[1..], b, links);
      }
    }
  }

  lemma JoinedComps(at: Path, target: string)
    requires AllPlain(at) && !IsAbs(target)
    ensures IsAbs(JoinPath(PathText(at), target))
    ensures Comps(JoinPath(PathText(at), target)) == [""] + at + Comps(target)
  {
    var joined := JoinPath(PathText(at), target);
    if at == [] {
      assert joined == "/" + target;
      assert "" + ['/'] + target == joined;
      SplitCons("", '/', target);
      assert [""] + at == [""];
    } else {
      JoinEnd(at);
      assert PathText(at)[|PathText(at)| - 1] == Join(at, "/")[|Join(at, "/")| - 1];
      var text := Join(at, "/") + "/" + target;
      assert joined == "" + ['/'] + text;
      SplitCons("", '/', text);
      CompsBehind(at, target);
      assert [""] + (at + Comps(target)) == [""] + at + Comps(target);
    }
  }

  lemma NormTextParts(path: string)
    requires IsAbs(path)
    ensures Parts(NormPath(path)) == Norm(Comps(path), true)
  {
    hide Comps, Norm, Join, Parts;
    var n := Norm(Comps(path), true);
    AbsoluteNormPlain(Comps(path));
    PartsOfJoin(n);
    assert Slashes(path) == "/" || Slashes(path) == "//";
    assert NormPath(path) == Slashes(path) + Join(n, "/");
  }

  /** The text of a target without `..` has the components of the target, behind those
      of the directory of the link if it is relative. */
  lemma TargetParts(at: Path, target: string)
    requires AllPlain(at) && ".." !in Comps(target)
    ensures Parts(LexicalTarget(at, target)) == (if IsAbs(target) then [] else at) + Named(Comps(target))
  {
    hide Comps, NormPath, Named, Parts, JoinPath;
    if IsAbs(target) {
      NormTextParts(target);
      NormWithoutUps(Comps(target), true);
    } else {
      var joined := JoinPath(PathText(at), target);
      JoinedComps(at, target);
      NormTextParts(joined);
      assert ".." !in [""] + at + Comps(target) by { assert forall c :: c in at ==> Plain(c); }
      NormWithoutUps([""] + at + Comps(target), true);
      NamedBehind(at, Comps(target));
    }
  }

  lemma NamedBehind(at: Path, comps: seq<string>)
    requires AllPlain(at)
    ensures Named([""] + at + comps) == at + Named(comps)
  {
    hide Named;
    NamedAppend([""] + at, comps);
    NamedAppend([""], at);
    NamedPlain(at);
    NamedNothing();
    assert [] + at == at;
  }

  /** Where a link may lead: at or below the destination; for the root, the root. */
  predicate Inside(dest: Path, p: Path) { if dest == [] then p == [] else dest <= p }

  /** A link without `..` in its target that leads to something is followed to where
      the kernel follows it, if that is inside, and refused otherwise. */
  lemma LinkIsFollowed(tree: Tree, dest: Path, current: Path, part: string, links: nat)
    requires WellFormed(tree) && AllPlain(dest) && Solid(tree, current) && Plain(part)
    requires current + [part] in tree && tree[current + [part]].Link?
    requires ".." !in Comps(tree[current + [part]].target)
    requires Resolve(tree, current, [part], links).Some?
    ensures var r := Resolve(tree, current, [part], links).value;
            WalkInto(tree, dest, current, part, links) == if Inside(dest, r) then Some(r) else None
  {
    hide LexicalTarget, Parts, PathText, Within, Join, Named, Comps;
    var candidate := current + [part];
    var target, r := tree[candidate].target, Resolve(tree, current, [part], links).value;
    assert Parent(candidate) == current && [part][1..] == [];
    assert Comps(target) + [] == Comps(target);
    SolidEntry(tree, candidate, links);
    TargetParts(current, target);
    FollowedFromRoot(tree, current, target, links);
    ResolveIsReal(tree, current, [part], links);
    assert AllPlain(r);
    WithinIsPrefix(dest, r);
  }

  lemma FollowedFromRoot(tree: Tree, current: Path, target: string, links: nat)
    requires WellFormed(tree) && current in tree && tree[current] == Dir && links > 0
    requires Resolve(tree, if IsAbs(target) then [] else current, Comps(target), links - 1).Some?
    ensures RealPath(tree, (if IsAbs(target) then [] else current) + Named(Comps(target)), links) ==
            Resolve(tree, if IsAbs(target) then [] else current, Comps(target), links - 1)
  {
    hide Resolve, Comps, Named, IsAbs;
    var from, comps := if IsAbs(target) then [] else current, Comps(target);
    ResolveMoreLinks(tree, from, comps, links - 1, links);
    assert [] + comps == comps && [] + Named(comps) == Named(comps);
    ResolveNamed(tree, from, [], comps, links);
    ResolveThrough(tree, from, 0, Named(comps), links);
    assert from[..0] == [] && from[0..] == from;
  }

  /** The links the walk follows have no `..` in their targets. */
  ghost predicate LinksGoDown(tree: Tree, dest: Path, current: Path, parts: seq<string>, links: nat)
    decreases |parts|
  {
    parts != [] ==>
      && (current + [parts[0]] in tree && tree[current + [parts[0]]].Link? ==>
            ".." !in Comps(tree[current + [parts[0]]].target))
      && var next := WalkInto(tree, dest, current, parts[0], links);
         next.Some? ==> LinksGoDown(tree, dest, next.value, parts[1..], links)
  }

  /** Every link on the way, followed by the kernel, leads inside. */
  ghost predicate LinksStayInside(tree: Tree, dest: Path, current: Path, parts: seq<string>, links: nat)
    decreases |parts|
  {
    parts != [] ==>
      var next := Resolve(tree, current, [parts[0]], links);
      && next.Some?
      && (current + [parts[0]] in tree && tree[current + [parts[0]]].Link? ==> Inside(dest, next.value))
      && LinksStayInside(tree, dest, next.value, parts[1..], links)
  }

  /** One component of an existing path. */
  lemma StepAsKernel(tree: Tree, dest: Path, current: Path, part: string, links: nat)
    requires WellFormed(tree) && AllPlain(dest) && Solid(tree, current) && Plain(part) && '/' !in part
    requires Resolve(tree, current, [part], links).Some?
    requires current + [part] in tree && tree[current + [part]].Link? ==>
               ".." !in Comps(tree[current + [part]].target)
    ensures var r := Resolve(tree, current, [part], links).value;
            && Solid(tree, r)
            && WalkInto(tree, dest, current, part, links) ==
               if current + [part] in tree && tree[current + [part]].Link? && !Inside(dest, r) then None else Some(r)
  {
    hide Inside, LexicalTarget, Parts, PathText, Within, Comps;
    assert current in tree && tree[current] == Dir;
    ResolveIsReal(tree, current, [part], links);
    RealIsSolid(tree, Resolve(tree, current, [part], links).value);
    if tree[current + [part]].Link? {
      LinkIsFollowed(tree, dest, current, part, links);
    } else {
      assert Parent(current + [part]) == current && [part][1..] == [];
      SolidEntry(tree, current + [part], links);
    }
  }

  /** `_resolve_within` on a path that exists, behind links without `..`: it answers
      where the kernel resolves the path, and refuses exactly if a link on the way
      leads outside. */
  lemma {:induction false} WalkAsKernel(tree: Tree, dest: Path, current: Path, parts: seq<string>, links: nat)
    requires WellFormed(tree) && AllPlain(dest) && Solid(tree, current) && AllPlain(parts)
    requires Resolve(tree, current, parts, links).Some?
    requires LinksGoDown(tree, dest, current, parts, links)
    ensures ResolveWithin(tree, dest, current, parts, links) ==
            if LinksStayInside(tree, dest, current, parts, links) then Resolve(tree, current, parts, links) else None
    decreases |parts|
  {
    if parts != [] {
      hide WalkInto, Resolve, Solid, Inside;
      var part, rest := parts[0], parts[1..];
      assert [part] + rest == parts && AllPlain(rest);
      ResolveInTwo(tree, current, [part], rest, links);
      StepAsKernel(tree, dest, current, part, links);
      var r := Resolve(tree, current, [part], links).value;
      if WalkInto(tree, dest, current, part, links).Some? { WalkAsKernel(tree, dest, r, rest, links); }
    } else {
      assert Resolve(tree, current, [], links) == Some(current);
    }
  }

  /** The same from the destination: an existing path is resolved to its real path. */
  lemma WalkFindsRealPath(tree: Tree, dest: Path, parts: seq<string>, links: nat)
    requires WellFormed(tree) && dest in tree && tree[dest] == Dir && AllPlain(parts)
    requires RealPath(tree, dest + parts, links).Some?
    requires LinksGoDown(tree, dest, dest, parts, links)
    ensures ResolveWithin(tree, dest, dest, parts, links) ==
            if LinksStayInside(tree, dest, dest, parts, links) then RealPath(tree, dest + parts, links) else None
  {
    hide ResolveWithin, LinksGoDown, LinksStayInside, Resolve;
    RealIsSolid(tree, dest);
    ResolveThrough(tree, dest, 0, parts, links);
    assert dest[..0] == [] && dest[0..] == dest;
    WalkAsKernel(tree, dest, dest, parts, links);
  }

  // ---- the condition is needed ----

  lemma {:induction false} NormBehindEmpty(comps: seq<string>, absolute: bool)
    ensures Norm([""] + comps, absolute) == Norm(comps, absolute)
  {
    if comps != [] {
      hide Push;
      var all := [""] + comps;
      NormBehindEmpty(comps[..|comps| - 1], absolute);
      assert all[..|all| - 1] == [""] + comps[..|comps| - 1];
      assert all[|all| - 1] == comps[|comps| - 1];
    } else {
      assert [""] + [] == [""] && [""][..0] == [];
    }
  }

  lemma NormPathText(p: Path)
    requires AllPlain(p) && p != []
    ensures NormPath(PathText(p)) == PathText(p)
  {
    hide Norm;
    JoinEnd(p);
    var text := PathText(p);
    assert text[1] == Join(p, "/")[0];
    assert Comps(text) == [""] + p by {
      SplitJoin(p, '/');
      SplitCons("", '/', Join(p, "/"));
      assert "" + ['/'] + Join(p, "/") == text;
    }
    NormBehindEmpty(p, true);
    NormPlain(p, true);
    assert Slashes(text) == "/";
  }

  lemma JoinedText(at: Path, names: Path)
    requires AllPlain(at) && AllPlain(names) && at != [] && names != []
    ensures !IsAbs(Join(names, "/"))
    ensures JoinPath(PathText(at), Join(names, "/")) == PathText(at) + "/" + Join(names, "/")
  {
    JoinEnd(at);
    JoinEnd(names);
    assert PathText(at)[|PathText(at)| - 1] == Join(at, "/")[|Join(at, "/")| - 1];
  }

  lemma Regrouped(d: string, t: string)
    ensures ("/" + d) + "/" + t == "/" + (d + "/" + t)
  {
  }

  /** A target of plain names leads straight down from the link's directory. */
  lemma PlainTarget(at: Path, names: Path)
    requires AllPlain(at) && AllPlain(names) && at != [] && names != []
    ensures LexicalTarget(at, Join(names, "/")) == PathText(at + names)
  {
    hide NormPath, Join, JoinPath, IsAbs;
    JoinedText(at, names);
    JoinAppend(at, names, "/");
    Regrouped(Join(at, "/"), Join(names, "/"));
    NormPathText(at + names);
  }

  /** Directories `d` and `x`; in `d` a link `b` to `/x` and a link `a` to `b/n`. */
  ghost function Example(): Tree {
    map[[] := Dir, ["d"] := Dir, ["x"] := Dir, ["d", "b"] := Link("/x"), ["d", "a"] := Link("b/n")]
  }

  lemma ExampleIsWellFormed()
    ensures WellFormed(Example()) && Solid(Example(), ["d"])
  {
    var tree := Example();
    forall p | p in tree ensures AllPlain(p) && (p != [] ==> Parent(p) in tree && tree[Parent(p)] == Dir) {
      assert p == [] || Parent(p) == [] || Parent(p) == ["d"];
    }
    RealIsSolid(tree, ["d"]);
  }

  lemma CompsOfRootName(name: string)
    requires '/' !in name
    ensures Comps("/" + name) == ["", name]
  {
    SplitWord(name, '/');
    SplitCons("", '/', name);
    assert "" + ['/'] + name == "/" + name;
  }

  lemma BehindLink(rest: seq<string>)
    ensures Resolve(Example(), [], ["d", "b"] + rest, 40) == Resolve(Example(), ["x"], rest, 39)
  {
    var tree := Example();
    var all := ["d", "b"] + rest;
    assert all[1..] == ["b"] + rest && (["b"] + rest)[1..] == rest;
    assert [] + [all[0]] == ["d"] && ["d"] + ["b"] == ["d", "b"] && [] + ["x"] == ["x"];
    assert Resolve(tree, [], all, 40) == Resolve(tree, ["d"], ["b"] + rest, 40);
    CompsOfRootName("x");
    assert "/" + "x" == "/x";
    assert Resolve(tree, ["d"], ["b"] + rest, 40) == Resolve(tree, [], ["", "x"] + rest, 39);
    assert (["", "x"] + rest)[1..] == ["x"] + rest && (["x"] + rest)[1..] == rest;
    assert Resolve(tree, [], ["", "x"] + rest, 39) == Resolve(tree, [], ["x"] + rest, 39);
  }

  lemma ExampleResolves()
    ensures RealPath(Example(), ["d", "b"], 40) == Some(["x"])
    ensures RealPath(Example(), ["d", "b", "n"], 40) == None
  {
    BehindLink([]);
    BehindLink(["n"]);
    assert ["d", "b"] + [] == ["d", "b"] && ["d", "b"] + ["n"] == ["d", "b", "n"] && ["x"] + ["n"] == ["x", "n"];
  }

  lemma TwoNames(a: string, b: string)
    ensures Join([a, b], "/") == a + "/" + b
  {
    assert [a, b][1..] == [b];
  }

  /** The condition cannot be dropped. Where the link `a` has an absent target behind
      the link `b`, the walk answers `d/b/n`, which is not its own real path: the
      entry it names is `x/n`, and that does not lie below `d`. */
  lemma AbsentTargetIsNotReal()
    ensures WellFormed(Example()) && Solid(Example(), ["d"])
    ensures ResolveWithin(Example(), ["d"], ["d"], ["a"], 40) == Some(["d", "b", "n"])
    ensures Entry(Example(), ["d", "b", "n"], 40) == Some(["x", "n"])
  {
    hide LexicalTarget, Parts, PathText, Within, Resolve, Join;
    ExampleIsWellFormed();
    ExampleResolves();
    var tree := Example();
    assert Parent(["d", "a"]) == ["d"] && ["d"] + ["a"] == ["d", "a"];
    SolidEntry(tree, ["d", "a"], 40);
    TwoNames("b", "n");
    assert "b" + "/" + "n" == "b/n";
    PlainTarget(["d"], ["b", "n"]);
    assert ["d"] + ["b", "n"] == ["d", "b", "n"];
    PartsOfJoin(["d", "b", "n"]);
    PrefixText(["d"], ["d", "b", "n"]);
    assert WalkInto(tree, ["d"], ["d"], "a", 40) == Some(["d", "b", "n"]);
    assert Parent(["d", "b", "n"]) == ["d", "b"] && ["x"] + ["n"] == ["x", "n"];
  }
}
