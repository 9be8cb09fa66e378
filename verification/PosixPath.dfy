/** `os.path` on POSIX: normalisation, joining and splitting of path strings, and
    when a normalised relative path climbs above where it starts. */
module PosixPath {
  import opened Text

  function Comps(path: string): (comps: seq<string>)
    ensures |comps| >= 1
    ensures forall k :: 0 <= k < |comps| ==> '/' !in comps[k]
  {
    Split(path, '/')
  }

  predicate IsAbs(path: string) { StartsWith(path, "/") }

  /** One round of the loop in `normpath`. */
  function Push(done: seq<string>, comp: string, absolute: bool): seq<string> {
    if comp == "" || comp == "." then done
    else if comp != ".." || (!absolute && done == []) || (done != [] && done[|done| - 1] == "..") then done + [comp]
    else if done != [] then done[..|done| - 1]
    else done
  }

  function Norm(comps: seq<string>, absolute: bool): (done: seq<string>)
    ensures |done| <= |comps|
  {
    if comps == [] then [] else Push(Norm(comps[..|comps| - 1], absolute), comps[|comps| - 1], absolute)
  }

  /** How many slashes `normpath` keeps in front: POSIX gives exactly two a meaning. */
  function Slashes(path: string): string {
    if !IsAbs(path) then "" else if StartsWith(path, "//") && !StartsWith(path, "///") then "//" else "/"
  }

  function NormPath(path: string): string {
    var s := Slashes(path) + Join(Norm(Comps(path), IsAbs(path)), "/");
    if path == "" || s == "" then "." else s
  }

  function JoinPath(a: string, b: string): string {
    if IsAbs(b) then b
    else if a == "" || a[|a| - 1] == '/' then a + b
    else a + "/" + b
  }

  // ---- walking a path component by component ----

  function Delta(comp: string): int {
    if comp == "" || comp == "." then 0 else if comp == ".." then -1 else 1
  }

  /** Depth reached after walking these components. */
  function Depth(comps: seq<string>): int {
    if comps == [] then 0 else Depth(comps[..|comps| - 1]) + Delta(comps[|comps| - 1])
  }

  /** Started `at` levels down, no prefix of the walk goes above level 0. */
  ghost predicate NeverClimbs(comps: seq<string>, at: nat) {
    at + Depth(comps) >= 0 && (comps == [] || NeverClimbs(comps[..|comps| - 1], at))
  }

  lemma {:induction false} NeverClimbsPrefix(comps: seq<string>, at: nat, k: nat)
    requires NeverClimbs(comps, at) && k <= |comps|
    ensures at + Depth(comps[..k]) >= 0
  {
    if k == |comps| {
      assert comps[..k] == comps;
    } else {
      NeverClimbsPrefix(comps[..|comps| - 1], at, k);
      assert comps[..|comps| - 1][..k] == comps[..k];
    }
  }

  lemma {:induction false} ClimbingPrefix(comps: seq<string>, at: nat) returns (k: nat)
    requires !NeverClimbs(comps, at)
    ensures k <= |comps| && at + Depth(comps[..k]) < 0
  {
    if at + Depth(comps) < 0 {
      k := |comps|;
      assert comps[..k] == comps;
    } else {
      k := ClimbingPrefix(comps[..|comps| - 1], at);
      assert comps[..|comps| - 1][..k] == comps[..k];
    }
  }

  predicate Plain(comp: string) { comp != "" && comp != "." && comp != ".." }

  /** Leading `..` components. */
  function Ups(comps: seq<string>): (u: nat)
    ensures u <= |comps| && (forall k :: 0 <= k < u ==> comps[k] == "..")
    ensures u < |comps| ==> comps[u] != ".."
  {
    if comps != [] && comps[0] == ".." then 1 + Ups(comps[1..]) else 0
  }

  lemma {:induction false} UpsOf(comps: seq<string>, u: nat)
    requires u <= |comps| && (forall k :: 0 <= k < u ==> comps[k] == "..")
    requires u < |comps| ==> comps[u] != ".."
    ensures Ups(comps) == u
  {
    if u > 0 { UpsOf(comps[1..], u - 1); }
  }

  /** Some `..` followed by plain names. */
  ghost predicate Shape(n: seq<string>) {
    forall k :: Ups(n) <= k < |n| ==> Plain(n[k])
  }

  lemma PushShape(m: seq<string>, comp: string)
    requires Shape(m)
    ensures var n := Push(m, comp, false);
            && Shape(n)
            && |n| - 2 * Ups(n) == |m| - 2 * Ups(m) + Delta(comp)
            && (Ups(n) == 0 <==> Ups(m) == 0 && |m| + Delta(comp) >= 0)
  {
    var n, u := Push(m, comp, false), Ups(m);
    if comp == ".." && |m| == u {
      UpsOf(n, u + 1);
    } else {
      assert comp == ".." ==> Plain(m[|m| - 1]);
      UpsOf(n, u);
    }
  }

  /** A normalised relative path is some `..` followed by plain names. It starts
      with `..` exactly when some prefix of the walk goes below depth zero. */
  lemma {:induction false} NormShape(comps: seq<string>)
    ensures var n := Norm(comps, false);
            && Shape(n)
            && Depth(comps) == |n| - 2 * Ups(n)
            && (Ups(n) == 0 <==> NeverClimbs(comps, 0))
  {
    if comps != [] {
      var init := comps[..|comps| - 1];
      NormShape(init);
      PushShape(Norm(init, false), comps[|comps| - 1]);
    }
  }

  /** How far a walk climbs at most is the number of `..` its normal form starts with. */
  lemma {:induction false} ClimbsExactly(comps: seq<string>, at: nat)
    ensures NeverClimbs(comps, at) <==> Ups(Norm(comps, false)) <= at
  {
    NormShape(comps);
    if comps != [] {
      var init, m := comps[..|comps| - 1], Norm(comps[..|comps| - 1], false);
      ClimbsExactly(init, at);
      NormShape(init);
      PushUps(m, comps[|comps| - 1]);
    }
  }

  lemma PushUps(m: seq<string>, comp: string)
    requires Shape(m)
    ensures Ups(Push(m, comp, false)) == Ups(m) + (if comp == ".." && |m| == Ups(m) then 1 else 0)
  {
    var n, u := Push(m, comp, false), Ups(m);
    if comp == ".." && |m| == u {
      UpsOf(n, u + 1);
    } else {
      assert comp == ".." ==> Plain(m[|m| - 1]);
      UpsOf(n, u);
    }
  }

  /** Plain components are their own normal form. */
  lemma {:induction false} NormPlain(comps: seq<string>, absolute: bool)
    requires forall k :: 0 <= k < |comps| ==> Plain(comps[k])
    ensures Norm(comps, absolute) == comps
  {
    if comps != [] {
      NormPlain(comps[..|comps| - 1], absolute);
    }
  }

  /** Behind plain components a walk starts that many levels down. */
  lemma {:induction false} NeverClimbsBehind(a: seq<string>, b: seq<string>)
    requires forall k :: 0 <= k < |a| ==> Plain(a[k])
    ensures Depth(a + b) == |a| + Depth(b)
    ensures NeverClimbs(a + b, 0) <==> NeverClimbs(b, |a|)
  {
    if b == [] {
      assert a + b == a;
      PlainNeverClimbs(a);
    } else {
      NeverClimbsBehind(a, b[..|b| - 1]);
      assert (a + b)[..|a + b| - 1] == a + b[..|b| - 1];
    }
  }

  lemma {:induction false} PlainNeverClimbs(a: seq<string>)
    requires forall k :: 0 <= k < |a| ==> Plain(a[k])
    ensures Depth(a) == |a| && NeverClimbs(a, 0)
  {
    if a != [] { PlainNeverClimbs(a[..|a| - 1]); }
  }

  /** A joined list of components starts with `..` exactly when its first does. */
  lemma JoinStarts(comps: seq<string>)
    requires comps != [] && '/' !in comps[0]
    ensures StartsWith(Join(comps, "/"), "..") <==> StartsWith(comps[0], "..")
  {
    if |comps| > 1 {
      var s, rest := Join(comps, "/"), "/" + Join(comps[1..], "/");
      assert s == comps[0] + rest;
      assert s[|comps[0]|] == '/';
      assert |s| >= 2 ==> s[..2] == [s[0], s[1]];
    }
  }

  lemma {:induction false} NormElements(comps: seq<string>, absolute: bool)
    ensures forall k :: 0 <= k < |Norm(comps, absolute)| ==>
              Norm(comps, absolute)[k] in comps && Norm(comps, absolute)[k] != "" && Norm(comps, absolute)[k] != "."
  {
    if comps != [] { NormElements(comps[..|comps| - 1], absolute); }
  }

  /** The test `normpath(path).startswith("..")` on a relative path: it rejects
      exactly the walks that climb and the names that begin with two dots. */
  lemma DotDotTest(path: string)
    requires !IsAbs(path)
    ensures var n := Norm(Comps(path), false);
            StartsWith(NormPath(path), "..") <==> !NeverClimbs(Comps(path), 0) || (n != [] && StartsWith(n[0], ".."))
  {
    var n := Norm(Comps(path), false);
    NormShape(Comps(path));
    NormElements(Comps(path), false);
    if n != [] {
      JoinStarts(n);
      assert Ups(n) > 0 ==> n[0] == "..";
    }
  }

  /** What a passed test says about the normal form. */
  lemma PassedPath(path: string)
    requires !IsAbs(path) && !StartsWith(NormPath(path), "..")
    ensures NeverClimbs(Comps(path), 0)
    ensures forall k :: 0 <= k < |Norm(Comps(path), false)| ==>
            Plain(Norm(Comps(path), false)[k]) && '/' !in Norm(Comps(path), false)[k]
    ensures NormPath(path) == (if Norm(Comps(path), false) == [] then "." else Join(Norm(Comps(path), false), "/"))
  {
    DotDotTest(path);
    NormShape(Comps(path));
    NormElements(Comps(path), false);
    var n := Norm(Comps(path), false);
    if n != [] { JoinNonempty(n); }
  }

  lemma JoinNonempty(comps: seq<string>)
    requires comps != [] && comps[0] != ""
    ensures Join(comps, "/") != ""
  {
  }

  /** Components behind a joined prefix. */
  lemma {:induction false} CompsBehind(d: seq<string>, target: string)
    requires d != [] && forall k :: 0 <= k < |d| ==> '/' !in d[k]
    ensures Comps(Join(d, "/") + "/" + target) == d + Comps(target)
  {
    if |d| == 1 {
      SplitCons(d[0], '/', target);
    } else {
      CompsBehind(d[1..], target);
      SplitCons(d[0], '/', Join(d[1..], "/") + "/" + target);
      assert Join(d, "/") + "/" + target == d[0] + "/" + (Join(d[1..], "/") + "/" + target);
    }
  }

  // ---- the laws of normalisation ----

  /** The components without empty ones and `.`. */
  function Named(comps: seq<string>): seq<string> {
    if comps == [] then []
    else (if comps[0] == "" || comps[0] == "." then [] else [comps[0]]) + Named(comps[1..])
  }

  lemma {:induction false} NamedAppend(a: seq<string>, b: seq<string>)
    ensures Named(a + b) == Named(a) + Named(b)
  {
    if a == [] {
      assert a + b == b && Named(a) + Named(b) == Named(b);
    } else {
      var all, first := a + b, if a[0] == "" || a[0] == "." then [] else [a[0]];
      NamedAppend(a[1..], b);
      assert all[0] == a[0] && all[1..] == a[1..] + b;
      assert first + (Named(a[1..]) + Named(b)) == (first + Named(a[1..])) + Named(b);
    }
  }

  lemma NamedNothing()
    ensures Named([""]) == []
  {
    assert [""][1..] == [];
  }

  /** Without `..`, normalising only drops empty components and `.`. */
  lemma {:induction false} NormWithoutUps(comps: seq<string>, absolute: bool)
    requires ".." !in comps
    ensures Norm(comps, absolute) == Named(comps)
  {
    if comps != [] {
      var init, last := comps[..|comps| - 1], comps[|comps| - 1];
      assert comps == init + [last];
      NormWithoutUps(init, absolute);
      NamedAppend(init, [last]);
      assert [last][1..] == [];
    }
  }

  /** What fixes the normal form of a relative path: a name is kept, an empty component
      and `.` do nothing, `..` takes the name before it back, and stays where there is
      none to take back. */
  lemma NormLaws(a: seq<string>, name: string)
    requires Plain(name)
    ensures Norm([], false) == []
    ensures Norm(a + [name], false) == Norm(a, false) + [name]
    ensures Norm(a + [""], false) == Norm(a + ["."], false) == Norm(a, false)
    ensures Norm(a + [name, ".."], false) == Norm(a, false)
    ensures Norm(a, false) != [] && Norm(a, false)[|Norm(a, false)| - 1] != ".." ==>
              Norm(a + [".."], false) == Norm(a, false)[..|Norm(a, false)| - 1]
    ensures Norm(a, false) == [] || Norm(a, false)[|Norm(a, false)| - 1] == ".." ==>
              Norm(a + [".."], false) == Norm(a, false) + [".."]
  {
    hide Norm;
    NormOfNothing();
    NormStep(a, name, false);
    NormStep(a, "", false);
    NormStep(a, ".", false);
    NormStep(a, "..", false);
    NormStep(a + [name], "..", false);
    assert a + [name] + [".."] == a + [name, ".."];
  }

  lemma NormOfNothing()
    ensures Norm([], false) == []
  {
  }

  lemma NormStep(a: seq<string>, comp: string, absolute: bool)
    ensures Norm(a + [comp], absolute) == Push(Norm(a, absolute), comp, absolute)
  {
    assert (a + [comp])[..|a|] == a;
  }

  lemma SlashesOf(name: string)
    requires Plain(name) && '/' !in name
    ensures Slashes("/" + name) == "/" && Slashes("//" + name) == "//" && Slashes("///" + name) == "/"
  {
    var one, two, three := "/" + name, "//" + name, "///" + name;
    assert one[..1] == "/" && two[..1] == "/" && three[..1] == "/" && two[..2] == "//" && three[..3] == "///";
    assert one[1] == name[0] && two[2] == name[0] && "//"[1] == '/' && "///"[2] == '/';
    assert one[..2][1] == one[1];
    assert |two| >= 3 && two[..3][2] == two[2];
  }

  lemma NormBehindSlashes(name: string, n: nat)
    requires Plain(name) && '/' !in name
    ensures var text := seq(n, _ => '/') + name; Norm(Comps(text), true) == [name]
    decreases n
  {
    hide Norm;
    CompsBehindSlashes(name, n);
    NormBehindEmpty(name, seq(n, _ => ""));
  }

  lemma {:induction false} CompsBehindSlashes(name: string, n: nat)
    requires '/' !in name
    ensures Comps(seq(n, _ => '/') + name) == seq(n, _ => "") + [name]
  {
    if n == 0 {
      assert seq(0, _ => '/') + name == name && seq(0, _ => "") + [name] == [name];
      SplitWord(name, '/');
    } else {
      var rest := seq(n - 1, _ => '/') + name;
      CompsBehindSlashes(name, n - 1);
      SplitCons("", '/', rest);
      assert seq(n, _ => '/') + name == "" + ['/'] + rest;
      assert seq(n, _ => "") + [name] == [""] + (seq(n - 1, _ => "") + [name]);
    }
  }

  /** Of the slashes in front POSIX lets two mean something of their own; one or three
      are one. */
  lemma SlashesInFront(name: string)
    requires Plain(name) && '/' !in name
    ensures NormPath("/" + name) == "/" + name == NormPath("///" + name)
    ensures NormPath("//" + name) == "//" + name
  {
    hide Norm, Comps, Slashes;
    SlashesOf(name);
    NormBehindSlashes(name, 1);
    NormBehindSlashes(name, 2);
    NormBehindSlashes(name, 3);
    assert seq(1, _ => '/') + name == "/" + name && seq(2, _ => '/') + name == "//" + name;
    assert seq(3, _ => '/') + name == "///" + name;
    assert Join([name], "/") == name;
    Absolute(name);
  }

  lemma Absolute(rest: string)
    ensures IsAbs("/" + rest) && IsAbs("//" + rest) && IsAbs("///" + rest)
  {
  }

  lemma NormBehindEmpty(name: string, empty: seq<string>)
    requires Plain(name) && forall k :: 0 <= k < |empty| ==> empty[k] == ""
    ensures Norm(empty + [name], true) == [name]
  {
    NormWithoutUps(empty, true);
    NamedEmpty(empty);
    NormStep(empty, name, true);
  }

  lemma {:induction false} NamedEmpty(empty: seq<string>)
    requires forall k :: 0 <= k < |empty| ==> empty[k] == ""
    ensures Named(empty) == []
  {
    if empty != [] { NamedEmpty(empty[1..]); }
  }

  /** Normalising the first part of a path first changes nothing. */
  lemma {:induction false} NormInParts(a: seq<string>, b: seq<string>)
    ensures Norm(a + b, false) == Norm(Norm(a, false) + b, false)
  {
    if b == [] {
      assert a + b == a && Norm(a, false) + b == Norm(a, false);
      NormFixed(a);
    } else {
      var init, last := b[..|b| - 1], b[|b| - 1];
      NormInParts(a, init);
      NormStep(a + init, last, false);
      NormStep(Norm(a, false) + init, last, false);
      assert a + b == a + init + [last] && Norm(a, false) + b == Norm(a, false) + init + [last];
    }
  }

  lemma NormFixed(a: seq<string>)
    ensures Norm(Norm(a, false), false) == Norm(a, false)
  {
    NormShape(a);
    ShapeIsNormal(Norm(a, false));
  }

  lemma {:induction false} ShapeIsNormal(n: seq<string>)
    requires Shape(n)
    ensures Norm(n, false) == n
  {
    if n != [] {
      hide Norm;
      var init, last := n[..|n| - 1], n[|n| - 1];
      UpsOf(init, if Ups(n) < |n| then Ups(n) else |n| - 1);
      ShapeIsNormal(init);
      assert n == init + [last];
      NormStep(init, last, false);
    }
  }

  // ---- dirname and basename ----

  function LastSlash(path: string): (i: nat)
    ensures i <= |path| && (i > 0 ==> path[i - 1] == '/') && '/' !in path[i..]
  {
    if path == "" then 0
    else if path[|path| - 1] == '/' then |path|
    else
      var i := LastSlash(path[..|path| - 1]);
      assert path[i..] == path[..|path| - 1][i..] + [path[|path| - 1]];
      i
  }

  function StripRight(s: string, c: char): string {
    if s != "" && s[|s| - 1] == c then StripRight(s[..|s| - 1], c) else s
  }

  predicate AllAre(s: string, c: char) { forall k :: 0 <= k < |s| ==> s[k] == c }

  /** `os.path.dirname`. */
  function Dirname(path: string): string {
    var head := path[..LastSlash(path)];
    if AllAre(head, '/') then head else StripRight(head, '/')
  }

  /** `os.path.basename`. */
  function Basename(path: string): string { path[LastSlash(path)..] }

  lemma NoneAfter(path: string, i: nat)
    requires i <= |path| && '/' !in path[i..]
    ensures forall k :: i <= k < |path| ==> path[k] != '/'
  {
    forall k | i <= k < |path| ensures path[k] != '/' { assert path[k] == path[i..][k - i]; }
  }

  lemma LastSlashUnique(path: string, i: nat)
    requires i <= |path| && (i > 0 ==> path[i - 1] == '/') && '/' !in path[i..]
    ensures LastSlash(path) == i
  {
    NoneAfter(path, i);
    NoneAfter(path, LastSlash(path));
  }

  lemma {:induction false} JoinLast(comps: seq<string>)
    requires |comps| >= 2
    ensures Join(comps, "/") == Join(comps[..|comps| - 1], "/") + "/" + comps[|comps| - 1]
  {
    if |comps| == 2 {
      assert comps[..1] == [comps[0]];
      assert comps[1..] == [comps[1]];
    } else {
      JoinLast(comps[1..]);
      assert comps[1..][..|comps| - 2] == comps[..|comps| - 1][1..];
    }
  }

  lemma {:induction false} JoinEnd(comps: seq<string>)
    requires comps != [] && forall k :: 0 <= k < |comps| ==> comps[k] != "" && '/' !in comps[k]
    ensures var s := Join(comps, "/"); s != "" && s[0] != '/' && s[|s| - 1] != '/'
  {
    if |comps| > 1 { JoinEnd(comps[1..]); }
  }

  lemma SplitAtSlash(head: string, last: string)
    requires '/' !in last && head != "" && head[0] != '/' && head[|head| - 1] != '/'
    ensures Dirname(head + "/" + last) == head && Basename(head + "/" + last) == last
  {
    var s, h := head + "/" + last, head + "/";
    assert s[|head| + 1..] == last;
    LastSlashUnique(s, |head| + 1);
    assert s[..|head| + 1] == h;
    assert h[0] == head[0] && !AllAre(h, '/');
    assert h[..|h| - 1] == head && StripRight(head, '/') == head;
  }

  /** On a normalised relative path, `dirname` and `basename` take the last
      component off. */
  lemma SplitNormalised(comps: seq<string>)
    requires comps != [] && forall k :: 0 <= k < |comps| ==> comps[k] != "" && '/' !in comps[k]
    ensures Dirname(Join(comps, "/")) == Join(comps[..|comps| - 1], "/")
    ensures Basename(Join(comps, "/")) == comps[|comps| - 1]
  {
    if |comps| == 1 {
      LastSlashUnique(comps[0], 0);
    } else {
      JoinLast(comps);
      JoinEnd(comps[..|comps| - 1]);
      SplitAtSlash(Join(comps[..|comps| - 1], "/"), comps[|comps| - 1]);
    }
  }
}
