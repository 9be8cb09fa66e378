/** Acceptance of a Compose bundle from its tar headers alone, without unpacking. */
module Bundle {
  import opened Wrappers
  import opened Text
  import opened PosixPath

  const MAX_EXTRACTED_BYTES := 12 * 1024 * 1024 * 1024

  datatype MemberType = Regular | Directory | Symlink | Hardlink | Device | OtherType

  datatype Member = Member(name: string, kind: MemberType, linkname: string, size: int)

  datatype BundleError = BadMember | TooLarge | NoManifest | NoImages | NoApp | BadManifest

  /** The manifest once its JSON is parsed: not readable as such, or a format number and
      a project name without surrounding white space. */
  datatype Manifest = Garbled | Declares(format: int, project: string)

  const BUNDLE_FORMAT := 1

  predicate IsLink(m: Member) { m.kind == Symlink || m.kind == Hardlink }

  /** `name.lstrip("./")`: strips any leading dots and slashes. */
  function Cleaned(norm: string): string {
    if norm != "" && (norm[0] == '.' || norm[0] == '/') then Cleaned(norm[1..]) else norm
  }

  predicate ReplacesStartup(cleaned: string) {
    cleaned == "overlay/sbin/init" || cleaned == "overlay/etc/docker/daemon.json"
  }

  predicate NameOk(name: string) {
    !IsAbs(name) && !StartsWith(NormPath(name), "..") && !IsAbs(NormPath(name))
  }

  predicate TargetOk(name: string, target: string) {
    !IsAbs(target) && !StartsWith(NormPath(JoinPath(Dirname(NormPath(name)), target)), "..")
  }

  predicate MemberOk(m: Member) {
    && NameOk(m.name)
    && m.kind != Device
    && (IsLink(m) ==> TargetOk(m.name, m.linkname))
    && !ReplacesStartup(Cleaned(NormPath(m.name)))
  }

  function TotalSize(ms: seq<Member>): (total: nat) {
    if ms == [] then 0
    else TotalSize(ms[..|ms| - 1]) + (if ms[|ms| - 1].size > 0 then ms[|ms| - 1].size else 0)
  }

  function CleanedNames(ms: seq<Member>): set<string> {
    set k | 0 <= k < |ms| :: Cleaned(NormPath(ms[k].name))
  }

  predicate IsApp(name: string) { name == "app" || StartsWith(name, "app/") }

  predicate Accepted(ms: seq<Member>) {
    && (forall k :: 0 <= k < |ms| ==> MemberOk(ms[k]))
    && TotalSize(ms) <= MAX_EXTRACTED_BYTES
    && "hackbento-bundle.json" in CleanedNames(ms)
    && "images.tar" in CleanedNames(ms)
    && exists name :: name in CleanedNames(ms) && IsApp(name)
  }

  lemma {:induction false} TotalGrows(ms: seq<Member>, k: nat)
    requires k <= |ms|
    ensures TotalSize(ms[..k]) <= TotalSize(ms)
  {
    if k == |ms| {
      assert ms[..k] == ms;
    } else {
      TotalGrows(ms[..|ms| - 1], k);
      assert ms[..|ms| - 1][..k] == ms[..k];
    }
  }

  // ---- the answer to a bundle, in the components of its names ----

  /** The member lies at these components, or at these with one dot in front. The dot is
      lost with `./` when the name is cleaned. */
  predicate Names(name: string, words: seq<string>) {
    var n := Norm(Comps(name), false);
    words != [] && (n == words || n == ["." + words[0]] + words[1..])
  }

  /** The member lies in this directory of the bundle, or is it. */
  predicate Below(name: string, word: string) {
    var n := Norm(Comps(name), false);
    n != [] && (n[0] == word || n[0] == "." + word)
  }

  predicate Relative(path: string) { path == "" || path[0] != '/' }

  /** What the header loop lets pass: a relative name that never climbs above the root and
      does not begin with two dots, no device, a link target likewise, and neither of the
      two files the guest starts with. */
  ghost predicate Passes(m: Member) {
    && Relative(m.name) && NeverClimbs(Comps(m.name), 0) && !DotName(Comps(m.name))
    && m.kind != Device
    && (m.kind == Symlink || m.kind == Hardlink ==>
          && Relative(m.linkname)
          && NeverClimbs(Comps(m.linkname), |Holder(m.name)|)
          && !DotName(Holder(m.name) + Comps(m.linkname)))
    && !Names(m.name, ["overlay", "sbin", "init"])
    && !Names(m.name, ["overlay", "etc", "docker", "daemon.json"])
  }

  /** A member that does not pass comes before the sizes are too large. */
  ghost predicate BadFirst(ms: seq<Member>) {
    exists k :: 0 <= k < |ms| && !Passes(ms[k]) && TotalSize(ms[..k]) <= 12884901888
  }

  ghost predicate Has(ms: seq<Member>, words: seq<string>) {
    exists k :: 0 <= k < |ms| && Names(ms[k].name, words)
  }

  ghost predicate HasBelow(ms: seq<Member>, word: string) {
    exists k :: 0 <= k < |ms| && Below(ms[k].name, word)
  }

  ghost predicate HasInside(ms: seq<Member>, word: string) {
    exists k :: 0 <= k < |ms| && Below(ms[k].name, word) && |Norm(Comps(ms[k].name), false)| >= 2
  }

  lemma RelativeIsNotAbs(path: string)
    ensures Relative(path) <==> !IsAbs(path)
  {
    assert path != "" ==> path[..1] == [path[0]];
  }

  /** A name passes exactly if it is relative, never climbs and does not begin with two dots. */
  lemma NameTest(name: string)
    ensures NameOk(name) <==> Relative(name) && NeverClimbs(Comps(name), 0) && !DotName(Comps(name))
  {
    hide Norm, Comps, NeverClimbs, StartsWith;
    RelativeIsNotAbs(name);
    if !IsAbs(name) {
      DotDotTest(name);
      RelativeStaysRelative(name);
    }
  }

  lemma RelativeStaysRelative(name: string)
    requires !IsAbs(name)
    ensures !IsAbs(NormPath(name))
  {
    hide Norm, Comps;
    var n := Norm(Comps(name), false);
    NormElements(Comps(name), false);
    assert "" + Join(n, "/") == Join(n, "/");
    if n != [] { FirstOfJoin(n); }
  }

  /** The components that are left when leading dots are stripped. */
  function CleanedParts(name: string): seq<string> {
    var n := Norm(Comps(name), false);
    if n == [] then [] else [if StartsWith(n[0], ".") then n[0][1..] else n[0]] + n[1..]
  }

  lemma CleanedText(name: string)
    requires NameOk(name)
    ensures Cleaned(NormPath(name)) == Join(CleanedParts(name), "/")
    ensures forall k :: 0 <= k < |CleanedParts(name)| ==> '/' !in CleanedParts(name)[k]
  {
    hide Norm, Comps, NormPath, Join;
    var n, p := Norm(Comps(name), false), CleanedParts(name);
    PassedPath(name);
    NameTest(name);
    if n == [] {
      assert "."[1..] == "";
      assert Cleaned("") == "" && Cleaned(".") == "";
      assert Join(p, "/") == "" by { EmptyJoin(); }
    } else {
      FirstWord(n[0]);
      assert forall k :: 1 <= k < |p| ==> p[k] == n[k];
      StripFirst(n);
    }
  }

  lemma EmptyJoin()
    ensures Join([], "/") == ""
  {
  }

  lemma FirstWord(word: string)
    requires Plain(word) && '/' !in word && !StartsWith(word, "..")
    ensures StartsWith(word, ".") ==> |word| >= 2 && word[0] == '.' && word[1] != '.' && word[1] != '/'
    ensures !StartsWith(word, ".") ==> word[0] != '.' && word[0] != '/'
    ensures '/' !in word[1..]
  {
    assert word[..1] == [word[0]];
    if |word| >= 2 { assert word[..2] == [word[0], word[1]]; }
    if |word| == 1 { assert word == [word[0]]; }
  }

  lemma StripFirst(n: seq<string>)
    requires n != [] && |n[0]| >= 1
    requires StartsWith(n[0], ".") ==> |n[0]| >= 2 && n[0][0] == '.' && n[0][1] != '.' && n[0][1] != '/'
    requires !StartsWith(n[0], ".") ==> n[0][0] != '.' && n[0][0] != '/'
    ensures Cleaned(Join(n, "/")) == Join([if StartsWith(n[0], ".") then n[0][1..] else n[0]] + n[1..], "/")
  {
    hide StartsWith;
    var text, p := Join(n, "/"), [n[0][1..]] + n[1..];
    assert p[1..] == n[1..] && [n[0]] + n[1..] == n;
    assert text[0] == n[0][0];
    if StartsWith(n[0], ".") {
      assert text[1..] == Join(p, "/");
      assert text[1] == n[0][1];
    }
  }

  /** The cleaned name is these words exactly if the member lies there, perhaps with a dot
      in front. */
  lemma CleanedIs(name: string, words: seq<string>)
    requires NameOk(name) && words != [] && words[0] != "" && words[0][0] != '.'
    requires forall k :: 0 <= k < |words| ==> '/' !in words[k]
    ensures Cleaned(NormPath(name)) == Join(words, "/") <==> Names(name, words)
  {
    hide NormPath, Cleaned, Join, Comps, NeverClimbs;
    CleanedText(name);
    PassedPath(name);
    NameTest(name);
    var n, p := Norm(Comps(name), false), CleanedParts(name);
    if n == [] {
      SplitJoin(words, '/');
      FirstOfJoin(words);
      EmptyJoin();
    } else {
      if Join(p, "/") == Join(words, "/") { SplitJoin(p, '/'); SplitJoin(words, '/'); }
      assert Join(p, "/") == Join(words, "/") <==> p == words;
      FirstWord(n[0]);
      DottedWord(n, words);
    }
  }

  lemma DottedWord(n: seq<string>, words: seq<string>)
    requires n != [] && n[0] != "" && words != [] && words[0] != "" && words[0][0] != '.'
    ensures [if StartsWith(n[0], ".") then n[0][1..] else n[0]] + n[1..] == words <==>
            n == words || n == ["." + words[0]] + words[1..]
  {
    var p := [if StartsWith(n[0], ".") then n[0][1..] else n[0]] + n[1..];
    assert n == [n[0]] + n[1..] && words == [words[0]] + words[1..];
    assert p[0] == (if StartsWith(n[0], ".") then n[0][1..] else n[0]) && p[1..] == n[1..];
    assert n[0][..1] == [n[0][0]] && [n[0][0]] + n[0][1..] == n[0];
    var d := ["." + words[0]] + words[1..];
    assert d[0] == "." + words[0] && d[1..] == words[1..] && d[0][1..] == words[0] && d[0][..1] == ".";
  }

  /** Likewise for the first word alone. */
  lemma CleanedBegins(name: string, word: string)
    requires NameOk(name) && word != "" && word[0] != '.' && '/' !in word
    ensures var text := Cleaned(NormPath(name));
            && (text == word || StartsWith(text, word + "/") <==> Below(name, word))
            && (StartsWith(text, word + "/") <==> Below(name, word) && |Norm(Comps(name), false)| >= 2)
  {
    hide NormPath, Cleaned, Join, Comps, NeverClimbs, StartsWith;
    CleanedText(name);
    PassedPath(name);
    NameTest(name);
    var n, p := Norm(Comps(name), false), CleanedParts(name);
    if n == [] {
      EmptyJoin();
      LongerThan("", word + "/");
    } else {
      FirstWord(n[0]);
      FirstOfParts(p, word);
      assert [n[0]][1..] == [] && [word][1..] == [];
      assert [if StartsWith(n[0], ".") then n[0][1..] else n[0]] + [n[0]][1..] == [p[0]];
      DottedWord([n[0]], [word]);
      assert Below(name, word) <==> p[0] == word by {
        assert [p[0]] == [word] <==> p[0] == word;
        assert [n[0]] == [word] <==> n[0] == word;
        assert ["." + word] + [] == ["." + word];
        assert [n[0]] == ["." + word] <==> n[0] == "." + word;
      }
    }
  }

  lemma LongerThan(s: string, prefix: string)
    requires |prefix| > |s|
    ensures !StartsWith(s, prefix)
  {
  }

  lemma FirstOfParts(p: seq<string>, word: string)
    requires p != [] && word != "" && '/' !in word && '/' !in p[0]
    ensures var text := Join(p, "/");
            && (StartsWith(text, word + "/") <==> |p| >= 2 && p[0] == word)
            && (text == word || StartsWith(text, word + "/") <==> p[0] == word)
  {
    hide Join, StartsWith;
    var text := Join(p, "/");
    if |p| == 1 {
      assert text == p[0] by { JoinOfOne(p); }
      NoSlashAhead(text, word);
    } else {
      var rest := Join(p[1..], "/");
      assert text == p[0] + "/" + rest by { JoinOfMore(p); }
      WordAhead(p[0], rest, word);
      assert text[|p[0]|] == '/';
    }
  }

  lemma JoinOfOne(p: seq<string>)
    requires |p| == 1
    ensures Join(p, "/") == p[0]
  {
  }

  lemma JoinOfMore(p: seq<string>)
    requires |p| >= 2
    ensures Join(p, "/") == p[0] + "/" + Join(p[1..], "/")
  {
  }

  lemma NoSlashAhead(text: string, word: string)
    requires '/' !in text
    ensures !StartsWith(text, word + "/")
  {
    assert (word + "/")[|word|] == '/';
    assert |word| + 1 <= |text| ==> text[..|word| + 1][|word|] == text[|word|];
  }

  lemma WordAhead(a: string, rest: string, word: string)
    requires '/' !in a && '/' !in word
    ensures StartsWith(a + "/" + rest, word + "/") <==> a == word
  {
    hide Split;
    var text, n := a + "/" + rest, |word| + 1;
    assert text == a + ['/'] + rest;
    SplitCons(a, '/', rest);
    if StartsWith(text, word + "/") {
      assert text == text[..n] + text[n..] == word + ['/'] + text[n..];
      SplitCons(word, '/', text[n..]);
      assert Split(text, '/')[0] == a && Split(text, '/')[0] == word;
    }
    if a == word {
      assert text[..n] == word + "/";
    }
  }

  /** The four tests of the header loop, in these terms. */
  lemma PassesExactly(m: Member)
    ensures MemberOk(m) <==> Passes(m)
  {
    hide NameOk, Relative, NeverClimbs, DotName, Names, TargetOk, NormPath, Cleaned, Comps, Holder;
    NameTest(m.name);
    if NameOk(m.name) {
      TargetTest(m.name, m.linkname);
      RelativeIsNotAbs(m.linkname);
      StartupNames(m.name);
    }
  }

  lemma StartupNames(name: string)
    requires NameOk(name)
    ensures ReplacesStartup(Cleaned(NormPath(name))) <==>
            Names(name, ["overlay", "sbin", "init"]) || Names(name, ["overlay", "etc", "docker", "daemon.json"])
  {
    hide NameOk, NormPath, Cleaned, Names;
    var init, daemon := ["overlay", "sbin", "init"], ["overlay", "etc", "docker", "daemon.json"];
    CleanedIs(name, init);
    CleanedIs(name, daemon);
    JoinThree("overlay", "sbin", "init");
    JoinThree("etc", "docker", "daemon.json");
    assert daemon[1..] == ["etc", "docker", "daemon.json"];
    assert Join(daemon, "/") == "overlay" + "/" + Join(daemon[1..], "/");
    assert "overlay" + "/" + "sbin" + "/" + "init" == "overlay/sbin/init";
    assert "overlay" + "/" + ("etc" + "/" + "docker" + "/" + "daemon.json") == "overlay/etc/docker/daemon.json";
  }

  lemma JoinThree(a: string, b: string, c: string)
    ensures Join([a, b, c], "/") == a + "/" + b + "/" + c
  {
    assert [a, b, c][1..] == [b, c] && [b, c][1..] == [c];
    assert Join([b, c], "/") == b + "/" + c;
    assert Join([a, b, c], "/") == a + "/" + (b + "/" + c) == a + "/" + b + "/" + c;
  }

  /** A file the guest starts with is refused however its name is spelled: any number of
      `.` and of empty components between its words. */
  lemma SpellingsRefused(m: Member, words: seq<string>)
    requires words == ["overlay", "sbin", "init"] || words == ["overlay", "etc", "docker", "daemon.json"]
    requires Named(Comps(m.name)) == words
    ensures !MemberOk(m)
  {
    hide Comps;
    PassesExactly(m);
    if ".." in Comps(m.name) { NamedKeeps(Comps(m.name), ".."); }
    assert ".." !in words;
    NormWithoutUps(Comps(m.name), false);
  }

  lemma {:induction false} NamedKeeps(comps: seq<string>, comp: string)
    requires comp in comps && comp != "" && comp != "."
    ensures comp in Named(comps)
  {
    if comps[0] != comp { NamedKeeps(comps[1..], comp); }
  }

  /** `./overlay//sbin/init`, for one. */
  lemma SpelledApart(kind: MemberType, linkname: string, size: int)
    ensures !MemberOk(Member("./overlay//sbin/init", kind, linkname, size))
  {
    hide MemberOk, Comps, Named;
    SpelledComps();
    SpelledNamed();
    SpellingsRefused(Member("./overlay//sbin/init", kind, linkname, size), ["overlay", "sbin", "init"]);
  }

  lemma SpelledComps()
    ensures Comps("./overlay//sbin/init") == [".", "overlay", "", "sbin", "init"]
  {
    hide Split;
    SpelledTail();
    SplitCons("overlay", '/', "/sbin/init");
    SplitCons(".", '/', "overlay//sbin/init");
    assert "overlay" + ['/'] + "/sbin/init" == "overlay//sbin/init";
    assert "." + ['/'] + "overlay//sbin/init" == "./overlay//sbin/init";
  }

  lemma SpelledTail()
    ensures Split("/sbin/init", '/') == ["", "sbin", "init"]
  {
    hide Split;
    SplitWord("init", '/');
    SplitCons("sbin", '/', "init");
    SplitCons("", '/', "sbin/init");
    assert "sbin" + ['/'] + "init" == "sbin/init" && "" + ['/'] + "sbin/init" == "/sbin/init";
  }

  lemma SpelledNamed()
    ensures Named([".", "overlay", "", "sbin", "init"]) == ["overlay", "sbin", "init"]
  {
    NamedAppend([".", "overlay"], ["", "sbin", "init"]);
    NamedAppend(["."], ["overlay"]);
    NamedAppend([""], ["sbin", "init"]);
    assert [".", "overlay"] == ["."] + ["overlay"] && ["", "sbin", "init"] == [""] + ["sbin", "init"];
    assert ["sbin", "init"][1..] == ["init"];
  }

  /** The sizes of all members are added up, negative ones as nothing. */
  lemma {:induction false} TotalAdds(a: seq<Member>, b: seq<Member>)
    ensures TotalSize(a + b) == TotalSize(a) + TotalSize(b)
    ensures |b| == 1 ==> TotalSize(b) == if b[0].size < 0 then 0 else b[0].size
  {
    if b == [] {
      assert a + b == a;
    } else {
      TotalAdds(a, b[..|b| - 1]);
      assert (a + b)[..|a + b| - 1] == a + b[..|b| - 1];
    }
  }

  /** The header loop: reject at the first bad member, or as soon as the running
      total is too large; otherwise collect the cleaned names. */
  method CheckMembers(ms: seq<Member>) returns (result: Result<set<string>, BundleError>)
    ensures result.Ok? <==> (forall k :: 0 <= k < |ms| ==> Passes(ms[k])) && TotalSize(ms) <= 12884901888
    ensures result.Ok? ==> result.value == CleanedNames(ms) && forall k :: 0 <= k < |ms| ==> MemberOk(ms[k])
    ensures result == Err(BadMember) <==> BadFirst(ms)
    ensures result == Err(TooLarge) <==> !BadFirst(ms) && TotalSize(ms) > 12884901888
    ensures result.Err? ==> result.error == BadMember || result.error == TooLarge
  {
    hide NormPath, Passes, MemberOk, Cleaned, Norm;
    var names, total, i := {}, 0, 0;
    while i < |ms|
      invariant 0 <= i <= |ms|
      invariant forall k :: 0 <= k < i ==> MemberOk(ms[k]) && Passes(ms[k])
      invariant names == CleanedNames(ms[..i])
      invariant total == TotalSize(ms[..i]) <= MAX_EXTRACTED_BYTES
    {
      PassesExactly(ms[i]);
      if !MemberOk(ms[i]) { return Err(BadMember); }
      total := total + (if ms[i].size > 0 then ms[i].size else 0);
      OneMore(ms, i);
      if total > MAX_EXTRACTED_BYTES {
        TooLargeHere(ms, i + 1);
        return Err(TooLarge);
      }
      names := names + {Cleaned(NormPath(ms[i].name))};
      i := i + 1;
    }
    assert ms[..i] == ms;
    result := Ok(names);
  }

  lemma TooLargeHere(ms: seq<Member>, i: nat)
    requires i <= |ms| && TotalSize(ms[..i]) > MAX_EXTRACTED_BYTES
    requires forall k :: 0 <= k < i ==> Passes(ms[k])
    ensures TotalSize(ms) > 12884901888 && !BadFirst(ms)
  {
    hide Passes;
    TotalGrows(ms, i);
    forall k | i <= k < |ms| ensures TotalSize(ms[..k]) > 12884901888 {
      TotalGrows(ms[..k], i);
      assert ms[..k][..i] == ms[..i];
    }
  }

  lemma OneMore(ms: seq<Member>, i: nat)
    requires i < |ms|
    ensures CleanedNames(ms[..i + 1]) == CleanedNames(ms[..i]) + {Cleaned(NormPath(ms[i].name))}
    ensures TotalSize(ms[..i + 1]) == TotalSize(ms[..i]) + (if ms[i].size > 0 then ms[i].size else 0)
  {
    hide NormPath, Cleaned;
    assert ms[..i + 1][..i] == ms[..i];
    assert forall k :: 0 <= k < i ==> ms[..i + 1][k] == ms[..i][k];
  }

  /** What `extractfile` does with a name: raise because no member has it, give nothing
      because the member is no file, or give its contents. */
  datatype Lookup = NoMember | NoFile | Contents(manifest: Manifest)

  /** The manifest that is read. When the plain name raises, the one behind `./` is
      never tried. */
  function ManifestRead(plain: Lookup, dotted: Lookup): Option<Manifest> {
    match plain
    case NoMember => None
    case Contents(m) => Some(m)
    case NoFile => if dotted.Contents? then Some(dotted.manifest) else None
  }

  predicate ManifestOk(manifest: Option<Manifest>) {
    manifest.Some? ==> manifest.value.Declares? && manifest.value.format == BUNDLE_FORMAT
  }

  /** Of a manifest behind `./` the format matters exactly if the plain name belongs to
      a member that is no file. */
  lemma DottedManifest(plain: Lookup)
    ensures (forall dotted :: ManifestOk(ManifestRead(plain, dotted)) <==>
            ManifestOk(ManifestRead(plain, NoMember))) <==>
            !plain.NoFile?
  {
    var bad := Contents(Garbled);
    assert plain.NoFile? ==> !ManifestOk(ManifestRead(plain, bad)) && ManifestOk(ManifestRead(plain, NoMember));
  }

  function ProjectName(manifest: Option<Manifest>): string
    requires ManifestOk(manifest)
  {
    if manifest.Some? && manifest.value.project != "" then manifest.value.project else "app"
  }

  datatype BundleInfo = BundleInfo(project: string, hasOverlay: bool)

  /** The answer to a bundle, the first reason against it first. */
  ghost predicate Answers(ms: seq<Member>, manifest: Option<Manifest>, result: Result<BundleInfo, BundleError>) {
    if BadFirst(ms) then result == Err(BadMember)
    else if TotalSize(ms) > 12884901888 then result == Err(TooLarge)
    else if !Has(ms, ["hackbento-bundle.json"]) then result == Err(NoManifest)
    else if !Has(ms, ["images.tar"]) then result == Err(NoImages)
    else if !HasBelow(ms, "app") then result == Err(NoApp)
    else
      match manifest
      case None => result == Ok(BundleInfo("app", HasInside(ms, "overlay")))
      case Some(Garbled) => result == Err(BadManifest)
      case Some(Declares(format, project)) =>
        if format != 1 then result == Err(BadManifest)
        else result == Ok(BundleInfo(if project == "" then "app" else project, HasInside(ms, "overlay")))
  }

  /** Looking a name up among the cleaned ones. */
  lemma NamesFound(ms: seq<Member>)
    requires forall k :: 0 <= k < |ms| ==> MemberOk(ms[k])
    ensures "hackbento-bundle.json" in CleanedNames(ms) <==> Has(ms, ["hackbento-bundle.json"])
    ensures "images.tar" in CleanedNames(ms) <==> Has(ms, ["images.tar"])
    ensures (exists name :: name in CleanedNames(ms) && IsApp(name)) <==> HasBelow(ms, "app")
    ensures (exists name :: name in CleanedNames(ms) && StartsWith(name, "overlay/")) <==> HasInside(ms, "overlay")
  {
    hide NameOk, TargetOk, ReplacesStartup, NormPath, Cleaned, Names, Below, StartsWith, Norm, Comps;
    assert Join(["hackbento-bundle.json"], "/") == "hackbento-bundle.json" && Join(["images.tar"], "/") == "images.tar";
    assert "app" + "/" == "app/" && "overlay" + "/" == "overlay/";
    forall k | 0 <= k < |ms|
      ensures var name := Cleaned(NormPath(ms[k].name));
              && (name == "hackbento-bundle.json" <==> Names(ms[k].name, ["hackbento-bundle.json"]))
              && (name == "images.tar" <==> Names(ms[k].name, ["images.tar"]))
              && (IsApp(name) <==> Below(ms[k].name, "app"))
              && (StartsWith(name, "overlay/") <==>
                    Below(ms[k].name, "overlay") && |Norm(Comps(ms[k].name), false)| >= 2)
    {
      assert MemberOk(ms[k]);
      CleanedIs(ms[k].name, ["hackbento-bundle.json"]);
      CleanedIs(ms[k].name, ["images.tar"]);
      CleanedBegins(ms[k].name, "app");
      CleanedBegins(ms[k].name, "overlay");
    }
  }

  /** `_validate_bundle_tar`. */
  method Validate(ms: seq<Member>, plain: Lookup, dotted: Lookup) returns (result: Result<BundleInfo, BundleError>)
    ensures Answers(ms, ManifestRead(plain, dotted), result)
    ensures result.Ok? ==> Accepted(ms)
  {
    hide BadFirst, MemberOk, StartsWith, IsApp, Has, HasBelow, HasInside, CleanedNames, TotalSize;
    var names :- CheckMembers(ms);
    NamesFound(ms);
    if "hackbento-bundle.json" !in names { return Err(NoManifest); }
    if "images.tar" !in names { return Err(NoImages); }
    if !(exists name :: name in names && IsApp(name)) { return Err(NoApp); }
    var manifest, project := ManifestRead(plain, dotted), "app";
    if manifest.Some? {
      if manifest.value.Garbled? || manifest.value.format != BUNDLE_FORMAT { return Err(BadManifest); }
      if manifest.value.project != "" { project := manifest.value.project; }
    }
    result := Ok(BundleInfo(project, exists name :: name in names && StartsWith(name, "overlay/")));
  }

  /** No accepted member is a device or takes the place of a file the guest starts with. */
  lemma AcceptedKeepsStartup(ms: seq<Member>, k: nat)
    requires Accepted(ms) && k < |ms|
    ensures ms[k].kind != Device
    ensures !Names(ms[k].name, ["overlay", "sbin", "init"])
    ensures !Names(ms[k].name, ["overlay", "etc", "docker", "daemon.json"])
    ensures Named(Comps(ms[k].name)) != ["overlay", "sbin", "init"]
    ensures Named(Comps(ms[k].name)) != ["overlay", "etc", "docker", "daemon.json"]
  {
    hide Names, NormPath, Norm, Comps, MemberOk;
    PassesExactly(ms[k]);
    var n := Named(Comps(ms[k].name));
    if n == ["overlay", "sbin", "init"] || n == ["overlay", "etc", "docker", "daemon.json"] {
      SpellingsRefused(ms[k], n);
    }
  }

  // ---- what acceptance means ----

  /** The normal form begins with a name that merely starts with two dots. */
  predicate DotName(comps: seq<string>) {
    var n := Norm(comps, false);
    n != [] && StartsWith(n[0], "..")
  }

  /** The test on the joined path, for a target behind plain components `d`. */
  lemma JoinedTarget(d: seq<string>, target: string)
    requires forall k :: 0 <= k < |d| ==> Plain(d[k]) && '/' !in d[k]
    requires !IsAbs(target)
    ensures StartsWith(NormPath(JoinPath(Join(d, "/"), target)), "..") <==>
            !NeverClimbs(Comps(target), |d|) || DotName(d + Comps(target))
  {
    hide NormPath, Norm, Comps, StartsWith, IsAbs, JoinPath, NeverClimbs;
    JoinedText(d, target);
    DotDotTest(JoinPath(Join(d, "/"), target));
    NeverClimbsBehind(d, Comps(target));
  }

  lemma JoinedText(d: seq<string>, target: string)
    requires forall k :: 0 <= k < |d| ==> d[k] != "" && '/' !in d[k]
    requires !IsAbs(target)
    ensures var joined := JoinPath(Join(d, "/"), target);
            !IsAbs(joined) && Comps(joined) == d + Comps(target)
  {
    hide Comps, Join, JoinPath, IsAbs;
    if d == [] {
      JoinedNothing(target);
      assert [] + Comps(target) == Comps(target);
    } else {
      JoinEnd(d);
      JoinedBehind(Join(d, "/"), target);
      CompsBehind(d, target);
    }
  }

  lemma JoinedNothing(target: string)
    ensures JoinPath(Join([], "/"), target) == target
  {
    assert "" + target == target;
  }

  lemma JoinedBehind(head: string, target: string)
    requires head != "" && head[0] != '/' && head[|head| - 1] != '/' && !IsAbs(target)
    ensures JoinPath(head, target) == head + "/" + target && !IsAbs(head + "/" + target)
  {
    assert (head + "/" + target)[0] == head[0];
  }

  lemma DirnameOfNorm(name: string)
    requires NameOk(name)
    ensures var n := Norm(Comps(name), false);
            Dirname(NormPath(name)) == (if n == [] then "" else Join(n[..|n| - 1], "/"))
  {
    PassedPath(name);
    var n := Norm(Comps(name), false);
    if n == [] { LastSlashUnique(".", 0); } else { SplitNormalised(n); }
  }

  /** The components of the directory that holds a member. */
  function Holder(name: string): seq<string> {
    var n := Norm(Comps(name), false);
    if n == [] then [] else n[..|n| - 1]
  }

  /** A link target passes exactly if it is relative, never climbs above the bundle
      root when walked from the directory that holds the link, and does not lead to
      a name that begins with two dots. */
  lemma TargetTest(name: string, target: string)
    requires NameOk(name)
    ensures TargetOk(name, target) <==>
            && !IsAbs(target)
            && NeverClimbs(Comps(target), |Holder(name)|)
            && !DotName(Holder(name) + Comps(target))
  {
    hide NormPath, Norm, Comps, Dirname, JoinPath, StartsWith, IsAbs, DotName;
    DirnameOfNorm(name);
    PassedPath(name);
    assert Join([], "/") == "";
    if !IsAbs(target) { JoinedTarget(Holder(name), target); }
  }

  lemma SizesBounded(ms: seq<Member>, k: nat)
    requires k < |ms|
    ensures ms[k].size <= TotalSize(ms)
  {
    TotalGrows(ms, k + 1);
    assert ms[..k + 1][..k] == ms[..k];
  }

  /** Every name and every link target of an accepted bundle stays at or below
      the bundle root at each step of its walk, and the sizes are bounded. */
  lemma AcceptedStaysInside(ms: seq<Member>, k: nat)
    requires Accepted(ms) && k < |ms|
    ensures NeverClimbs(Comps(ms[k].name), 0)
    ensures IsLink(ms[k]) ==> NeverClimbs(Comps(ms[k].linkname), |Holder(ms[k].name)|)
    ensures ms[k].size <= TotalSize(ms) <= MAX_EXTRACTED_BYTES
  {
    var m := ms[k];
    assert MemberOk(m);
    PassedPath(m.name);
    if IsLink(m) { TargetTest(m.name, m.linkname); }
    SizesBounded(ms, k);
  }

  // ---- hard links, which tar resolves from the bundle root ----

  /** A joined list of plain names is its own normal form. */
  lemma NormalText(n: seq<string>)
    requires n != [] && forall k :: 0 <= k < |n| ==> Plain(n[k]) && '/' !in n[k]
    requires n[0] != "" && n[0][0] != '.'
    ensures var name := Join(n, "/"); NameOk(name) && NormPath(name) == name
  {
    hide Norm, Join, StartsWith, Comps;
    var name := Join(n, "/");
    JoinEnd(n);
    SplitJoin(n, '/');
    assert Comps(name) == n by { CompsIsSplit(name); }
    NormPlain(n, false);
    FirstOfJoin(n);
    NotStarting(name, "/");
    NotStarting(name, "..");
    assert Slashes(name) == "" && "" + name == name;
  }

  lemma CompsIsSplit(path: string)
    ensures Comps(path) == Split(path, '/')
  {
  }

  lemma FirstOfJoin(n: seq<string>)
    requires n != [] && n[0] != ""
    ensures Join(n, "/") != "" && Join(n, "/")[0] == n[0][0]
  {
  }

  lemma NotStarting(s: string, prefix: string)
    requires s != "" && prefix != "" && s[0] != prefix[0]
    ensures !StartsWith(s, prefix)
  {
    assert |prefix| <= |s| ==> s[..|prefix|][0] == s[0];
  }

  /** An accepted hard link climbs above the bundle root by at most as many levels as
      the link lies below it, and it leaves the root exactly if the normal form of its
      own name starts with `..`. */
  lemma HardLinkReach(m: Member)
    requires MemberOk(m) && m.kind == Hardlink
    ensures Ups(Norm(Comps(m.linkname), false)) <= |Holder(m.name)|
    ensures NeverClimbs(Comps(m.linkname), 0) <==>
            var n := Norm(Comps(m.linkname), false); n == [] || n[0] != ".."
  {
    hide NormPath, Norm, Comps, DotName;
    TargetTest(m.name, m.linkname);
    ClimbsExactly(Comps(m.linkname), |Holder(m.name)|);
    ClimbsExactly(Comps(m.linkname), 0);
  }

  lemma TwoComps(a: string, b: string)
    requires '/' !in a && '/' !in b
    ensures Comps(a + "/" + b) == [a, b]
  {
    SplitWord(b, '/');
    SplitCons(a, '/', b);
    assert a + ['/'] + b == a + "/" + b;
  }

  lemma AppA()
    ensures NameOk("app/a") && NormPath("app/a") == "app/a" && Norm(Comps("app/a"), false) == ["app", "a"]
  {
    hide NormPath, Norm;
    var n := ["app", "a"];
    assert n[1..] == ["a"] && "app" + "/" + "a" == "app/a" && Join(n, "/") == "app/a";
    NormalText(n);
    TwoComps("app", "a");
    NormPlain(n, false);
  }

  lemma UpAndX()
    ensures !IsAbs("../x") && NeverClimbs(Comps("../x"), 1) && !NeverClimbs(Comps("../x"), 0)
    ensures !DotName(["app"] + Comps("../x"))
  {
    var up := ["..", "x"];
    assert ".." + "/" + "x" == "../x";
    TwoComps("..", "x");
    assert up[..1] == [".."] && [".."][..0] == [];
    assert Depth([".."]) == -1 && Depth(up) == 0;
    var all := ["app"] + up;
    assert all[..2] == ["app", ".."] && all[..2][..1] == ["app"] && ["app"][..0] == [];
    assert Norm(["app"], false) == ["app"] && Norm(["app", ".."], false) == [] && Norm(all, false) == ["x"];
  }

  /** `app/a`, a hard link to `../x`, is accepted and leaves the root. */
  lemma HardLinkLeavesRoot()
    ensures var m := Member("app/a", Hardlink, "../x", 0);
            MemberOk(m) && !NeverClimbs(Comps(m.linkname), 0)
  {
    hide NormPath, Norm, Comps, DotName, NeverClimbs, NameOk;
    AppA();
    UpAndX();
    assert Holder("app/a") == ["app"];
    TargetTest("app/a", "../x");
    assert "app/a"[0] != 'o';
    assert Cleaned("app/a") == "app/a";
    assert "overlay/sbin/init"[0] == 'o' && "overlay/etc/docker/daemon.json"[0] == 'o';
  }
}
