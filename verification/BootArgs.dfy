/** The guest kernel command line: the project's extra arguments are split on white
    space, the managed ones dropped, and the rest put behind the managed part. */
module BootArgs {
  import opened Wrappers
  import opened Text

  /** White space as `str.split()` understands it. */
  predicate IsSpace(c: char) {
    var n := c as int;
    || 9 <= n <= 13 || 28 <= n <= 32 || n == 0x85 || n == 0xA0 || n == 0x1680 || 0x2000 <= n <= 0x200A
    || n == 0x2028 || n == 0x2029 || n == 0x202F || n == 0x205F || n == 0x3000
  }

  predicate NoSpace(s: string) { forall k :: 0 <= k < |s| ==> !IsSpace(s[k]) }

  predicate Word(s: string) { s != "" && NoSpace(s) }

  /** Length of the leading word. */
  function WordLen(s: string): (n: nat)
    ensures n <= |s| && NoSpace(s[..n]) && (n < |s| ==> IsSpace(s[n]))
  {
    if s == "" || IsSpace(s[0]) then 0
    else
      assert forall k :: 0 <= k < WordLen(s[1..]) ==> s[1..][..WordLen(s[1..])][k] == s[k + 1];
      1 + WordLen(s[1..])
  }

  /** `s.split()`. */
  function Tokens(s: string): (toks: seq<string>)
    ensures forall k :: 0 <= k < |toks| ==> Word(toks[k])
    decreases |s|
  {
    if s == "" then []
    else if IsSpace(s[0]) then Tokens(s[1..])
    else [s[..WordLen(s)]] + Tokens(s[WordLen(s)..])
  }

  const MANAGED := ["ip=", "init=", "console=", "root=", "reboot=", "panic=", "rw", "ro"]

  predicate Managed(tok: string) { exists k :: 0 <= k < |MANAGED| && StartsWith(tok, MANAGED[k]) }

  function Keep(toks: seq<string>): (kept: seq<string>)
    ensures |kept| <= |toks|
    ensures forall k :: 0 <= k < |kept| ==> kept[k] in toks && !Managed(kept[k])
  {
    if toks == [] then []
    else Keep(toks[..|toks| - 1]) + (if Managed(toks[|toks| - 1]) then [] else [toks[|toks| - 1]])
  }

  function Kept(extra: Option<string>): (toks: seq<string>)
    ensures forall k :: 0 <= k < |toks| ==> Word(toks[k]) && !Managed(toks[k])
  {
    if extra.None? then [] else Keep(Tokens(extra.value))
  }

  function Sanitize(extra: Option<string>): string { Join(Kept(extra), " ") }

  /** `_sanitize_extra_boot_args`. */
  method SanitizeExtra(extra: Option<string>) returns (text: string)
    ensures text == Sanitize(extra)
  {
    if extra.None? || extra.value == "" { return ""; }
    var toks, kept, i := Tokens(extra.value), [], 0;
    while i < |toks|
      invariant 0 <= i <= |toks|
      invariant kept == Keep(toks[..i])
    {
      assert toks[..i + 1][..i] == toks[..i];
      if !Managed(toks[i]) { kept := kept + [toks[i]]; }
      i := i + 1;
    }
    assert toks[..i] == toks;
    text := Join(kept, " ");
  }

  function BootLine(ip: string, gateway: string, netmask: string, extra: Option<string>): string {
    var address := "ip=" + ip + "::" + gateway + ":" + netmask + "::eth0:off ";
    var managed := "console=ttyS0 reboot=k panic=1 pci=off " + address + "rw";
    if Sanitize(extra) == "" then managed else managed + " " + Sanitize(extra)
  }

  // ---- splitting and joining ----

  function Concat(toks: seq<string>): string {
    if toks == [] then "" else toks[0] + Concat(toks[1..])
  }

  function Squeezed(s: string): string {
    if s == "" then "" else (if IsSpace(s[0]) then "" else [s[0]]) + Squeezed(s[1..])
  }

  lemma {:induction false} SqueezedBehind(word: string, s: string)
    requires NoSpace(word)
    ensures Squeezed(word + s) == word + Squeezed(s)
  {
    if word == "" {
      assert word + s == s;
    } else {
      SqueezedBehind(word[1..], s);
      assert (word + s)[1..] == word[1..] + s;
      assert word == [word[0]] + word[1..];
    }
  }

  /** Splitting loses nothing but white space. */
  lemma {:induction false} TokensKeepText(s: string)
    ensures Concat(Tokens(s)) == Squeezed(s)
    decreases |s|
  {
    if s == "" {
    } else if IsSpace(s[0]) {
      TokensKeepText(s[1..]);
    } else {
      var n := WordLen(s);
      TokensKeepText(s[n..]);
      SqueezedBehind(s[..n], s[n..]);
      assert s == s[..n] + s[n..];
    }
  }

  /** The code points that Python's `str.isspace` accepts. */
  const WHITE_SPACE: seq<int> := [
    9, 10, 11, 12, 13, 28, 29, 30, 31, 32, 133, 160, 5760, 8192, 8193, 8194, 8195, 8196, 8197, 8198, 8199, 8200,
    8201, 8202, 8232, 8233, 8239, 8287, 12288]

  lemma SpacesListed(c: char)
    ensures IsSpace(c) <==> c as int in WHITE_SPACE
  {
    var n := c as int;
    if 9 <= n <= 13 { assert WHITE_SPACE[n - 9] == n; }
    if 28 <= n <= 32 { assert WHITE_SPACE[n - 23] == n; }
    if 8192 <= n <= 8202 { assert WHITE_SPACE[n - 8179] == n; }
    assert WHITE_SPACE[10] == 133 && WHITE_SPACE[11] == 160 && WHITE_SPACE[12] == 5760;
    assert WHITE_SPACE[24] == 8232 && WHITE_SPACE[25] == 8233 && WHITE_SPACE[26] == 8239;
    assert WHITE_SPACE[27] == 8287 && WHITE_SPACE[28] == 12288;
  }

  lemma {:induction false} WordLenOf(word: string, s: string)
    requires NoSpace(word) && (s == "" || IsSpace(s[0]))
    ensures WordLen(word + s) == |word|
  {
    if word == "" {
      assert word + s == s;
    } else {
      WordLenOf(word[1..], s);
      assert (word + s)[1..] == word[1..] + s;
    }
  }

  lemma TokensBehind(word: string, s: string)
    requires Word(word)
    ensures Tokens(word) == [word]
    ensures Tokens(word + " " + s) == [word] + Tokens(s)
  {
    WordLenOf(word, "");
    assert word + "" == word && word[..|word|] == word && word[|word|..] == "";
    var t := " " + s;
    WordLenOf(word, t);
    assert word + " " + s == word + t;
    assert (word + t)[..|word|] == word && (word + t)[|word|..] == t && t[1..] == s;
  }

  /** Splitting undoes joining. */
  lemma {:induction false} TokensJoin(toks: seq<string>)
    requires forall k :: 0 <= k < |toks| ==> Word(toks[k])
    ensures Tokens(Join(toks, " ")) == toks
  {
    if |toks| == 1 {
      TokensBehind(toks[0], "");
    } else if |toks| > 1 {
      TokensJoin(toks[1..]);
      TokensBehind(toks[0], Join(toks[1..], " "));
    }
  }

  lemma NoWordAhead(s: string)
    requires s != "" && !IsSpace(s[0])
    ensures Word(s[..WordLen(s)]) && s == s[..WordLen(s)] + s[WordLen(s)..]
  {
  }

  lemma NoTokens()
    ensures Tokens("") == []
  {
  }

  lemma SpaceSkipped(s: string)
    requires s != "" && IsSpace(s[0])
    ensures Tokens(s) == Tokens(s[1..])
  {
  }

  lemma WordFirst(word: string, s: string)
    requires Word(word) && (s == "" || IsSpace(s[0]))
    ensures Tokens(word + s) == [word] + Tokens(s)
  {
    hide IsSpace;
    WordLenOf(word, s);
    assert (word + s)[..|word|] == word && (word + s)[|word|..] == s && (word + s)[0] == word[0];
  }

  /** White space separates: what stands before one and behind it is split apart from
      each other. With TokensBehind and the empty text this determines the splitting. */
  lemma {:induction false} TokensAround(a: string, c: char, b: string)
    requires IsSpace(c)
    ensures Tokens("") == []
    ensures Tokens(a + [c] + b) == Tokens(a) + Tokens(b)
    decreases |a|
  {
    hide Tokens, IsSpace;
    var t := a + [c] + b;
    NoTokens();
    if a == "" {
      assert t[0] == c && t[1..] == b && [] + Tokens(b) == Tokens(b);
      SpaceSkipped(t);
    } else if IsSpace(a[0]) {
      TokensAround(a[1..], c, b);
      assert t[1..] == a[1..] + [c] + b;
      SpaceSkipped(a);
      SpaceSkipped(t);
    } else {
      var n := WordLen(a);
      var word, rest := a[..n], a[n..];
      NoWordAhead(a);
      TokensAround(rest, c, b);
      var s := rest + [c] + b;
      assert t == word + s && s[0] == (if rest == "" then c else a[n]);
      WordFirst(word, rest);
      WordFirst(word, s);
      assert [word] + (Tokens(rest) + Tokens(b)) == [word] + Tokens(rest) + Tokens(b);
    }
  }

  lemma KeepBehind(toks: seq<string>, tok: string)
    ensures Keep(toks + [tok]) == Keep(toks) + (if Managed(tok) then [] else [tok])
  {
    hide Managed;
    assert (toks + [tok])[..|toks|] == toks;
  }

  /** Each token is judged for itself, and the kept ones stay in order. */
  lemma {:induction false} KeepAdds(a: seq<string>, b: seq<string>)
    ensures Keep(a + b) == Keep(a) + Keep(b)
  {
    hide Keep, Managed;
    if b == [] {
      assert a + b == a && Keep([]) == [] by { KeepNothing(); }
    } else {
      var init, last := b[..|b| - 1], b[|b| - 1];
      KeepAdds(a, init);
      KeepBehind(a + init, last);
      KeepBehind(init, last);
      assert a + b == a + init + [last] && b == init + [last];
    }
  }

  lemma KeepNothing()
    ensures Keep([]) == []
  {
  }

  lemma {:induction false} KeepAll(toks: seq<string>)
    requires forall k :: 0 <= k < |toks| ==> !Managed(toks[k])
    ensures Keep(toks) == toks
  {
    if toks != [] {
      KeepAll(toks[..|toks| - 1]);
      assert toks == toks[..|toks| - 1] + [toks[|toks| - 1]];
    }
  }

  /** Every unmanaged token survives, as often as it was given. */
  lemma {:induction false} KeepCounts(toks: seq<string>, tok: string)
    ensures multiset(Keep(toks))[tok] == if Managed(tok) then 0 else multiset(toks)[tok]
  {
    hide Managed;
    if toks != [] {
      hide Keep;
      var init, last := toks[..|toks| - 1], toks[|toks| - 1];
      KeepCounts(init, tok);
      assert toks == init + [last];
      KeepBehind(init, last);
    }
  }

  lemma SanitizeIsIdempotent(extra: Option<string>)
    ensures Sanitize(Some(Sanitize(extra))) == Sanitize(extra)
  {
    TokensJoin(Kept(extra));
    KeepAll(Kept(extra));
  }

  // ---- what is dropped without being managed ----

  /** The arguments the function says it manages: six keys, and the words `rw` and `ro`. */
  predicate Intended(tok: string) {
    || StartsWith(tok, "ip=") || StartsWith(tok, "init=") || StartsWith(tok, "console=") || StartsWith(tok, "root=")
    || StartsWith(tok, "reboot=") || StartsWith(tok, "panic=") || tok == "rw" || tok == "ro"
  }

  /** Every argument it says it manages is dropped; beyond these, exactly the others
      that begin with `rw` or `ro`. */
  lemma DroppedExactly(tok: string)
    ensures Managed(tok) <==> Intended(tok) || StartsWith(tok, "rw") || StartsWith(tok, "ro")
  {
    hide StartsWith;
    ItselfStarts("rw");
    ItselfStarts("ro");
    assert StartsWith(tok, "ip=") ==> StartsWith(tok, MANAGED[0]);
    assert StartsWith(tok, "init=") ==> StartsWith(tok, MANAGED[1]);
    assert StartsWith(tok, "console=") ==> StartsWith(tok, MANAGED[2]);
    assert StartsWith(tok, "root=") ==> StartsWith(tok, MANAGED[3]);
    assert StartsWith(tok, "reboot=") ==> StartsWith(tok, MANAGED[4]);
    assert StartsWith(tok, "panic=") ==> StartsWith(tok, MANAGED[5]);
    assert StartsWith(tok, "rw") ==> StartsWith(tok, MANAGED[6]);
    assert StartsWith(tok, "ro") ==> StartsWith(tok, MANAGED[7]);
  }

  lemma ItselfStarts(tok: string)
    ensures StartsWith(tok, tok)
  {
  }

  lemma DiffersAt(tok: string, prefix: string, k: nat)
    requires k < |prefix| && k < |tok| && tok[k] != prefix[k]
    ensures !StartsWith(tok, prefix)
  {
    assert |prefix| <= |tok| ==> tok[..|prefix|][k] == tok[k];
  }

  lemma RodataIsNotIntended()
    ensures !Intended("rodata=off") && StartsWith("rodata=off", "ro")
  {
    var tok := "rodata=off";
    assert tok[..2] == "ro";
    DiffersAt(tok, "ip=", 0);
    DiffersAt(tok, "init=", 0);
    DiffersAt(tok, "console=", 0);
    DiffersAt(tok, "root=", 2);
    DiffersAt(tok, "reboot=", 1);
    DiffersAt(tok, "panic=", 0);
  }

  /** `rodata=off` is dropped although it is none of the managed arguments. */
  lemma UnmanagedDropped()
    ensures !Intended("rodata=off") && Sanitize(Some("rodata=off")) == ""
  {
    hide Intended, StartsWith, Managed;
    var tok := "rodata=off";
    RodataIsNotIntended();
    DroppedExactly(tok);
    assert NoSpace(tok);
    TokensBehind(tok, "");
    assert [tok][..0] == [];
  }

  // ---- the final line ----

  function AddressToken(ip: string, gateway: string, netmask: string): string {
    "ip=" + ip + "::" + gateway + ":" + netmask + "::eth0:off"
  }

  function ManagedTokens(address: string): (toks: seq<string>)
    ensures |toks| == 6 && toks[4] == address
  {
    ["console=ttyS0", "reboot=k", "panic=1", "pci=off", address, "rw"]
  }

  lemma Join6(a: string, b: string, c: string, d: string, e: string, f: string)
    ensures Join([a, b, c, d, e, f], " ") == (a + " " + b + " " + c + " " + d + " ") + e + (" " + f)
  {
    var x, y, z := [a, b], [c, d], [e, f];
    assert x[1..] == [b] && y[1..] == [d] && z[1..] == [f];
    JoinAppend(y, z, " ");
    JoinAppend(x, y + z, " ");
    assert [a, b, c, d, e, f] == x + (y + z);
  }

  lemma ManagedText(address: string)
    ensures Join(ManagedTokens(address), " ") == "console=ttyS0 reboot=k panic=1 pci=off " + address + " rw"
  {
    hide Join;
    Join6("console=ttyS0", "reboot=k", "panic=1", "pci=off", address, "rw");
    assert "console=ttyS0" + " " + "reboot=k" + " " + "panic=1" + " " + "pci=off" +
      " " == "console=ttyS0 reboot=k panic=1 pci=off ";
    assert " " + "rw" == " rw";
  }

  lemma JoinEmptiness(toks: seq<string>)
    requires forall k :: 0 <= k < |toks| ==> Word(toks[k])
    ensures Join(toks, " ") == "" <==> toks == []
  {
    if toks != [] { assert Word(toks[0]); }
  }

  lemma LineText(ip: string, gateway: string, netmask: string, extra: Option<string>)
    ensures BootLine(ip, gateway, netmask, extra) ==
            Join(ManagedTokens(AddressToken(ip, gateway, netmask)) + Kept(extra), " ")
  {
    hide Kept, Join;
    var address := AddressToken(ip, gateway, netmask);
    ManagedText(address);
    JoinEmptiness(Kept(extra));
    assert "ip=" + ip + "::" + gateway + ":" + netmask + "::eth0:off " == address + " ";
    if Kept(extra) == [] {
      assert ManagedTokens(address) + Kept(extra) == ManagedTokens(address);
    } else {
      JoinAppend(ManagedTokens(address), Kept(extra), " ");
    }
  }

  /** Splitting the final line gives the managed tokens and then the extra tokens
      that were kept, in their order. */
  lemma BootLineTokens(ip: string, gateway: string, netmask: string, extra: Option<string>)
    requires NoSpace(ip) && NoSpace(gateway) && NoSpace(netmask)
    ensures Tokens(BootLine(ip, gateway, netmask, extra)) ==
            ManagedTokens(AddressToken(ip, gateway, netmask)) + Kept(extra)
    ensures Tokens(BootLine(ip, gateway, netmask, extra))[..6] ==
            ["console=ttyS0", "reboot=k", "panic=1", "pci=off",
             "ip=" + ip + "::" + gateway + ":" + netmask + "::eth0:off", "rw"]
    ensures Split(BootLine(ip, gateway, netmask, extra), ' ') ==
            ManagedTokens(AddressToken(ip, gateway, netmask)) + Kept(extra)
  {
    hide Tokens, Kept, BootLine, Join, Split;
    var toks := ManagedTokens(AddressToken(ip, gateway, netmask)) + Kept(extra);
    LineText(ip, gateway, netmask, extra);
    TokensJoin(toks);
    SplitJoin(toks, ' ');
  }

  /** The extra arguments change none of the managed ones: exactly one token starts
      with `ip=`, and none with `init=` or `root=`. */
  lemma ManagedTokensPrevail(ip: string, gateway: string, netmask: string, extra: Option<string>, k: nat)
    requires NoSpace(ip) && NoSpace(gateway) && NoSpace(netmask)
    requires k < |Tokens(BootLine(ip, gateway, netmask, extra))|
    ensures var toks := Tokens(BootLine(ip, gateway, netmask, extra));
            && |toks| >= 6 && toks[4] == AddressToken(ip, gateway, netmask)
            && (StartsWith(toks[k], "ip=") <==> k == 4)
            && !StartsWith(toks[k], "init=") && !StartsWith(toks[k], "root=")
            && (Managed(toks[k]) ==> k < 6)
  {
    hide Tokens, Kept, BootLine, Managed;
    BootLineTokens(ip, gateway, netmask, extra);
    var tok := Tokens(BootLine(ip, gateway, netmask, extra))[k];
    if k >= 6 {
      assert tok == Kept(extra)[k - 6];
      UnmanagedStarts(tok);
    } else {
      ManagedStarts(AddressToken(ip, gateway, netmask), k);
    }
  }

  lemma Starts(tok: string, prefix: string)
    requires |prefix| >= 2
    ensures StartsWith(tok, prefix) ==> |tok| >= 2 && tok[0] == prefix[0] && tok[1] == prefix[1]
  {
  }

  lemma UnmanagedStarts(tok: string)
    requires !Managed(tok)
    ensures !StartsWith(tok, "ip=") && !StartsWith(tok, "init=") && !StartsWith(tok, "root=")
  {
    assert !StartsWith(tok, MANAGED[0]) && !StartsWith(tok, MANAGED[1]) && !StartsWith(tok, MANAGED[3]);
  }

  lemma ManagedStarts(address: string, k: nat)
    requires StartsWith(address, "ip=") && k < 6
    ensures var tok := ManagedTokens(address)[k];
            (StartsWith(tok, "ip=") <==> k == 4) && !StartsWith(tok, "init=") && !StartsWith(tok, "root=")
  {
    var tok := ManagedTokens(address)[k];
    assert address[0] == "ip="[0] && address[1] == "ip="[1];
    Starts(tok, "ip=");
    Starts(tok, "init=");
    Starts(tok, "root=");
  }
}
