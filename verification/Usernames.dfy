/** User names made up at a first login: cleaned, kept off the reserved words and
    numbered until free. */
module Usernames {
  import opened Sets
  import opened Text
  import opened PosixPath

  predicate ValidChar(c: char) {
    'a' <= c <= 'z' || 'A' <= c <= 'Z' || IsDigit(c) || c == '_' || c == '-'
  }

  predicate ValidName(s: string) { forall k :: 0 <= k < |s| ==> ValidChar(s[k]) }

  /** Every other character becomes a dash. */
  function Cleaned(raw: string): (s: string)
    ensures |s| == |raw| && ValidName(s)
    ensures ValidName(raw) ==> s == raw
  {
    if raw == "" then "" else [if ValidChar(raw[0]) then raw[0] else '-'] + Cleaned(raw[1..])
  }

  function StripLeft(s: string, c: char): string {
    if s != "" && s[0] == c then StripLeft(s[1..], c) else s
  }

  /** `s.strip("-")`. */
  function Stripped(s: string): string { StripRight(StripLeft(s, '-'), '-') }

  function SanitizeName(raw: string): string {
    var cut := Cleaned(raw)[..if |raw| < 64 then |raw| else 64];
    if Stripped(cut) == "" then "user" else Stripped(cut)
  }

  predicate Trimmed(s: string) { s != "" ==> s[0] != '-' && s[|s| - 1] != '-' }

  lemma {:induction false} StripLeftTrims(s: string)
    ensures var r := StripLeft(s, '-');
            |r| <= |s| && (ValidName(s) ==> ValidName(r)) && (r != "" ==> r[0] != '-')
            && (r == s || s[0] == '-') && (r != "" ==> r[|r| - 1] == s[|s| - 1])
  {
    if s != "" && s[0] == '-' { StripLeftTrims(s[1..]); }
  }

  lemma {:induction false} StripRightTrims(s: string)
    ensures var r := StripRight(s, '-');
            |r| <= |s| && r == s[..|r|] && (r != "" ==> r[|r| - 1] != '-')
            && (r == s || s[|s| - 1] == '-')
  {
    if s != "" && s[|s| - 1] == '-' { StripRightTrims(s[..|s| - 1]); }
  }

  /** A name that is already valid, trimmed and short enough is left alone, and
      every other name becomes such a one. */
  lemma SanitizeIsProjection(raw: string)
    ensures var name := SanitizeName(raw); name != "" && |name| <= 64 && ValidName(name) && Trimmed(name)
    ensures SanitizeName(raw) == raw <==> raw != "" && |raw| <= 64 && ValidName(raw) && Trimmed(raw)
  {
    var cut := Cleaned(raw)[..if |raw| < 64 then |raw| else 64];
    StripLeftTrims(cut);
    StripRightTrims(StripLeft(cut, '-'));
  }

  const SMALL := "abcdefghijklmnopqrstuvwxyz"
  const CAPITAL := "ABCDEFGHIJKLMNOPQRSTUVWXYZ"
  const OTHERS := "0123456789_-"

  /** The characters a name may have. */
  predicate InAlphabet(c: char) { c in SMALL || c in CAPITAL || c in OTHERS }

  lemma SmallExact(c: char)
    ensures c in SMALL <==> 'a' <= c <= 'z'
  {
    if 'a' <= c <= 'z' { assert SMALL[c as int - 97] == c; }
  }

  lemma CapitalExact(c: char)
    ensures c in CAPITAL <==> 'A' <= c <= 'Z'
  {
    if 'A' <= c <= 'Z' { assert CAPITAL[c as int - 65] == c; }
  }

  lemma OthersExact(c: char)
    ensures c in OTHERS <==> '0' <= c <= '9' || c == '_' || c == '-'
  {
    if '0' <= c <= '9' { assert OTHERS[c as int - 48] == c; }
    assert OTHERS[10] == '_' && OTHERS[11] == '-';
  }

  lemma AlphabetExact(c: char)
    ensures ValidChar(c) <==> InAlphabet(c)
  {
    hide InAlphabet;
    assert InAlphabet(c) <==> ValidChar(c) by {
      SmallExact(c);
      CapitalExact(c);
      OthersExact(c);
      Alternatives(c);
    }
  }

  lemma Alternatives(c: char)
    ensures InAlphabet(c) <==> c in SMALL || c in CAPITAL || c in OTHERS
  {
  }

  lemma {:induction false} CleanedAt(raw: string, k: nat)
    requires k < |raw|
    ensures Cleaned(raw)[k] == if InAlphabet(raw[k]) then raw[k] else '-'
  {
    hide ValidChar, InAlphabet;
    AlphabetExact(raw[0]);
    if k > 0 { CleanedAt(raw[1..], k - 1); }
  }

  lemma {:induction false} StripLeftSlice(s: string)
    ensures var r := StripLeft(s, '-'); |r| <= |s| && r == s[|s| - |r|..] && AllAre(s[..|s| - |r|], '-')
  {
    if s != "" && s[0] == '-' {
      StripLeftSlice(s[1..]);
      var r := StripLeft(s, '-');
      assert s == [s[0]] + s[1..] && s[1..][|s| - 1 - |r|..] == s[|s| - |r|..];
      assert s[..|s| - |r|] == [s[0]] + s[1..][..|s| - 1 - |r|];
    }
  }

  lemma {:induction false} StripRightSlice(s: string)
    ensures var r := StripRight(s, '-'); |r| <= |s| && r == s[..|r|] && AllAre(s[|r|..], '-')
  {
    if s != "" && s[|s| - 1] == '-' {
      StripRightSlice(s[..|s| - 1]);
      var r := StripRight(s, '-');
      assert s[|r|..] == s[..|s| - 1][|r|..] + [s[|s| - 1]];
    }
  }

  /** A sanitized name is what lies between the dashes at both ends of the first 64
      characters, each one outside the alphabet a dash; `user` if nothing lies there. */
  lemma SanitizedText(raw: string) returns (i: nat, j: nat)
    ensures i <= j <= |raw| && j <= 64
    ensures forall k :: 0 <= k < |raw| && k < 64 && !(i <= k < j) ==> raw[k] == '-' || !InAlphabet(raw[k])
    ensures i == j ==> SanitizeName(raw) == "user"
    ensures i < j ==> |SanitizeName(raw)| == j - i && forall k :: i <= k < j ==>
                        SanitizeName(raw)[k - i] == if InAlphabet(raw[k]) then raw[k] else '-'
  {
    hide InAlphabet, Cleaned, Stripped;
    var n := if |raw| < 64 then |raw| else 64;
    var cut := Cleaned(raw)[..n];
    i, j := StrippedSlice(cut);
    forall k | 0 <= k < n ensures cut[k] == if InAlphabet(raw[k]) then raw[k] else '-' { CleanedAt(raw, k); }
  }

  lemma StrippedSlice(s: string) returns (i: nat, j: nat)
    ensures i <= j <= |s| && Stripped(s) == s[i..j]
    ensures forall k :: 0 <= k < |s| && !(i <= k < j) ==> s[k] == '-'
  {
    var left, r := StripLeft(s, '-'), Stripped(s);
    StripLeftSlice(s);
    StripRightSlice(left);
    i, j := |s| - |left|, |s| - |left| + |r|;
    forall k | 0 <= k < |s| && !(i <= k < j) ensures s[k] == '-' {
      if k < i { assert s[..i][k] == s[k]; } else { assert left[|r|..][k - j] == left[k - i] == s[k]; }
    }
  }

  // ---- reserved words ----

  const RESERVED := {
    "health", "login", "logout", "explore", "new", "admin", "user", "setup-username", "setup_username",
    "api", "static", "root", "system", "hackbento", "support", "help"
  }

  function Lower(s: string): (r: string)
    ensures |r| == |s|
    ensures forall k :: 0 <= k < |s| ==>
              r[k] == if 'A' <= s[k] <= 'Z' then (s[k] as int + 32) as char else s[k]
  {
    if s == "" then ""
    else [if 'A' <= s[0] <= 'Z' then (s[0] as int + 32) as char else s[0]] + Lower(s[1..])
  }

  predicate IsReserved(name: string) { Lower(name) in RESERVED }

  const RESERVED_WORDS := [
    "health", "login", "logout", "explore", "new", "admin", "user", "setup-username", "setup_username",
    "api", "static", "root", "system", "hackbento", "support", "help"
  ]

  /** The name is this word, in any mix of small and capital letters. */
  predicate Spells(name: string, word: string) {
    && |name| == |word|
    && forall k :: 0 <= k < |word| ==>
         name[k] == word[k] || ('a' <= word[k] <= 'z' && name[k] as int == word[k] as int - 32)
  }

  predicate NoCapitals(word: string) { forall k :: 0 <= k < |word| ==> !('A' <= word[k] <= 'Z') }

  lemma LowerIs(name: string, word: string)
    requires NoCapitals(word)
    ensures Lower(name) == word <==> Spells(name, word)
  {
  }

  lemma WordsListed(word: string)
    ensures word in RESERVED <==> word in RESERVED_WORDS
    ensures word in RESERVED ==> NoCapitals(word)
  {
    var w := RESERVED_WORDS;
    assert w[0] == "health" && w[1] == "login" && w[2] == "logout" && w[3] == "explore" && w[4] == "new";
    assert w[5] == "admin" && w[6] == "user" && w[7] == "setup-username" && w[8] == "setup_username" && w[9] == "api";
    assert w[10] == "static" && w[11] == "root" && w[12] == "system" && w[13] == "hackbento" && w[14] == "support";
    assert w[15] == "help";
  }

  /** Exactly these words are reserved, however they are capitalised. */
  lemma ReservedExact(name: string)
    ensures IsReserved(name) <==> exists w :: w in RESERVED_WORDS && Spells(name, w)
  {
    hide Lower, NoCapitals, Spells;
    WordsListed(Lower(name));
    if IsReserved(name) { LowerIs(name, Lower(name)); }
    if w :| w in RESERVED_WORDS && Spells(name, w) {
      WordsListed(w);
      LowerIs(name, w);
    }
  }

  predicate SafeEnd(s: string) {
    s != "" && (IsDigit(s[|s| - 1]) || (|s| >= 2 && s[|s| - 2] == '-' && s[|s| - 1] == 'u'))
  }

  /** No reserved word ends in a digit or in `-u`. */
  lemma SafeEndNotReserved(s: string)
    requires SafeEnd(s)
    ensures !IsReserved(s)
  {
    var r := Lower(s);
    assert SafeEnd(r);
    assert forall w :: w in RESERVED ==> !SafeEnd(w);
  }

  // ---- numbering until free ----

  /** The names probed: the base, then with a number behind a separator. */
  function Candidate(base: string, sep: string, first: nat, k: nat): string {
    if k == 0 then base else base + sep + Dec(first + k - 1)
  }

  /** LDAP counts from 2 with nothing between, OAuth from 1 behind a dash. */
  lemma CandidateTexts(base: string, k: nat)
    requires k >= 1
    ensures Candidate(base, "", 2, 0) == Candidate(base, "-", 1, 0) == base
    ensures Candidate(base, "", 2, k) == base + Dec(k + 1) && Candidate(base, "-", 1, k) == base + "-" + Dec(k)
    ensures Candidate(base, "", 2, 1) == base + "2" && Candidate(base, "-", 1, 1) == base + "-1"
  {
    assert base + "" == base && Dec(1) == "1" && Dec(2) == "2";
    assert base + "-" + "1" == base + "-1";
  }

  lemma CandidatesDiffer(base: string, sep: string, first: nat, j: nat, k: nat)
    requires j < k
    ensures Candidate(base, sep, first, j) != Candidate(base, sep, first, k)
  {
    var b := Candidate(base, sep, first, k);
    assert b[|base| + |sep|..] == Dec(first + k - 1);
    if j > 0 {
      assert Candidate(base, sep, first, j)[|base| + |sep|..] == Dec(first + j - 1);
      if Dec(first + j - 1) == Dec(first + k - 1) { DecInjective(first + j - 1, first + k - 1); }
    }
  }

  function Probed(base: string, sep: string, first: nat, n: nat): set<string> {
    set k | 0 <= k < n :: Candidate(base, sep, first, k)
  }

  /** n probes see n different names. */
  lemma {:induction false} ProbedSize(base: string, sep: string, first: nat, n: nat)
    ensures |Probed(base, sep, first, n)| == n
  {
    hide Candidate;
    if n > 0 {
      ProbedSize(base, sep, first, n - 1);
      forall j | 0 <= j < n - 1 ensures Candidate(base, sep, first, j) != Candidate(base, sep, first, n - 1) {
        CandidatesDiffer(base, sep, first, j, n - 1);
      }
      OneMoreProbed(base, sep, first, n - 1);
    } else {
      assert Probed(base, sep, first, 0) == {};
    }
  }

  lemma OneMoreProbed(base: string, sep: string, first: nat, n: nat)
    ensures Probed(base, sep, first, n + 1) == Probed(base, sep, first, n) + {Candidate(base, sep, first, n)}
  {
    hide Candidate;
  }

  /** Only taken names were probed, so there were at most as many probes as users. */
  lemma ProbesBounded(users: set<string>, base: string, sep: string, first: nat, n: nat)
    requires forall k :: 0 <= k < n ==> Candidate(base, sep, first, k) in users
    ensures n <= |users|
  {
    ProbedSize(base, sep, first, n);
    SubsetSize(Probed(base, sep, first, n), users);
  }

  /** `_unique_username` for LDAP: base, base2, base3 and so on. `taken` counts the
      probes that found a user. */
  method UniqueLdapName(users: set<string>, base: string) returns (name: string, taken: nat)
    ensures name == Candidate(base, "", 2, taken) && name !in users
    ensures forall k :: 0 <= k < taken ==> Candidate(base, "", 2, k) in users
    ensures taken <= |users|
  {
    name, taken := base, 0;
    var suffix := 2;
    while name in users
      invariant suffix == taken + 2 && name == Candidate(base, "", 2, taken)
      invariant forall k :: 0 <= k < taken ==> Candidate(base, "", 2, k) in users
      decreases |users| - taken
    {
      ProbesBounded(users, base, "", 2, taken + 1);
      name := base + "" + Dec(suffix);
      suffix := suffix + 1;
      taken := taken + 1;
    }
    ProbesBounded(users, base, "", 2, taken);
  }

  /** The base of a first-login OAuth name. */
  function OauthBase(email: string): string {
    var clean := SanitizeName(Split(email, '@')[0]);
    if IsReserved(clean) then clean + "-u" else clean
  }

  lemma OauthBaseOk(email: string)
    ensures var base := OauthBase(email); base != "" && ValidName(base) && !IsReserved(base)
  {
    hide IsReserved, SanitizeName;
    var clean := SanitizeName(Split(email, '@')[0]);
    SanitizeIsProjection(Split(email, '@')[0]);
    SafeEndNotReserved(clean + "-u");
  }

  /** What stands before the first `@` names the user; a reserved word gets `-u`. */
  lemma OauthBaseText(local: string, rest: string)
    requires '@' !in local
    ensures OauthBase(local + "@" + rest) ==
            if IsReserved(SanitizeName(local)) then SanitizeName(local) + "-u" else SanitizeName(local)
  {
    SplitCons(local, '@', rest);
    assert local + "@" + rest == local + ['@'] + rest;
  }

  lemma AdminBase()
    ensures OauthBase("admin@x") == "admin-u"
  {
    hide SanitizeName, IsReserved;
    OauthBaseText("admin", "x");
    assert "admin" + "@" + "x" == "admin@x" && "admin" + "-u" == "admin-u";
    SanitizeIsProjection("admin");
    AdminIsReserved();
  }

  lemma AdminIsReserved()
    ensures IsReserved("admin")
  {
    hide IsReserved;
    ReservedExact("admin");
    assert RESERVED_WORDS[5] == "admin" && Spells("admin", "admin");
  }

  /** The first-login name of an OAuth user: base, base-1, base-2 and so on. */
  method OauthName(users: set<string>, email: string) returns (name: string, taken: nat)
    ensures name !in users && !IsReserved(name) && name != "" && ValidName(name)
    ensures taken <= |users|
    ensures name == Candidate(OauthBase(email), "-", 1, taken)
    ensures forall k :: 0 <= k < taken ==> Candidate(OauthBase(email), "-", 1, k) in users
    ensures |name| > COLUMN <==> NoFittingNameFree(users, OauthBase(email))
  {
    hide IsReserved, SanitizeName, ValidName;
    var base := OauthBase(email);
    OauthBaseOk(email);
    name, taken := base, 0;
    var suffix := 1;
    while name in users
      invariant suffix == taken + 1 && name == Candidate(base, "-", 1, taken)
      invariant forall k :: 0 <= k < taken ==> Candidate(base, "-", 1, k) in users
      decreases |users| - taken
    {
      ProbesBounded(users, base, "-", 1, taken + 1);
      name := base + "-" + Dec(suffix);
      suffix := suffix + 1;
      taken := taken + 1;
    }
    ProbesBounded(users, base, "-", 1, taken);
    LongNames(users, base, taken);
    NumberedName(base, taken);
  }

  lemma ReservedIsShort(name: string)
    requires IsReserved(name)
    ensures |name| <= 14
  {
    assert forall w :: w in RESERVED ==> |w| <= 14;
    assert |Lower(name)| == |name|;
  }

  lemma OauthBaseFits(email: string)
    ensures |OauthBase(email)| <= 64
  {
    hide IsReserved, SanitizeName;
    SanitizeIsProjection(Split(email, '@')[0]);
    var clean := SanitizeName(Split(email, '@')[0]);
    if IsReserved(clean) { ReservedIsShort(clean); }
  }

  // ---- names longer than their column ----

  const COLUMN := 64

  /** Every candidate that fits the column and could come up is taken: a test on the
      users table before the search. */
  predicate NoFittingNameFree(users: set<string>, base: string) {
    forall k :: 0 <= k <= |users| && |Candidate(base, "-", 1, k)| <= COLUMN ==> Candidate(base, "-", 1, k) in users
  }

  lemma {:induction false} DecGrows(m: nat, n: nat)
    requires m <= n
    ensures |Dec(m)| <= |Dec(n)|
  {
    if n >= 10 && m >= 10 { DecGrows(m / 10, n / 10); }
  }

  lemma CandidatesGrow(base: string, j: nat, k: nat)
    requires j <= k
    ensures |Candidate(base, "-", 1, j)| <= |Candidate(base, "-", 1, k)|
  {
    if j > 0 { DecGrows(j, k); }
  }

  /** The name found outgrows the column exactly if no fitting name was free. */
  lemma LongNames(users: set<string>, base: string, taken: nat)
    requires Candidate(base, "-", 1, taken) !in users
    requires forall k :: 0 <= k < taken ==> Candidate(base, "-", 1, k) in users
    ensures |Candidate(base, "-", 1, taken)| > COLUMN <==> NoFittingNameFree(users, base)
  {
    hide Candidate;
    ProbesBounded(users, base, "-", 1, taken);
    if |Candidate(base, "-", 1, taken)| > COLUMN {
      forall k | 0 <= k <= |users| && |Candidate(base, "-", 1, k)| <= COLUMN
        ensures Candidate(base, "-", 1, k) in users
      {
        if taken <= k { CandidatesGrow(base, taken, k); }
      }
    }
  }

  function Repeat(c: char, n: nat): (s: string)
    ensures |s| == n && forall k :: 0 <= k < n ==> s[k] == c
  {
    if n == 0 then "" else [c] + Repeat(c, n - 1)
  }

  /** A taken name of 64 characters leaves no fitting name, and gets a successor of 66. */
  lemma LongNameExample()
    ensures var name := Repeat('a', COLUMN);
            && OauthBase(name + "@x") == name && NoFittingNameFree({name}, name)
            && |Candidate(name, "-", 1, 1)| == 66
  {
    hide SanitizeName, IsReserved;
    var name := Repeat('a', COLUMN);
    SplitCons(name, '@', "x");
    assert name + ['@'] + "x" == name + "@x";
    SanitizeIsProjection(name);
    if IsReserved(name) { ReservedIsShort(name); }
    assert |Candidate(name, "-", 1, 1)| == 66;
    assert |{name}| == 1;
  }

  lemma NumberedName(base: string, k: nat)
    requires base != "" && ValidName(base) && !IsReserved(base)
    ensures var name := Candidate(base, "-", 1, k); name != "" && ValidName(name) && !IsReserved(name)
  {
    if k > 0 {
      var name := Candidate(base, "-", 1, k);
      assert name[|name| - 1] == Dec(k)[|Dec(k)| - 1];
      SafeEndNotReserved(name);
    }
  }
}
