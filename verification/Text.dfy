/** Splitting and joining strings, and printing numbers: the text operations
    that addresses, paths, user names and kernel arguments are built from. */
module Text {

  predicate StartsWith(s: string, prefix: string) {
    |prefix| <= |s| && s[..|prefix|] == prefix
  }

  /** `s.split(sep)` for a one-character separator: always at least one part. */
  function Split(s: string, sep: char): (parts: seq<string>)
    ensures |parts| >= 1
    ensures forall k :: 0 <= k < |parts| ==> sep !in parts[k]
  {
    if s == "" then [""]
    else
      var rest := Split(s[1..], sep);
      if s[0] == sep then [""] + rest else [[s[0]] + rest[0]] + rest[1..]
  }

  /** `sep.join(parts)`. */
  function Join(parts: seq<string>, sep: string): string {
    if |parts| == 0 then ""
    else if |parts| == 1 then parts[0]
    else parts[0] + sep + Join(parts[1..], sep)
  }

  lemma {:induction false} SplitWord(word: string, sep: char)
    requires sep !in word
    ensures Split(word, sep) == [word]
  {
    if word != "" {
      SplitWord(word[1..], sep);
      assert [word[0]] + word[1..] == word;
    }
  }

  lemma {:induction false} SplitCons(word: string, sep: char, s: string)
    requires sep !in word
    ensures Split(word + [sep] + s, sep) == [word] + Split(s, sep)
  {
    var t := word + [sep] + s;
    if word == "" {
      assert t[1..] == s;
    } else {
      SplitCons(word[1..], sep, s);
      assert t[1..] == word[1..] + [sep] + s;
      assert [word[0]] + word[1..] == word;
    }
  }

  /** Splitting undoes joining when no part contains the separator. */
  lemma {:induction false} SplitJoin(parts: seq<string>, sep: char)
    requires |parts| >= 1
    requires forall k :: 0 <= k < |parts| ==> sep !in parts[k]
    ensures Split(Join(parts, [sep]), sep) == parts
  {
    if |parts| == 1 {
      SplitWord(parts[0], sep);
    } else {
      SplitJoin(parts[1..], sep);
      SplitCons(parts[0], sep, Join(parts[1..], [sep]));
    }
  }

  lemma {:induction false} JoinAppend(a: seq<string>, b: seq<string>, sep: string)
    requires a != [] && b != []
    ensures Join(a + b, sep) == Join(a, sep) + sep + Join(b, sep)
  {
    if |a| == 1 {
      assert (a + b)[1..] == b;
    } else {
      JoinAppend(a[1..], b, sep);
      assert (a + b)[1..] == a[1..] + b;
    }
  }

  // ---- decimal numerals ----

  predicate IsDigit(c: char) { '0' <= c <= '9' }

  predicate AllDigits(s: string) { forall k :: 0 <= k < |s| ==> IsDigit(s[k]) }

  /** `str(n)`: canonical, no leading zero. */
  function Dec(n: nat): (s: string)
    ensures |s| >= 1 && AllDigits(s)
    ensures s[0] == '0' ==> s == "0"
  {
    if n < 10 then [('0' as int + n) as char]
    else Dec(n / 10) + [('0' as int + n % 10) as char]
  }

  /** `int(s)` for a string of digits. */
  function Val(s: string): nat
    requires AllDigits(s)
  {
    if s == "" then 0
    else Val(s[..|s| - 1]) * 10 + (s[|s| - 1] as int - '0' as int)
  }

  lemma {:induction false} ValDec(n: nat)
    ensures Val(Dec(n)) == n
  {
    if n >= 10 {
      ValDec(n / 10);
      assert Dec(n)[..|Dec(n)| - 1] == Dec(n / 10);
    } else {
      assert Dec(n)[..0] == "";
    }
  }

  lemma DecInjective(m: nat, n: nat)
    requires Dec(m) == Dec(n)
    ensures m == n
  {
    ValDec(m);
    ValDec(n);
  }

  // ---- hexadecimal numerals ----

  function HexDigit(d: nat): char
    requires d < 16
  {
    if d < 10 then ('0' as int + d) as char else ('a' as int + d - 10) as char
  }

  function Hex(n: nat): string {
    if n < 16 then [HexDigit(n)] else Hex(n / 16) + [HexDigit(n % 16)]
  }

  /** The format `{:02x}`. */
  function Hex02(n: nat): (s: string)
    ensures n < 256 ==> s == [HexDigit(n / 16), HexDigit(n % 16)]
  {
    assert n < 256 ==> Hex(n / 16) == [HexDigit(n / 16)];
    if n < 16 then "0" + Hex(n) else Hex(n)
  }

  lemma Hex02Injective(m: nat, n: nat)
    requires m < 256 && n < 256 && Hex02(m) == Hex02(n)
    ensures m == n
  {
    assert Hex02(m)[0] == HexDigit(m / 16) && Hex02(n)[0] == HexDigit(n / 16);
    assert Hex02(m)[1] == HexDigit(m % 16) && Hex02(n)[1] == HexDigit(n % 16);
    assert forall d, e | 0 <= d < 16 && 0 <= e < 16 && HexDigit(d) == HexDigit(e) :: d == e;
  }
}
