/** The address pool: IPv4 addresses as numbers and as text, the choice of a
    free address and guest MAC addresses. */
module Network {
  import opened Wrappers
  import opened Text

  /** An IPv4 address as the 32-bit number behind `int(IPv4Address(...))`. */
  type Address = a: int | 0 <= a < 0x1_0000_0000

  function Octets(a: Address): (o: seq<nat>)
    ensures |o| == 4 && forall k :: 0 <= k < 4 ==> o[k] < 256
    ensures a == ((o[0] * 256 + o[1]) * 256 + o[2]) * 256 + o[3]
  {
    var b := a / 256;
    var c := b / 256;
    [c / 256, c % 256, b % 256, a % 256]
  }

  /** Four numbers written with dots between them. */
  function QuadText(a: nat, b: nat, c: nat, d: nat): string {
    Join([Dec(a), Dec(b), Dec(c), Dec(d)], ".")
  }

  /** `str(IPv4Address(a))`. */
  function Dotted(a: Address): string {
    var o := Octets(a);
    QuadText(o[0], o[1], o[2], o[3])
  }

  /** The octets read back from dotted text; None where `int()` or the
      four-part format would raise. */
  function ParseOctets(text: string): (o: Option<seq<nat>>)
    ensures o.Some? ==> |o.value| == 4
  {
    var parts := Split(text, '.');
    if |parts| == 4 && (forall k :: 0 <= k < 4 ==> parts[k] != "" && AllDigits(parts[k]))
    then Some([Val(parts[0]), Val(parts[1]), Val(parts[2]), Val(parts[3])])
    else None
  }

  /** Printing four numbers and reading them back gives the same numbers. */
  lemma ParseQuadText(a: nat, b: nat, c: nat, d: nat)
    ensures ParseOctets(QuadText(a, b, c, d)) == Some([a, b, c, d])
  {
    var parts := [Dec(a), Dec(b), Dec(c), Dec(d)];
    forall k | 0 <= k < |parts| ensures '.' !in parts[k] {
      assert AllDigits(parts[k]);
    }
    SplitJoin(parts, '.');
    ValDec(a); ValDec(b); ValDec(c); ValDec(d);
  }

  lemma ParseDotted(a: Address)
    ensures ParseOctets(Dotted(a)) == Some(Octets(a))
  {
    var o := Octets(a);
    ParseQuadText(o[0], o[1], o[2], o[3]);
  }

  lemma DottedInjective(a: Address, b: Address)
    requires Dotted(a) == Dotted(b)
    ensures a == b
  {
    ParseDotted(a);
    ParseDotted(b);
  }

  /** `ip_to_mac`: 06:00 followed by the four octets in hexadecimal. */
  function IpToMac(ip: string): Option<string> {
    match ParseOctets(ip)
    case None => None
    case Some(o) =>
      Some("06:00:" + Hex02(o[0]) + ":" + Hex02(o[1]) + ":" + Hex02(o[2]) + ":" + Hex02(o[3]))
  }

  /** Every address has a MAC, and different addresses have different MACs. */
  lemma MacInjective(a: Address, b: Address)
    ensures IpToMac(Dotted(a)).Some?
    ensures a != b ==> IpToMac(Dotted(a)) != IpToMac(Dotted(b))
  {
    ParseDotted(a);
    ParseDotted(b);
    var m, n := IpToMac(Dotted(a)).value, IpToMac(Dotted(b)).value;
    var p, q := Octets(a), Octets(b);
    if m == n {
      MacOctets(m, p);
      MacOctets(n, q);
      Hex02Injective(p[0], q[0]);
      Hex02Injective(p[1], q[1]);
      Hex02Injective(p[2], q[2]);
      Hex02Injective(p[3], q[3]);
    }
  }

  lemma MacOctets(m: string, o: seq<nat>)
    requires |o| == 4 && forall k :: 0 <= k < 4 ==> o[k] < 256
    requires m == "06:00:" + Hex02(o[0]) + ":" + Hex02(o[1]) + ":" + Hex02(o[2]) + ":" + Hex02(o[3])
    ensures |m| == 17
    ensures m[6..8] == Hex02(o[0]) && m[9..11] == Hex02(o[1])
    ensures m[12..14] == Hex02(o[2]) && m[15..17] == Hex02(o[3])
  {
    FourPairs(m, "06:00:", Hex02(o[0]), Hex02(o[1]), Hex02(o[2]), Hex02(o[3]));
  }

  lemma FourPairs(m: string, head: string, a: string, b: string, c: string, d: string)
    requires |head| == 6 && |a| == 2 && |b| == 2 && |c| == 2 && |d| == 2
    requires m == head + a + ":" + b + ":" + c + ":" + d
    ensures |m| == 17
    ensures m[6..8] == a && m[9..11] == b && m[12..14] == c && m[15..17] == d
  {
  }

  lemma HexDigitText(d: nat)
    requires d < 16
    ensures HexDigit(d) == "0123456789abcdef"[d]
  {
  }

  /** The octets stand in the MAC in the order of the address, two digits each. */
  lemma MacText(a: nat, b: nat, c: nat, d: nat)
    requires a < 256 && b < 256 && c < 256 && d < 256
    ensures var hex := "0123456789abcdef";
            IpToMac(QuadText(a, b, c, d)) ==
            Some(['0', '6', ':', '0', '0', ':', hex[a / 16], hex[a % 16], ':', hex[b / 16], hex[b % 16], ':',
                  hex[c / 16], hex[c % 16], ':', hex[d / 16], hex[d % 16]])
  {
    hide QuadText, ParseOctets;
    ParseQuadText(a, b, c, d);
    HexDigitText(a / 16); HexDigitText(a % 16); HexDigitText(b / 16); HexDigitText(b % 16);
    HexDigitText(c / 16); HexDigitText(c % 16); HexDigitText(d / 16); HexDigitText(d % 16);
    FourPairsText(Hex02(a), Hex02(b), Hex02(c), Hex02(d));
  }

  lemma FourPairsText(a: string, b: string, c: string, d: string)
    requires |a| == |b| == |c| == |d| == 2
    ensures "06:00:" + a + ":" + b + ":" + c + ":" + d ==
            ['0', '6', ':', '0', '0', ':', a[0], a[1], ':', b[0], b[1], ':', c[0], c[1], ':', d[0], d[1]]
  {
  }

  /** The address 192.168.1.2, as a number and as text, and its MAC. */
  lemma MacExample()
    ensures Dotted(3232235778) == "192.168.1.2"
    ensures IpToMac("192.168.1.2") == Some("06:00:c0:a8:01:02")
  {
    hide IpToMac, QuadText;
    assert Octets(3232235778) == [192, 168, 1, 2];
    QuadExample();
    MacText(192, 168, 1, 2);
  }

  lemma QuadExample()
    ensures QuadText(192, 168, 1, 2) == "192.168.1.2"
  {
    hide Join;
    DecExample();
    JoinFour("192", "168", "1", "2");
    assert "192" + "." + "168" + "." + "1" + "." + "2" == "192.168.1.2";
  }

  lemma DecExample()
    ensures Dec(192) == "192" && Dec(168) == "168" && Dec(1) == "1" && Dec(2) == "2"
  {
    assert Dec(19) == "19" && Dec(16) == "16";
  }

  lemma JoinFour(a: string, b: string, c: string, d: string)
    ensures Join([a, b, c, d], ".") == a + "." + b + "." + c + "." + d
  {
    assert [a, b, c, d][1..] == [b, c, d] && [b, c, d][1..] == [c, d] && [c, d][1..] == [d];
    assert Join([c, d], ".") == c + "." + d;
    assert Join([b, c, d], ".") == b + "." + (c + "." + d);
    assert Join([a, b, c, d], ".") == a + "." + (b + "." + (c + "." + d));
    assert a + "." + (b + "." + (c + "." + d)) == a + "." + b + "." + c + "." + d;
  }

  // ---- the pool ----

  /** `_ip_pool()`: every address from start to end, in order; empty when start > end. */
  function Pool(start: Address, end: Address): (pool: seq<string>)
    ensures |pool| == if start <= end then end - start + 1 else 0
    ensures forall k :: 0 <= k < |pool| ==> pool[k] == Dotted(start + k)
  {
    seq(if start <= end then end - start + 1 else 0, k requires 0 <= k && start + k <= end => Dotted(start + k))
  }

  lemma PoolEntriesDiffer(start: Address, end: Address, j: nat, k: nat)
    requires j < k < |Pool(start, end)|
    ensures Pool(start, end)[j] != Pool(start, end)[k]
  {
    hide Dotted;
    if Dotted(start + j) == Dotted(start + k) { DottedInjective(start + j, start + k); }
  }

  ghost predicate Distinct(pool: seq<string>) {
    forall j, k :: 0 <= j < k < |pool| ==> pool[j] != pool[k]
  }

  lemma PoolDistinct(start: Address, end: Address)
    ensures Distinct(Pool(start, end))
  {
    forall j, k | 0 <= j < k < |Pool(start, end)| ensures Pool(start, end)[j] != Pool(start, end)[k] {
      PoolEntriesDiffer(start, end, j, k);
    }
  }

  /** The first pool entry that is not in use. */
  function FirstFree(pool: seq<string>, used: set<string>): (ip: Option<string>)
    ensures ip.Some? ==> ip.value in pool && ip.value !in used
    ensures ip.None? <==> forall k :: 0 <= k < |pool| ==> pool[k] in used
  {
    if pool == [] then None
    else if pool[0] !in used then Some(pool[0])
    else FirstFree(pool[1..], used)
  }

  /** The search loop of `allocate_ip`. */
  method FindFree(pool: seq<string>, used: set<string>) returns (ip: Option<string>)
    ensures ip == FirstFree(pool, used)
  {
    var i := 0;
    while i < |pool|
      invariant 0 <= i <= |pool|
      invariant FirstFree(pool, used) == FirstFree(pool[i..], used)
    {
      if pool[i] !in used { return Some(pool[i]); }
      assert pool[i..][1..] == pool[i + 1..];
      i := i + 1;
    }
    ip := None;
  }

  lemma {:induction false} FirstFreeIndex(pool: seq<string>, used: set<string>) returns (k: nat)
    requires FirstFree(pool, used).Some?
    ensures k < |pool| && FirstFree(pool, used) == Some(pool[k])
    ensures forall j :: 0 <= j < k ==> pool[j] in used
  {
    if pool[0] !in used {
      k := 0;
    } else {
      var i := FirstFreeIndex(pool[1..], used);
      k := i + 1;
      forall j | 0 <= j < k ensures pool[j] in used {
        if j > 0 { assert pool[j] == pool[1..][j - 1]; }
      }
    }
  }

  /** The entry found is the least free one; there is none exactly when the
      whole pool is in use. */
  lemma FirstFreeIsLeast(pool: seq<string>, used: set<string>, k: nat)
    requires Distinct(pool) && k < |pool|
    ensures FirstFree(pool, used) == Some(pool[k]) <==>
            pool[k] !in used && forall j :: 0 <= j < k ==> pool[j] in used
    ensures FirstFree(pool, used).None? <==> forall j :: 0 <= j < |pool| ==> pool[j] in used
  {
    if FirstFree(pool, used).Some? {
      var i := FirstFreeIndex(pool, used);
    }
  }

  /** The same for addresses as numbers: an allocated address lies in the pool,
      is free, and every smaller pool address is in use. */
  lemma AllocatesLeastAddress(start: Address, end: Address, used: set<string>, a: Address, b: Address)
    requires FirstFree(Pool(start, end), used) == Some(Dotted(a))
    ensures start <= a <= end && Dotted(a) !in used
    ensures start <= b < a ==> Dotted(b) in used
  {
    var k := FirstFreeIndex(Pool(start, end), used);
    assert a == start + k by { DottedInjective(a, start + k); }
    if start <= b < a { assert Pool(start, end)[b - start] in used; }
  }
}
