/** The subnet test of setup.sh: a bit mask in shell arithmetic, shown to be the
    membership test of an aligned address block. */
module Subnet {
  import opened Wrappers
  import opened Text
  import opened Network

  function Pow2(k: nat): (p: nat)
    ensures p >= 1
  {
    if k == 0 then 1 else 2 * Pow2(k - 1)
  }

  /** Bitwise AND of two numbers. */
  function And(x: nat, y: nat): nat {
    if x == 0 || y == 0 then 0
    else 2 * And(x / 2, y / 2) + (if x % 2 == 1 && y % 2 == 1 then 1 else 0)
  }

  /** `0xFFFFFFFF << (32 - prefix) & 0xFFFFFFFF`, and 0 for prefix 0. */
  function Mask(prefix: nat): nat
    requires prefix <= 32
  {
    if prefix == 0 then 0 else And(0xFFFF_FFFF * Pow2(32 - prefix), 0xFFFF_FFFF)
  }

  /** `ip_to_int` on four numbers. */
  function QuadToInt(a: nat, b: nat, c: nat, d: nat): nat {
    a * 0x100_0000 + b * 0x1_0000 + c * 0x100 + d
  }

  /** `ip_in_subnet` once its arguments have been parsed. */
  predicate InSubnet(ip: nat, net: nat, prefix: nat)
    requires prefix <= 32
  {
    And(ip, Mask(prefix)) == And(net, Mask(prefix))
  }

  /** The 2^(32-prefix)-aligned block that holds `net`. */
  ghost predicate InBlock(ip: nat, net: nat, prefix: nat)
    requires prefix <= 32
  {
    var size := Pow2(32 - prefix);
    var first := Floor(net, size);
    first <= ip < first + size
  }

  /** The largest multiple of `size` that is at most x. */
  function Floor(x: nat, size: nat): (f: nat)
    requires size > 0
    ensures f <= x < f + size
  {
    x - x % size
  }

  // ---- arithmetic ----

  lemma NextMultiple(d: nat, a: nat, b: nat)
    ensures a < b ==> d * a + d <= d * b
  {
    if a < b { assert d * b == d * (a + 1) + d * (b - a - 1); }
  }

  lemma Multiple(d: nat, q: nat, r: nat)
    requires d > 0 && r < d
    ensures (d * q + r) / d == q && (d * q + r) % d == r
  {
    var x := d * q + r;
    assert x == d * (x / d) + x % d;
    NextMultiple(d, q, x / d);
    NextMultiple(d, x / d, q);
  }

  lemma HalfMod(x: nat, p: nat)
    requires p >= 1
    ensures x % (2 * p) == 2 * (x / 2 % p) + x % 2
  {
    var q, r := x / 2 / p, x / 2 % p;
    assert x / 2 == p * q + r;
    assert x == (2 * p) * q + (2 * r + x % 2) by { assert (2 * p) * q == 2 * (p * q); }
    Multiple(2 * p, q, 2 * r + x % 2);
  }

  lemma Pow2Step(k: nat)
    ensures Pow2(k + 4) == 16 * Pow2(k)
  {
    assert Pow2(k + 2) == 4 * Pow2(k);
    assert Pow2(k + 4) == 4 * Pow2(k + 2);
  }

  lemma Pow2Of32()
    ensures Pow2(9) == 512 && Pow2(31) == 0x8000_0000 && Pow2(32) == 0x1_0000_0000
  {
    assert Pow2(1) == 2 && Pow2(3) == 8;
    Pow2Step(1);
    Pow2Step(5);
    Pow2Step(3);
    Pow2Step(7);
    Pow2Step(11);
    Pow2Step(15);
    Pow2Step(19);
    Pow2Step(23);
    Pow2Step(27);
  }

  lemma {:induction false} Pow2Grows(j: nat, k: nat)
    requires j <= k
    ensures Pow2(j) <= Pow2(k)
  {
    if j < k { Pow2Grows(j, k - 1); }
  }

  // ---- AND with ones ----

  lemma AndOdd(x: nat, p: nat)
    requires p >= 1
    ensures And(x, 2 * p - 1) == 2 * And(x / 2, p - 1) + x % 2
  {
    assert (2 * p - 1) / 2 == p - 1 && (2 * p - 1) % 2 == 1;
  }

  lemma AndEven(x: nat, z: nat)
    ensures And(x, 2 * z) == 2 * And(x / 2, z)
  {
    assert 2 * z / 2 == z && 2 * z % 2 == 0;
  }

  lemma AndNothing(x: nat)
    ensures And(x, 0) == 0
  {
  }

  /** ANDing with n low ones keeps the value modulo 2^n. */
  lemma {:induction false} AndOnes(x: nat, n: nat)
    ensures And(x, Pow2(n) - 1) == x % Pow2(n)
  {
    hide And;
    if n == 0 {
      AndNothing(x);
    } else {
      AndOnes(x / 2, n - 1);
      AndOdd(x, Pow2(n - 1));
      HalfMod(x, Pow2(n - 1));
    }
  }

  function Rem(x: nat, m: nat): (r: nat)
    requires m > 0
    ensures r < m
  {
    x % m
  }

  lemma AndHighStep(x: nat, p: nat, q: nat)
    requires 1 <= q <= p && And(x / 2, p - q) == Rem(x / 2, p) - Rem(x / 2, q)
    ensures And(x, 2 * p - 2 * q) == Rem(x, 2 * p) - Rem(x, 2 * q)
  {
    hide And;
    AndEven(x, p - q);
    HalfMod(x, p);
    HalfMod(x, q);
  }

  lemma AndHighStart(x: nat, n: nat)
    ensures And(x, Pow2(n) - 1) == Rem(x, Pow2(n)) - Rem(x, 1)
  {
    hide And, Pow2;
    AndOnes(x, n);
  }

  /** ANDing with ones above h zeros drops what lies below 2^h. */
  lemma {:induction false} AndHighOnes(x: nat, n: nat, h: nat)
    ensures Pow2(h + n) >= Pow2(h)
    ensures And(x, Pow2(h + n) - Pow2(h)) == Rem(x, Pow2(h + n)) - Rem(x, Pow2(h))
  {
    hide And, Rem;
    Pow2Grows(h, h + n);
    if h == 0 {
      AndHighStart(x, n);
    } else {
      AndHighOnes(x / 2, n, h - 1);
      assert h + n - 1 == (h - 1) + n;
      AndHighStep(x, Pow2(h - 1 + n), Pow2(h - 1));
    }
  }

  lemma ShiftedOnes(b: nat)
    requires 1 <= b < 0x1_0000_0000
    ensures (0xFFFF_FFFF * b) % 0x1_0000_0000 == 0x1_0000_0000 - b
  {
    Multiple(0x1_0000_0000, b - 1, 0x1_0000_0000 - b);
    assert 0xFFFF_FFFF * b == 0x1_0000_0000 * (b - 1) + (0x1_0000_0000 - b);
  }

  lemma Pow2Below(prefix: nat)
    requires 0 < prefix <= 32
    ensures Pow2(32 - prefix) < 0x1_0000_0000
  {
    Pow2Of32();
    Pow2Grows(32 - prefix, 31);
  }

  /** The mask is a run of ones above 32-prefix zeros. */
  lemma MaskShape(prefix: nat)
    requires prefix <= 32
    ensures Mask(prefix) == 0x1_0000_0000 - Pow2(32 - prefix)
  {
    hide And, Pow2;
    Pow2Of32();
    if prefix > 0 {
      var b := Pow2(32 - prefix);
      AndOnes(0xFFFF_FFFF * b, 32);
      Pow2Below(prefix);
      ShiftedOnes(b);
    }
  }

  /** Masking rounds an address down to its block. */
  lemma MaskFloors(x: Address, prefix: nat)
    requires prefix <= 32
    ensures And(x, Mask(prefix)) == Floor(x, Pow2(32 - prefix))
  {
    hide And, Pow2, Mask;
    MaskShape(prefix);
    Pow2Of32();
    AndHighOnes(x, prefix, 32 - prefix);
    assert (32 - prefix) + prefix == 32;
  }

  lemma SameFloor(x: nat, y: nat, size: nat)
    requires size > 0
    ensures Floor(x, size) == Floor(y, size) <==> Floor(y, size) <= x < Floor(y, size) + size
  {
    var qx, qy := x / size, y / size;
    assert x == size * qx + x % size && y == size * qy + y % size;
    assert Floor(x, size) == size * qx && Floor(y, size) == size * qy;
    NextMultiple(size, qx, qy);
    NextMultiple(size, qy, qx);
  }

  /** The shell's mask test is the interval test of section 3.1 of RFC 4632. */
  lemma MaskTestIsIntervalTest(ip: Address, net: Address, prefix: nat)
    requires prefix <= 32
    ensures InSubnet(ip, net, prefix) <==> InBlock(ip, net, prefix)
  {
    MaskFloors(ip, prefix);
    MaskFloors(net, prefix);
    SameFloor(ip, net, Pow2(32 - prefix));
  }

  // ---- the texts the two sides accept ----

  /** Four runs of digits with dots between them: the pattern of setup.sh. */
  predicate QuadPattern(text: string) {
    var parts := Split(text, '.');
    |parts| == 4 && forall k :: 0 <= k < 4 ==> parts[k] != "" && AllDigits(parts[k])
  }

  predicate OctalDigits(s: string) { forall k :: 0 <= k < |s| ==> '0' <= s[k] <= '7' }

  function OctalVal(s: string): nat
    requires OctalDigits(s)
  {
    if s == "" then 0 else OctalVal(s[..|s| - 1]) * 8 + (s[|s| - 1] as int - '0' as int)
  }

  /** A run of digits as shell arithmetic reads it: octal behind a leading zero, where
      8 and 9 are errors. */
  function ShellVal(s: string): Option<nat>
    requires AllDigits(s)
  {
    if s != "" && s[0] == '0' then (if OctalDigits(s) then Some(OctalVal(s)) else None)
    else Some(Val(s))
  }

  /** `ip_to_int` as its caller reads it: when an octet is an error, nothing is printed,
      and the empty text counts as 0. */
  function ShellQuad(parts: seq<string>): nat
    requires |parts| == 4 && forall k :: 0 <= k < 4 ==> AllDigits(parts[k])
  {
    var a, b, c, d := ShellVal(parts[0]), ShellVal(parts[1]), ShellVal(parts[2]), ShellVal(parts[3]);
    if a.Some? && b.Some? && c.Some? && d.Some? then QuadToInt(a.value, b.value, c.value, d.value) else 0
  }

  /** `ip_in_subnet` on texts, against a network already read. */
  predicate SetupAccepts(text: string, net: nat, prefix: nat)
    requires prefix <= 32
  {
    QuadPattern(text) && InSubnet(ShellQuad(Split(text, '.')), net, prefix)
  }

  /** An octet as `IPv4Address` takes it: no leading zero, at most 255. */
  predicate OctetText(s: string) { s != "" && AllDigits(s) && (s[0] == '0' ==> s == "0") && Val(s) < 256 }

  predicate AddressText(text: string) {
    var parts := Split(text, '.');
    |parts| == 4 && forall k :: 0 <= k < 4 ==> OctetText(parts[k])
  }

  /** `IPv4Address(ip) in subnet`; false where `IPv4Address` would raise. */
  predicate PassesStartupCheck(text: string, net: Address, prefix: nat)
    requires prefix <= 32
  {
    AddressText(text) &&
    var parts := Split(text, '.');
    InSubnet(QuadToInt(Val(parts[0]), Val(parts[1]), Val(parts[2]), Val(parts[3])), net, prefix)
  }

  lemma OctetAsShell(s: string)
    requires OctetText(s)
    ensures ShellVal(s) == Some(Val(s))
  {
    if s == "0" {
      assert s[..0] == "";
      assert OctalVal("") == 0 && Val("") == 0;
    }
  }

  /** setup.sh checks neither the range of the octets nor leading zeros. Of the texts
      it accepts, exactly the addresses pass the startup check; and it accepts every
      address that does. */
  lemma AcceptedTextIsAddress(text: string, net: Address, prefix: nat)
    requires prefix <= 32
    ensures PassesStartupCheck(text, net, prefix) <==> SetupAccepts(text, net, prefix) && AddressText(text)
  {
    hide InSubnet, ShellVal, Val;
    var parts := Split(text, '.');
    if AddressText(text) {
      OctetAsShell(parts[0]);
      OctetAsShell(parts[1]);
      OctetAsShell(parts[2]);
      OctetAsShell(parts[3]);
      forall k | 0 <= k < 4 ensures parts[k] != "" && AllDigits(parts[k]) { assert OctetText(parts[k]); }
    }
  }

  /** An octet with a leading zero and an 8 or 9 is an error to the shell, and then the
      whole address counts as 0.0.0.0: it is accepted exactly if that lies in the subnet. */
  lemma BadOctalIsZero(text: string, k: nat, j: nat, net: Address, prefix: nat)
    requires prefix <= 32 && QuadPattern(text) && k < 4
    requires var octet := Split(text, '.')[k]; octet[0] == '0' && j < |octet| && (octet[j] == '8' || octet[j] == '9')
    ensures SetupAccepts(text, net, prefix) <==> InBlock(0, net, prefix)
  {
    hide InSubnet, InBlock, Val;
    assert ShellVal(Split(text, '.')[k]).None?;
    MaskTestIsIntervalTest(0, net, prefix);
  }

  lemma QuadParts(a: nat, b: nat, c: nat, d: nat)
    ensures Split(QuadText(a, b, c, d), '.') == [Dec(a), Dec(b), Dec(c), Dec(d)]
  {
    hide Dec;
    var parts := [Dec(a), Dec(b), Dec(c), Dec(d)];
    forall k | 0 <= k < |parts| ensures '.' !in parts[k] { assert AllDigits(parts[k]); }
    SplitJoin(parts, '.');
  }

  lemma DecAsShell(n: nat)
    ensures ShellVal(Dec(n)) == Some(n) && (OctetText(Dec(n)) <==> n < 256)
  {
    ValDec(n);
    if Dec(n)[0] == '0' {
      OctetAsShell("0");
    }
  }

  /** For printed numbers the two sides differ exactly in the range of the octets. */
  lemma PrintedQuads(a: nat, b: nat, c: nat, d: nat, net: Address, prefix: nat)
    requires prefix <= 32
    ensures SetupAccepts(QuadText(a, b, c, d), net, prefix) <==> InSubnet(QuadToInt(a, b, c, d), net, prefix)
    ensures AddressText(QuadText(a, b, c, d)) <==> a < 256 && b < 256 && c < 256 && d < 256
  {
    hide InSubnet, ShellVal, Dec, OctetText;
    QuadParts(a, b, c, d);
    DecAsShell(a);
    DecAsShell(b);
    DecAsShell(c);
    DecAsShell(d);
    var parts := [Dec(a), Dec(b), Dec(c), Dec(d)];
    assert (forall k :: 0 <= k < 4 ==> OctetText(parts[k])) <==>
           OctetText(parts[0]) && OctetText(parts[1]) && OctetText(parts[2]) && OctetText(parts[3]);
  }

  /** 192.168.180.256 is accepted against 192.168.180.0/23. */
  lemma OversizedOctetAccepted()
    ensures SetupAccepts(QuadText(192, 168, 180, 256), QuadToInt(192, 168, 180, 0), 23)
    ensures !PassesStartupCheck(QuadText(192, 168, 180, 256), QuadToInt(192, 168, 180, 0), 23)
  {
    hide And, PassesStartupCheck, SetupAccepts, AddressText, QuadText;
    var ip: Address, net: Address := QuadToInt(192, 168, 180, 256), QuadToInt(192, 168, 180, 0);
    Pow2Of32();
    assert Floor(net, 512) == net;
    MaskTestIsIntervalTest(ip, net, 23);
    PrintedQuads(192, 168, 180, 256, net, 23);
    AcceptedTextIsAddress(QuadText(192, 168, 180, 256), net, 23);
  }

  /** An octet with a leading zero is read as octal and accepted: 192.168.180.010 is
      taken for 192.168.180.8, and is no address. */
  lemma LeadingZeroAccepted(net: Address, prefix: nat)
    requires prefix <= 32 && InSubnet(QuadToInt(192, 168, 180, 8), net, prefix)
    ensures var text := Join([Dec(192), Dec(168), Dec(180), "010"], ".");
            SetupAccepts(text, net, prefix) && !PassesStartupCheck(text, net, prefix)
  {
    hide InSubnet, Dec, Val;
    var parts := [Dec(192), Dec(168), Dec(180), "010"];
    forall k | 0 <= k < |parts| ensures '.' !in parts[k] && parts[k] != "" && AllDigits(parts[k]) {
      assert k < 3 ==> AllDigits(parts[k]);
    }
    SplitJoin(parts, '.');
    DecAsShell(192);
    DecAsShell(168);
    DecAsShell(180);
    OctalTen();
    assert !OctetText(parts[3]);
  }

  lemma OctalTen()
    ensures OctalDigits("010") && OctalVal("010") == 8
  {
    assert "010"[..2] == "01" && "01"[..1] == "0" && "0"[..0] == "";
    assert OctalVal("") == 0 && OctalVal("0") == 0 && OctalVal("01") == 1;
  }

  lemma DottedPasses(a: Address, net: Address, prefix: nat)
    requires prefix <= 32
    ensures PassesStartupCheck(Dotted(a), net, prefix) <==> InSubnet(a, net, prefix)
  {
    hide InSubnet, Octets, SetupAccepts, AddressText, PassesStartupCheck, QuadText;
    var o := Octets(a);
    assert QuadToInt(o[0], o[1], o[2], o[3]) == a;
    PrintedQuads(o[0], o[1], o[2], o[3], net, prefix);
    AcceptedTextIsAddress(Dotted(a), net, prefix);
  }

  /** If both ends given to setup.sh were accepted, every pool address passes
      the orchestrator's startup check against the same subnet. */
  lemma AcceptedPoolPassesStartupCheck(start: Address, end: Address, net: Address, prefix: nat)
    requires prefix <= 32
    requires InSubnet(start, net, prefix) && InSubnet(end, net, prefix)
    ensures forall ip :: ip in Pool(start, end) ==> PassesStartupCheck(ip, net, prefix)
  {
    hide PassesStartupCheck, InSubnet, Dotted, InBlock;
    MaskTestIsIntervalTest(start, net, prefix);
    MaskTestIsIntervalTest(end, net, prefix);
    forall a: Address | start <= a <= end ensures PassesStartupCheck(Dotted(a), net, prefix) {
      MaskTestIsIntervalTest(a, net, prefix);
      BetweenInBlock(start, a, end, net, prefix);
      DottedPasses(a, net, prefix);
    }
  }

  lemma BetweenInBlock(x: nat, y: nat, z: nat, net: nat, prefix: nat)
    requires prefix <= 32 && x <= y <= z && InBlock(x, net, prefix) && InBlock(z, net, prefix)
    ensures InBlock(y, net, prefix)
  {
  }
}
