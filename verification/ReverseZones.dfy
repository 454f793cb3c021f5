/** Reverse DNS names of IPv4 networks and addresses. */
module ReverseZones {
  import opened Text
  import opened Decimal

  // ---------------------------------------------------------------- addresses

  /** Four octets, the most significant first. */
  type Address = o: seq<nat> | |o| == 4 && (forall i :: 0 <= i < 4 ==> o[i] < 256) witness [0, 0, 0, 0]

  function Number(o: Address): nat {
    ((o[0] * 256 + o[1]) * 256 + o[2]) * 256 + o[3]
  }

  function Pow2(n: nat): (p: nat)
    ensures p > 0
  {
    if n == 0 then 1 else 2 * Pow2(n - 1)
  }

  function FirstBits(a: Address, ones: nat): nat
    requires ones <= 32
  {
    Number(a) / Pow2(32 - ones)
  }

  /** The two addresses agree in their first ones bits. */
  predicate SameNet(a: Address, b: Address, ones: nat)
    requires ones <= 32
  {
    FirstBits(a, ones) == FirstBits(b, ones)
  }

  function Labels(o: seq<nat>): seq<string> {
    if o == [] then [] else [Itoa(o[0])] + Labels(o[1..])
  }

  function Reversed<T>(s: seq<T>): (r: seq<T>)
    ensures |r| == |s|
    ensures forall i :: 0 <= i < |s| ==> r[i] == s[|s| - 1 - i]
  {
    if s == [] then [] else Reversed(s[1..]) + [s[0]]
  }

  function AddressText(o: seq<nat>): string {
    Join(Labels(o), ".")
  }

  function Arpa(): string {
    ".in-addr.arpa"
  }

  /** The name of an address, or of a prefix of whole octets, under in-addr.arpa (section 3.5 of RFC 1035). */
  function ReverseName(o: seq<nat>): string {
    Join(Labels(Reversed(o)), ".") + Arpa()
  }

  // ---------------------------------------------------------------- operations

  /** The octets of the zone that covers a prefix of the given length. */
  function Taken(ones: nat): nat {
    if ones >= 24 then 3 else if ones >= 16 then 2 else 1
  }

  /** ReverseZoneName on a parsed IPv4 prefix, whose address is masked. */
  method ReverseZoneName(o: Address, ones: nat) returns (r: Option<string>)
    ensures r == if ones < 8 then None else Some(ReverseName(o[..Taken(ones)]))
  {
    if ones < 8 {
      return None;
    }
    var take := Taken(ones);
    var parts := [];
    for i := take downto 0
      invariant parts == Labels(Reversed(o[i..take]))
    {
      assert o[i..take] == [o[i]] + o[i + 1..take];
      LabelsAppend(Reversed(o[i + 1..take]), [o[i]]);
      parts := parts + [Itoa(o[i])];
      assert Reversed(o[i..take]) == Reversed(o[i + 1..take]) + [o[i]];
    }
    assert o[0..take] == o[..take];
    r := Some(Join(parts, ".") + Arpa());
  }

  /** networkOf */
  function NetworkOf(name: string): string {
    if !HasSuffix(name, Arpa()) then ""
    else
      var labels := Reversed(Split(TrimSuffix(name, Arpa()), '.'));
      match |labels|
      case 3 => Join(labels, ".") + ".0/24"
      case 2 => Join(labels, ".") + ".0.0/16"
      case 1 => labels[0] + ".0.0.0/8"
      case _ => ""
  }

  /** The reversal loop of networkOf and PtrOwner. */
  method ReverseInPlace(labels: array<string>)
    modifies labels
    ensures labels[..] == Reversed(old(labels[..]))
  {
    var i, j := 0, labels.Length - 1;
    while i < j
      invariant 0 <= i && i + j == labels.Length - 1 && i <= j + 1
      invariant forall k :: 0 <= k < labels.Length ==>
                labels[k] == old(labels[if i <= k <= j then k else labels.Length - 1 - k])
    {
      labels[i], labels[j] := labels[j], labels[i];
      i, j := i + 1, j - 1;
    }
  }

  /** kindOf */
  function KindOf(name: string): string {
    if HasSuffix(name, Arpa()) || HasSuffix(name, ".ip6.arpa") then "reverse" else "forward"
  }

  method NetworkOfZone(name: string) returns (network: string)
    ensures network == NetworkOf(name)
  {
    if !HasSuffix(name, ".in-addr.arpa") {
      return "";
    }
    var parts := Split(TrimSuffix(name, ".in-addr.arpa"), '.');
    var labels := new string[|parts|](i requires 0 <= i < |parts| => parts[i]);
    assert labels[..] == parts;
    ReverseInPlace(labels);
    match labels.Length
    case 3 => network := Join(labels[..], ".") + ".0/24";
    case 2 => network := Join(labels[..], ".") + ".0.0/16";
    case 1 => network := labels[0] + ".0.0.0/8";
    case _ => network := "";
  }

  function HostOctet(ip: string): string {
    var parts := Split(ip, '.');
    if |parts| == 4 then parts[3] else ip
  }

  /** PtrOwner: the labels of the address that the zone does not cover, in reverse. */
  function PtrOwner(ip: string, zone: string): string {
    var base := TrimSuffix(zone, Arpa());
    var n := |Split(base, '.')|;
    var o := Split(ip, '.');
    if base == zone || |o| != 4 || n < 1 || n > 3 then HostOctet(ip) else Join(Reversed(o[n..]), ".")
  }

  method PtrOwnerOf(ip: string, zone: string) returns (owner: string)
    ensures owner == PtrOwner(ip, zone)
  {
    var base := TrimSuffix(zone, ".in-addr.arpa");
    if base == zone {
      return HostOctet(ip);
    }
    var n := |Split(base, '.')|;
    var o := Split(ip, '.');
    if |o| != 4 || n < 1 || n > 3 {
      return HostOctet(ip);
    }
    var rem := new string[|o| - n](i requires 0 <= i < |o| - n => o[n + i]);
    assert rem[..] == o[n..];
    ReverseInPlace(rem);
    owner := Join(rem[..], ".");
  }

  // ---------------------------------------------------------------- labels

  lemma {:induction false} LabelsAppend(a: seq<nat>, b: seq<nat>)
    ensures Labels(a + b) == Labels(a) + Labels(b)
  {
    if a == [] {
      assert a + b == b;
    } else {
      LabelsAppend(a[1..], b);
      assert (a + b)[1..] == a[1..] + b;
    }
  }

  lemma {:induction false} LabelsAt(o: seq<nat>)
    ensures |Labels(o)| == |o| && forall i :: 0 <= i < |o| ==> Labels(o)[i] == Itoa(o[i])
  {
    if o != [] {
      LabelsAt(o[1..]);
    }
  }

  lemma LabelsPlain(o: seq<nat>)
    ensures NoneHas(Labels(o), '.')
  {
    LabelsAt(o);
  }

  /** Reading the labels of a printed prefix. */
  lemma LabelsRead(o: seq<nat>)
    requires o != []
    ensures Split(Join(Labels(o), "."), '.') == Labels(o)
  {
    LabelsPlain(o);
    LabelsAt(o);
    JoinSplits(Labels(o), '.');
  }

  lemma ReversedLabels(o: seq<nat>)
    ensures Labels(Reversed(o)) == Reversed(Labels(o))
  {
    hide *;
    var r := Reversed(o);
    LabelsAt(o);
    LabelsAt(r);
    forall i | 0 <= i < |o| ensures Labels(r)[i] == Reversed(Labels(o))[i] {
      assert Labels(r)[i] == Itoa(r[i]) && r[i] == o[|o| - 1 - i];
    }
  }

  lemma ReversedTwice<T>(s: seq<T>)
    ensures Reversed(Reversed(s)) == s
  {}

  lemma ReversedAppend<T>(a: seq<T>, b: seq<T>)
    ensures Reversed(a + b) == Reversed(b) + Reversed(a)
  {}

  lemma TrimsSuffix(s: string, suffix: string)
    ensures HasSuffix(s + suffix, suffix) && TrimSuffix(s + suffix, suffix) == s
  {}

  lemma ItoaInjective(m: nat, n: nat)
    requires Itoa(m) == Itoa(n)
    ensures m == n
  {
    ReadPrinted(m, "");
    ReadPrinted(n, "");
    assert Itoa(m) + "" == Itoa(n) + "";
  }

  lemma LabelsInjective(a: seq<nat>, b: seq<nat>)
    requires Labels(a) == Labels(b)
    ensures a == b
  {
    LabelsAt(a);
    LabelsAt(b);
    forall i | 0 <= i < |a| ensures a[i] == b[i] {
      ItoaInjective(a[i], b[i]);
    }
  }

  // ---------------------------------------------------------------- networks and zones

  lemma {:induction false} PowSplits(m: nat, n: nat)
    ensures Pow2(m + n) == Pow2(m) * Pow2(n)
  {
    if m > 0 {
      PowSplits(m - 1, n);
      assert Pow2(m + n) == 2 * Pow2(m - 1 + n);
    }
  }

  lemma DivDiv(x: nat, a: nat, b: nat)
    requires a > 0 && b > 0
    ensures a * b > 0 && x / (a * b) == (x / a) / b
  {
    var q, r := x / a, x % a;
    var p, s := q / b, q % b;
    assert x == a * q + r;
    DivParts(a, b, p, s, r);
    DivUnique(x, a * b, p, a * s + r);
  }

  lemma DivParts(a: nat, b: nat, p: nat, s: nat, r: nat)
    requires r < a && s < b
    ensures a * b > 0 && a * (b * p + s) + r == (a * b) * p + (a * s + r) && a * s + r < a * b
  {
    MulBounds(a, s, b - 1);
    assert a * (b - 1) == a * b - a;
    assert a * (b * p + s) == a * (b * p) + a * s;
    assert a * (b * p) == (a * b) * p;
  }

  lemma MulBounds(a: nat, s: nat, t: nat)
    requires s <= t
    ensures 0 <= a * s <= a * t
  {}

  lemma DivUnique(x: nat, d: nat, q: nat, r: nat)
    requires d > 0 && x == d * q + r && r < d
    ensures x / d == q
  {
    var q' := x / d;
    MulMono(d, q' + 1, q);
    MulMono(d, q + 1, q');
  }

  lemma MulMono(d: nat, x: nat, y: nat)
    ensures x <= y ==> d * x <= d * y
  {
    if x <= y {
      MulBounds(d, x, y);
    }
  }

  /** A longer prefix lies within the shorter one. */
  lemma LongerWithin(a: Address, b: Address, ones: nat, shorter: nat)
    requires shorter <= ones <= 32 && SameNet(a, b, ones)
    ensures SameNet(a, b, shorter)
  {
    hide FirstBits, Pow2;
    FewerBits(a, ones, shorter);
    FewerBits(b, ones, shorter);
  }

  lemma FewerBits(a: Address, ones: nat, shorter: nat)
    requires shorter <= ones <= 32
    ensures FirstBits(a, shorter) == FirstBits(a, ones) / Pow2(ones - shorter)
  {
    hide Number, Pow2;
    PowSplits(32 - ones, ones - shorter);
    DivDiv(Number(a), Pow2(32 - ones), Pow2(ones - shorter));
  }

  function Zeros(n: nat): seq<nat> {
    seq(n, _ => 0)
  }

  /** The first octets of an address, and zeros. */
  function Masked(o: Address, n: nat): Address
    requires n <= 4
  {
    o[..n] + Zeros(4 - n)
  }

  lemma PowBytes()
    ensures Pow2(8) == 256 && Pow2(16) == 65536 && Pow2(24) == 16777216
  {
    assert Pow2(4) == 16;
    PowSplits(4, 4);
    PowSplits(8, 8);
    PowSplits(8, 16);
  }

  /** Whole octets: two addresses share such a network exactly when they share its octets. */
  lemma OctetNet(a: Address, b: Address, n: nat)
    requires 1 <= n <= 3
    ensures SameNet(a, b, 8 * n) <==> a[..n] == b[..n]
  {
    hide Pow2;
    TopOctets(a, n);
    TopOctets(b, n);
    SameStart(a, b, n);
  }

  lemma SameStart(a: Address, b: Address, n: nat)
    requires 1 <= n <= 3
    ensures a[..n] == b[..n] <==> a[0] == b[0] && (n > 1 ==> a[1] == b[1]) && (n > 2 ==> a[2] == b[2])
  {
    assert a[..n][0] == a[0] && b[..n][0] == b[0];
    assert n > 1 ==> a[..n][1] == a[1] && b[..n][1] == b[1];
    assert n > 2 ==> a[..n][2] == a[2] && b[..n][2] == b[2];
  }

  function Top(o: Address, n: nat): nat
    requires 1 <= n <= 3
  {
    if n == 1 then o[0] else if n == 2 then o[0] * 256 + o[1] else (o[0] * 256 + o[1]) * 256 + o[2]
  }

  lemma TopOctets(o: Address, n: nat)
    requires 1 <= n <= 3
    ensures Number(o) / Pow2(32 - 8 * n) == Top(o, n)
  {
    PowBytes();
    hide Pow2;
  }

  function CidrText(o: seq<nat>, ones: nat): string {
    AddressText(o) + "/" + Itoa(ones)
  }

  /** The network of the zone that ReverseZoneName gives a prefix of length 8 or more is that of its first whole octets,
      all of them up to three: it contains the prefix, and is the prefix at /8, /16 and /24. */
  lemma NetworkContains(o: Address, ones: nat)
    requires 8 <= ones <= 32
    ensures var n := Taken(ones);
      && 8 * n <= ones && (n < 3 ==> ones < 8 * (n + 1))
      && NetworkOf(ReverseName(o[..n])) == CidrText(Masked(o, n), 8 * n)
      && (forall x: Address :: SameNet(x, o, ones) ==> SameNet(x, Masked(o, n), 8 * n))
      && (ones == 8 * n ==> forall x: Address :: SameNet(x, o, ones) <==> SameNet(x, Masked(o, n), 8 * n))
  {
    hide SameNet, Arpa, CidrText;
    var n := Taken(ones);
    NetworkText(o, n);
    MaskedKeeps(o, n);
    forall x: Address
      ensures SameNet(x, o, ones) ==> SameNet(x, Masked(o, n), 8 * n)
      ensures ones == 8 * n && SameNet(x, Masked(o, n), 8 * n) ==> SameNet(x, o, ones)
    {
      if SameNet(x, o, ones) {
        LongerWithin(x, o, ones, 8 * n);
      }
      OctetNet(x, o, n);
      OctetNet(x, Masked(o, n), n);
    }
  }

  lemma MaskedKeeps(o: Address, n: nat)
    requires 1 <= n <= 3
    ensures Masked(o, n)[..n] == o[..n]
  {}

  lemma NetworkText(o: Address, n: nat)
    requires 1 <= n <= 3
    ensures NetworkOf(ReverseName(o[..n])) == CidrText(Masked(o, n), 8 * n)
  {
    hide Reversed, Itoa, Split, Labels, Join, Arpa;
    var p := o[..n];
    TrimsSuffix(Join(Labels(Reversed(p)), "."), Arpa());
    assert Reversed(p) != [];
    LabelsRead(Reversed(p));
    ReversedLabels(p);
    ReversedTwice(Labels(p));
    LabelsAt(p);
    ZeroText(p, n);
  }

  lemma ZeroText(p: seq<nat>, n: nat)
    requires |p| == n && 1 <= n <= 3
    ensures CidrText(p + Zeros(4 - n), 8 * n) ==
            Join(Labels(p), ".") + (if n == 3 then ".0/24" else if n == 2 then ".0.0/16" else ".0.0.0/8")
    ensures n == 1 ==> Labels(p) == [Join(Labels(p), ".")]
  {
    hide *;
    var z := Zeros(4 - n);
    CidrIs(p + z, 8 * n);
    LabelsAppend(p, z);
    LabelsAt(p);
    ZeroLabels(n);
    JoinAppend(Labels(p), Labels(z), ".");
    Numerals();
    Tail(Join(Labels(p), "."), Join(Labels(z), "."), Itoa(8 * n));
    OneLabel(p);
  }

  lemma CidrIs(o: seq<nat>, ones: nat)
    ensures CidrText(o, ones) == Join(Labels(o), ".") + "/" + Itoa(ones)
  {}

  lemma ZeroLabels(n: nat)
    requires 1 <= n <= 3
    ensures Labels(Zeros(4 - n)) != []
    ensures "." + Join(Labels(Zeros(4 - n)), ".") + "/" + Itoa(8 * n) ==
            if n == 3 then ".0/24" else if n == 2 then ".0.0/16" else ".0.0.0/8"
  {
    var z := Zeros(4 - n);
    LabelsAt(z);
    Numerals();
    hide Labels, Itoa;
    assert Labels(z) == (if n == 3 then ["0"] else if n == 2 then ["0", "0"] else ["0", "0", "0"]);
    ZeroJoins();
  }

  lemma OneLabel(p: seq<nat>)
    ensures |p| == 1 ==> Labels(p) == [Join(Labels(p), ".")]
  {
    LabelsAt(p);
  }

  lemma Tail(j: string, t: string, l: string)
    ensures j + "." + t + "/" + l == j + ("." + t + "/" + l)
  {}

  lemma Numerals()
    ensures Itoa(0) == "0" && Itoa(8) == "8" && Itoa(16) == "16" && Itoa(24) == "24"
  {}

  lemma ZeroJoins()
    ensures Join(["0"], ".") == "0" && Join(["0", "0"], ".") == "0.0" && Join(["0", "0", "0"], ".") == "0.0.0"
  {
    assert ["0", "0", "0"][1..] == ["0", "0"] && ["0", "0"][1..] == ["0"];
  }

  // ---------------------------------------------------------------- owners

  /** In the zone of its first octets, the owner name of an address completes the zone's name to the reverse name of
      the address. */
  lemma OwnerCompletes(ip: Address, n: nat)
    requires 1 <= n <= 3
    ensures PtrOwner(AddressText(ip), ReverseName(ip[..n])) + "." + ReverseName(ip[..n]) == ReverseName(ip)
  {
    hide Reversed, Itoa, Split, Labels, Join, Arpa;
    var p, h := ip[..n], ip[n..];
    assert ip == p + h;
    assert Arpa() != "" by {
      ArpaLength();
    }
    TrimsSuffix(Join(Labels(Reversed(p)), "."), Arpa());
    LabelsRead(Reversed(p));
    LabelsRead(ip);
    LabelsAt(ip);
    LabelsAt(Reversed(p));
    LabelsAppend(p, h);
    LabelsAt(p);
    assert Labels(ip)[n..] == Labels(h);
    ReversedLabels(h);
    ReversedAppend(p, h);
    LabelsAppend(Reversed(h), Reversed(p));
    LabelsAt(Reversed(h));
    JoinAppend(Labels(Reversed(h)), Labels(Reversed(p)), ".");
    Assoc(Join(Labels(Reversed(h)), ".") + ".", Join(Labels(Reversed(p)), "."), Arpa());
  }

  lemma ArpaLength()
    ensures |Arpa()| == 13
  {}

  /** Distinct addresses have distinct reverse names. */
  lemma ReverseNameInjective(a: Address, b: Address)
    requires ReverseName(a) == ReverseName(b)
    ensures a == b
  {
    hide Reversed, Labels, Join, Split, Arpa;
    TrimsSuffix(Join(Labels(Reversed(a)), "."), Arpa());
    TrimsSuffix(Join(Labels(Reversed(b)), "."), Arpa());
    LabelsRead(Reversed(a));
    LabelsRead(Reversed(b));
    LabelsInjective(Reversed(a), Reversed(b));
    ReversedTwice(a);
    ReversedTwice(b);
  }

  /** Within one zone, distinct addresses get distinct owner names. */
  lemma OwnersDistinct(a: Address, b: Address, n: nat)
    requires 1 <= n <= 3 && a[..n] == b[..n] && a != b
    ensures PtrOwner(AddressText(a), ReverseName(a[..n])) != PtrOwner(AddressText(b), ReverseName(a[..n]))
  {
    hide *;
    OwnerCompletes(a, n);
    OwnerCompletes(b, n);
    if PtrOwner(AddressText(a), ReverseName(a[..n])) == PtrOwner(AddressText(b), ReverseName(a[..n])) {
      ReverseNameInjective(a, b);
    }
  }

  // ---------------------------------------------------------------- a private network

  lemma OctetNumerals()
    ensures Itoa(192) == "192" && Itoa(168) == "168" && Itoa(1) == "1" && Itoa(5) == "5" && Itoa(10) == "10"
  {}

  lemma LabelsCons(n: nat, o: seq<nat>)
    ensures Labels([n] + o) == [Itoa(n)] + Labels(o) && Labels([]) == []
  {
    assert ([n] + o)[1..] == o;
  }

  lemma JoinCons(a: string, more: seq<string>)
    ensures Join([a] + more, ".") == if more == [] then a else a + "." + Join(more, ".")
  {
    assert ([a] + more)[1..] == more;
  }

  lemma FourLabels(a: nat, b: nat, c: nat, d: nat)
    ensures Join(Labels([a, b, c, d]), ".") == Itoa(a) + "." + (Itoa(b) + "." + (Itoa(c) + "." + Itoa(d)))
    ensures Join(Labels([b, c, d]), ".") == Itoa(b) + "." + (Itoa(c) + "." + Itoa(d))
    ensures Join(Labels([c, d]), ".") == Itoa(c) + "." + Itoa(d)
  {
    hide *;
    var none: seq<nat> := [];
    LabelsCons(d, none);
    LabelsCons(c, [d]);
    LabelsCons(b, [c, d]);
    LabelsCons(a, [b, c, d]);
    assert [d] + none == [d] && [c] + [d] == [c, d] && [b] + [c, d] == [b, c, d] && [a] + [b, c, d] == [a, b, c, d];
    JoinCons(Itoa(d), []);
    JoinCons(Itoa(c), Labels([d]));
    JoinCons(Itoa(b), Labels([c, d]));
    JoinCons(Itoa(a), Labels([b, c, d]));
    assert [Itoa(d)] + [] == [Itoa(d)];
  }

  lemma ReverseNameIs(o: seq<nat>)
    ensures ReverseName(o) == Join(Labels(Reversed(o)), ".") + ".in-addr.arpa"
  {}

  lemma ReversedThree(a: nat, b: nat, c: nat)
    ensures Reversed([a, b, c]) == [c, b, a] && Reversed([a, b]) == [b, a]
  {}

  lemma MaskedThree(a: nat, b: nat, c: nat)
    requires a < 256 && b < 256 && c < 256
    ensures var o: Address := [a, b, c, 0]; o[..3] == [a, b, c] && Masked(o, 3) == [a, b, c, 0]
  {
    var o: Address := [a, b, c, 0];
    assert Zeros(1) == [0];
  }

  lemma PrivateZone()
    ensures ReverseName([192, 168, 1]) == "1.168.192.in-addr.arpa"
  {
    hide *;
    OctetNumerals();
    ReversedThree(192, 168, 1);
    ReverseNameIs([192, 168, 1]);
    FourLabels(0, 1, 168, 192);
    assert "1" + "." + ("168" + "." + "192") == "1.168.192";
    assert "1.168.192" + ".in-addr.arpa" == "1.168.192.in-addr.arpa";
  }

  lemma WiderZone()
    ensures ReverseName([192, 168]) == "168.192.in-addr.arpa"
  {
    hide *;
    OctetNumerals();
    ReversedThree(192, 168, 1);
    ReverseNameIs([192, 168]);
    FourLabels(0, 1, 168, 192);
    assert "168" + "." + "192" == "168.192";
    assert "168.192" + ".in-addr.arpa" == "168.192.in-addr.arpa";
  }

  lemma PrivateAddress()
    ensures AddressText([192, 168, 5, 10]) == "192.168.5.10"
  {
    hide *;
    OctetNumerals();
    FourLabels(192, 168, 5, 10);
    AddressIs([192, 168, 5, 10]);
    assert "192" + "." + ("168" + "." + ("5" + "." + "10")) == "192.168.5.10";
  }

  lemma AddressZone()
    ensures ReverseName([192, 168, 5, 10]) == "10.5" + ".168.192.in-addr.arpa"
  {
    hide *;
    OctetNumerals();
    ReversedFour(192, 168, 5, 10);
    ReverseNameIs([192, 168, 5, 10]);
    FourLabels(10, 5, 168, 192);
    assert "10" + "." + ("5" + "." + ("168" + "." + "192")) == "10.5" + ".168.192";
    assert ".168.192" + ".in-addr.arpa" == ".168.192.in-addr.arpa";
    Assoc("10.5", ".168.192", ".in-addr.arpa");
  }

  lemma PrivateCidr()
    ensures CidrText([192, 168, 1, 0], 24) == "192.168.1.0/24"
  {
    hide *;
    OctetNumerals();
    Numerals();
    FourLabels(192, 168, 1, 0);
    CidrIs([192, 168, 1, 0], 24);
    assert "192" + "." + ("168" + "." + ("1" + "." + "0")) + "/" + "24" == "192.168.1.0/24";
  }

  lemma ReversedFour(a: nat, b: nat, c: nat, d: nat)
    ensures Reversed([a, b, c, d]) == [d, c, b, a]
  {}

  lemma AddressIs(o: seq<nat>)
    ensures AddressText(o) == Join(Labels(o), ".")
  {}

  lemma PrivateOwner()
    ensures PtrOwner("192.168.5.10", "168.192.in-addr.arpa") == "10.5"
  {
    hide *;
    var ip: Address := [192, 168, 5, 10];
    WiderZone();
    PrivateAddress();
    AddressZone();
    OwnerCompletes(ip, 2);
    assert ip[..2] == [192, 168];
    var owner := PtrOwner("192.168.5.10", "168.192.in-addr.arpa");
    assert "." + "168.192.in-addr.arpa" == ".168.192.in-addr.arpa";
    SameOwner(owner, "10.5", "168.192.in-addr.arpa", ".168.192.in-addr.arpa");
  }

  lemma SameOwner(a: string, b: string, zone: string, suffix: string)
    requires "." + zone == suffix && a + "." + zone == b + suffix
    ensures a == b
  {
    TrimsSuffix(a, suffix);
    TrimsSuffix(b, suffix);
    assert a + "." + zone == a + suffix;
  }

  /** The private network 192.168.1.0/24 and an address in 192.168.0.0/16, as section 3.5 of RFC 1035 names them. */
  lemma PrivateNetwork()
    ensures ReverseName([192, 168, 1]) == "1.168.192.in-addr.arpa"
    ensures NetworkOf("1.168.192.in-addr.arpa") == "192.168.1.0/24"
    ensures PtrOwner("192.168.5.10", "168.192.in-addr.arpa") == "10.5"
    ensures KindOf("1.168.192.in-addr.arpa") == "reverse" && KindOf("example.com") == "forward"
  {
    hide *;
    PrivateZone();
    PrivateCidr();
    PrivateOwner();
    MaskedThree(192, 168, 1);
    NetworkText([192, 168, 1, 0], 3);
    Kinds();
  }

  lemma Kinds()
    ensures KindOf("1.168.192.in-addr.arpa") == "reverse" && KindOf("example.com") == "forward"
  {
    assert "1.168.192.in-addr.arpa" == "1.168.192" + ".in-addr.arpa";
    TrimsSuffix("1.168.192", ".in-addr.arpa");
  }

  // ---------------------------------------------------------------- names that are no such zones

  /** A name that is not of one to three labels under in-addr.arpa has no network. */
  lemma NoNetwork(name: string)
    ensures !HasSuffix(name, ".in-addr.arpa") ==> NetworkOf(name) == ""
    ensures HasSuffix(name, ".in-addr.arpa") && |Split(TrimSuffix(name, ".in-addr.arpa"), '.')| > 3 ==>
              NetworkOf(name) == ""
  {
    hide Split;
  }

  /** There the owner of an address is its last octet, and all of a text that is not of four parts. */
  lemma OwnerWithoutZone(parts: seq<string>, zone: string)
    requires parts != [] && NoneHas(parts, '.')
    requires !HasSuffix(zone, ".in-addr.arpa") || |Split(TrimSuffix(zone, ".in-addr.arpa"), '.')| > 3
    ensures PtrOwner(Join(parts, "."), zone) == if |parts| == 4 then parts[3] else Join(parts, ".")
  {
    hide Split, Join;
    JoinSplits(parts, '.');
  }

  /** Nor does a zone with a network know a text that is not of four parts. */
  lemma OwnerOfOther(parts: seq<string>, zone: string)
    requires parts != [] && NoneHas(parts, '.') && |parts| != 4
    ensures PtrOwner(Join(parts, "."), zone) == Join(parts, ".")
  {
    hide Split, Join;
    JoinSplits(parts, '.');
  }

  lemma KindsAre(name: string)
    ensures KindOf(name) == "reverse" <==> HasSuffix(name, ".in-addr.arpa") || HasSuffix(name, ".ip6.arpa")
    ensures KindOf(name) == "reverse" || KindOf(name) == "forward"
  {}
}
