/** The bytes that are hashed for a list of parts. */
module HashInput {
  // Characters 0..255 stand for bytes.

  datatype Kind = Compile | Archive | Link

  const WORD := 0x1_0000_0000_0000_0000

  /** A part whose length fits the 64-bit prefix. */
  predicate Fits(p: string) { |p| < WORD }

  /** The k low-order bytes of n, least significant first. */
  function LittleEndian(n: nat, k: nat): (s: string)
    ensures |s| == k
  {
    if k == 0 then "" else [(n % 256) as char] + LittleEndian(n / 256, k - 1)
  }

  function Pow256(k: nat): (p: nat)
    ensures p > 0
  {
    if k == 0 then 1 else 256 * Pow256(k - 1)
  }

  lemma {:induction false} LittleEndianInjective(a: nat, b: nat, k: nat)
    requires a < Pow256(k) && b < Pow256(k)
    requires LittleEndian(a, k) == LittleEndian(b, k)
    ensures a == b
  {
    if k > 0 {
      var sa, sb := LittleEndian(a, k), LittleEndian(b, k);
      assert sa[0] == sb[0] && sa[1..] == sb[1..];
      LittleEndianInjective(a / 256, b / 256, k - 1);
    }
  }

  /** The prefix holds the digits of the length to the base of 256, the lowest first. */
  lemma {:induction false} PrefixDigit(n: nat, k: nat, j: nat)
    requires j < k
    ensures LittleEndian(n, k)[j] as int == n / Pow256(j) % 256
  {
    if j > 0 {
      PrefixDigit(n / 256, k - 1, j - 1);
      DivideTwice(n, Pow256(j - 1));
    }
  }

  lemma DivideTwice(n: nat, p: nat)
    requires p > 0
    ensures n / 256 / p == n / (256 * p)
  {
    var q, r := n / (256 * p), n % (256 * p);
    assert n == 256 * (p * q) + r;
    assert n / 256 == p * q + r / 256 && r / 256 < p;
    var d := n / 256;
    assert d == p * q + r / 256;
    QuotientIs(d, p, q, r / 256);
  }

  lemma CancelLess(p: int, a: int, b: int)
    requires p > 0 && p * a < p * b
    ensures a < b
  {
    assert p * (b - a) > 0;
  }

  lemma QuotientIs(d: nat, p: nat, q: nat, r: nat)
    requires d == p * q + r && r < p
    ensures d / p == q
  {
    var e := d / p;
    assert p * e <= d < p * (e + 1) == p * e + p;
    assert p * (q + 1) == p * q + p;
    CancelLess(p, e, q + 1);
    CancelLess(p, q, e + 1);
  }

  function Prefixed(p: string): string { LittleEndian(|p|, 8) + p }

  /** Every part preceded by its length in eight bytes. */
  function Encode(parts: seq<string>): string {
    if parts == [] then "" else Prefixed(parts[0]) + Encode(parts[1..])
  }

  lemma PrefixedInjective(p: string, q: string, restP: string, restQ: string)
    requires Fits(p) && Fits(q)
    requires Prefixed(p) + restP == Prefixed(q) + restQ
    ensures p == q && restP == restQ
  {
    var s, t := Prefixed(p) + restP, Prefixed(q) + restQ;
    assert s[..8] == LittleEndian(|p|, 8) && t[..8] == LittleEndian(|q|, 8);
    assert Pow256(8) == WORD;
    LittleEndianInjective(|p|, |q|, 8);
    assert s[8..8 + |p|] == p && t[8..8 + |q|] == q;
    assert s[8 + |p|..] == restP && t[8 + |q|..] == restQ;
  }

  /** Moving a boundary between parts changes the bytes that are hashed. */
  lemma {:induction false} EncodeInjective(a: seq<string>, b: seq<string>)
    requires forall k :: 0 <= k < |a| ==> Fits(a[k])
    requires forall k :: 0 <= k < |b| ==> Fits(b[k])
    requires Encode(a) == Encode(b)
    ensures a == b
  {
    if a != [] && b != [] {
      PrefixedInjective(a[0], b[0], Encode(a[1..]), Encode(b[1..]));
      EncodeInjective(a[1..], b[1..]);
    }
  }

  lemma EncodeAppend(parts: seq<string>, p: string)
    ensures Encode(parts + [p]) == Encode(parts) + Prefixed(p)
  {
    if parts != [] {
      assert (parts + [p])[1..] == parts[1..] + [p];
      EncodeAppend(parts[1..], p);
    } else {
      assert Encode([p]) == Prefixed(p) + Encode([]);
    }
  }

  /** The digest context is a growing buffer that the hash function reads at the end. */
  method HashParts(hash: string -> string, parts: seq<string>) returns (digest: string)
    ensures digest == hash(Encode(parts))
  {
    var fed := "";
    for i := 0 to |parts|
      invariant fed == Encode(parts[..i])
    {
      assert parts[..i + 1] == parts[..i] + [parts[i]];
      EncodeAppend(parts[..i], parts[i]);
      fed := fed + LittleEndian(|parts[i]|, 8);
      fed := fed + parts[i];
    }
    assert parts[..|parts|] == parts;
    digest := hash(fed);
  }

  // ---- action keys

  function KindText(kind: Kind): string {
    match kind
    case Compile => "0"
    case Archive => "1"
    case Link => "2"
  }

  /** name0, digest0, name1, digest1, ... */
  function Interleave(names: seq<string>, digests: seq<string>): (r: seq<string>)
    requires |names| == |digests|
    ensures |r| == 2 * |names|
    ensures forall k :: 0 <= k < |names| ==> r[2 * k] == names[k] && r[2 * k + 1] == digests[k]
  {
    if names == [] then []
    else
      var last := |names| - 1;
      Interleave(names[..last], digests[..last]) + [names[last], digests[last]]
  }

  function ActionParts(kind: Kind, toolchain: string, args: string, names: seq<string>,
                       digests: seq<string>): seq<string>
    requires |names| == |digests|
  {
    ["dc-action-v1", KindText(kind), toolchain, args] + Interleave(names, digests)
  }

  function ActionKey(hash: string -> string, kind: Kind, toolchain: string, args: string,
                     names: seq<string>, digests: seq<string>): string
    requires |names| == |digests|
  {
    hash(Encode(ActionParts(kind, toolchain, args, names, digests)))
  }

  /** Two actions with the same parts are the same action. */
  lemma ActionPartsInjective(kind: Kind, toolchain: string, args: string, names: seq<string>, digests: seq<string>,
                             kind': Kind, toolchain': string, args': string, names': seq<string>, digests': seq<string>)
    requires |names| == |digests| && |names'| == |digests'|
    requires ActionParts(kind, toolchain, args, names, digests) ==
               ActionParts(kind', toolchain', args', names', digests')
    ensures kind == kind' && toolchain == toolchain' && args == args' && names == names' && digests == digests'
  {
    var p, q := ActionParts(kind, toolchain, args, names, digests),
      ActionParts(kind', toolchain', args', names', digests');
    assert p[1] == q[1] && p[2] == q[2] && p[3] == q[3];
    var r, r' := Interleave(names, digests), Interleave(names', digests');
    assert p[4..] == r && q[4..] == r';
    forall k | 0 <= k < |names| ensures names[k] == names'[k] && digests[k] == digests'[k] {
      assert r[2 * k] == r'[2 * k] && r[2 * k + 1] == r'[2 * k + 1];
    }
  }

  method BuildActionKey(hash: string -> string, kind: Kind, toolchain: string, args: string,
                        names: seq<string>, digests: seq<string>) returns (key: string)
    requires |names| == |digests|
    ensures key == ActionKey(hash, kind, toolchain, args, names, digests)
  {
    var parts := ["dc-action-v1", KindText(kind), toolchain, args];
    for i := 0 to |names|
      invariant parts == ActionParts(kind, toolchain, args, names[..i], digests[..i])
    {
      assert names[..i + 1][..i] == names[..i] && digests[..i + 1][..i] == digests[..i];
      parts := parts + [names[i]];
      parts := parts + [digests[i]];
    }
    assert names[..|names|] == names && digests[..|names|] == digests;
    key := HashParts(hash, parts);
  }
}
