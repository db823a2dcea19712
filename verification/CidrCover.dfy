/**
 Whether CIDR prefixes together hold every address of a family
 (prefixesCoverFamily): siblings are merged bottom up until the /0 is reached.
 An address is the sequence of its bits, most significant first; a masked
 prefix is the bits it fixes.
 */
module CidrCover {

  /** A parsed prefix, its address not necessarily masked (netip.Prefix). */
  datatype Prefix = Prefix(valid: bool, v6: bool, addr: seq<bool>, bits: nat)

  type Bits = seq<bool>

  /** The address family's width: 32 or 128; the algorithm takes any. */
  ghost predicate WellFormed(p: Prefix, v6: bool, width: nat) {
    p.valid && p.v6 == v6 ==> |p.addr| == width && p.bits <= width
  }

  predicate Counts(p: Prefix, v6: bool) {
    p.valid && p.v6 == v6
  }

  /** p.Masked(), as the bits it fixes. */
  function Masked(p: Prefix): Bits
    requires p.bits <= |p.addr|
  {
    p.addr[..p.bits]
  }

  ghost predicate Contains(p: Prefix, addr: Bits) {
    p.bits <= |p.addr| && Masked(p) <= addr
  }

  /** Every address of the family lies in some prefix of it. */
  ghost predicate Covers(ps: seq<Prefix>, v6: bool, width: nat)
    requires forall p :: p in ps ==> WellFormed(p, v6, width)
  {
    forall addr: Bits :: |addr| == width ==> exists p :: p in ps && Counts(p, v6) && Contains(p, addr)
  }

  /** The prefix that differs from q only in its last bit. */
  function Sibling(q: Bits): Bits
    requires q != []
  {
    q[|q| - 1 := !q[|q| - 1]]
  }

  function Parent(q: Bits): Bits
    requires q != []
  {
    q[..|q| - 1]
  }

  /** q is an input, or both its halves are: what merging siblings finds. */
  ghost predicate Merged(inputs: set<Bits>, width: nat, q: Bits)
    decreases width - |q|
  {
    q in inputs || (|q| < width && Merged(inputs, width, q + [false]) && Merged(inputs, width, q + [true]))
  }

  /** Whatever lies under a merged prefix lies in an input. */
  lemma {:induction false} MergedIsCovered(inputs: set<Bits>, width: nat, q: Bits, addr: Bits) returns (p: Bits)
    requires Merged(inputs, width, q) && q <= addr && |addr| == width
    ensures p in inputs && p <= addr
    decreases width - |q|
  {
    if q in inputs {
      p := q;
    } else {
      var half := if addr[|q|] then q + [true] else q + [false];
      p := MergedIsCovered(inputs, width, half, addr);
    }
  }

  /** Under a prefix that is not merged some address lies in no input longer than it. */
  lemma {:induction false} UnmergedHasGap(inputs: set<Bits>, width: nat, q: Bits) returns (addr: Bits)
    requires !Merged(inputs, width, q) && |q| <= width
    ensures |addr| == width && q <= addr
    ensures forall n :: |q| <= n <= width ==> addr[..n] !in inputs
    decreases width - |q|
  {
    if |q| == width {
      addr := q;
      assert addr[..width] == q;
    } else {
      var b := Merged(inputs, width, q + [false]);
      addr := UnmergedHasGap(inputs, width, q + [b]);
      assert addr[..|q|] == q;
    }
  }

  /** The address space is covered exactly when merging reaches the /0. */
  lemma {:induction false} RootMerged(inputs: set<Bits>, width: nat)
    requires forall q :: q in inputs ==> |q| <= width
    ensures Merged(inputs, width, []) <==> forall addr: Bits :: |addr| == width ==> exists q :: q in inputs && q <= addr
  {
    if Merged(inputs, width, []) {
      forall addr: Bits | |addr| == width
        ensures exists q :: q in inputs && q <= addr
      {
        var q := MergedIsCovered(inputs, width, [], addr);
      }
    } else {
      var addr := UnmergedHasGap(inputs, width, []);
      forall q | q in inputs
        ensures !(q <= addr)
      {
        assert q <= addr <==> q == addr[..|q|];
      }
    }
  }

  ghost function Inputs(ps: seq<Prefix>, v6: bool): set<Bits> {
    set p | p in ps && Counts(p, v6) && p.bits <= |p.addr| :: Masked(p)
  }

  ghost function OfLength(inputs: set<Bits>, n: nat): set<Bits> {
    set q | q in inputs && |q| == n
  }

  lemma {:induction false} InputsNext(ps: seq<Prefix>, v6: bool, i: nat)
    requires i < |ps| && (Counts(ps[i], v6) ==> ps[i].bits <= |ps[i].addr|)
    ensures Inputs(ps[..i + 1], v6) == Inputs(ps[..i], v6) + (if Counts(ps[i], v6) then {Masked(ps[i])} else {})
  {
    assert ps[..i + 1] == ps[..i] + [ps[i]];
  }

  /** Files each prefix of the family under its length. */
  method FillLevels(ps: seq<Prefix>, v6: bool, width: nat) returns (levels: array<set<Bits>>)
    requires forall p :: p in ps ==> WellFormed(p, v6, width)
    ensures fresh(levels) && levels.Length == width + 1
    ensures forall n :: 0 <= n <= width ==> levels[n] == OfLength(Inputs(ps, v6), n)
  {
    levels := new set<Bits>[width + 1](_ => {});
    for i := 0 to |ps|
      invariant forall n :: 0 <= n <= width ==> levels[n] == OfLength(Inputs(ps[..i], v6), n)
    {
      var p := ps[i];
      assert p in ps;
      InputsNext(ps, v6, i);
      if Counts(p, v6) {
        levels[p.bits] := levels[p.bits] + {Masked(p)};
      }
    }
    assert ps[..|ps|] == ps;
  }

  /** Merges siblings level by level, up to the /0. */
  method MergeUp(levels: array<set<Bits>>, ghost inputs: set<Bits>, width: nat)
    requires levels.Length == width + 1 && forall q :: q in inputs ==> |q| <= width
    requires forall n :: 0 <= n <= width ==> levels[n] == OfLength(inputs, n)
    modifies levels
    ensures forall q :: q in levels[0] <==> q == [] && Merged(inputs, width, [])
  {
    var bits := width;
    while bits > 0
      invariant 0 <= bits <= width
      invariant forall q: Bits :: q in levels[bits] <==> |q| == bits && Merged(inputs, width, q)
      invariant forall n :: 0 <= n < bits ==> levels[n] == OfLength(inputs, n)
    {
      MergeLevel(levels, bits, inputs, width);
      bits := bits - 1;
    }
  }

  /** Reports whether the prefixes hold every address of the family: true if and
      only if they do, for any width and any overlapping or nested prefixes. */
  method PrefixesCoverFamily(ps: seq<Prefix>, v6: bool, width: nat) returns (covered: bool)
    requires forall p :: p in ps ==> WellFormed(p, v6, width)
    ensures covered <==> Covers(ps, v6, width)
  {
    var levels := FillLevels(ps, v6, width);
    MergeUp(levels, Inputs(ps, v6), width);
    covered := levels[0] != {};
    assert covered <==> [] in levels[0];
    CoverIsMerged(ps, v6, width);
  }

  /** Adds to level bits - 1 the parent of each pair of siblings of level bits. */
  method MergeLevel(levels: array<set<Bits>>, bits: nat, ghost inputs: set<Bits>, ghost width: nat)
    requires levels.Length == width + 1 && 0 < bits <= width
    requires forall q :: q in levels[bits] ==> |q| == bits
    requires forall q: Bits :: |q| == bits ==> (q in levels[bits] <==> Merged(inputs, width, q))
    requires levels[bits - 1] == (set q | q in inputs && |q| == bits - 1)
    modifies levels
    ensures forall n :: 0 <= n <= width && n != bits - 1 ==> levels[n] == old(levels[n])
    ensures forall q :: q in levels[bits - 1] ==> |q| == bits - 1
    ensures forall q: Bits :: |q| == bits - 1 ==> (q in levels[bits - 1] <==> Merged(inputs, width, q))
  {
    var todo := levels[bits];
    while todo != {}
      invariant todo <= levels[bits] == old(levels[bits])
      invariant forall n :: 0 <= n <= width && n != bits - 1 ==> levels[n] == old(levels[n])
      invariant forall q :: q in levels[bits - 1] ==> |q| == bits - 1 && (q in inputs || BothHalves(levels[bits], q))
      invariant forall q :: q in inputs && |q| == bits - 1 ==> q in levels[bits - 1]
      invariant forall q: Bits :: |q| == bits - 1 && BothHalves(levels[bits], q) && q + [false] !in todo ==>
                  q in levels[bits - 1]
      decreases todo
    {
      var p :| p in todo;
      todo := todo - {p};
      SiblingHalves(levels[bits], p);
      if Sibling(p) in levels[bits] {
        levels[bits - 1] := levels[bits - 1] + {Parent(p)};
      }
    }
    forall q: Bits | |q| == bits - 1
      ensures q in levels[bits - 1] <==> Merged(inputs, width, q)
    {
      assert |q + [false]| == bits && |q + [true]| == bits;
    }
  }

  ghost predicate BothHalves(level: set<Bits>, q: Bits) {
    q + [false] in level && q + [true] in level
  }

  /** p and its sibling are the two halves of their parent. */
  lemma {:induction false} SiblingHalves(level: set<Bits>, p: Bits)
    requires p != [] && p in level
    ensures Sibling(p) in level <==> BothHalves(level, Parent(p))
    ensures forall q: Bits :: p == q + [false] ==> q == Parent(p)
  {
    var q := Parent(p);
    if p[|p| - 1] {
      assert p == q + [true] && Sibling(p) == q + [false];
    } else {
      assert p == q + [false] && Sibling(p) == q + [true];
    }
  }

  lemma {:induction false} CoverIsMerged(ps: seq<Prefix>, v6: bool, width: nat)
    requires forall p :: p in ps ==> WellFormed(p, v6, width)
    ensures Covers(ps, v6, width) <==> Merged(Inputs(ps, v6), width, [])
  {
    var inputs := Inputs(ps, v6);
    RootMerged(inputs, width);
    forall addr: Bits | |addr| == width
      ensures (exists p :: p in ps && Counts(p, v6) && Contains(p, addr)) <==> exists q :: q in inputs && q <= addr
    {
      InputHolds(ps, v6, addr);
    }
  }

  lemma {:induction false} InputHolds(ps: seq<Prefix>, v6: bool, addr: Bits)
    ensures (exists p :: p in ps && Counts(p, v6) && Contains(p, addr)) <==>
            (exists q :: q in Inputs(ps, v6) && q <= addr)
  {
    if q :| q in Inputs(ps, v6) && q <= addr {
      var p :| p in ps && Counts(p, v6) && p.bits <= |p.addr| && Masked(p) == q;
      assert Contains(p, addr);
    }
    if p :| p in ps && Counts(p, v6) && Contains(p, addr) {
      assert Masked(p) in Inputs(ps, v6);
    }
  }

  /* ---------- siblingPrefix on the address's bytes ---------- */

  /** Bit i of a big-endian byte string. */
  function BitAt(bytes: seq<bv8>, i: nat): bool
    requires i < 8 * |bytes|
  {
    bytes[i / 8] & Mask(i % 8) != 0
  }

  /** 0x80 >> k */
  function Mask(k: nat): bv8
    requires k < 8
  {
    match k
    case 0 => 0x80 case 1 => 0x40 case 2 => 0x20 case 3 => 0x10
    case 4 => 0x08 case 5 => 0x04 case 6 => 0x02 case _ => 0x01
  }

  function Xor(a: bv8, b: bv8): bv8 {
    a ^ b
  }

  /** Exclusive or with a bit's mask flips that bit and no other. */
  lemma {:induction false} XorFlips(b: bv8, k: nat, j: nat)
    requires k < 8 && j < 8
    ensures (Xor(b, Mask(k)) & Mask(j) != 0) == (if j == k then b & Mask(j) == 0 else b & Mask(j) != 0)
  {
    if j == k {
      FlipSet(b, Mask(k));
    } else {
      MasksApart(k, j);
      FlipOther(b, Mask(k), Mask(j));
    }
  }

  lemma {:induction false} MasksApart(k: nat, j: nat)
    requires k < 8 && j < 8 && j != k
    ensures Mask(k) & Mask(j) == 0
  {
  }

  lemma {:induction false} FlipSet(b: bv8, m: bv8)
    requires m in {0x80, 0x40, 0x20, 0x10, 0x08, 0x04, 0x02, 0x01}
    ensures Xor(b, m) & m != 0 <==> b & m == 0
  {
  }

  lemma {:induction false} FlipOther(b: bv8, m: bv8, n: bv8)
    requires m & n == 0
    ensures Xor(b, m) & n == b & n
  {
  }

  /** The bits of a big-endian byte string. */
  function BitsOf(bytes: seq<bv8>): (r: Bits)
    ensures |r| == 8 * |bytes| && forall i :: 0 <= i < |r| ==> r[i] == BitAt(bytes, i)
  {
    seq(8 * |bytes|, i requires 0 <= i < 8 * |bytes| => BitAt(bytes, i))
  }

  lemma {:induction false} FlipAt(bytes: seq<bv8>, i: nat, j: nat)
    requires i < 8 * |bytes| && j < 8 * |bytes|
    ensures BitAt(bytes[i / 8 := Xor(bytes[i / 8], Mask(i % 8))], j) == (BitAt(bytes, j) != (j == i))
  {
    if j / 8 == i / 8 {
      XorFlips(bytes[j / 8], i % 8, j % 8);
    }
  }

  /** On the bits, flipping one of the bytes' flips that one. */
  lemma {:induction false} FlippedBits(bytes: seq<bv8>, i: nat)
    requires i < 8 * |bytes|
    ensures BitsOf(bytes[i / 8 := Xor(bytes[i / 8], Mask(i % 8))]) == BitsOf(bytes)[i := !BitAt(bytes, i)]
  {
    var flipped := bytes[i / 8 := Xor(bytes[i / 8], Mask(i % 8))];
    forall j | 0 <= j < 8 * |bytes|
      ensures BitAt(flipped, j) == BitsOf(bytes)[i := !BitAt(bytes, i)][j]
    {
      FlipAt(bytes, i, j);
    }
  }

  /** The first bits of an address with its last prefix bit flipped are the sibling. */
  lemma {:induction false} FlippedIsSibling(all: Bits, bits: nat)
    requires 0 < bits <= |all|
    ensures var flipped := all[bits - 1 := !all[bits - 1]];
            flipped[..bits] == Sibling(all[..bits]) && flipped[bits..] == all[bits..]
  {
  }

  /** siblingPrefix on the address's bytes in place: its first bits become the
      sibling prefix the merge looks for, and the others stay. */
  method SiblingPrefix(b: array<bv8>, bits: nat)
    requires 0 < bits <= 8 * b.Length
    modifies b
    ensures BitsOf(b[..])[..bits] == Sibling(old(BitsOf(b[..]))[..bits])
    ensures BitsOf(b[..])[bits..] == old(BitsOf(b[..]))[bits..]
  {
    var i := bits - 1;
    ghost var before := b[..];
    b[i / 8] := Xor(b[i / 8], Mask(i % 8));
    assert b[..] == before[i / 8 := Xor(before[i / 8], Mask(i % 8))];
    FlippedBits(before, i);
    FlippedIsSibling(BitsOf(before), bits);
  }
}
