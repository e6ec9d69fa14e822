/** The deterministic identities of a bot population: distinct because their mixer is a bijection. */
module BotIdentities {

  /** Word arithmetic wraps modulo 2^64. */
  type Word = bv64

  // The stages of the mixer, each with its inverse.

  function Offset(x: Word): Word { x + 0x9e37_79b9_7f4a_7c15 }

  function Unoffset(x: Word): Word { x - 0x9e37_79b9_7f4a_7c15 }

  function Fold30(x: Word): Word { x ^ (x >> 30) }

  function Unfold30(x: Word): Word { x ^ (x >> 30) ^ (x >> 60) }

  function Scale1(x: Word): Word { x * 0xbf58_476d_1ce4_e5b9 }

  function Unscale1(x: Word): Word { x * 0x96de_1b17_3f11_9089 }

  function Fold27(x: Word): Word { x ^ (x >> 27) }

  function Unfold27(x: Word): Word { x ^ (x >> 27) ^ (x >> 54) }

  function Scale2(x: Word): Word { x * 0x94d0_49bb_1331_11eb }

  function Unscale2(x: Word): Word { x * 0x3196_42b2_d24d_8ec3 }

  function Fold31(x: Word): Word { x ^ (x >> 31) }

  function Unfold31(x: Word): Word { x ^ (x >> 31) ^ (x >> 62) }

  function SplitMix64(seed: Word): Word {
    Fold31(Scale2(Fold27(Scale1(Fold30(Offset(seed))))))
  }

  function Unmix64(mixed: Word): Word {
    Unoffset(Unfold30(Unscale1(Unfold27(Unscale2(Unfold31(mixed))))))
  }

  lemma OffsetInverts(x: Word)
    ensures Unoffset(Offset(x)) == x && Offset(Unoffset(x)) == x
  {}

  lemma Fold30Undone(x: Word)
    ensures Unfold30(x ^ (x >> 30)) == x && Fold30(x ^ (x >> 30) ^ (x >> 60)) == x
  {}

  lemma Fold30Inverts(x: Word)
    ensures Unfold30(Fold30(x)) == x && Fold30(Unfold30(x)) == x
  {
    Fold30Undone(x);
    assert Fold30(x) == x ^ (x >> 30) by {
      hide Unfold30;
    }
    assert Unfold30(x) == x ^ (x >> 30) ^ (x >> 60) by {
      hide Fold30;
    }
    hide *;
  }

  lemma Fold27Undone(x: Word)
    ensures Unfold27(x ^ (x >> 27)) == x && Fold27(x ^ (x >> 27) ^ (x >> 54)) == x
  {}

  lemma Fold27Inverts(x: Word)
    ensures Unfold27(Fold27(x)) == x && Fold27(Unfold27(x)) == x
  {
    Fold27Undone(x);
    assert Fold27(x) == x ^ (x >> 27) by {
      hide Unfold27;
    }
    assert Unfold27(x) == x ^ (x >> 27) ^ (x >> 54) by {
      hide Fold27;
    }
    hide *;
  }

  lemma Fold31Undone(x: Word)
    ensures Unfold31(x ^ (x >> 31)) == x && Fold31(x ^ (x >> 31) ^ (x >> 62)) == x
  {}

  lemma Fold31Inverts(x: Word)
    ensures Unfold31(Fold31(x)) == x && Fold31(Unfold31(x)) == x
  {
    Fold31Undone(x);
    assert Fold31(x) == x ^ (x >> 31) by {
      hide Unfold31;
    }
    assert Unfold31(x) == x ^ (x >> 31) ^ (x >> 62) by {
      hide Fold31;
    }
    hide *;
  }

  // Both factors are odd, so they have inverses modulo 2^64.

  lemma Scale1Undone(x: Word)
    ensures Unscale1(x * 0xbf58_476d_1ce4_e5b9) == x && Scale1(x * 0x96de_1b17_3f11_9089) == x
  {}

  lemma Scale1Inverts(x: Word)
    ensures Unscale1(Scale1(x)) == x && Scale1(Unscale1(x)) == x
  {
    Scale1Undone(x);
    assert Scale1(x) == x * 0xbf58_476d_1ce4_e5b9 by {
      hide Unscale1;
    }
    assert Unscale1(x) == x * 0x96de_1b17_3f11_9089 by {
      hide Scale1;
    }
    hide *;
  }

  lemma Scale2Undone(x: Word)
    ensures Unscale2(x * 0x94d0_49bb_1331_11eb) == x && Scale2(x * 0x3196_42b2_d24d_8ec3) == x
  {}

  lemma Scale2Inverts(x: Word)
    ensures Unscale2(Scale2(x)) == x && Scale2(Unscale2(x)) == x
  {
    Scale2Undone(x);
    assert Scale2(x) == x * 0x94d0_49bb_1331_11eb by {
      hide Unscale2;
    }
    assert Unscale2(x) == x * 0x3196_42b2_d24d_8ec3 by {
      hide Scale2;
    }
    hide *;
  }

  /** The mixer is a bijection on 64-bit words. */
  lemma UnmixUndoesMix(seed: Word)
    ensures Unmix64(SplitMix64(seed)) == seed
  {
    var a := Offset(seed);
    var b := Fold30(a);
    var c := Scale1(b);
    var d := Fold27(c);
    var e := Scale2(d);
    OffsetInverts(seed);
    Fold30Inverts(a);
    Scale1Inverts(b);
    Fold27Inverts(c);
    Scale2Inverts(d);
    Fold31Inverts(e);
    hide Offset, Unoffset, Fold30, Unfold30, Scale1, Unscale1, Fold27, Unfold27, Scale2, Unscale2, Fold31, Unfold31;
  }

  lemma MixUndoesUnmix(mixed: Word)
    ensures SplitMix64(Unmix64(mixed)) == mixed
  {
    var e := Unfold31(mixed);
    var d := Unscale2(e);
    var c := Unfold27(d);
    var b := Unscale1(c);
    var a := Unfold30(b);
    Fold31Inverts(mixed);
    Scale2Inverts(e);
    Fold27Inverts(d);
    Scale1Inverts(c);
    Fold30Inverts(b);
    OffsetInverts(a);
    hide Offset, Unoffset, Fold30, Unfold30, Scale1, Unscale1, Fold27, Unfold27, Scale2, Unscale2, Fold31, Unfold31;
  }

  lemma MixIsInjective(a: Word, b: Word)
    ensures SplitMix64(a) == SplitMix64(b) <==> a == b
  {
    UnmixUndoesMix(a);
    UnmixUndoesMix(b);
    hide SplitMix64, Unmix64;
  }

  // ---------------------------------------------------------------- identities

  datatype Domain = BrowserUser | Player

  /** The domain number, 1 or 2, rotated left by 17: one bit, above every index. */
  function Tag(d: Domain): Word {
    if d.BrowserUser? then (1 as Word).RotateLeft(17) else (2 as Word).RotateLeft(17)
  }

  lemma TagBits()
    ensures Tag(BrowserUser) == 0x2_0000 && Tag(Player) == 0x4_0000
  {}

  function Xor(a: Word, b: Word): Word {
    a ^ b
  }

  function Seeded(seed: Word, index: Word, d: Domain): Word {
    Xor(Xor(seed, Tag(d)), index)
  }

  lemma XorMoves(a: Word, b: Word)
    ensures Xor(a, Xor(a, b)) == b && Xor(Xor(a, b), b) == a && Xor(a, b) == Xor(b, a) && Xor(a, a) == 0 && Xor(a, 0) == a
  {}

  lemma XorAssociates(a: Word, b: Word, c: Word)
    ensures Xor(Xor(a, b), c) == Xor(a, Xor(b, c))
  {}

  lemma CancelSeed(seed: Word, s: Word, i: Word, t: Word, j: Word)
    ensures Xor(Xor(seed, s), i) == Xor(Xor(seed, t), j) <==> Xor(i, j) == Xor(s, t)
  {
    hide Xor;
    XorAssociates(seed, s, i);
    XorAssociates(seed, t, j);
    XorMoves(seed, Xor(s, i));
    XorMoves(seed, Xor(t, j));
    // s ^ i == t ^ j moves to i ^ j == s ^ t by adding s and j on both sides.
    XorMoves(s, i);
    XorAssociates(s, t, j);
    XorMoves(Xor(s, t), j);
    XorMoves(i, j);
    XorAssociates(s, i, j);
    XorMoves(s, Xor(i, j));
    XorMoves(s, t);
    XorMoves(s, Xor(t, j));
    XorAssociates(i, j, j);
    XorAssociates(s, s, i);
  }

  lemma SameBits(i: Word, j: Word)
    ensures Xor(i, j) == 0 <==> i == j
  {}

  lemma TagsApart()
    ensures Xor(Tag(BrowserUser), Tag(Player)) == 0x6_0000 && Xor(Tag(Player), Tag(BrowserUser)) == 0x6_0000
  {
    TagBits();
    hide Tag;
  }

  /** Two mixer inputs of one population collide exactly when the indices differ by both tags. */
  lemma SeededCollision(seed: Word, i: Word, d: Domain, j: Word, e: Domain)
    ensures Seeded(seed, i, d) == Seeded(seed, j, e) <==> if d == e then i == j else Xor(i, j) == 0x6_0000
  {
    assert Seeded(seed, i, d) == Seeded(seed, j, e) <==> Xor(Xor(seed, Tag(d)), i) == Xor(Xor(seed, Tag(e)), j) by {
      hide Xor, Tag;
    }
    hide *;
    TagsApart();
    CancelSeed(seed, Tag(d), i, Tag(e), j);
    SameBits(i, j);
    XorMoves(Tag(d), Tag(e));
  }

  function LittleEndian(x: Word): (bytes: seq<bv8>)
    ensures |bytes| == 8
  {
    [
      (x & 0xff) as bv8, ((x >> 8) & 0xff) as bv8, ((x >> 16) & 0xff) as bv8, ((x >> 24) & 0xff) as bv8,
      ((x >> 32) & 0xff) as bv8, ((x >> 40) & 0xff) as bv8, ((x >> 48) & 0xff) as bv8, ((x >> 56) & 0xff) as bv8
    ]
  }

  function FromLittleEndian(bytes: seq<bv8>): Word
    requires |bytes| == 8
  {
    (bytes[0] as Word) | ((bytes[1] as Word) << 8) | ((bytes[2] as Word) << 16) | ((bytes[3] as Word) << 24)
    | ((bytes[4] as Word) << 32) | ((bytes[5] as Word) << 40) | ((bytes[6] as Word) << 48) | ((bytes[7] as Word) << 56)
  }

  lemma WordFromBytes(x: Word)
    ensures FromLittleEndian(LittleEndian(x)) == x
  {}

  const NIL: seq<bv8> := [0, 0, 0, 0, 0, 0, 0, 0, 0, 0, 0, 0, 0, 0, 0, 0]

  /** Sixteen bytes from two words; the nil id is avoided by setting the last byte. */
  function StableId(seed: Word, index: Word, d: Domain): (bytes: seq<bv8>)
    ensures |bytes| == 16
  {
    var first := SplitMix64(Seeded(seed, index, d));
    var second := SplitMix64(Xor(first, 0xa5a5_5a5a_d3c3_b4b4));
    var bytes := LittleEndian(first) + LittleEndian(second);
    if bytes == NIL then bytes[15 := 1] else bytes
  }

  /** The mixer's preimage of zero is not what the second word is mixed from when the first is zero. */
  lemma ZeroIsMixedFromElsewhere()
    ensures SplitMix64(Xor(0, 0xa5a5_5a5a_d3c3_b4b4)) != 0
  {}

  lemma ZeroBytes(x: Word)
    ensures LittleEndian(x) == [0, 0, 0, 0, 0, 0, 0, 0] <==> x == 0
  {}

  /** The patch never fires: an id is the two mixed words, and it is never nil. */
  lemma IdIsTwoWords(seed: Word, index: Word, d: Domain)
    ensures
      var first := SplitMix64(Seeded(seed, index, d));
      StableId(seed, index, d) == LittleEndian(first) + LittleEndian(SplitMix64(Xor(first, 0xa5a5_5a5a_d3c3_b4b4)))
    ensures StableId(seed, index, d) != NIL
  {
    var first := SplitMix64(Seeded(seed, index, d));
    var second := SplitMix64(Xor(first, 0xa5a5_5a5a_d3c3_b4b4));
    ZeroIsMixedFromElsewhere();
    ZeroBytes(first);
    ZeroBytes(second);
    hide SplitMix64, Seeded, LittleEndian, Xor;
    SplitAppend8(LittleEndian(first), LittleEndian(second));
  }

  lemma SplitAppend8(a: seq<bv8>, b: seq<bv8>)
    requires |a| == 8 && |b| == 8
    ensures (a + b)[..8] == a && (a + b)[8..] == b
    ensures NIL[..8] == [0, 0, 0, 0, 0, 0, 0, 0] && NIL[8..] == [0, 0, 0, 0, 0, 0, 0, 0]
  {}

  /** For every seed, two ids are equal exactly when the mixer's inputs collide. */
  lemma IdsCollide(seed: Word, i: Word, d: Domain, j: Word, e: Domain)
    ensures StableId(seed, i, d) == StableId(seed, j, e) <==> if d == e then i == j else Xor(i, j) == 0x6_0000
  {
    var a, b := Seeded(seed, i, d), Seeded(seed, j, e);
    var first, other := SplitMix64(a), SplitMix64(b);
    var second, otherSecond := SplitMix64(Xor(first, 0xa5a5_5a5a_d3c3_b4b4)), SplitMix64(Xor(other, 0xa5a5_5a5a_d3c3_b4b4));
    IdIsTwoWords(seed, i, d);
    IdIsTwoWords(seed, j, e);
    SeededCollision(seed, i, d, j, e);
    MixIsInjective(a, b);
    WordFromBytes(first);
    WordFromBytes(other);
    hide SplitMix64, Seeded, LittleEndian, FromLittleEndian, Xor, StableId;
    SplitAppend8(LittleEndian(first), LittleEndian(second));
    SplitAppend8(LittleEndian(other), LittleEndian(otherSecond));
  }

  // ---------------------------------------------------------------- populations

  datatype Identity = Identity(browserUserId: seq<bv8>, playerId: seq<bv8>)

  /** A bot's identity; its index is a 64-bit word. */
  function IdentityFor(index: Word, seed: Word): Identity {
    Identity(StableId(seed, index, BrowserUser), StableId(seed, index, Player))
  }

  /** A run has 1 to 1024 bots, numbered from zero. */
  predicate InPopulation(index: Word, bots: Word) {
    index < bots <= 1024
  }

  lemma SmallIndices(i: Word, j: Word)
    requires i < 1024 && j < 1024
    ensures Xor(i, j) != 0x6_0000
  {}

  /** For every seed and population, all ids of both kinds are pairwise distinct, and none is nil. */
  lemma PopulationIsDistinct(seed: Word, bots: Word, i: Word, j: Word)
    requires InPopulation(i, bots) && InPopulation(j, bots)
    ensures
      var a, b := IdentityFor(i, seed), IdentityFor(j, seed);
      && a.browserUserId != NIL && a.playerId != NIL
      && a.browserUserId != b.playerId
      && (a.browserUserId == b.browserUserId <==> i == j)
      && (a.playerId == b.playerId <==> i == j)
  {
    assert i < 1024 && j < 1024;
    SmallIndices(i, j);
    IdIsTwoWords(seed, i, BrowserUser);
    IdIsTwoWords(seed, i, Player);
    IdsCollide(seed, i, BrowserUser, j, Player);
    IdsCollide(seed, i, BrowserUser, j, BrowserUser);
    IdsCollide(seed, i, Player, j, Player);
    hide StableId, Xor, SplitMix64, LittleEndian, Seeded, InPopulation;
  }

  /** The mixer's first outputs from zero, and the order of a word's bytes. */
  lemma MixerByExample()
    ensures SplitMix64(0) == 0xe220_a839_7b1d_cdaf
    ensures LittleEndian(0x0807_0605_0403_0201) == [1, 2, 3, 4, 5, 6, 7, 8]
  {}
}
