/** What the words and bytes of Salsa20 are, apart from the functions that compute them: the bits
    of a rotation, the words of a double round, the bytes of a keystream block, and vectors of
    the specification, which fix all constants and orders. */
module Salsa20Vectors {
  import opened Salsa20

  // ----- rotation (section 2)

  lemma RotlBitLow(v: bv32, c: bv6, i: bv6)
    requires 0 < c < 32 && i < 16
    ensures (Rotl(v, c) >> (if i < 32 - c then i + c else i - (32 - c))) & 1 == (v >> i) & 1
  {
    if i == 0 {} else if i == 1 {} else if i == 2 {} else if i == 3 {}
    else if i == 4 {} else if i == 5 {} else if i == 6 {} else if i == 7 {}
    else if i == 8 {} else if i == 9 {} else if i == 10 {} else if i == 11 {}
    else if i == 12 {} else if i == 13 {} else if i == 14 {} else if i == 15 {}
  }

  lemma RotlBitHigh(v: bv32, c: bv6, i: bv6)
    requires 0 < c < 32 && 16 <= i < 32
    ensures (Rotl(v, c) >> (if i < 32 - c then i + c else i - (32 - c))) & 1 == (v >> i) & 1
  {
    if i == 16 {} else if i == 17 {} else if i == 18 {} else if i == 19 {}
    else if i == 20 {} else if i == 21 {} else if i == 22 {} else if i == 23 {}
    else if i == 24 {} else if i == 25 {} else if i == 26 {} else if i == 27 {}
    else if i == 28 {} else if i == 29 {} else if i == 30 {} else if i == 31 {}
  }

  /** Bit `i` of a word is bit `(i + c) mod 32` of its rotation by `c`. */
  lemma RotlBit(v: bv32, c: bv6, i: bv6)
    requires 0 < c < 32 && i < 32
    ensures (Rotl(v, c) >> (if i < 32 - c then i + c else i - (32 - c))) & 1 == (v >> i) & 1
  {
    if i < 16 { RotlBitLow(v, c, i); } else { RotlBitHigh(v, c, i); }
  }

  // ----- quarter round (section 3)

  lemma QuarterVectors()
    ensures Quarter(Four(1, 0, 0, 0)) == Four(0x08008145, 0x00000080, 0x00010200, 0x20500000)
    ensures Quarter(Four(0xd3917c5b, 0x55f1c407, 0x52a58a7a, 0x8f887a3b))
         == Four(0x3e2f308c, 0xd90a8f36, 0x6ab2a923, 0x2883524c)
  {
  }

  // ----- double round (sections 4 to 6)

  /** The words of a column round. */
  lemma ColumnWords<W>(q: Four<W> -> Four<W>, x: seq<W>)
    requires |x| == 16
    ensures
      var (a, b) := (q(Four(x[0], x[4], x[8], x[12])), q(Four(x[5], x[9], x[13], x[1])));
      var (c, d) := (q(Four(x[10], x[14], x[2], x[6])), q(Four(x[15], x[3], x[7], x[11])));
      var y := Round(q, x, COLUMNS);
      && y[0] == a.w0 && y[4] == a.w1 && y[8] == a.w2 && y[12] == a.w3
      && y[5] == b.w0 && y[9] == b.w1 && y[13] == b.w2 && y[1] == b.w3
      && y[10] == c.w0 && y[14] == c.w1 && y[2] == c.w2 && y[6] == c.w3
      && y[15] == d.w0 && y[3] == d.w1 && y[7] == d.w2 && y[11] == d.w3
  {
    RoundIsFourAts(q, x, Four(0, 4, 8, 12), Four(5, 9, 13, 1), Four(10, 14, 2, 6), Four(15, 3, 7, 11));
  }

  /** The words of a row round. */
  lemma RowWords<W>(q: Four<W> -> Four<W>, y: seq<W>)
    requires |y| == 16
    ensures
      var (a, b) := (q(Four(y[0], y[1], y[2], y[3])), q(Four(y[5], y[6], y[7], y[4])));
      var (c, d) := (q(Four(y[10], y[11], y[8], y[9])), q(Four(y[15], y[12], y[13], y[14])));
      var z := Round(q, y, ROWS);
      && z[0] == a.w0 && z[1] == a.w1 && z[2] == a.w2 && z[3] == a.w3
      && z[5] == b.w0 && z[6] == b.w1 && z[7] == b.w2 && z[4] == b.w3
      && z[10] == c.w0 && z[11] == c.w1 && z[8] == c.w2 && z[9] == c.w3
      && z[15] == d.w0 && z[12] == d.w1 && z[13] == d.w2 && z[14] == d.w3
  {
    RoundIsFourAts(q, y, Four(0, 1, 2, 3), Four(5, 6, 7, 4), Four(10, 11, 8, 9), Four(15, 12, 13, 14));
  }

  ghost predicate Disjoint(p: Place, r: Place) {
    && p.w0 != r.w0 && p.w0 != r.w1 && p.w0 != r.w2 && p.w0 != r.w3
    && p.w1 != r.w0 && p.w1 != r.w1 && p.w1 != r.w2 && p.w1 != r.w3
    && p.w2 != r.w0 && p.w2 != r.w1 && p.w2 != r.w2 && p.w2 != r.w3
    && p.w3 != r.w0 && p.w3 != r.w1 && p.w3 != r.w2 && p.w3 != r.w3
  }

  function Pick<W>(s: seq<W>, p: Place): Four<W>
    requires |s| == 16
  {
    Four(s[p.w0], s[p.w1], s[p.w2], s[p.w3])
  }

  lemma AtIs<W>(q: Four<W> -> Four<W>, s: seq<W>, p: Place)
    requires |s| == 16 && Apart(p)
    ensures Pick(At(q, s, p), p) == q(Pick(s, p))
    ensures forall r | Disjoint(p, r) :: Pick(At(q, s, p), r) == Pick(s, r)
  {
  }

  /** On four places without a word in common the quarter rounds do not disturb each other. */
  lemma RoundIsFourAts<W>(q: Four<W> -> Four<W>, s: seq<W>, a: Place, b: Place, c: Place, d: Place)
    requires |s| == 16 && Apart(a) && Apart(b) && Apart(c) && Apart(d)
    requires Disjoint(a, b) && Disjoint(a, c) && Disjoint(a, d) && Disjoint(b, c) && Disjoint(b, d) && Disjoint(c, d)
    ensures var t := Round(q, s, [a, b, c, d]);
      && Pick(t, a) == q(Pick(s, a)) && Pick(t, b) == q(Pick(s, b))
      && Pick(t, c) == q(Pick(s, c)) && Pick(t, d) == q(Pick(s, d))
  {
    RoundOfFour(q, s, a, b, c, d);
    var s1 := At(q, s, a);
    var s2 := At(q, s1, b);
    var s3 := At(q, s2, c);
    AtIs(q, s, a);
    AtIs(q, s1, b);
    AtIs(q, s2, c);
    AtIs(q, s3, d);
    assert Disjoint(b, a) && Disjoint(c, a) && Disjoint(d, a) && Disjoint(c, b) && Disjoint(d, b) && Disjoint(d, c);
  }

  lemma SixteenWords<W>(z: seq<W>, t: seq<W>)
    requires |z| == |t| == 16
    requires z[0] == t[0] && z[1] == t[1] && z[2] == t[2] && z[3] == t[3]
    requires z[4] == t[4] && z[5] == t[5] && z[6] == t[6] && z[7] == t[7]
    requires z[8] == t[8] && z[9] == t[9] && z[10] == t[10] && z[11] == t[11]
    requires z[12] == t[12] && z[13] == t[13] && z[14] == t[14] && z[15] == t[15]
    ensures z == t
  {
  }

  /** The double round, word by word. */
  lemma DoubleRoundIs(x: seq<bv32>)
    requires |x| == 16
    ensures
      var (a, b) := (Quarter(Four(x[0], x[4], x[8], x[12])), Quarter(Four(x[5], x[9], x[13], x[1])));
      var (c, d) := (Quarter(Four(x[10], x[14], x[2], x[6])), Quarter(Four(x[15], x[3], x[7], x[11])));
      var (e, f) := (Quarter(Four(a.w0, b.w3, c.w2, d.w1)), Quarter(Four(b.w0, c.w3, d.w2, a.w1)));
      var (g, h) := (Quarter(Four(c.w0, d.w3, a.w2, b.w1)), Quarter(Four(d.w0, a.w3, b.w2, c.w1)));
      DoubleRound(x) == [e.w0, e.w1, e.w2, e.w3, f.w3, f.w0, f.w1, f.w2,
                         g.w2, g.w3, g.w0, g.w1, h.w1, h.w2, h.w3, h.w0]
  {
    DoubleRoundWithIs(Quarter, x);
  }

  lemma DoubleRoundWithIs<W>(q: Four<W> -> Four<W>, x: seq<W>)
    requires |x| == 16
    ensures
      var (a, b) := (q(Four(x[0], x[4], x[8], x[12])), q(Four(x[5], x[9], x[13], x[1])));
      var (c, d) := (q(Four(x[10], x[14], x[2], x[6])), q(Four(x[15], x[3], x[7], x[11])));
      var (e, f) := (q(Four(a.w0, b.w3, c.w2, d.w1)), q(Four(b.w0, c.w3, d.w2, a.w1)));
      var (g, h) := (q(Four(c.w0, d.w3, a.w2, b.w1)), q(Four(d.w0, a.w3, b.w2, c.w1)));
      Round(q, Round(q, x, COLUMNS), ROWS) ==
        [e.w0, e.w1, e.w2, e.w3, f.w3, f.w0, f.w1, f.w2, g.w2, g.w3, g.w0, g.w1, h.w1, h.w2, h.w3, h.w0]
  {
    ColumnWords(q, x);
    var y := Round(q, x, COLUMNS);
    RowWords(q, y);
    var (a, b) := (q(Four(y[0], y[1], y[2], y[3])), q(Four(y[5], y[6], y[7], y[4])));
    var (c, d) := (q(Four(y[10], y[11], y[8], y[9])), q(Four(y[15], y[12], y[13], y[14])));
    SixteenWords(Round(q, y, ROWS), [a.w0, a.w1, a.w2, a.w3, b.w3, b.w0, b.w1, b.w2,
                                     c.w2, c.w3, c.w0, c.w1, d.w1, d.w2, d.w3, d.w0]);
  }

  // ----- little-endian words (section 7)

  /** Byte `m` of the four is byte `m` of the word, counted from the low end. */
  lemma LittleEndianByte(b: seq<bv8>, m: bv6)
    requires |b| == 4 && m < 4
    ensures ((LittleEndian(b) >> (8 * m)) & 0xff) as bv8 == b[m]
  {
    if m == 0 {} else if m == 1 {} else if m == 2 {} else {}
  }

  // ----- the 32-byte key expansion (section 9)

  const LOW: seq<bv8> := [1, 2, 3, 4, 5, 6, 7, 8, 9, 10, 11, 12, 13, 14, 15, 16]
  const HIGH: seq<bv8> := [201, 202, 203, 204, 205, 206, 207, 208, 209, 210, 211, 212, 213, 214, 215, 216]
  const INPUT: seq<bv8> := [101, 102, 103, 104, 105, 106, 107, 108, 109, 110, 111, 112, 113, 114, 115, 116]

  // The words before the first double round, and after each.
  const S0: seq<bv32> := [
    0x61707865, 0x04030201, 0x08070605, 0x0c0b0a09, 0x100f0e0d, 0x3320646e, 0x68676665, 0x6c6b6a69,
    0x706f6e6d, 0x74737271, 0x79622d32, 0xcccbcac9, 0xd0cfcecd, 0xd4d3d2d1, 0xd8d7d6d5, 0x6b206574]
  const S1: seq<bv32> := [
    0xe10c4e81, 0x9b9dfce3, 0xb77c8002, 0xb58fbef1, 0x143fae44, 0x486a24ea, 0x483ff042, 0x82413057,
    0xefcf7d9c, 0x875fdded, 0xf6c294ad, 0xd06b9760, 0xb27f37ab, 0x46a08723, 0xcbc7c206, 0x0b8e15e6]
  const S2: seq<bv32> := [
    0xcd1276c4, 0xb52058c4, 0xcc7d96a2, 0xf4b5cdaf, 0xabd4564b, 0xfb56c349, 0x6ee7358d, 0x034c9bba,
    0xc2029a0e, 0xf3e680fb, 0x30d8229a, 0x1d20eb3f, 0xcfbed549, 0xd9a359d4, 0x0f6600b5, 0x8a9fa8b8]
  const S3: seq<bv32> := [
    0x25f0f35e, 0x75581db0, 0x32b9347f, 0x3eb9c37e, 0xd1b81eb3, 0x402336e9, 0x632079ae, 0x0e901ca4,
    0x2f0d8509, 0xe6d939ec, 0xbfd207d8, 0xcf6bf084, 0xa21f3c82, 0xe39e71a6, 0x650f03cd, 0x8d4e39c3]
  const S4: seq<bv32> := [
    0x6d7ed474, 0x99f94eba, 0x9d6af064, 0xe44f263c, 0xb30f4dc8, 0x8acf139d, 0xb9502d9a, 0x5fab276b,
    0x97c10538, 0xdc33ffff, 0x3c2c807d, 0xbe8b34cc, 0xbe5eff75, 0x709893b5, 0xee2a8502, 0xb6dd54f5]
  const S5: seq<bv32> := [
    0x8bdaf4d2, 0xfc1d6ec0, 0x94daa2d9, 0x5238f499, 0xd4abb4e0, 0x3769898a, 0xdf4196de, 0x8eaab38a,
    0xc77d8a73, 0x88f88059, 0xbf9897ef, 0xda23fd5f, 0x9d3a47ae, 0x64402d95, 0x1ed5eed7, 0xc41330ff]
  const S6: seq<bv32> := [
    0xcd8e0c5d, 0x8171dcf9, 0x7dc7a31b, 0x79ad4431, 0x0053627c, 0x08062180, 0x2ecead11, 0x85744623,
    0xcd8bdae7, 0x9b776b5a, 0xe5cf423a, 0xa34aacb7, 0xc36e288f, 0x6640b503, 0xa870cd2d, 0x0e413f31]
  const S7: seq<bv32> := [
    0x7ca4f449, 0x35cc1584, 0x59cbffdd, 0xbef4819a, 0x68bc0cc1, 0x164f0384, 0x1fc16507, 0xa7e752a1,
    0xb8615866, 0xe9c63268, 0xbf226b5d, 0x7754f20d, 0x3c2d7190, 0x3dc26f73, 0x1aa7079a, 0x08432746]
  const S8: seq<bv32> := [
    0xe9bfd254, 0xd1a5caef, 0x979bc206, 0x4366850d, 0x8687ee7f, 0xd7048e32, 0xa1b64094, 0xd15df7b4,
    0xff73b800, 0x3d183607, 0xf229b8ad, 0x02db1294, 0x0fed8894, 0x3f4c9880, 0x2f6dbc12, 0xa162ccfc]
  const S9: seq<bv32> := [
    0x5effa3e1, 0x56571a32, 0xfc8decae, 0xfd554703, 0x66565996, 0xdaa37a38, 0x843c0151, 0x986db295,
    0xc2e2617c, 0x80d6d9d4, 0xbfd6b1c0, 0x355ce597, 0x598d79a3, 0x37541a97, 0xf2164ec7, 0x7e571a08]
  const S10: seq<bv32> := [
    0xc5d3ace0, 0xbd680d28, 0xfe7385fa, 0x56cedfa1, 0x5aa7824c, 0x0ea7cea7, 0xba76cb8a, 0x11bd086e,
    0x709856fb, 0x8dac2754, 0x36ea2134, 0xec2b2a8b, 0xb1b5d1e4, 0xa2c17535, 0x13aceceb, 0xdfd60276]

  lemma FirstRounds()
    ensures DoubleRound(S0) == S1 && DoubleRound(S1) == S2 && DoubleRound(S2) == S3 && DoubleRound(S3) == S4
    ensures DoubleRound(S4) == S5
  {
    DoubleRoundIs(S0);
    DoubleRoundIs(S1);
    DoubleRoundIs(S2);
    DoubleRoundIs(S3);
    DoubleRoundIs(S4);
  }

  lemma LastRounds()
    ensures DoubleRound(S5) == S6 && DoubleRound(S6) == S7 && DoubleRound(S7) == S8 && DoubleRound(S8) == S9
    ensures DoubleRound(S9) == S10
  {
    DoubleRoundIs(S5);
    DoubleRoundIs(S6);
    DoubleRoundIs(S7);
    DoubleRoundIs(S8);
    DoubleRoundIs(S9);
  }

  lemma FiveMore(n: nat, s: seq<bv32>, a: seq<bv32>, b: seq<bv32>, c: seq<bv32>, d: seq<bv32>, e: seq<bv32>,
                 f: seq<bv32>)
    requires |s| == |a| == |b| == |c| == |d| == |e| == |f| == 16 && DoubleRounds(n, s) == a
    requires DoubleRound(a) == b && DoubleRound(b) == c && DoubleRound(c) == d
    requires DoubleRound(d) == e && DoubleRound(e) == f
    ensures DoubleRounds(n + 5, s) == f
  {
    assert DoubleRounds(n + 1, s) == b;
    assert DoubleRounds(n + 2, s) == c;
    assert DoubleRounds(n + 3, s) == d;
    assert DoubleRounds(n + 4, s) == e;
  }

  lemma TenRounds()
    ensures DoubleRounds(10, S0) == S10
  {
    FirstRounds();
    LastRounds();
    FiveMore(0, S0, S0, S1, S2, S3, S4, S5);
    FiveMore(5, S0, S5, S6, S7, S8, S9, S10);
  }

  // ... and with the words of the input added.
  const OUT: seq<bv32> := [
    0x27442545, 0xc16b0f29, 0x067a8bff, 0x62d9e9aa, 0x6ab69059, 0x41c83315, 0x22de31ef, 0x7e2872d7,
    0xe107c568, 0x021f99c5, 0xb04c4e66, 0xb8f6f554, 0x8285a0b1, 0x77954806, 0xec84c3c0, 0x4af667ea]

  lemma LastSum()
    ensures Sum(S10, S0) == OUT
  {
    SixteenWords(Sum(S10, S0), OUT);
  }

  lemma HashVector(b: seq<bv8>)
    requires |b| == 64 && Words(b) == S0
    ensures Hashed(b) == Bytes(OUT)
  {
    TenRounds();
    LastSum();
  }

  /** The expanded block, byte by byte: "expa", "nd 3", "2-by", "te k" around key and input. */
  lemma ExpandedBytes(k: seq<bv8>, n: seq<bv8>)
    requires |k| == 32 && |n| == 16
    ensures
      var b := Expanded(k, n);
      && b[0..4] == [101, 120, 112, 97] && b[20..24] == [110, 100, 32, 51]
      && b[40..44] == [50, 45, 98, 121] && b[60..64] == [116, 101, 32, 107]
      && b[4..20] == k[..16] && b[24..40] == n && b[44..60] == k[16..]
  {
  }

  lemma PartWord(b: seq<bv8>, at: nat, part: seq<bv8>, i: nat)
    requires |b| == 64 && |part| == 16 && at <= 12 && b[4 * at..4 * at + 16] == part && i < 4
    ensures Words(b)[at + i] == LittleEndian([part[4 * i], part[4 * i + 1], part[4 * i + 2], part[4 * i + 3]])
  {
    var j := 4 * i;
    assert b[4 * (at + i)..4 * (at + i) + 4] == b[4 * at..4 * at + 16][j..j + 4];
    assert part[j..j + 4] == [part[j], part[j + 1], part[j + 2], part[j + 3]];
  }

  lemma PartWords(b: seq<bv8>, at: nat, part: seq<bv8>)
    requires |b| == 64 && |part| == 16 && at <= 12 && b[4 * at..4 * at + 16] == part
    ensures var w := Words(b);
      && w[at] == LittleEndian([part[0], part[1], part[2], part[3]])
      && w[at + 1] == LittleEndian([part[4], part[5], part[6], part[7]])
      && w[at + 2] == LittleEndian([part[8], part[9], part[10], part[11]])
      && w[at + 3] == LittleEndian([part[12], part[13], part[14], part[15]])
  {
    PartWord(b, at, part, 0);
    PartWord(b, at, part, 1);
    PartWord(b, at, part, 2);
    PartWord(b, at, part, 3);
  }

  lemma LowWords(b: seq<bv8>, at: nat)
    requires |b| == 64 && at <= 11 && b[4 * at..4 * at + 16] == LOW
    ensures var w := Words(b);
      w[at] == 0x04030201 && w[at + 1] == 0x08070605 && w[at + 2] == 0x0c0b0a09 && w[at + 3] == 0x100f0e0d
  {
    PartWords(b, at, LOW);
  }

  lemma HighWords(b: seq<bv8>, at: nat)
    requires |b| == 64 && at <= 11 && b[4 * at..4 * at + 16] == HIGH
    ensures var w := Words(b);
      w[at] == 0xcccbcac9 && w[at + 1] == 0xd0cfcecd && w[at + 2] == 0xd4d3d2d1 && w[at + 3] == 0xd8d7d6d5
  {
    PartWords(b, at, HIGH);
  }

  lemma InputWords(b: seq<bv8>, at: nat)
    requires |b| == 64 && at <= 11 && b[4 * at..4 * at + 16] == INPUT
    ensures var w := Words(b);
      w[at] == 0x68676665 && w[at + 1] == 0x6c6b6a69 && w[at + 2] == 0x706f6e6d && w[at + 3] == 0x74737271
  {
    PartWords(b, at, INPUT);
  }

  lemma ConstantWord(b: seq<bv8>, i: nat, part: seq<bv8>)
    requires |b| == 64 && i < 16 && b[4 * i..4 * i + 4] == part
    ensures Words(b)[i] == LittleEndian(part)
  {
  }

  lemma ConstantWords(b: seq<bv8>)
    requires |b| == 64 && b[0..4] == [101, 120, 112, 97] && b[20..24] == [110, 100, 32, 51]
    requires b[40..44] == [50, 45, 98, 121] && b[60..64] == [116, 101, 32, 107]
    ensures var w := Words(b);
      w[0] == 0x61707865 && w[5] == 0x3320646e && w[10] == 0x79622d32 && w[15] == 0x6b206574
  {
    ConstantWord(b, 0, [101, 120, 112, 97]);
    ConstantWord(b, 5, [110, 100, 32, 51]);
    ConstantWord(b, 10, [50, 45, 98, 121]);
    ConstantWord(b, 15, [116, 101, 32, 107]);
  }

  lemma WordsOfExample(b: seq<bv8>)
    requires |b| == 64 && b[0..4] == [101, 120, 112, 97] && b[20..24] == [110, 100, 32, 51]
    requires b[40..44] == [50, 45, 98, 121] && b[60..64] == [116, 101, 32, 107]
    requires b[4..20] == LOW && b[24..40] == INPUT && b[44..60] == HIGH
    ensures Words(b) == S0
  {
    ConstantWords(b);
    LowWords(b, 1);
    InputWords(b, 6);
    HighWords(b, 11);
    SixteenWords(Words(b), S0);
  }

  lemma FirstWords()
    ensures Words(Expanded(LOW + HIGH, INPUT)) == S0
  {
    ExpandedBytes(LOW + HIGH, INPUT);
    WordsOfExample(Expanded(LOW + HIGH, INPUT));
  }

  lemma FirstBytes()
    ensures Bytes(OUT)[..16] == [69, 37, 68, 39, 41, 15, 107, 193, 255, 139, 122, 6, 170, 233, 217, 98]
  {
  }

  /** The example of section 9, its first bytes spelt out. */
  lemma ExpansionVector()
    ensures var h := Hashed(Expanded(LOW + HIGH, INPUT));
      && h == Bytes(OUT)
      && h[..16] == [69, 37, 68, 39, 41, 15, 107, 193, 255, 139, 122, 6, 170, 233, 217, 98]
  {
    FirstWords();
    HashVector(Expanded(LOW + HIGH, INPUT));
    FirstBytes();
  }

  // ----- encryption (section 10)

  lemma BlockIs(key: seq<bv8>, nonce: seq<bv8>, n: uint32, b: seq<bv8>)
    requires |key| == 32 && |nonce| == 8 && |b| == 64
    requires b[0..4] == SIGMA[0] && b[20..24] == SIGMA[1] && b[40..44] == SIGMA[2] && b[60..64] == SIGMA[3]
    requires b[4..20] == key[..16] && b[44..60] == key[16..] && b[24..32] == nonce && b[36..40] == [0, 0, 0, 0]
    requires b[32..36] == RevLittleEndian(n as bv32)
    ensures Block(key, nonce, n) == Hashed(b)
  {
    assert b[24..40] == b[24..32] + b[32..36] + b[36..40];
    assert b == b[0..4] + b[4..20] + b[20..24] + b[24..40] + b[40..44] + b[44..60] + b[60..64];
  }

  lemma XorIs(a: bv8, b: bv8)
    ensures Xor(a, b) == a ^ b
  {
  }

  lemma CryptByteOf(block: uint32 -> Bytes64, si: uint32, data: seq<bv8>, i: nat, pos: uint32)
    requires i < |data| && pos == (si + i) % 0x1_0000_0000
    ensures CryptWith(block, si, data)[i] == data[i] ^ block(pos / 64)[pos % 64]
  {
    XorIs(data[i], block(pos / 64)[pos % 64]);
  }

  /** The block number `num` of the keystream is the hash of the bytes `b`: constants, key, nonce,
      the number as a little-endian word, and four zeros. */
  lemma KeystreamBlock(key: seq<bv8>, nonce: seq<bv8>, num: uint32, b: seq<bv8>)
    requires |key| == 32 && |nonce| == 8 && |b| == 64
    requires b[0..4] == [101, 120, 112, 97] && b[20..24] == [110, 100, 32, 51]
    requires b[40..44] == [50, 45, 98, 121] && b[60..64] == [116, 101, 32, 107]
    requires b[4..20] == key[..16] && b[44..60] == key[16..] && b[24..32] == nonce && b[36..40] == [0, 0, 0, 0]
    requires LittleEndian(b[32..36]) == num as bv32
    ensures Block(key, nonce, num) == Hashed(b)
  {
    LittleEndianInverse(num as bv32, b[32..36]);
    BlockIs(key, nonce, num, b);
  }

  /** A byte of the ciphertext is the byte of the message, exclusive-or'd with the byte at the same
      position, modulo 2^32, of the keystream. */
  lemma CryptByte(key: seq<bv8>, nonce: seq<bv8>, si: uint32, data: seq<bv8>, i: nat, pos: uint32)
    requires |key| == 32 && |nonce| == 8 && i < |data| && pos == (si + i) % 0x1_0000_0000
    ensures Crypt(key, nonce, si, data)[i] == data[i] ^ Block(key, nonce, pos / 64)[pos % 64]
  {
    CryptByteOf(Keystream(key, nonce), si, data, i, pos);
  }
}
