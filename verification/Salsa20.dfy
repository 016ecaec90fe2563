/** The Salsa20 stream cipher: hash function, 32-byte key expansion, and encryption from an
    arbitrary byte position. Section numbers refer to D. J. Bernstein's "Salsa20 specification". */
module Salsa20 {

  // ----- quarter round (section 3)

  function Rotl(value: bv32, shift: bv6): bv32
    requires 0 < shift < 32
  {
    (value << shift) | (value >> (32 - shift))
  }

  /** One assignment of a quarter round. */
  function Mix(w: bv32, a: bv32, b: bv32, shift: bv6): bv32 {
    if 0 < shift < 32 then w ^ Rotl(a + b, shift) else w
  }

  datatype Four<W> = Four(w0: W, w1: W, w2: W, w3: W)

  function QuarterWith<W>(mix: (W, W, W, bv6) -> W, y: Four<W>): Four<W> {
    var z1 := mix(y.w1, y.w0, y.w3, 7);
    var z2 := mix(y.w2, z1, y.w0, 9);
    var z3 := mix(y.w3, z2, z1, 13);
    var z0 := mix(y.w0, z3, z2, 18);
    Four(z0, z1, z2, z3)
  }

  /** The same assignments from the last to the first. */
  function UnquarterWith<W>(mix: (W, W, W, bv6) -> W, z: Four<W>): Four<W> {
    var y0 := mix(z.w0, z.w3, z.w2, 18);
    var y3 := mix(z.w3, z.w2, z.w1, 13);
    var y2 := mix(z.w2, z.w1, y0, 9);
    var y1 := mix(z.w1, y0, y3, 7);
    Four(y0, y1, y2, y3)
  }

  function Quarter(y: Four<bv32>): Four<bv32> {
    QuarterWith(Mix, y)
  }

  function Unquarter(z: Four<bv32>): Four<bv32> {
    UnquarterWith(Mix, z)
  }

  lemma MixTwice(w: bv32, a: bv32, b: bv32, shift: bv6)
    ensures Mix(Mix(w, a, b, shift), a, b, shift) == w
  {
  }

  lemma WithInverse<W(!new)>(mix: (W, W, W, bv6) -> W, y: Four<W>)
    requires forall w, a, b, shift :: mix(mix(w, a, b, shift), a, b, shift) == w
    ensures UnquarterWith(mix, QuarterWith(mix, y)) == y && QuarterWith(mix, UnquarterWith(mix, y)) == y
  {
  }

  lemma QuarterBijective(y: Four<bv32>)
    ensures Unquarter(Quarter(y)) == y && Quarter(Unquarter(y)) == y
  {
    forall w, a, b, shift ensures Mix(Mix(w, a, b, shift), a, b, shift) == w {
      MixTwice(w, a, b, shift);
    }
    WithInverse(Mix, y);
  }

  // ----- row, column and double rounds (sections 4 to 6)

  type Place = p: Four<nat> | p.w0 < 16 && p.w1 < 16 && p.w2 < 16 && p.w3 < 16 witness Four(0, 0, 0, 0)

  ghost predicate Apart(p: Place) {
    p.w0 != p.w1 && p.w0 != p.w2 && p.w0 != p.w3 && p.w1 != p.w2 && p.w1 != p.w3 && p.w2 != p.w3
  }

  const ROWS: seq<Place> := [Four(0, 1, 2, 3), Four(5, 6, 7, 4), Four(10, 11, 8, 9), Four(15, 12, 13, 14)]
  const COLUMNS: seq<Place> := [Four(0, 4, 8, 12), Four(5, 9, 13, 1), Four(10, 14, 2, 6), Four(15, 3, 7, 11)]

  /** A quarter round on four words of the state. */
  function At<W>(quarter: Four<W> -> Four<W>, s: seq<W>, p: Place): (r: seq<W>)
    requires |s| == 16
    ensures |r| == 16
  {
    var z := quarter(Four(s[p.w0], s[p.w1], s[p.w2], s[p.w3]));
    s[p.w0 := z.w0][p.w1 := z.w1][p.w2 := z.w2][p.w3 := z.w3]
  }

  /** Quarter rounds one after the other. */
  function Round<W>(quarter: Four<W> -> Four<W>, s: seq<W>, places: seq<Place>): (r: seq<W>)
    requires |s| == 16
    ensures |r| == 16
    decreases places
  {
    if places == [] then s else Round(quarter, At(quarter, s, places[0]), places[1..])
  }

  function Unround<W>(unquarter: Four<W> -> Four<W>, s: seq<W>, places: seq<Place>): (r: seq<W>)
    requires |s| == 16
    ensures |r| == 16
    decreases places
  {
    if places == [] then s else At(unquarter, Unround(unquarter, s, places[1..]), places[0])
  }

  function DoubleRound(x: seq<bv32>): (z: seq<bv32>)
    requires |x| == 16
    ensures |z| == 16
  {
    Round(Quarter, Round(Quarter, x, COLUMNS), ROWS)
  }

  function UndoubleRound(z: seq<bv32>): (x: seq<bv32>)
    requires |z| == 16
    ensures |x| == 16
  {
    Unround(Unquarter, Unround(Unquarter, z, ROWS), COLUMNS)
  }

  lemma AtInverse<W>(f: Four<W> -> Four<W>, g: Four<W> -> Four<W>, s: seq<W>, p: Place)
    requires |s| == 16 && Apart(p) && forall y :: g(f(y)) == y
    ensures At(g, At(f, s, p), p) == s
  {
    var y := Four(s[p.w0], s[p.w1], s[p.w2], s[p.w3]);
    var t := At(f, s, p);
    assert Four(t[p.w0], t[p.w1], t[p.w2], t[p.w3]) == f(y);
  }

  lemma {:induction false} RoundInverse<W>(f: Four<W> -> Four<W>, g: Four<W> -> Four<W>, s: seq<W>, places: seq<Place>)
    requires |s| == 16 && (forall p :: p in places ==> Apart(p)) && forall y :: g(f(y)) == y
    ensures Unround(g, Round(f, s, places), places) == s
    decreases places
  {
    if places != [] {
      RoundInverse(f, g, At(f, s, places[0]), places[1..]);
      AtInverse(f, g, s, places[0]);
    }
  }

  lemma {:induction false} UnroundInverse<W>(
      f: Four<W> -> Four<W>, g: Four<W> -> Four<W>, s: seq<W>, places: seq<Place>)
    requires |s| == 16 && (forall p :: p in places ==> Apart(p)) && forall y :: f(g(y)) == y
    ensures Round(f, Unround(g, s, places), places) == s
    decreases places
  {
    if places != [] {
      AtInverse(g, f, Unround(g, s, places[1..]), places[0]);
      UnroundInverse(f, g, s, places[1..]);
    }
  }

  lemma PlacesApart()
    ensures forall p :: p in ROWS || p in COLUMNS ==> Apart(p)
  {
  }

  /** The double round is a bijection on states. */
  lemma DoubleRoundBijective(x: seq<bv32>)
    requires |x| == 16
    ensures UndoubleRound(DoubleRound(x)) == x && DoubleRound(UndoubleRound(x)) == x
  {
    forall y ensures Unquarter(Quarter(y)) == y && Quarter(Unquarter(y)) == y {
      QuarterBijective(y);
    }
    PlacesApart();
    var rows, columns := ROWS, COLUMNS;
    RoundInverse(Quarter, Unquarter, Round(Quarter, x, columns), rows);
    RoundInverse(Quarter, Unquarter, x, columns);
    UnroundInverse(Quarter, Unquarter, Unround(Unquarter, x, rows), columns);
    UnroundInverse(Quarter, Unquarter, x, rows);
  }

  // ----- rows and columns

  /** Where a word goes when the state, read as a 4 by 4 matrix row by row, is transposed. */
  function Transposed(i: nat): (j: nat)
    requires i < 16
    ensures j < 16
  {
    4 * (i % 4) + i / 4
  }

  function TransposedPlace(p: Place): Place {
    Four(Transposed(p.w0), Transposed(p.w1), Transposed(p.w2), Transposed(p.w3))
  }

  function Transpose<W>(s: seq<W>): (t: seq<W>)
    requires |s| == 16
    ensures |t| == 16 && forall i :: 0 <= i < 16 ==> t[i] == s[Transposed(i)]
  {
    seq(16, i requires 0 <= i < 16 => s[Transposed(i)])
  }

  lemma TransposedTwice(i: nat)
    requires i < 16
    ensures Transposed(Transposed(i)) == i
  {
  }

  lemma TransposeTwice<W>(s: seq<W>)
    requires |s| == 16
    ensures Transpose(Transpose(s)) == s
  {
    forall i: nat | i < 16 ensures Transposed(Transposed(i)) == i {
      TransposedTwice(i);
    }
  }

  lemma TransposeUpdate<W>(s: seq<W>, i: nat, w: W)
    requires |s| == 16 && i < 16
    ensures Transpose(s[Transposed(i) := w]) == Transpose(s)[i := w]
  {
    forall m: nat | m < 16 ensures Transposed(m) == Transposed(i) <==> m == i {
      TransposedTwice(m);
      TransposedTwice(i);
    }
  }

  lemma TransposeAt<W>(quarter: Four<W> -> Four<W>, s: seq<W>, p: Place)
    requires |s| == 16
    ensures Transpose(At(quarter, s, TransposedPlace(p))) == At(quarter, Transpose(s), p)
  {
    var t := Transpose(s);
    var z := quarter(Four(t[p.w0], t[p.w1], t[p.w2], t[p.w3]));
    TransposeUpdate(s, p.w0, z.w0);
    var s0 := s[Transposed(p.w0) := z.w0];
    TransposeUpdate(s0, p.w1, z.w1);
    var s1 := s0[Transposed(p.w1) := z.w1];
    TransposeUpdate(s1, p.w2, z.w2);
    TransposeUpdate(s1[Transposed(p.w2) := z.w2], p.w3, z.w3);
  }

  lemma {:induction false} TransposeRound<W>(
      quarter: Four<W> -> Four<W>, s: seq<W>, places: seq<Place>, others: seq<Place>)
    requires |s| == 16 && |places| == |others|
    requires forall i :: 0 <= i < |places| ==> others[i] == TransposedPlace(places[i])
    ensures Transpose(Round(quarter, s, others)) == Round(quarter, Transpose(s), places)
    decreases places
  {
    if places != [] {
      TransposeAt(quarter, s, places[0]);
      TransposeRound(quarter, At(quarter, s, others[0]), places[1..], others[1..]);
    }
  }

  lemma ColumnsAreTransposedRows()
    ensures |ROWS| == |COLUMNS| && forall i :: 0 <= i < |ROWS| ==> COLUMNS[i] == TransposedPlace(ROWS[i])
  {
  }

  /** A row round is a column round on the transposed state. */
  lemma RowIsTransposedColumn<W>(quarter: Four<W> -> Four<W>, y: seq<W>)
    requires |y| == 16
    ensures Round(quarter, y, ROWS) == Transpose(Round(quarter, Transpose(y), COLUMNS))
  {
    TransposeTwice(y);
    ColumnsAreTransposedRows();
    TransposeRound(quarter, Transpose(y), ROWS, COLUMNS);
  }

  // ----- the rounds on arrays

  method QuarterRound(y: array<bv32>, p: Place)
    requires y.Length == 16 && Apart(p)
    modifies y
    ensures y[..] == At(Quarter, old(y[..]), p)
  {
    var i0, i1, i2, i3 := p.w0, p.w1, p.w2, p.w3;
    y[i1] := Mix(y[i1], y[i0], y[i3], 7);
    y[i2] := Mix(y[i2], y[i1], y[i0], 9);
    y[i3] := Mix(y[i3], y[i2], y[i1], 13);
    y[i0] := Mix(y[i0], y[i3], y[i2], 18);
  }

  lemma RoundStep<W>(quarter: Four<W> -> Four<W>, s: seq<W>, p: Place, places: seq<Place>)
    requires |s| == 16
    ensures Round(quarter, s, [p] + places) == Round(quarter, At(quarter, s, p), places)
  {
    assert ([p] + places)[1..] == places;
  }

  lemma FourConses<T>(a: T, b: T, c: T, d: T)
    ensures [a, b, c, d] == [a] + ([b] + ([c] + ([d] + [])))
  {
  }

  lemma RoundOfFour<W>(quarter: Four<W> -> Four<W>, s: seq<W>, a: Place, b: Place, c: Place, d: Place)
    requires |s| == 16
    ensures Round(quarter, s, [a, b, c, d]) == At(quarter, At(quarter, At(quarter, At(quarter, s, a), b), c), d)
  {
    var s1 := At(quarter, s, a);
    var s2 := At(quarter, s1, b);
    FourConses(a, b, c, d);
    RoundStep(quarter, s, a, [b] + ([c] + ([d] + [])));
    RoundStep(quarter, s1, b, [c] + ([d] + []));
    RoundStep(quarter, s2, c, [d] + []);
    RoundStep(quarter, At(quarter, s2, c), d, []);
  }

  // ----- the rounds in place

  method RowRound(y: array<bv32>)
    requires y.Length == 16
    modifies y
    ensures y[..] == Round(Quarter, old(y[..]), ROWS)
  {
    RoundOfFour(Quarter, y[..], Four(0, 1, 2, 3), Four(5, 6, 7, 4), Four(10, 11, 8, 9), Four(15, 12, 13, 14));
    QuarterRound(y, Four(0, 1, 2, 3));
    QuarterRound(y, Four(5, 6, 7, 4));
    QuarterRound(y, Four(10, 11, 8, 9));
    QuarterRound(y, Four(15, 12, 13, 14));
  }

  method ColumnRound(x: array<bv32>)
    requires x.Length == 16
    modifies x
    ensures x[..] == Round(Quarter, old(x[..]), COLUMNS)
  {
    RoundOfFour(Quarter, x[..], Four(0, 4, 8, 12), Four(5, 9, 13, 1), Four(10, 14, 2, 6), Four(15, 3, 7, 11));
    QuarterRound(x, Four(0, 4, 8, 12));
    QuarterRound(x, Four(5, 9, 13, 1));
    QuarterRound(x, Four(10, 14, 2, 6));
    QuarterRound(x, Four(15, 3, 7, 11));
  }

  method DoubleRoundInPlace(x: array<bv32>)
    requires x.Length == 16
    modifies x
    ensures x[..] == DoubleRound(old(x[..]))
  {
    ColumnRound(x);
    RowRound(x);
  }

  // ----- little-endian words (section 7)

  function LittleEndian(b: seq<bv8>): bv32
    requires |b| == 4
  {
    (b[0] as bv32) + ((b[1] as bv32) << 8) + ((b[2] as bv32) << 16) + ((b[3] as bv32) << 24)
  }

  function RevLittleEndian(w: bv32): (b: seq<bv8>)
    ensures |b| == 4
  {
    [(w & 0xff) as bv8, ((w >> 8) & 0xff) as bv8, ((w >> 16) & 0xff) as bv8, ((w >> 24) & 0xff) as bv8]
  }

  /** Reader and writer invert each other. */
  lemma LittleEndianInverse(w: bv32, b: seq<bv8>)
    requires |b| == 4
    ensures LittleEndian(RevLittleEndian(w)) == w
    ensures RevLittleEndian(LittleEndian(b)) == b
  {
  }

  function Words(b: seq<bv8>): (ws: seq<bv32>)
    requires |b| == 64
    ensures |ws| == 16
  {
    seq(16, i requires 0 <= i < 16 => LittleEndian(b[4 * i..4 * i + 4]))
  }

  function Bytes(ws: seq<bv32>): (b: seq<bv8>)
    requires |ws| == 16
    ensures |b| == 64
  {
    seq(64, j requires 0 <= j < 64 => RevLittleEndian(ws[j / 4])[j % 4])
  }

  lemma ByteAt(ws: seq<bv32>, i: nat, m: nat)
    requires |ws| == 16 && i < 16 && m < 4
    ensures Bytes(ws)[4 * i + m] == RevLittleEndian(ws[i])[m]
  {
    assert (4 * i + m) / 4 == i && (4 * i + m) % 4 == m;
  }

  /** Sixteen words are recovered from their sixty-four bytes. */
  lemma WordsOfBytes(ws: seq<bv32>)
    requires |ws| == 16
    ensures Words(Bytes(ws)) == ws
  {
    forall i: nat | i < 16 ensures Words(Bytes(ws))[i] == ws[i] {
      WordOfBytes(ws, i);
    }
  }

  lemma WordOfBytes(ws: seq<bv32>, i: nat)
    requires |ws| == 16 && i < 16
    ensures LittleEndian(Bytes(ws)[4 * i..4 * i + 4]) == ws[i]
  {
    var b := RevLittleEndian(ws[i]);
    forall m: nat | m < 4 ensures Bytes(ws)[4 * i + m] == b[m] {
      ByteAt(ws, i, m);
    }
    assert Bytes(ws)[4 * i..4 * i + 4] == b;
    LittleEndianInverse(ws[i], b);
  }

  /** Sixty-four bytes are recovered from their sixteen words. */
  lemma BytesOfWords(b: seq<bv8>)
    requires |b| == 64
    ensures Bytes(Words(b)) == b
  {
    forall j | 0 <= j < 64 ensures Bytes(Words(b))[j] == b[j] {
      LittleEndianInverse(0, b[4 * (j / 4)..4 * (j / 4) + 4]);
    }
  }

  // ----- the hash function (section 8)

  function DoubleRounds(n: nat, s: seq<bv32>): (z: seq<bv32>)
    requires |s| == 16
    ensures |z| == 16
  {
    if n == 0 then s else DoubleRound(DoubleRounds(n - 1, s))
  }

  /** Addition modulo 2^32. */
  function Plus(a: bv32, b: bv32): bv32 {
    a + b
  }

  function Sum(a: seq<bv32>, b: seq<bv32>): (c: seq<bv32>)
    requires |a| == |b| == 16
    ensures |c| == 16 && forall i :: 0 <= i < 16 ==> c[i] == Plus(a[i], b[i])
  {
    seq(16, i requires 0 <= i < 16 => Plus(a[i], b[i]))
  }

  /** `rounds` double rounds, and the input added to what comes out. */
  function HashedWith(rounds: nat, b: seq<bv8>): (h: seq<bv8>)
    requires |b| == 64
    ensures |h| == 64
  {
    Bytes(Sum(DoubleRounds(rounds, Words(b)), Words(b)))
  }

  function Hashed(b: seq<bv8>): (h: seq<bv8>)
    requires |b| == 64
    ensures |h| == 64
  {
    HashedWith(10, b)
  }

  method WriteLittleEndian(b: array<bv8>, at: nat, w: bv32)
    requires at + 4 <= b.Length
    modifies b
    ensures b[..] == old(b[..at]) + RevLittleEndian(w) + old(b[at + 4..])
  {
    var bytes := RevLittleEndian(w);
    b[at], b[at + 1], b[at + 2], b[at + 3] := bytes[0], bytes[1], bytes[2], bytes[3];
  }

  method LoadWords(block: array<bv8>, x: array<bv32>, z: array<bv32>)
    requires block.Length == 64 && x.Length == z.Length == 16 && x != z
    modifies x, z
    ensures x[..] == z[..] == Words(block[..])
  {
    ghost var words := Words(block[..]);
    for i := 0 to 16
      invariant x[..i] == z[..i] == words[..i]
    {
      assert block[4 * i..4 * i + 4] == block[..][4 * i..4 * i + 4];
      z[i] := LittleEndian(block[4 * i..4 * i + 4]);
      x[i] := z[i];
    }
    assert x[..] == x[..16] && z[..] == z[..16];
  }

  lemma BytesGrow(ws: seq<bv32>, i: nat)
    requires |ws| == 16 && i < 16
    ensures Bytes(ws)[..4 * i + 4] == Bytes(ws)[..4 * i] + RevLittleEndian(ws[i])
  {
    var b := Bytes(ws);
    forall m: nat | m < 4 ensures b[4 * i + m] == RevLittleEndian(ws[i])[m] {
      ByteAt(ws, i, m);
    }
    assert b[4 * i..4 * i + 4] == RevLittleEndian(ws[i]);
    assert b[..4 * i + 4] == b[..4 * i] + b[4 * i..4 * i + 4];
  }

  method StoreWord(block: array<bv8>, i: nat, w: bv32, ghost ws: seq<bv32>)
    requires block.Length == 64 && i < 16 && |ws| == 16 && w == ws[i]
    requires block[..4 * i] == Bytes(ws)[..4 * i]
    modifies block
    ensures block[..4 * i + 4] == Bytes(ws)[..4 * i + 4]
  {
    BytesGrow(ws, i);
    WriteLittleEndian(block, 4 * i, w);
    assert block[..4 * i + 4] == block[..][..4 * i + 4];
  }

  method AddAndStore(block: array<bv8>, x: array<bv32>, z: array<bv32>)
    requires block.Length == 64 && x.Length == z.Length == 16 && x != z
    modifies block, z
    ensures block[..] == Bytes(Sum(old(z[..]), x[..]))
  {
    ghost var xs, zs := x[..], z[..];
    ghost var sum := Sum(zs, xs);
    for i := 0 to 16
      invariant x[..] == xs
      invariant forall j :: i <= j < 16 ==> z[j] == zs[j]
      invariant block[..4 * i] == Bytes(sum)[..4 * i]
    {
      assert z[i] == zs[i] && x[i] == xs[i];
      z[i] := Plus(z[i], x[i]);
      assert z[i] == sum[i];
      StoreWord(block, i, z[i], sum);
    }
    assert block[..] == block[..4 * 16];
  }

  method RunDoubleRounds(z: array<bv32>, n: nat)
    requires z.Length == 16
    modifies z
    ensures z[..] == DoubleRounds(n, old(z[..]))
  {
    for i := 0 to n
      invariant z[..] == DoubleRounds(i, old(z[..]))
    {
      DoubleRoundInPlace(z);
    }
  }

  method HashWith(rounds: nat, block: array<bv8>)
    requires block.Length == 64
    modifies block
    ensures block[..] == HashedWith(rounds, old(block[..]))
  {
    var x, z := new bv32[16], new bv32[16];
    LoadWords(block, x, z);
    ghost var words := x[..];
    RunDoubleRounds(z, rounds);
    ghost var mixed := z[..];
    assert x[..] == words;
    AddAndStore(block, x, z);
    assert block[..] == Bytes(Sum(mixed, words));
  }

  method Hash(block: array<bv8>)
    requires block.Length == 64
    modifies block
    ensures block[..] == Hashed(old(block[..]))
  {
    HashWith(10, block);
  }

  // ----- key expansion (section 9)

  const SIGMA: seq<seq<bv8>> := [[101, 120, 112, 97], [110, 100, 32, 51], [50, 45, 98, 121], [116, 101, 32, 107]]

  /** The expanded block: the four constants around the two key halves and the input. */
  function Expanded(k: seq<bv8>, n: seq<bv8>): (b: seq<bv8>)
    requires |k| == 32 && |n| == 16
    ensures |b| == 64
  {
    SIGMA[0] + k[..16] + SIGMA[1] + n + SIGMA[2] + k[16..] + SIGMA[3]
  }

  method CopyConstants(keystream: array<bv8>)
    requires keystream.Length == 64
    modifies keystream
    ensures keystream[..4] == SIGMA[0] && keystream[20..24] == SIGMA[1]
    ensures keystream[40..44] == SIGMA[2] && keystream[60..] == SIGMA[3]
  {
    var o := SIGMA;
    var i := 0;
    while i < 64
      invariant i % 20 == 0 && 0 <= i <= 80
      invariant forall c, j :: 0 <= c < i / 20 && 0 <= j < 4 ==> keystream[20 * c + j] == o[c][j]
    {
      for j := 0 to 4
        invariant forall c, j :: 0 <= c < i / 20 && 0 <= j < 4 ==> keystream[20 * c + j] == o[c][j]
        invariant forall l :: 0 <= l < j ==> keystream[i + l] == o[i / 20][l]
      {
        keystream[i + j] := o[i / 20][j];
      }
      i := i + 20;
    }
    forall c | 0 <= c < 4 ensures keystream[20 * c..20 * c + 4] == o[c] {
      assert forall j :: 0 <= j < 4 ==> keystream[20 * c + j] == o[c][j];
    }
    assert keystream[20 * 0..20 * 0 + 4] == o[0] && keystream[20 * 1..20 * 1 + 4] == o[1];
    assert keystream[20 * 2..20 * 2 + 4] == o[2] && keystream[20 * 3..20 * 3 + 4] == o[3];
  }

  method CopyKey(k: array<bv8>, n: array<bv8>, keystream: array<bv8>)
    requires k.Length == 32 && n.Length == 16 && keystream.Length == 64
    requires keystream != k && keystream != n
    modifies keystream
    ensures keystream[..] == old(keystream[..4]) + k[..16] + old(keystream[20..24]) + n[..]
                           + old(keystream[40..44]) + k[16..] + old(keystream[60..])
  {
    for i := 0 to 16
      invariant keystream[4..4 + i] == k[..i] && keystream[44..44 + i] == k[16..16 + i]
      invariant keystream[24..24 + i] == n[..i]
      invariant keystream[..4] == old(keystream[..4]) && keystream[20..24] == old(keystream[20..24])
      invariant keystream[40..44] == old(keystream[40..44]) && keystream[60..] == old(keystream[60..])
    {
      keystream[4 + i] := k[i];
      keystream[44 + i] := k[16 + i];
      keystream[24 + i] := n[i];
    }
    assert keystream[..] == keystream[..4] + keystream[4..20] + keystream[20..24] + keystream[24..40]
                          + keystream[40..44] + keystream[44..60] + keystream[60..];
  }

  method Expand32(k: array<bv8>, n: array<bv8>, keystream: array<bv8>)
    requires k.Length == 32 && n.Length == 16 && keystream.Length == 64
    requires keystream != k && keystream != n
    modifies keystream
    ensures keystream[..] == Hashed(Expanded(k[..], n[..]))
  {
    CopyConstants(keystream);
    CopyKey(k, n, keystream);
    Hash(keystream);
  }

  // ----- encryption (section 10)

  type uint32 = x: int | 0 <= x < 0x1_0000_0000

  datatype Status = Success | Failure

  function Advance(si: uint32, i: nat): uint32 {
    (si + i) % 0x1_0000_0000
  }

  function Xor(a: bv8, b: bv8): bv8 {
    a ^ b
  }

  type Bytes64 = b: seq<bv8> | |b| == 64 witness seq(64, _ => 0)

  /** Every byte exclusive-or'd with the keystream byte at its own position, byte by byte. */
  function CryptWith(block: uint32 -> Bytes64, si: uint32, data: seq<bv8>): (c: seq<bv8>)
    ensures |c| == |data|
    ensures forall i :: 0 <= i < |data| ==> c[i] == Xor(data[i], StreamByte(block, Advance(si, i)))
  {
    seq(|data|, i requires 0 <= i < |data| => Xor(data[i], StreamByte(block, Advance(si, i))))
  }

  function StreamByte(block: uint32 -> Bytes64, pos: uint32): bv8 {
    block(pos / 64)[pos % 64]
  }

  /** Keystream block number `b`: the counter takes four bytes of the input, the next four are 0. */
  function Block(key: seq<bv8>, nonce: seq<bv8>, b: uint32): Bytes64
    requires |key| == 32 && |nonce| == 8
  {
    Hashed(Expanded(key, nonce + RevLittleEndian(b as bv32) + [0, 0, 0, 0]))
  }

  function Keystream(key: seq<bv8>, nonce: seq<bv8>): uint32 -> Bytes64
    requires |key| == 32 && |nonce| == 8
  {
    b => Block(key, nonce, b)
  }

  function Crypt(key: seq<bv8>, nonce: seq<bv8>, si: uint32, data: seq<bv8>): (c: seq<bv8>)
    requires |key| == 32 && |nonce| == 8
    ensures |c| == |data|
  {
    CryptWith(Keystream(key, nonce), si, data)
  }

  lemma XorInvolution(a: bv8, b: bv8)
    ensures Xor(Xor(a, b), b) == a
  {
  }

  lemma WithTwice(block: uint32 -> Bytes64, si: uint32, data: seq<bv8>)
    ensures CryptWith(block, si, CryptWith(block, si, data)) == data
  {
    var c := CryptWith(block, si, data);
    forall i | 0 <= i < |data| ensures CryptWith(block, si, c)[i] == data[i] {
      XorInvolution(data[i], StreamByte(block, Advance(si, i)));
    }
  }

  lemma WithPieces(block: uint32 -> Bytes64, si: uint32, a: seq<bv8>, b: seq<bv8>)
    ensures CryptWith(block, si, a + b) == CryptWith(block, si, a) + CryptWith(block, Advance(si, |a|), b)
  {
    var c := CryptWith(block, Advance(si, |a|), b);
    forall i | 0 <= i < |b| ensures CryptWith(block, si, a + b)[|a| + i] == c[i] {
      AdvanceTwice(si, |a|, i);
    }
  }

  /** Decryption is encryption. */
  lemma CryptTwice(key: seq<bv8>, nonce: seq<bv8>, si: uint32, data: seq<bv8>)
    requires |key| == 32 && |nonce| == 8
    ensures Crypt(key, nonce, si, Crypt(key, nonce, si, data)) == data
  {
    WithTwice(Keystream(key, nonce), si, data);
  }

  /** A message may be processed in pieces, also across the wrap of the 32-bit position. */
  lemma CryptPieces(key: seq<bv8>, nonce: seq<bv8>, si: uint32, a: seq<bv8>, b: seq<bv8>)
    requires |key| == 32 && |nonce| == 8
    ensures Crypt(key, nonce, si, a + b) == Crypt(key, nonce, si, a) + Crypt(key, nonce, Advance(si, |a|), b)
  {
    WithPieces(Keystream(key, nonce), si, a, b);
  }

  lemma AdvanceTwice(si: uint32, i: nat, j: nat)
    ensures Advance(Advance(si, i), j) == Advance(si, i + j)
  {
    var q := (si + i) / 0x1_0000_0000;
    assert si + i == 0x1_0000_0000 * q + Advance(si, i);
    assert si + i + j == 0x1_0000_0000 * q + (Advance(si, i) + j);
  }

  /** From one byte to the next the block number stays, unless a new block begins. */
  lemma NextPosition(si: uint32, i: nat)
    ensures Advance(si, i + 1) % 64 != 0 ==> Advance(si, i + 1) / 64 == Advance(si, i) / 64
  {
    AdvanceTwice(si, i, 1);
  }

  /** `block` is the keystream of this key and nonce. */
  ghost predicate IsKeystream(block: uint32 -> Bytes64, key: seq<bv8>, nonce: seq<bv8>)
    requires |key| == 32 && |nonce| == 8
  {
    forall b: uint32 {:trigger Block(key, nonce, b)} :: block(b) == Block(key, nonce, b)
  }

  /** Puts a block number into the input `n` and computes that block. */
  method NextBlock(key: array<bv8>, ghost nonce: seq<bv8>, n: array<bv8>, keystream: array<bv8>, b: uint32,
                   ghost block: uint32 -> Bytes64)
    requires key.Length == 32 && |nonce| == 8 && n.Length == 16 && keystream.Length == 64
    requires keystream != key && keystream != n && n != key
    requires n[..8] == nonce && n[12..] == [0, 0, 0, 0]
    requires IsKeystream(block, key[..], nonce)
    modifies n, keystream
    ensures n[..8] == nonce && n[12..] == [0, 0, 0, 0]
    ensures keystream[..] == block(b)
  {
    WriteLittleEndian(n, 8, b as bv32);
    assert n[..8] == n[..][..8] == nonce;
    assert n[12..] == n[..][12..] == [0, 0, 0, 0];
    Expand32(key, n, keystream);
    assert keystream[..] == Block(key[..], nonce, b);
  }

  /** The block in the buffer is the one for this position, unless a new one starts here. */
  ghost predicate Cached(keystream: seq<bv8>, block: uint32 -> Bytes64, pos: uint32) {
    pos % 64 != 0 ==> keystream == block(pos / 64)
  }

  lemma StaysCached(keystream: seq<bv8>, block: uint32 -> Bytes64, si: uint32, i: nat)
    requires keystream == block(Advance(si, i) / 64)
    ensures Cached(keystream, block, Advance(si, i + 1))
  {
    NextPosition(si, i);
  }

  method StreamByteAt(key: array<bv8>, ghost nonce: seq<bv8>, n: array<bv8>, keystream: array<bv8>, pos: uint32,
                      ghost block: uint32 -> Bytes64) returns (k: bv8)
    requires key.Length == 32 && |nonce| == 8 && n.Length == 16 && keystream.Length == 64
    requires keystream != key && keystream != n && n != key
    requires n[..8] == nonce && n[12..] == [0, 0, 0, 0]
    requires IsKeystream(block, key[..], nonce) && Cached(keystream[..], block, pos)
    modifies n, keystream
    ensures n[..8] == nonce && n[12..] == [0, 0, 0, 0]
    ensures keystream[..] == block(pos / 64) && k == StreamByte(block, pos)
  {
    if pos % 64 == 0 {
      NextBlock(key, nonce, n, keystream, pos / 64, block);
    }
    k := keystream[pos % 64];
    assert k == keystream[..][pos % 64];
  }

  lemma OneByteMore(before: seq<bv8>, after: seq<bv8>, crypted: seq<bv8>, data: seq<bv8>, i: nat)
    requires i < |crypted| <= |data| == |before|
    requires before[..i] == crypted[..i] && before[i..] == data[i..] && after == before[i := crypted[i]]
    ensures after[..i + 1] == crypted[..i + 1] && after[i + 1..] == data[i + 1..]
  {
    assert after[..i + 1] == before[..i] + [crypted[i]];
    assert after[i + 1..] == before[i..][1..];
  }

  method CryptBytes(key: array<bv8>, ghost nonce: seq<bv8>, n: array<bv8>, si: uint32, buf: array<bv8>, buflen: uint32,
                    ghost block: uint32 -> Bytes64)
    requires key.Length == 32 && |nonce| == 8 && n.Length == 16 && buflen <= buf.Length
    requires n != key && n != buf && key != buf
    requires n[..8] == nonce && n[12..] == [0, 0, 0, 0]
    requires IsKeystream(block, key[..], nonce)
    modifies n, buf
    ensures buf[..] == CryptWith(block, si, old(buf[..buflen])) + old(buf[buflen..])
  {
    var keystream := new bv8[64];
    if si % 64 != 0 {
      NextBlock(key, nonce, n, keystream, si / 64, block);
    }
    ghost var k, data := key[..], buf[..];
    ghost var crypted := CryptWith(block, si, data[..buflen]);
    for i := 0 to buflen
      invariant key[..] == k && n[..8] == nonce && n[12..] == [0, 0, 0, 0]
      invariant Cached(keystream[..], block, Advance(si, i))
      invariant buf[..i] == crypted[..i] && buf[i..] == data[i..]
    {
      var b := StreamByteAt(key, nonce, n, keystream, Advance(si, i), block);
      StaysCached(keystream[..], block, si, i);
      assert buf[i] == buf[i..][0] == data[i];
      ghost var before := buf[..];
      buf[i] := Xor(buf[i], b);
      OneByteMore(before, buf[..], crypted, data, i);
    }
    assert buf[..] == buf[..buflen] + buf[buflen..];
  }

  method NonceInput(nonce: array<bv8>) returns (n: array<bv8>)
    requires nonce.Length == 8
    ensures fresh(n) && n.Length == 16 && n[..8] == nonce[..] && n[12..] == [0, 0, 0, 0]
  {
    n := new bv8[16](_ => 0);
    for i := 0 to 8
      invariant n[..i] == nonce[..i] && n[12..] == [0, 0, 0, 0]
    {
      n[i] := nonce[i];
    }
  }

  /** Encrypts or decrypts the first `buflen` bytes of the buffer as the stretch of the stream
      that starts at position `si`, keeping only one keystream block at a time. */
  method Crypt32(key: array?<bv8>, nonce: array?<bv8>, si: uint32, buf: array?<bv8>, buflen: uint32)
      returns (status: Status)
    requires key != null ==> key.Length == 32 && key != buf
    requires nonce != null ==> nonce.Length == 8
    requires buf != null ==> buflen <= buf.Length
    modifies if buf == null then {} else {buf}
    ensures status.Failure? <==> key == null || nonce == null || buf == null
    ensures status.Failure? && buf != null ==> buf[..] == old(buf[..])
    ensures status.Success? ==>
              buf[..] == Crypt(key[..], old(nonce[..]), si, old(buf[..buflen])) + old(buf[buflen..])
  {
    if key == null || nonce == null || buf == null {
      return Failure;
    }
    ghost var k, v, data, rest := key[..], nonce[..], buf[..buflen], buf[buflen..];
    var n := NonceInput(nonce);
    CryptBytes(key, v, n, si, buf, buflen, Keystream(k, v));
    assert key[..] == k && buf[..] == CryptWith(Keystream(k, v), si, data) + rest;
    return Success;
  }
}
