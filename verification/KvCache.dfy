/** The KV cache over a run of passes: one row appended per pass, a padded window
    with a mask, chunks that cover it, and attention over exactly the rows appended
    so far. */
module KvCache {
  import opened Arith
  import opened RealSums
  import opened Softmax
  import opened Attention
  import opened AttentionReduce
  import opened Words

  const HD: nat := 256
  const WINDOW: nat := 256
  const SCALE: real := 0.0625

  // ---- the window and its mask -----------------------------------------------------------

  function PadUp(v: nat, m: nat): nat
    requires m > 0
  {
    DivNat(v + m - 1, m);
    MulNat((v + m - 1) / m, m);
    (v + m - 1) / m * m
  }

  lemma DivNat(a: nat, b: nat)
    requires b > 0
    ensures a / b >= 0
  {
    var q, r := DivMod(a, b);
  }

  lemma MulNat(a: nat, b: nat)
    ensures a * b >= 0
  {
  }

  /** The smallest multiple of m that is not below v. */
  lemma PadUpExact(v: nat, m: nat)
    requires m > 0
    ensures v <= PadUp(v, m) < v + m && PadUp(v, m) % m == 0
  {
    var q, r := DivMod(v + m - 1, m);
    DivModUnique(q * m, m, q, 0);
  }

  datatype Option<T> = None | Some(value: T)

  /** set_pass_inputs: the padded window and its mask, or failure past the cap.  A
      mask entry is 0 or minus infinity. */
  method SetPassInputs(pos: nat, maskCap: nat) returns (mask: Option<seq<Ext>>)
    ensures mask.None? <==> PadUp(pos + 1, WINDOW) > maskCap
    ensures mask.Some? ==>
              && |mask.value| == PadUp(pos + 1, WINDOW) > pos
              && forall j :: 0 <= j < |mask.value| ==> mask.value[j] == if j <= pos then Fin(0.0) else NegInf
  {
    PadUpExact(pos + 1, WINDOW);
    var nKv := PadUp(pos + 1, WINDOW);
    if nKv > maskCap { return None; }
    var m: seq<Ext> := [];
    for j := 0 to nKv
      invariant |m| == j && forall i :: 0 <= i < j ==> m[i] == if i <= pos then Fin(0.0) else NegInf
    {
      m := m + [if j <= pos then Fin(0.0) else NegInf];
    }
    mask := Some(m);
  }

  // ---- chunks -----------------------------------------------------------------------------------

  /** Chunk length: an even share rounded up, rounded up again to whole tiles. */
  function ChunkLen(nKv: nat, nchunks: nat): nat
    requires nchunks > 0
  {
    DivNat(nKv + nchunks - 1, nchunks);
    PadUp((nKv + nchunks - 1) / nchunks, TILE)
  }

  function Min(a: nat, b: nat): nat {
    if a <= b then a else b
  }

  function Kv0(nKv: nat, nchunks: nat, chunk: nat): nat
    requires nchunks > 0
  {
    MulNat(chunk, ChunkLen(nKv, nchunks));
    Min(chunk * ChunkLen(nKv, nchunks), nKv)
  }

  function Kv1(nKv: nat, nchunks: nat, chunk: nat): nat
    requires nchunks > 0
  {
    Min(Kv0(nKv, nchunks, chunk) + ChunkLen(nKv, nchunks), nKv)
  }

  lemma ChunksReachEnd(nKv: nat, nchunks: nat)
    requires nchunks > 0
    ensures nchunks * ChunkLen(nKv, nchunks) >= nKv
  {
    var q, r := DivMod(nKv + nchunks - 1, nchunks);
    PadUpExact(q, TILE);
    MulLe(q, ChunkLen(nKv, nchunks), nchunks);
  }

  lemma MulLe(x: nat, y: nat, n: nat)
    requires x <= y
    ensures x * n <= y * n && n * x == x * n && n * y == y * n
  {
    if x < y { MulGap(y, x, n); }
  }

  /** The chunks partition [0, nKv): each begins where the one before ends, the
      first at 0, the last ends at nKv, and all begin at whole tiles. */
  lemma ChunksPartition(nKv: nat, nchunks: nat, c: nat)
    requires nchunks > 0 && nKv % TILE == 0
    ensures Kv0(nKv, nchunks, 0) == 0 && Kv0(nKv, nchunks, nchunks) == nKv
    ensures Kv0(nKv, nchunks, c) <= Kv1(nKv, nchunks, c) == Kv0(nKv, nchunks, c + 1) <= nKv
    ensures Kv0(nKv, nchunks, c) % TILE == 0
  {
    var len := ChunkLen(nKv, nchunks);
    ChunksReachEnd(nKv, nchunks);
    Successor(c, len);
    var q, r := DivMod(nKv + nchunks - 1, nchunks);
    PadUpExact(q, TILE);
    TileMultiple(c, len);
  }

  /** The chunk bounds as the kernel has them, in 32-bit words. */
  function ChunkLenWord(nKv: u32, nchunks: u32): u32
    requires nchunks > 0
  {
    Wrap(Wrap(Wrap(nKv + nchunks - 1) / nchunks + TILE - 1) / TILE * TILE)
  }

  function Kv0Word(nKv: u32, nchunks: u32, chunk: u32): u32
    requires nchunks > 0
  {
    MinWord(Wrap(chunk * ChunkLenWord(nKv, nchunks)), nKv)
  }

  function Kv1Word(nKv: u32, nchunks: u32, chunk: u32): u32
    requires nchunks > 0
  {
    MinWord(Wrap(Kv0Word(nKv, nchunks, chunk) + ChunkLenWord(nKv, nchunks)), nKv)
  }

  function MinWord(a: u32, b: u32): u32 {
    if a <= b then a else b
  }

  lemma Fits(x: nat)
    requires x < WORD
    ensures Wrap(x) == x
  {
  }

  lemma PaddedProduct(q: nat, len: nat, n: nat)
    requires n > 0 && len <= q + TILE - 1
    ensures n * len <= q * n + (TILE - 1) * n && n * len >= len && q * n >= q
  {
    MulLe(len, q + TILE - 1, n);
    MulLower(n, len);
    MulLower(n, q);
    assert (q + (TILE - 1)) * n == q * n + (TILE - 1) * n;
  }

  lemma LenWord(nKv: u32, nchunks: u32)
    requires nchunks > 0 && nKv + TILE * nchunks <= WORD
    ensures ChunkLenWord(nKv, nchunks) == ChunkLen(nKv, nchunks) && nchunks * ChunkLen(nKv, nchunks) < WORD
  {
    var q, r := DivMod(nKv + nchunks - 1, nchunks);
    PadUpExact(q, TILE);
    PaddedProduct(q, PadUp(q, TILE), nchunks);
    Fits(nKv + nchunks - 1);
    Fits(q + TILE - 1);
    Fits(PadUp(q, TILE));
  }

  /** As long as the window leaves room for one more tile per chunk below 2^32, no
      sum or product wraps and the words are the numbers. */
  lemma ChunkWords(nKv: u32, nchunks: u32, c: u32)
    requires nchunks > 0 && c < nchunks && nKv + TILE * nchunks <= WORD
    ensures Kv0Word(nKv, nchunks, c) == Kv0(nKv, nchunks, c) && Kv1Word(nKv, nchunks, c) == Kv1(nKv, nchunks, c)
  {
    hide ChunkLen; hide ChunkLenWord; hide Wrap;
    var len := ChunkLen(nKv, nchunks);
    LenWord(nKv, nchunks);
    MulLe(c + 1, nchunks, len);
    Successor(c, len);
    Fits(c * len);
    Fits(Kv0(nKv, nchunks, c) + len);
  }

  lemma Successor(c: nat, len: nat)
    ensures (c + 1) * len == c * len + len && c * len >= 0 && 0 * len == 0
  {
  }

  lemma AddTiles(x: int, y: int)
    requires x % TILE == 0 && y % TILE == 0
    ensures (x + y) % TILE == 0
  {
  }

  lemma {:induction false} TileMultiple(c: nat, len: nat)
    requires len % TILE == 0
    ensures c * len % TILE == 0
  {
    if c > 0 {
      TileMultiple(c - 1, len);
      Successor(c - 1, len);
      AddTiles((c - 1) * len, len);
    }
  }

  // ---- which warp writes which record -----------------------------------------------------------

  /** The query head of warp `warp` while kv head kvh is carried, if the warp is
      active. */
  predicate Writes(nKvHeads: nat, gqa: nat, warps: nat, kvh: nat, warp: nat, qh: nat) {
    kvh < nKvHeads && warp < warps && warp < gqa && qh == kvh * gqa + warp
  }

  /** Each head's record is written by exactly one (kv head, warp) pair, provided
      the heads of a group fit the warps; otherwise those past the last warp are
      never written. */
  lemma RecordWriters(nKvHeads: nat, gqa: nat, warps: nat, qh: nat)
    requires gqa > 0 && qh < nKvHeads * gqa
    ensures qh / gqa >= 0 && qh % gqa >= 0
    ensures forall kvh: nat, warp: nat :: Writes(nKvHeads, gqa, warps, kvh, warp, qh) ==>
            kvh == qh / gqa && warp == qh % gqa
    ensures Writes(nKvHeads, gqa, warps, qh / gqa, qh % gqa, qh) <==> qh % gqa < warps
    ensures gqa <= warps ==> Writes(nKvHeads, gqa, warps, qh / gqa, qh % gqa, qh)
  {
    var q, r := DivMod(qh, gqa);
    DivModBound(qh, gqa, nKvHeads);
    forall kvh: nat, warp: nat | Writes(nKvHeads, gqa, warps, kvh, warp, qh) ensures kvh == q && warp == r {
      DivModUnique(qh, gqa, kvh, warp);
    }
  }

  // ---- the cache rows ---------------------------------------------------------------------------------

  /** Row j of a cache of rows of w elements. */
  function Row(cache: seq<real>, w: nat, j: nat): seq<real> {
    MulNat(j, w);
    if j * w + w <= |cache| then cache[j * w..j * w + w] else []
  }

  function Cast(cast: real -> real, src: seq<real>): (r: seq<real>)
    ensures |r| == |src|
  {
    seq(|src|, i requires 0 <= i < |src| => cast(src[i]))
  }

  /** The whole groups of four among w elements. */
  function Fours(w: nat): nat {
    w / 4 * 4
  }

  /** Group g of four elements is thread tid's. */
  predicate Mine(g: nat, tid: nat, nthreads: nat)
    requires tid < nthreads
  {
    g % nthreads == tid
  }

  lemma NextGroup(g: nat, tid: nat, nthreads: nat)
    requires tid < nthreads && Mine(g, tid, nthreads)
    ensures Mine(g + nthreads, tid, nthreads)
    ensures forall j: nat :: g < j < g + nthreads ==> !Mine(j, tid, nthreads)
  {
    forall j: nat | g < j < g + nthreads ensures !Mine(j, tid, nthreads) {
      if Mine(j, tid, nthreads) { NextInStride(j, g, nthreads); }
    }
    NextInStride(g, g, nthreads);
  }

  lemma FirstGroup(tid: nat, nthreads: nat)
    requires tid < nthreads
    ensures Mine(tid, tid, nthreads) && forall j: nat :: j < tid ==> !Mine(j, tid, nthreads)
  {
    DivModUnique(tid, nthreads, 0, tid);
    forall j: nat | j < tid ensures !Mine(j, tid, nthreads) { DivModUnique(j, nthreads, 0, j); }
  }

  /** Thread tid of op_kv_append: every nthreads-th group of four elements. */
  method AppendThread(cache: array<real>, at: nat, src: seq<real>, cast: real -> real, tid: nat, nthreads: nat)
    requires tid < nthreads && at + |src| <= cache.Length
    modifies cache
    ensures forall i :: 0 <= i < cache.Length ==>
              cache[i] == if at <= i < at + Fours(|src|) && Mine((i - at) / 4, tid, nthreads) then cast(src[i - at])
                  else old(cache[i])
  {
    hide Mine;
    var i4 := tid;
    FirstGroup(tid, nthreads);
    while i4 < |src| / 4
      invariant Mine(i4, tid, nthreads)
      invariant forall i :: 0 <= i < cache.Length ==>
                  cache[i] == if at <= i < at + Fours(|src|) && Mine((i - at) / 4, tid, nthreads) && (i - at) / 4 < i4
                              then cast(src[i - at]) else old(cache[i])
    {
      var d := at + 4 * i4;
      cache[d], cache[d + 1] := cast(src[4 * i4]), cast(src[4 * i4 + 1]);
      cache[d + 2], cache[d + 3] := cast(src[4 * i4 + 2]), cast(src[4 * i4 + 3]);
      NextGroup(i4, tid, nthreads);
      i4 := i4 + nthreads;
    }
  }

  /** op_kv_append: row `row` becomes the cast source, in whole groups of four elements,
      and no other row changes. */
  method Append(cache: array<real>, w: nat, row: nat, src: seq<real>, cast: real -> real, nthreads: nat)
    requires |src| == w && nthreads >= 1 && row * w + w <= cache.Length
    modifies cache
    ensures |Row(cache[..], w, row)| == |old(Row(cache[..], w, row))| == w
    ensures forall i :: 0 <= i < w ==>
              Row(cache[..], w, row)[i] == if i < Fours(w) then cast(src[i]) else old(Row(cache[..], w, row)[i])
    ensures w % 4 == 0 ==> Row(cache[..], w, row) == Cast(cast, src)
    ensures forall j: nat :: j != row ==> Row(cache[..], w, j) == old(Row(cache[..], w, j))
  {
    MulNat(row, w);
    var at: nat := row * w;
    for tid := 0 to nthreads
      invariant forall i :: at <= i < at + Fours(w) && ((i - at) / 4) % nthreads < tid ==> cache[i] == cast(src[i - at])
      invariant forall i :: 0 <= i < cache.Length && !(at <= i < at + Fours(w)) ==> cache[i] == old(cache[i])
    {
      AppendThread(cache, at, src, cast, tid, nthreads);
    }
    ghost var R := Row(cache[..], w, row);
    forall i | 0 <= i < Fours(w) ensures R[i] == cast(src[i]) { assert (at + i - at) / 4 % nthreads < nthreads; }
    forall j: nat | j != row ensures Row(cache[..], w, j) == old(Row(cache[..], w, j)) {
      RowsApart(j, row, w);
      MulNat(j, w);
    }
  }

  lemma RowsApart(j: nat, row: nat, w: nat)
    requires j != row
    ensures j * w + w <= row * w || row * w + w <= j * w
  {
    if j < row { MulGap(row, j, w); } else { MulGap(j, row, w); }
  }

  /** The first |hist| rows of the cache are the rows appended so far. */
  ghost predicate Holds(cache: seq<real>, w: nat, hist: seq<seq<real>>) {
    forall j: nat :: j < |hist| ==> |hist[j]| == w && Row(cache, w, j) == hist[j]
  }

  // ---- one tile of one kv head ----------------------------------------------------------------------------

  const PITCH: nat := HD + 2

  /** What a tile holds at column d of row t: rows at or past the limit are zero. */
  function SliceAt(cache: seq<real>, w: nat, t0: nat, limit: nat, headOff: nat, t: nat, d: nat): real
    requires headOff + HD <= w && d < HD && forall j: nat :: j < limit ==> |Row(cache, w, j)| == w
  {
    if t0 + t < limit then Row(cache, w, t0 + t)[headOff + d] else 0.0
  }

  /** The same by tile position; the padding columns are never read. */
  function TileAt(cache: seq<real>, w: nat, t0: nat, limit: nat, headOff: nat, i: nat): real
    requires headOff + HD <= w && forall j: nat :: j < limit ==> |Row(cache, w, j)| == w
  {
    if i % PITCH < HD then SliceAt(cache, w, t0, limit, headOff, i / PITCH, i % PITCH) else 0.0
  }

  /** One load of eight columns. */
  method LoadEight(cache: seq<real>, tile: array<real>, t0: nat, limit: nat, w: nat, headOff: nat, t: nat, c: nat)
    requires tile.Length == TILE * PITCH && headOff + HD <= w && t < TILE && c < HD / 8
    requires forall j: nat :: j < limit ==> |Row(cache, w, j)| == w
    modifies tile
    ensures forall i: nat :: i < tile.Length ==>
              tile[i] == if t * PITCH + c * 8 <= i < t * PITCH + c * 8 + 8
                  then TileAt(cache, w, t0, limit, headOff, i) else old(tile[i])
  {
    hide Row; hide SliceAt;
    var at := t * PITCH + c * 8;
    for b := 0 to 8
      invariant forall i: nat :: i < tile.Length ==>
                  tile[i] == if at <= i < at + b then TileAt(cache, w, t0, limit, headOff, i) else old(tile[i])
    {
      assert (at + b) / PITCH == t && (at + b) % PITCH == c * 8 + b;
      tile[at + b] := SliceAt(cache, w, t0, limit, headOff, t, c * 8 + b);
    }
  }

  /** mk_load_kv_slice: 32 rows of the head's 256 columns into the tile. */
  method LoadSlice(cache: seq<real>, tile: array<real>, t0: nat, limit: nat, w: nat, headOff: nat)
    requires tile.Length == TILE * PITCH && headOff + HD <= w
    requires forall j: nat :: j < limit ==> |Row(cache, w, j)| == w
    modifies tile
    ensures forall i: nat :: i < tile.Length && i % PITCH < HD ==> tile[i] == TileAt(cache, w, t0, limit, headOff, i)
  {
    hide Row; hide TileAt;
    for i := 0 to TILE * (HD / 8)
      invariant forall j: nat :: j < tile.Length && j % PITCH < HD && (j / PITCH) * 32 + (j % PITCH) / 8 < i ==>
                  tile[j] == TileAt(cache, w, t0, limit, headOff, j)
    {
      LoadEight(cache, tile, t0, limit, w, headOff, i / 32, i % 32);
    }
  }

  /** The dot product taken two columns at a time. */
  method PairDot(q: seq<real>, k: seq<real>) returns (dot: real)
    requires |q| == |k| == HD
    ensures dot == Dot(q, k)
  {
    dot := 0.0;
    ghost var z := Products(q, k);
    var c := 0;
    while c < HD
      invariant 0 <= c <= HD && c % 2 == 0 && dot == Sum(z[..c])
    {
      assert z[..c + 2][..c + 1] == z[..c + 1] && z[..c + 1][..c] == z[..c];
      dot := dot + (q[c] * k[c] + q[c + 1] * k[c + 1]);
      c := c + 2;
    }
    assert z[..HD] == z;
  }

  // ---- attention over the window ------------------------------------------------------------------------

  /** Exact attention of one head and output dimension d over rows given as K and V
      histories: the softmax of the scaled dot products, applied to column d. */
  function ExactAttention(e: real -> real, q: seq<real>, ks: seq<seq<real>>, vs: seq<seq<real>>, headOff: nat,
                          d: nat): real
    requires |q| == HD && |ks| == |vs| && d < HD
    requires forall j :: 0 <= j < |ks| ==> headOff + HD <= |ks[j]| && headOff + HD <= |vs[j]|
  {
    Mean(e, LiveScores(q, ks, headOff), ColumnOf(vs, headOff, d), All(|ks|, true))
  }

  function LiveScores(q: seq<real>, ks: seq<seq<real>>, headOff: nat): (x: seq<Ext>)
    requires |q| == HD && forall j :: 0 <= j < |ks| ==> headOff + HD <= |ks[j]|
    ensures |x| == |ks|
  {
    seq(|ks|, j requires 0 <= j < |ks| => Fin(Dot(Scaled(SCALE, q), ks[j][headOff..headOff + HD])))
  }

  function ColumnOf(vs: seq<seq<real>>, headOff: nat, d: nat): (v: seq<real>)
    requires d < HD && forall j :: 0 <= j < |vs| ==> headOff + HD <= |vs[j]|
    ensures |v| == |vs|
  {
    seq(|vs|, j requires 0 <= j < |vs| => vs[j][headOff + d])
  }

  /** The softmax formula as a textbook has it: sums over the positions of exp(q k / sqrt d)
      and of exp(q k / sqrt d) v, the head dimension d being 256. */
  function QueryDot(q: seq<real>, k: seq<real>, at: nat, n: nat): real
    requires n <= |q| && at + n <= |k|
  {
    if n == 0 then 0.0 else QueryDot(q, k, at, n - 1) + q[n - 1] * k[at + (n - 1)]
  }

  function Denominator(e: real -> real, q: seq<real>, ks: seq<seq<real>>, at: nat, n: nat): real
    requires |q| == 256 && n <= |ks| && forall j :: 0 <= j < |ks| ==> at + 256 <= |ks[j]|
  {
    if n == 0 then 0.0 else Denominator(e, q, ks, at, n - 1) + e(QueryDot(q, ks[n - 1], at, 256) / 16.0)
  }

  function Numerator(e: real -> real, q: seq<real>, ks: seq<seq<real>>, vs: seq<seq<real>>, at: nat, d: nat,
                     n: nat): real
    requires |q| == 256 && n <= |ks| == |vs| && d < 256
    requires forall j :: 0 <= j < |ks| ==> at + 256 <= |ks[j]| && at + 256 <= |vs[j]|
  {
    if n == 0 then 0.0
    else Numerator(e, q, ks, vs, at, d, n - 1) + e(QueryDot(q, ks[n - 1], at, 256) / 16.0) * vs[n - 1][at + d]
  }

  /** The scale is one over the square root of the head dimension. */
  lemma ScaleIsRoot()
    ensures SCALE > 0.0 && SCALE * SCALE * HD as real == 1.0
  {
  }

  lemma {:induction false} ScaledDot(q: seq<real>, k: seq<real>, at: nat, n: nat)
    requires |q| == HD && at + HD <= |k| && n <= HD
    ensures Sum(Products(Scaled(SCALE, q), k[at..at + HD])[..n]) == QueryDot(q, k, at, n) / 16.0
  {
    var p := Products(Scaled(SCALE, q), k[at..at + HD]);
    if n > 0 {
      ScaledDot(q, k, at, n - 1);
      assert p[..n][..n - 1] == p[..n - 1];
      assert p[n - 1] == (SCALE * q[n - 1]) * k[at + (n - 1)];
      Regroup(SCALE, q[n - 1], k[at + (n - 1)]);
      hide Products; hide Scaled;
    } else {
      assert p[..0] == [];
    }
  }

  lemma LiveScoreIs(q: seq<real>, ks: seq<seq<real>>, at: nat, j: nat)
    requires |q| == HD && j < |ks| && forall j :: 0 <= j < |ks| ==> at + HD <= |ks[j]|
    ensures LiveScores(q, ks, at)[j] == Fin(QueryDot(q, ks[j], at, 256) / 16.0)
  {
    ScaledDot(q, ks[j], at, HD);
    var p := Products(Scaled(SCALE, q), ks[j][at..at + HD]);
    assert p[..HD] == p;
  }

  lemma {:induction false} SoftSums(e: real -> real, q: seq<real>, ks: seq<seq<real>>, vs: seq<seq<real>>, at: nat,
                                    d: nat, n: nat)
    requires |q| == 256 && n <= |ks| == |vs| && d < 256
    requires forall j :: 0 <= j < |ks| ==> at + 256 <= |ks[j]| && at + 256 <= |vs[j]|
    ensures var w := Weights(e, LiveScores(q, ks, at), All(|ks|, true), 0.0);
            && Sum(w[..n]) == Denominator(e, q, ks, at, n)
            && Sum(Products(w, ColumnOf(vs, at, d))[..n]) == Numerator(e, q, ks, vs, at, d, n)
  {
    hide LiveScores; hide QueryDot;
    var w, c := Weights(e, LiveScores(q, ks, at), All(|ks|, true), 0.0), ColumnOf(vs, at, d);
    if n > 0 {
      SoftSums(e, q, ks, vs, at, d, n - 1);
      LiveScoreIs(q, ks, at, n - 1);
      var x := QueryDot(q, ks[n - 1], at, 256) / 16.0;
      assert x - 0.0 == x && w[n - 1] == e(x) && Products(w, c)[n - 1] == e(x) * vs[n - 1][at + d];
      assert w[..n][..n - 1] == w[..n - 1] && Products(w, c)[..n][..n - 1] == Products(w, c)[..n - 1];
      hide Weights; hide Products; hide ColumnOf;
    }
  }

  lemma {:induction false} DenominatorPositive(e: real -> real, q: seq<real>, ks: seq<seq<real>>, at: nat, n: nat)
    requires ExpLike(e) && |q| == 256 && n <= |ks| && forall j :: 0 <= j < |ks| ==> at + 256 <= |ks[j]|
    ensures if n == 0 then Denominator(e, q, ks, at, n) == 0.0 else Denominator(e, q, ks, at, n) > 0.0
  {
    hide ExpLike; hide QueryDot;
    if n > 0 {
      DenominatorPositive(e, q, ks, at, n - 1);
      ExpPositive(e, QueryDot(q, ks[n - 1], at, 256) / 16.0);
    }
  }

  /** What every pass is measured against is that formula. */
  lemma AttentionIsSoftmax(e: real -> real, q: seq<real>, ks: seq<seq<real>>, vs: seq<seq<real>>, at: nat, d: nat)
    requires ExpLike(e) && |q| == 256 && |ks| == |vs| >= 1 && d < 256
    requires forall j :: 0 <= j < |ks| ==> at + 256 <= |ks[j]| && at + 256 <= |vs[j]|
    ensures Denominator(e, q, ks, at, |ks|) > 0.0
    ensures ExactAttention(e, q, ks, vs, at, d)
            == Numerator(e, q, ks, vs, at, d, |ks|) / Denominator(e, q, ks, at, |ks|)
  {
    hide ExpLike; hide LiveScores; hide Weights; hide Products; hide Numerator; hide Denominator;
    hide ColumnOf; hide Sum;
    DenominatorPositive(e, q, ks, at, |ks|);
    SoftSums(e, q, ks, vs, at, d, |ks|);
    var w := Weights(e, LiveScores(q, ks, at), All(|ks|, true), 0.0);
    assert w[..|ks|] == w && Products(w, ColumnOf(vs, at, d))[..|ks|] == Products(w, ColumnOf(vs, at, d));
  }

  lemma IsChunkRecord(e: real -> real, m0: real, x: seq<Ext>, v: seq<real>, lo: nat, hi: nat, rec: Rec)
    requires |v| == |x| && lo <= hi <= |x| && rec.m.Fin?
             && Partial(e, m0, x[lo..hi], v[lo..hi], rec.m.r, rec.s, rec.acc)
    ensures ChunkRecord(e, m0, x, v, lo, hi, rec)
  {
  }

  // ---- a run of passes ----------------------------------------------------------------------------------

  /** Masked positions do not count. */
  lemma MeanIgnoresMasked(e: real -> real, x: seq<Ext>, v: seq<real>, k: nat)
    requires |v| == |x| && k <= |x| && forall j :: k <= j < |x| ==> x[j].NegInf?
    ensures Mean(e, x, v, All(|x|, true)) == Mean(e, x[..k], v[..k], All(k, true))
  {
    var w, live, rest := Weights(e, x, All(|x|, true), 0.0), Weights(e, x[..k], All(k, true), 0.0),
        seq(|x| - k, _ => 0.0);
    assert w == live + rest;
    assert v == v[..k] + v[k..];
    hide Weights;
    SumConcat(live, rest);
    ProductsConcat(live, rest, v[..k], v[k..]);
    SumZeros(|x| - k);
    assert Products(rest, v[k..]) == rest;
  }

  function CastAll(cast: real -> real, rows: seq<seq<real>>): (r: seq<seq<real>>)
    ensures |r| == |rows|
  {
    seq(|rows|, j requires 0 <= j < |rows| => Cast(cast, rows[j]))
  }

  /** Pass p's result is exact attention over the rows appended in passes 0..p, up to
      what flushing can change. */
  ghost predicate PassResult(e: real -> real, q: seq<real>, ks: seq<seq<real>>, vs: seq<seq<real>>, headOff: nat,
                             d: nat, V: real, f: Fold)
    requires |q| == HD && |ks| == |vs| && d < HD
    requires forall j :: 0 <= j < |ks| ==> headOff + HD <= |ks[j]| && headOff + HD <= |vs[j]|
  {
    var gap := 2.0 * V * (PadUp(|ks|, WINDOW) as real * e(-20.0));
    && f.errors == 0 && f.rowsum > 0.0
    && -gap <= f.acc / f.rowsum - ExactAttention(e, q, ks, vs, headOff, d) <= gap
  }

  lemma WindowResult(e: real -> real, m0: real, q: seq<real>, ks: seq<seq<real>>, vs: seq<seq<real>>, headOff: nat,
                     d: nat,
                     x: seq<Ext>, v: seq<real>, cuts: seq<nat>, recs: seq<Rec>, V: real)
    requires ExpLike(e) && |q| == HD && |ks| == |vs| >= 1 && d < HD && V >= 0.0
    requires forall j :: 0 <= j < |ks| ==>
               headOff + HD <= |ks[j]| && headOff + HD <= |vs[j]| && -V <= vs[j][headOff + d] <= V
    requires |x| == |v| == PadUp(|ks|, WINDOW) >= |ks| && Records(e, m0, x, v, cuts, recs)
    requires x[..|ks|] == LiveScores(q, ks, headOff) && v[..|ks|] == ColumnOf(vs, headOff, d)
    requires forall j :: |ks| <= j < |x| ==> x[j].NegInf?
    requires Dot(Scaled(SCALE, q), ks[|ks| - 1][headOff..headOff + HD]) >= m0
    ensures PassResult(e, q, ks, vs, headOff, d, V, MergeAll(e, recs))
  {
    hide ExpLike; hide Dot; hide Scaled; hide Records; hide MergeAll; hide Mean; hide PadUp;
    MeanIgnoresMasked(e, x, v, |ks|);
    var p := |ks| - 1;
    assert x[p] == LiveScores(q, ks, headOff)[p];
    forall j | 0 <= j < |v| && x[j].Fin? ensures -V <= v[j] <= V {
      assert v[j] == ColumnOf(vs, headOff, d)[j];
    }
    var keep := SplitAttention(e, m0, x, v, cuts, recs, V);
  }

  lemma WindowFits(p: nat, maskCap: nat, w: nat)
    requires PadUp(p + 1, WINDOW) <= maskCap
    ensures p * w + w <= maskCap * w
  {
    PadUpExact(p + 1, WINDOW);
    MulGap(maskCap, p, w);
  }

  lemma RowInside(cache: seq<real>, w: nat, j: nat, cap: nat)
    requires |cache| == cap * w && j < cap
    ensures |Row(cache, w, j)| == w
  {
    MulGap(cap, j, w);
    MulNat(j, w);
  }
}
