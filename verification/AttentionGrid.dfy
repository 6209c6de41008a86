/** Decode attention as the grid runs it: each block takes one chunk of positions for
    all heads, tile by tile through shared memory, one warp per query head, and writes
    one record per head; the reduce folds the records of every head and dimension. */
module AttentionGrid {
  import opened Arith
  import opened RealSums
  import opened Softmax
  import opened Attention
  import opened AttentionReduce
  import opened KvCache

  /** One head's record of one chunk: maximum, sum, and one entry per dimension. */
  datatype HeadRec = HeadRec(m: Ext, s: real, acc: seq<real>)

  /** What a warp keeps while it goes through its chunk. */
  datatype Warp = Warp(m: real, s: real, vacc: seq<real>, f: real, p: seq<real>)

  /** The rows of both caches that the window covers, and what is attended to. */
  datatype Window = Window(k: seq<real>, v: seq<real>, w: nat, mask: seq<Ext>)

  predicate Covered(win: Window) {
    forall j: nat :: j < |win.mask| ==> |Row(win.k, win.w, j)| == win.w && |Row(win.v, win.w, j)| == win.w
  }

  function HeadOff(h: nat, gqa: nat): nat
    requires gqa > 0
  {
    DivNat(h, gqa);
    (h / gqa) * HD
  }

  /** Score of a position: the pre-scaled query against the row's slice, plus the mask. */
  function ScoreAt(q: seq<real>, row: seq<real>, headOff: nat, mask: Ext): Ext
    requires |q| == HD && headOff + HD <= |row|
  {
    if mask.NegInf? then NegInf else Fin(Dot(Scaled(SCALE, q), row[headOff..headOff + HD]) + mask.r)
  }

  function Scores(q: seq<real>, win: Window, headOff: nat): (x: seq<Ext>)
    requires |q| == HD && Covered(win) && headOff + HD <= win.w
    ensures |x| == |win.mask|
  {
    seq(|win.mask|, j requires 0 <= j < |win.mask| => ScoreAt(q, Row(win.k, win.w, j), headOff, win.mask[j]))
  }

  function Column(win: Window, headOff: nat, d: nat): (v: seq<real>)
    requires Covered(win) && headOff + HD <= win.w && d < HD
    ensures |v| == |win.mask|
  {
    seq(|win.mask|, j requires 0 <= j < |win.mask| => Row(win.v, win.w, j)[headOff + d])
  }

  // ---- one tile -----------------------------------------------------------------------

  /** The tile holds 32 rows of a cache from t0 on, zero from the limit on. */
  ghost predicate TileHolds(tile: seq<real>, cache: seq<real>, w: nat, t0: nat, limit: nat, headOff: nat) {
    && |tile| == TILE * PITCH && headOff + HD <= w && (forall j: nat :: j < limit ==> |Row(cache, w, j)| == w)
    && (forall t: nat, d: nat :: t < TILE && d < HD ==>
          tile[t * PITCH + d] == SliceAt(cache, w, t0, limit, headOff, t, d))
  }

  /** mk_load_kv_slice fills the tile. */
  method FillTile(cache: seq<real>, tile: array<real>, t0: nat, limit: nat, w: nat, headOff: nat)
    requires tile.Length == TILE * PITCH && headOff + HD <= w
    requires forall j: nat :: j < limit ==> |Row(cache, w, j)| == w
    modifies tile
    ensures TileHolds(tile[..], cache, w, t0, limit, headOff)
  {
    LoadSlice(cache, tile, t0, limit, w, headOff);
    forall t: nat, d: nat | t < TILE && d < HD
      ensures tile[t * PITCH + d] == SliceAt(cache, w, t0, limit, headOff, t, d)
    {
      assert (t * PITCH + d) / PITCH == t && (t * PITCH + d) % PITCH == d;
    }
  }

  /** Where the tile at t0 ends. */
  function TileEnd(t0: nat, kv1: nat): nat {
    if t0 + TILE <= kv1 then t0 + TILE else kv1
  }

  /** The scores of a warp's lanes, read from the tile. */
  method LaneDots(q: seq<real>, tile: seq<real>, t0: nat, kv1: nat, headOff: nat, win: Window) returns (lanes: seq<Ext>)
    requires |q| == HD && Covered(win) && headOff + HD <= win.w && t0 <= kv1 <= |win.mask|
    requires TileHolds(tile, win.k, win.w, t0, kv1, headOff)
    ensures lanes == LaneScores(Scores(q, win, headOff)[t0..TileEnd(t0, kv1)])
  {
    hide Dot; hide Scaled; hide Covered;
    var scaled := Scaled(SCALE, q);
    assert |scaled| == HD;
    lanes := [];
    for lane := 0 to LANES
      invariant |lanes| == lane
      invariant forall i :: 0 <= i < lane ==>
                  lanes[i] == if t0 + i < kv1 then Scores(q, win, headOff)[t0 + i] else NegInf
    {
      var score := NegInf;
      if t0 + lane < kv1 {
        var kr := tile[lane * PITCH..lane * PITCH + HD];
        TileRow(tile, win.k, win.w, t0, kv1, headOff, lane);
        var dot := PairDot(scaled, kr);
        var bias := win.mask[t0 + lane];
        score := if bias.NegInf? then NegInf else Fin(dot + bias.r);
      }
      lanes := lanes + [score];
    }
  }

  lemma TileRow(tile: seq<real>, cache: seq<real>, w: nat, t0: nat, limit: nat, headOff: nat, t: nat)
    requires TileHolds(tile, cache, w, t0, limit, headOff) && t < TILE && t0 + t < limit
    ensures headOff + HD <= |Row(cache, w, t0 + t)| && t * PITCH + HD <= |tile|
    ensures tile[t * PITCH..t * PITCH + HD] == Row(cache, w, t0 + t)[headOff..headOff + HD]
  {
    hide Row;
    var a, b := tile[t * PITCH..t * PITCH + HD], Row(cache, w, t0 + t)[headOff..headOff + HD];
    forall d | 0 <= d < HD ensures a[d] == b[d] {
      assert tile[t * PITCH + d] == SliceAt(cache, w, t0, limit, headOff, t, d);
    }
  }

  /** Column d of the tile, one entry per lane. */
  function TileColumn(tile: seq<real>, d: nat): (c: seq<real>)
    requires |tile| == TILE * PITCH && d < HD
    ensures |c| == LANES
  {
    seq(LANES, t requires 0 <= t < LANES => tile[t * PITCH + d])
  }

  lemma TileColumnIs(tile: seq<real>, win: Window, t0: nat, kv1: nat, headOff: nat, d: nat)
    requires Covered(win) && headOff + HD <= win.w && t0 <= kv1 <= |win.mask| && d < HD
    requires TileHolds(tile, win.v, win.w, t0, kv1, headOff)
    ensures TileColumn(tile, d) == Padded(Column(win, headOff, d)[t0..TileEnd(t0, kv1)])
  {
    hide Row;
    var u := Column(win, headOff, d)[t0..TileEnd(t0, kv1)];
    forall t | 0 <= t < LANES ensures TileColumn(tile, d)[t] == Padded(u)[t] {
      assert tile[t * PITCH + d] == SliceAt(win.v, win.w, t0, kv1, headOff, t, d);
    }
  }

  /** The weighted accumulation of every dimension. */
  method PhaseV(tile: seq<real>, f: real, p: seq<real>, vacc: seq<real>) returns (vacc': seq<real>)
    requires |tile| == TILE * PITCH && |p| == LANES && |vacc| == HD
    ensures |vacc'| == HD
    ensures forall d: nat :: d < HD ==> vacc'[d] == vacc[d] * f + Dot(p, TileColumn(tile, d))
  {
    hide Dot; hide TileColumn;
    vacc' := [];
    for d := 0 to HD
      invariant |vacc'| == d
      invariant forall i: nat :: i < d ==> vacc'[i] == vacc[i] * f + Dot(p, TileColumn(tile, i))
    {
      var sum := Accumulate(p, TileColumn(tile, d), vacc[d] * f);
      vacc' := vacc' + [sum];
    }
  }

  // ---- one warp -----------------------------------------------------------------------------

  /** The warp's running record stands for positions lo .. hi, in every dimension. */
  ghost predicate Running(e: real -> real, m0: real, x: seq<Ext>, win: Window, headOff: nat, lo: nat, hi: nat, st: Warp)
    requires Covered(win) && headOff + HD <= win.w && |x| == |win.mask| && lo <= hi <= |x|
  {
    && |st.vacc| == HD
    && forall d: nat :: d < HD ==> Partial(e, m0, x[lo..hi], Column(win, headOff, d)[lo..hi], st.m, st.s, st.vacc[d])
  }

  /** Between the two phases of a tile whose live scores are y. */
  ghost predicate Between(e: real -> real, y: seq<Ext>, before: Warp, st: Warp)
    requires |y| <= TILE
  {
    var w := Weights(e, y, All(|y|, true), st.m);
    && st.m == MaxFrom(before.m, y) && st.f == e(before.m - st.m)
    && st.s == before.s * st.f + Sum(w) && st.p == Padded(w) && st.vacc == before.vacc
  }

  lemma TileGrows(e: real -> real, m0: real, x: seq<Ext>, win: Window, headOff: nat, lo: nat, t0: nat, t1: nat,
                  before: Warp, mid: Warp, after: Warp, tile: seq<real>, kv1: nat)
    requires ExpLike(e) && Covered(win) && headOff + HD <= win.w && |x| == |win.mask|
    requires lo <= t0 <= kv1 <= |x| && t1 == TileEnd(t0, kv1)
    requires Running(e, m0, x, win, headOff, lo, t0, before) && Between(e, x[t0..t1], before, mid)
    requires TileHolds(tile, win.v, win.w, t0, kv1, headOff)
    requires after.m == mid.m && after.s == mid.s && |after.vacc| == HD
    requires forall d: nat :: d < HD ==> after.vacc[d] == mid.vacc[d] * mid.f + Dot(mid.p, TileColumn(tile, d))
    ensures Running(e, m0, x, win, headOff, lo, t1, after)
  {
    hide ExpLike; hide Partial; hide Dot; hide Weights; hide MaxFrom; hide Sum; hide TileColumn; hide Column;
    hide TileHolds; hide Covered; hide Padded;
    var y := x[t0..t1];
    var w := Weights(e, y, All(|y|, true), mid.m);
    assert x[lo..t1] == x[lo..t0] + y;
    forall d: nat | d < HD
      ensures Partial(e, m0, x[lo..t1], Column(win, headOff, d)[lo..t1], after.m, after.s, after.vacc[d])
    {
      var c := Column(win, headOff, d);
      var u := c[t0..t1];
      TileColumnIs(tile, win, t0, kv1, headOff, d);
      PaddedDot(w, u);
      assert c[lo..t1] == c[lo..t0] + u;
      TileStep(e, m0, x[lo..t0], c[lo..t0], before.m, before.s, before.vacc[d], y, u, mid.m, mid.f, mid.s,
               after.vacc[d]);
    }
  }

  /** Phase K of one warp. */
  method WarpK(e: real -> real, st: Warp, q: seq<real>, tile: seq<real>, t0: nat, kv1: nat, headOff: nat, win: Window)
      returns (st': Warp)
    requires ExpLike(e) && |q| == HD && Covered(win) && headOff + HD <= win.w && t0 <= kv1 <= |win.mask|
    requires TileHolds(tile, win.k, win.w, t0, kv1, headOff)
    ensures Between(e, Scores(q, win, headOff)[t0..TileEnd(t0, kv1)], st, st')
  {
    hide ExpLike; hide TileHolds; hide Covered; hide Scores; hide LaneScores; hide Weights; hide MaxFrom; hide Sum;
    var lanes := LaneDots(q, tile, t0, kv1, headOff, win);
    var m, s, f, p := PhaseK(e, st.m, st.s, lanes, Scores(q, win, headOff)[t0..TileEnd(t0, kv1)]);
    st' := Warp(m, s, st.vacc, f, p);
  }

  // ---- one kv head of one chunk ------------------------------------------------------------------

  /** What the grid is run on: all query heads, gqa of them per kv head. */
  predicate Shaped(qs: seq<seq<real>>, nKvHeads: nat, gqa: nat, win: Window) {
    && gqa >= 1 && |qs| == nKvHeads * gqa && (forall h :: 0 <= h < |qs| ==> |qs[h]| == HD)
    && nKvHeads * HD <= win.w && Covered(win) && |win.mask| % TILE == 0
  }

  /** The warps of kv head kvh stand for positions lo .. hi of their heads. */
  ghost predicate AllRunning(e: real -> real, m0: real, qs: seq<seq<real>>, win: Window, first: nat, headOff: nat,
                             lo: nat, hi: nat, ws: seq<Warp>)
    requires Covered(win) && headOff + HD <= win.w && lo <= hi <= |win.mask| && first + |ws| <= |qs|
    requires forall h :: 0 <= h < |qs| ==> |qs[h]| == HD
  {
    forall i :: 0 <= i < |ws| ==> Running(e, m0, Scores(qs[first + i], win, headOff), win, headOff, lo, hi, ws[i])
  }

  /** The tile loop of one kv head: `active` warps, warp i carrying head first + i. */
  method KvHead(e: real -> real, m0: real, qs: seq<seq<real>>, win: Window, first: nat, active: nat, headOff: nat,
                kv0: nat, kv1: nat, tile: array<real>)
      returns (ws: seq<Warp>)
    requires ExpLike(e) && Covered(win) && headOff + HD <= win.w && kv0 <= kv1 <= |win.mask|
    requires first + active <= |qs| && (forall h :: 0 <= h < |qs| ==> |qs[h]| == HD) && tile.Length == TILE * PITCH
    modifies tile
    ensures |ws| == active && AllRunning(e, m0, qs, win, first, headOff, kv0, kv1, ws)
  {
    hide ExpLike; hide TileHolds; hide Covered; hide Running; hide Between; hide Scores; hide TileColumn; hide Dot;
    ws := seq(active, _ => Warp(m0, 0.0, seq(HD, _ => 0.0), 1.0, []));
    forall i | 0 <= i < active
      ensures Running(e, m0, Scores(qs[first + i], win, headOff), win, headOff, kv0, kv0, ws[i])
    {
      StartsRunning(e, m0, Scores(qs[first + i], win, headOff), win, headOff, kv0);
    }
    var t0 := kv0;
    while t0 < kv1
      invariant kv0 <= t0 <= kv1 && |ws| == active && AllRunning(e, m0, qs, win, first, headOff, kv0, t0, ws)
    {
      var t1 := TileEnd(t0, kv1);
      RowsCovered(win, kv1);
      FillTile(win.k, tile, t0, kv1, win.w, headOff);
      ghost var before, loadedK := ws, tile[..];
      for i := 0 to active
        invariant tile[..] == loadedK
        invariant |ws| == active && (forall j :: i <= j < active ==> ws[j] == before[j])
        invariant forall j :: 0 <= j < i ==> Between(e, Scores(qs[first + j], win, headOff)[t0..t1], before[j], ws[j])
      {
        var st := WarpK(e, ws[i], qs[first + i], tile[..], t0, kv1, headOff, win);
        ws := ws[i := st];
      }
      FillTile(win.v, tile, t0, kv1, win.w, headOff);
      ghost var mid, loadedV := ws, tile[..];
      for i := 0 to active
        invariant tile[..] == loadedV
        invariant |ws| == active && (forall j :: i <= j < active ==> ws[j] == mid[j])
        invariant forall j :: 0 <= j < i ==>
                    Running(e, m0, Scores(qs[first + j], win, headOff), win, headOff, kv0, t1, ws[j])
      {
        VaccLength(e, m0, Scores(qs[first + i], win, headOff), win, headOff, kv0, t0, t1, before[i], mid[i]);
        var vacc := PhaseV(tile[..], ws[i].f, ws[i].p, ws[i].vacc);
        ws := ws[i := ws[i].(vacc := vacc)];
        TileGrows(e, m0, Scores(qs[first + i], win, headOff), win, headOff, kv0, t0, t1, before[i], mid[i], ws[i],
                  tile[..], kv1);
      }
      t0 := t1;
    }
  }

  lemma StartsRunning(e: real -> real, m0: real, x: seq<Ext>, win: Window, headOff: nat, lo: nat)
    requires Covered(win) && headOff + HD <= win.w && |x| == |win.mask| && lo <= |x|
    ensures Running(e, m0, x, win, headOff, lo, lo, Warp(m0, 0.0, seq(HD, _ => 0.0), 1.0, []))
  {
    hide Partial;
    EmptyPartial(e, m0);
    assert x[lo..lo] == [];
    forall d: nat | d < HD ensures Column(win, headOff, d)[lo..lo] == [] {}
  }

  lemma RowsCovered(win: Window, kv1: nat)
    requires Covered(win) && kv1 <= |win.mask|
    ensures forall j: nat :: j < kv1 ==> |Row(win.k, win.w, j)| == win.w && |Row(win.v, win.w, j)| == win.w
  {
  }

  lemma VaccLength(e: real -> real, m0: real, x: seq<Ext>, win: Window, headOff: nat, lo: nat, t0: nat, t1: nat,
                   before: Warp, mid: Warp)
    requires Covered(win) && headOff + HD <= win.w && |x| == |win.mask| && lo <= t0 <= t1 <= |x| && t1 - t0 <= TILE
    requires Running(e, m0, x, win, headOff, lo, t0, before) && Between(e, x[t0..t1], before, mid)
    ensures |mid.vacc| == HD && |mid.p| == LANES
  {
  }

  // ---- one block: all kv heads of one chunk -------------------------------------------------------

  /** Where the record of head h and chunk c is. */
  function At(h: nat, c: nat, nchunks: nat): nat {
    MulNat(h, nchunks);
    h * nchunks + c
  }

  lemma AtBound(h: nat, c: nat, nchunks: nat, nq: nat)
    requires h < nq && c < nchunks
    ensures At(h, c, nchunks) < nq * nchunks
  {
    MulGap(nq, h, nchunks);
  }

  lemma AtUnique(h: nat, c: nat, h': nat, c': nat, nchunks: nat)
    requires c < nchunks && c' < nchunks && At(h, c, nchunks) == At(h', c', nchunks)
    ensures h == h' && c == c'
  {
    DivModUnique(At(h, c, nchunks), nchunks, h, c);
    DivModUnique(At(h, c, nchunks), nchunks, h', c');
  }

  /** The record is that of head h and chunk c, in every dimension. */
  ghost predicate RecordIs(e: real -> real, m0: real, qs: seq<seq<real>>, win: Window, nKvHeads: nat, gqa: nat,
                           nchunks: nat, h: nat, c: nat, rec: HeadRec)
    requires Shaped(qs, nKvHeads, gqa, win) && h < |qs| && c < nchunks
  {
    HeadFits(nKvHeads, gqa, h);
    && |rec.acc| == HD && rec.m.Fin?
    && forall d: nat :: d < HD ==>
         ChunkRecord(e, m0, Scores(qs[h], win, HeadOff(h, gqa)), Column(win, HeadOff(h, gqa), d),
                     Kv0(|win.mask|, nchunks, c), Kv1(|win.mask|, nchunks, c), RecAt(rec, d))
  }

  function RecAt(rec: HeadRec, d: nat): Rec {
    Rec(rec.m, rec.s, if d < |rec.acc| then rec.acc[d] else 0.0)
  }

  lemma HeadFits(nKvHeads: nat, gqa: nat, h: nat)
    requires gqa > 0 && h < nKvHeads * gqa
    ensures HeadOff(h, gqa) + HD <= nKvHeads * HD
  {
    var q, r := DivMod(h, gqa);
    DivModBound(h, gqa, nKvHeads);
  }

  method WriteRecord(partials: array<HeadRec>, nq: nat, nchunks: nat, h: nat, c: nat, rec: HeadRec)
    requires partials.Length == nq * nchunks && h < nq && c < nchunks
    modifies partials
    ensures forall h': nat, c': nat :: h' < nq && c' < nchunks ==>
              At(h', c', nchunks) < partials.Length && partials[At(h', c', nchunks)]
              == if h' == h && c' == c then rec else old(partials[..])[At(h', c', nchunks)]
  {
    forall h': nat, c': nat | h' < nq && c' < nchunks ensures At(h', c', nchunks) < partials.Length {
      AtBound(h', c', nchunks, nq);
    }
    partials[At(h, c, nchunks)] := rec;
    forall h': nat, c': nat | h' < nq && c' < nchunks && At(h', c', nchunks) == At(h, c, nchunks)
      ensures h' == h && c' == c
    {
      AtUnique(h', c', h, c, nchunks);
    }
  }

  /** Head h has been carried: the kv heads below kvh are done, with all warps, and the
      first i warps of kv head kvh. */
  predicate Carried(h: nat, gqa: nat, warps: nat, kvh: nat, i: nat)
    requires gqa > 0
  {
    h % gqa < (if h / gqa < kvh then warps else if h / gqa == kvh then i else 0)
  }

  lemma CarriedNext(nKvHeads: nat, gqa: nat, warps: nat, kvh: nat, i: nat, h: nat)
    requires Writes(nKvHeads, gqa, warps, kvh, i, kvh * gqa + i) && kvh * gqa + i < nKvHeads * gqa
    ensures Carried(h, gqa, warps, kvh, i + 1) <==> Carried(h, gqa, warps, kvh, i) || h == kvh * gqa + i
    ensures !Carried(kvh * gqa + i, gqa, warps, kvh, i)
  {
    RecordWriters(nKvHeads, gqa, warps, kvh * gqa + i);
    var q, r := DivMod(h, gqa);
  }

  /** The record of each carried head in this chunk, the others as before. */
  ghost predicate Written(e: real -> real, m0: real, qs: seq<seq<real>>, win: Window, nKvHeads: nat, gqa: nat,
                          warps: nat, nchunks: nat, chunk: nat, kvh: nat, i: nat, before: seq<HeadRec>,
                          now: seq<HeadRec>)
    requires Shaped(qs, nKvHeads, gqa, win) && chunk < nchunks && |before| == |now| == |qs| * nchunks
  {
    forall h: nat, c: nat :: h < |qs| && c < nchunks ==>
      At(h, c, nchunks) < |now| &&
      if c == chunk && Carried(h, gqa, warps, kvh, i)
      then RecordIs(e, m0, qs, win, nKvHeads, gqa, nchunks, h, c, now[At(h, c, nchunks)])
      else now[At(h, c, nchunks)] == before[At(h, c, nchunks)]
  }

  /** op_fattn_decode for one block. */
  method DecodeBlock(e: real -> real, m0: real, qs: seq<seq<real>>, win: Window, nKvHeads: nat, gqa: nat, warps: nat,
                     nchunks: nat, chunk: nat, tile: array<real>, partials: array<HeadRec>)
    requires ExpLike(e) && Shaped(qs, nKvHeads, gqa, win) && chunk < nchunks
    requires tile.Length == TILE * PITCH && partials.Length == |qs| * nchunks
    modifies tile, partials
    ensures Written(e, m0, qs, win, nKvHeads, gqa, warps, nchunks, chunk, nKvHeads, 0, old(partials[..]), partials[..])
  {
    hide ExpLike; hide Covered; hide AllRunning; hide RecordIs;
    ghost var before := partials[..];
    NothingWritten(e, m0, qs, win, nKvHeads, gqa, warps, nchunks, chunk, before);
    ChunksPartition(|win.mask|, nchunks, chunk);
    var kv0, kv1 := Kv0(|win.mask|, nchunks, chunk), Kv1(|win.mask|, nchunks, chunk);
    var active := if warps < gqa then warps else gqa;
    for kvh := 0 to nKvHeads
      invariant Written(e, m0, qs, win, nKvHeads, gqa, warps, nchunks, chunk, kvh, 0, before, partials[..])
    {
      KvHeadFits(nKvHeads, gqa, kvh);
      var first, headOff := kvh * gqa, kvh * HD;
      ghost var so := partials[..];
      hide Written;
      var ws := KvHead(e, m0, qs, win, first, active, headOff, kv0, kv1, tile);
      assert partials[..] == so;
      for i := 0 to active
        invariant Written(e, m0, qs, win, nKvHeads, gqa, warps, nchunks, chunk, kvh, i, before, partials[..])
      {
        var rec := HeadRec(Fin(ws[i].m), ws[i].s, ws[i].vacc);
        RunningRecord(e, m0, qs, win, nKvHeads, gqa, warps, nchunks, chunk, kvh, i, ws, rec);
        ghost var was := partials[..];
        WriteRecord(partials, |qs|, nchunks, first + i, chunk, rec);
        OneMore(e, m0, qs, win, nKvHeads, gqa, warps, nchunks, chunk, kvh, i, before, was, partials[..], rec);
      }
      KvHeadDone(e, m0, qs, win, nKvHeads, gqa, warps, nchunks, chunk, kvh, active, before, partials[..]);
    }
  }

  lemma NothingWritten(e: real -> real, m0: real, qs: seq<seq<real>>, win: Window, nKvHeads: nat, gqa: nat,
                       warps: nat, nchunks: nat, chunk: nat, recs: seq<HeadRec>)
    requires Shaped(qs, nKvHeads, gqa, win) && chunk < nchunks && |recs| == |qs| * nchunks
    ensures Written(e, m0, qs, win, nKvHeads, gqa, warps, nchunks, chunk, 0, 0, recs, recs)
  {
    hide RecordIs;
    forall h: nat, c: nat | h < |qs| && c < nchunks ensures At(h, c, nchunks) < |recs| && h / gqa >= 0 && h % gqa >= 0 {
      AtBound(h, c, nchunks, |qs|);
      var q, r := DivMod(h, gqa);
    }
  }

  lemma KvHeadFits(nKvHeads: nat, gqa: nat, kvh: nat)
    requires kvh < nKvHeads
    ensures 0 <= kvh * gqa <= kvh * gqa + gqa <= nKvHeads * gqa && kvh * HD + HD <= nKvHeads * HD
  {
    MulNat(kvh, gqa);
    MulGap(nKvHeads, kvh, gqa);
  }

  /** The record of warp i of kv head kvh is that of the query head it carries. */
  lemma RunningRecord(e: real -> real, m0: real, qs: seq<seq<real>>, win: Window, nKvHeads: nat, gqa: nat, warps: nat,
                      nchunks: nat, chunk: nat, kvh: nat, i: nat, ws: seq<Warp>, rec: HeadRec)
    requires Shaped(qs, nKvHeads, gqa, win) && chunk < nchunks && kvh < nKvHeads && i < |ws| <= gqa && |ws| <= warps
    requires 0 <= kvh * gqa && kvh * gqa + gqa <= |qs| && kvh * HD + HD <= win.w
    requires Kv0(|win.mask|, nchunks, chunk) <= Kv1(|win.mask|, nchunks, chunk) <= |win.mask|
    requires AllRunning(e, m0, qs, win, kvh * gqa, kvh * HD, Kv0(|win.mask|, nchunks, chunk),
                        Kv1(|win.mask|, nchunks, chunk), ws)
    requires rec == HeadRec(Fin(ws[i].m), ws[i].s, ws[i].vacc)
    ensures Writes(nKvHeads, gqa, warps, kvh, i, kvh * gqa + i)
    ensures HeadOff(kvh * gqa + i, gqa) == kvh * HD
    ensures RecordIs(e, m0, qs, win, nKvHeads, gqa, nchunks, kvh * gqa + i, chunk, rec)
  {
    var h: nat := kvh * gqa + i;
    DivModUnique(h, gqa, kvh, i);
    hide Partial; hide Scores; hide Column; hide Covered; hide Kv0; hide Kv1;
    var x := Scores(qs[h], win, kvh * HD);
    var lo, hi := Kv0(|win.mask|, nchunks, chunk), Kv1(|win.mask|, nchunks, chunk);
    assert Running(e, m0, x, win, kvh * HD, lo, hi, ws[i]);
    forall d: nat | d < HD ensures ChunkRecord(e, m0, x, Column(win, kvh * HD, d), lo, hi, RecAt(rec, d)) {
      IsChunkRecord(e, m0, x, Column(win, kvh * HD, d), lo, hi, RecAt(rec, d));
    }
  }

  lemma OneMore(e: real -> real, m0: real, qs: seq<seq<real>>, win: Window, nKvHeads: nat, gqa: nat, warps: nat,
                nchunks: nat, chunk: nat, kvh: nat, i: nat, before: seq<HeadRec>, was: seq<HeadRec>, now: seq<HeadRec>,
                rec: HeadRec)
    requires Shaped(qs, nKvHeads, gqa, win) && chunk < nchunks && |before| == |was| == |now| == |qs| * nchunks
    requires kvh < nKvHeads && i < gqa && 0 <= kvh * gqa && kvh * gqa + i < |qs|
    requires Written(e, m0, qs, win, nKvHeads, gqa, warps, nchunks, chunk, kvh, i, before, was)
    requires Writes(nKvHeads, gqa, warps, kvh, i, kvh * gqa + i)
    requires RecordIs(e, m0, qs, win, nKvHeads, gqa, nchunks, kvh * gqa + i, chunk, rec)
    requires forall h': nat, c': nat :: h' < |qs| && c' < nchunks ==>
               At(h', c', nchunks) < |now| && now[At(h', c', nchunks)]
               == if h' == kvh * gqa + i && c' == chunk then rec else was[At(h', c', nchunks)]
    ensures Written(e, m0, qs, win, nKvHeads, gqa, warps, nchunks, chunk, kvh, i + 1, before, now)
  {
    forall h: nat
      ensures Carried(h, gqa, warps, kvh, i + 1) <==> Carried(h, gqa, warps, kvh, i) || h == kvh * gqa + i
    {
      CarriedNext(nKvHeads, gqa, warps, kvh, i, h);
    }
    hide RecordIs; hide At; hide Shaped; hide Covered; hide Carried;
  }

  lemma KvHeadDone(e: real -> real, m0: real, qs: seq<seq<real>>, win: Window, nKvHeads: nat, gqa: nat, warps: nat,
                   nchunks: nat, chunk: nat, kvh: nat, active: nat, before: seq<HeadRec>, now: seq<HeadRec>)
    requires Shaped(qs, nKvHeads, gqa, win) && chunk < nchunks && |before| == |now| == |qs| * nchunks
    requires active == if warps < gqa then warps else gqa
    requires Written(e, m0, qs, win, nKvHeads, gqa, warps, nchunks, chunk, kvh, active, before, now)
    ensures Written(e, m0, qs, win, nKvHeads, gqa, warps, nchunks, chunk, kvh + 1, 0, before, now)
  {
    hide RecordIs; hide At; hide Covered;
    forall h: nat | h < |qs| ensures 0 <= h % gqa < gqa && h / gqa >= 0 { var q, r := DivMod(h, gqa); }
  }

  /** All blocks: every head that fits the warps has its record in every chunk, and no
      other record is touched. */
  method DecodeGrid(e: real -> real, m0: real, qs: seq<seq<real>>, win: Window, nKvHeads: nat, gqa: nat, warps: nat,
                    nchunks: nat, tile: array<real>, partials: array<HeadRec>)
    requires ExpLike(e) && Shaped(qs, nKvHeads, gqa, win)
    requires tile.Length == TILE * PITCH && partials.Length == |qs| * nchunks
    modifies tile, partials
    ensures forall h: nat, c: nat :: h < |qs| && c < nchunks ==>
              At(h, c, nchunks) < partials.Length && h % gqa >= 0 &&
              if h % gqa < warps
              then RecordIs(e, m0, qs, win, nKvHeads, gqa, nchunks, h, c, partials[At(h, c, nchunks)])
              else partials[At(h, c, nchunks)] == old(partials[..])[At(h, c, nchunks)]
  {
    hide ExpLike; hide RecordIs; hide Covered;
    ghost var before := partials[..];
    forall h: nat, c: nat | h < |qs| && c < nchunks
      ensures At(h, c, nchunks) < partials.Length && h % gqa >= 0 && 0 <= h / gqa < nKvHeads
    {
      AtBound(h, c, nchunks, |qs|);
      var q, r := DivMod(h, gqa);
    }
    hide At;
    for chunk := 0 to nchunks
      invariant forall h: nat, c: nat :: h < |qs| && c < nchunks ==>
                  if c < chunk && h % gqa < warps
                  then RecordIs(e, m0, qs, win, nKvHeads, gqa, nchunks, h, c, partials[At(h, c, nchunks)])
                  else partials[At(h, c, nchunks)] == before[At(h, c, nchunks)]
    {
      DecodeBlock(e, m0, qs, win, nKvHeads, gqa, warps, nchunks, chunk, tile, partials);
    }
  }

  // ---- the reduce over all heads and dimensions ----------------------------------------------------

  /** The records of one head and dimension, chunk by chunk. */
  function HeadRecs(partials: seq<HeadRec>, h: nat, nchunks: nat, d: nat): (recs: seq<Rec>)
    requires forall c: nat :: c < nchunks ==> At(h, c, nchunks) < |partials|
    ensures |recs| == nchunks
  {
    seq(nchunks, c requires 0 <= c < nchunks => RecAt(partials[At(h, c, nchunks)], d))
  }

  ghost predicate Reduced(e: real -> real, partials: seq<HeadRec>, nq: nat, nchunks: nat, outs: seq<seq<Fold>>)
    requires |partials| == nq * nchunks
  {
    && |outs| == nq
    && forall h: nat :: h < nq ==> |outs[h]| == HD && HeadReduced(e, partials, h, nchunks, outs[h])
  }

  ghost predicate HeadReduced(e: real -> real, partials: seq<HeadRec>, h: nat, nchunks: nat, out: seq<Fold>) {
    && (forall c: nat :: c < nchunks ==> At(h, c, nchunks) < |partials|)
    && forall d: nat :: d < |out| ==> out[d] == MergeAll(e, HeadRecs(partials, h, nchunks, d))
  }

  /** op_fattn_reduce for all heads, one thread per dimension. */
  method ReduceHeads(e: real -> real, partials: seq<HeadRec>, nq: nat, nchunks: nat) returns (outs: seq<seq<Fold>>)
    requires |partials| == nq * nchunks
    ensures Reduced(e, partials, nq, nchunks, outs)
  {
    hide At; hide MergeAll;
    outs := [];
    for h := 0 to nq
      invariant |outs| == h
      invariant forall i: nat :: i < h ==> |outs[i]| == HD && HeadReduced(e, partials, i, nchunks, outs[i])
    {
      forall c: nat | c < nchunks ensures At(h, c, nchunks) < |partials| { AtBound(h, c, nchunks, nq); }
      var out: seq<Fold> := [];
      for d := 0 to HD
        invariant |out| == d && HeadReduced(e, partials, h, nchunks, out)
      {
        var f := Reduce(e, HeadRecs(partials, h, nchunks, d));
        out := out + [f];
      }
      outs := outs + [out];
    }
  }

  // ---- one pass --------------------------------------------------------------------------------------

  /** Rows as wide as the cache, own scores not below the start value, values bounded. */
  ghost predicate PassInput(m0: real, qs: seq<seq<real>>, k: seq<real>, v: seq<real>, w: nat, gqa: nat, V: real) {
    && gqa >= 1 && |k| == |v| == w && (forall i :: 0 <= i < w ==> -V <= v[i] <= V)
    && forall h: nat :: h < |qs| ==> OwnScore(m0, qs[h], k, HeadOff(h, gqa))
  }

  ghost predicate OwnScore(m0: real, q: seq<real>, k: seq<real>, headOff: nat) {
    |q| == HD && headOff + HD <= |k| && Dot(Scaled(SCALE, q), k[headOff..headOff + HD]) >= m0
  }

  /** The cache rows that the window covers hold the rows so far, and nothing behind
      them is attended to. */
  ghost predicate WindowHolds(win: Window, ks: seq<seq<real>>, vs: seq<seq<real>>) {
    && Holds(win.k, win.w, ks) && Holds(win.v, win.w, vs) && |win.mask| == PadUp(|ks|, WINDOW)
    && forall j :: 0 <= j < |win.mask| ==> win.mask[j] == if j < |ks| then Fin(0.0) else NegInf
  }

  /** Every dimension of a head is exact attention over the rows so far. */
  ghost predicate HeadResult(e: real -> real, q: seq<real>, ks: seq<seq<real>>, vs: seq<seq<real>>, headOff: nat,
                             V: real, out: seq<Fold>)
    requires |q| == HD && |ks| == |vs|
    requires forall j :: 0 <= j < |ks| ==> headOff + HD <= |ks[j]| && headOff + HD <= |vs[j]|
  {
    |out| == HD && forall d: nat :: d < HD ==> PassResult(e, q, ks, vs, headOff, d, V, out[d])
  }

  /** Every head that a warp carries. */
  ghost predicate PassDone(e: real -> real, qs: seq<seq<real>>, ks: seq<seq<real>>, vs: seq<seq<real>>, w: nat,
                           nKvHeads: nat, gqa: nat, warps: nat, V: real, outs: seq<seq<Fold>>) {
    && gqa >= 1 && |qs| == nKvHeads * gqa && nKvHeads * HD <= w && |outs| == |qs| && |ks| == |vs|
    && (forall h :: 0 <= h < |qs| ==> |qs[h]| == HD) && (forall j :: 0 <= j < |ks| ==> |ks[j]| == |vs[j]| == w)
    && forall h: nat :: h < |qs| && h % gqa < warps ==> HeadDone(e, qs, ks, vs, w, nKvHeads, gqa, V, h, outs[h])
  }

  ghost predicate HeadDone(e: real -> real, qs: seq<seq<real>>, ks: seq<seq<real>>, vs: seq<seq<real>>, w: nat,
                           nKvHeads: nat, gqa: nat, V: real, h: nat, out: seq<Fold>)
    requires gqa >= 1 && |qs| == nKvHeads * gqa && nKvHeads * HD <= w && h < |qs| && |qs[h]| == HD && |ks| == |vs|
    requires forall j :: 0 <= j < |ks| ==> |ks[j]| == |vs[j]| == w
  {
    HeadFits(nKvHeads, gqa, h);
    HeadResult(e, qs[h], ks, vs, HeadOff(h, gqa), V, out)
  }

  /** Decode by the whole grid, then reduce. */
  method AttendPass(e: real -> real, m0: real, qs: seq<seq<real>>, win: Window, nKvHeads: nat, gqa: nat, warps: nat,
                    nchunks: nat, ghost ks: seq<seq<real>>, ghost vs: seq<seq<real>>, ghost V: real)
      returns (outs: seq<seq<Fold>>)
    requires ExpLike(e) && nchunks >= 1 && |ks| == |vs| >= 1 && V >= 0.0
    requires Shaped(qs, nKvHeads, gqa, win) && WindowHolds(win, ks, vs)
    requires PassInput(m0, qs, ks[|ks| - 1], vs[|ks| - 1], win.w, gqa, V)
    requires forall j :: 0 <= j < |vs| ==> forall i :: 0 <= i < |vs[j]| ==> -V <= vs[j][i] <= V
    ensures PassDone(e, qs, ks, vs, win.w, nKvHeads, gqa, warps, V, outs)
  {
    hide ExpLike; hide Covered; hide RecordIs; hide Reduced; hide HeadDone; hide PassInput;
    var tile := new real[TILE * PITCH];
    var partials := new HeadRec[|qs| * nchunks](_ => HeadRec(NegInf, 0.0, []));
    DecodeGrid(e, m0, qs, win, nKvHeads, gqa, warps, nchunks, tile, partials);
    outs := ReduceHeads(e, partials[..], |qs|, nchunks);
    ghost var recs := partials[..];
    OutsLength(e, recs, |qs|, nchunks, outs);
    forall h: nat | h < |qs| && h % gqa < warps ensures HeadDone(e, qs, ks, vs, win.w, nKvHeads, gqa, V, h, outs[h]) {
      CarriedHead(e, m0, qs, win, nKvHeads, gqa, nchunks, ks, vs, V, h, recs, outs);
    }
  }

  lemma OutsLength(e: real -> real, partials: seq<HeadRec>, nq: nat, nchunks: nat, outs: seq<seq<Fold>>)
    requires |partials| == nq * nchunks && Reduced(e, partials, nq, nchunks, outs)
    ensures |outs| == nq
  {
  }

  lemma CarriedHead(e: real -> real, m0: real, qs: seq<seq<real>>, win: Window, nKvHeads: nat, gqa: nat,
                    nchunks: nat, ks: seq<seq<real>>, vs: seq<seq<real>>, V: real, h: nat, partials: seq<HeadRec>,
                    outs: seq<seq<Fold>>)
    requires ExpLike(e) && nchunks >= 1 && |ks| == |vs| >= 1 && V >= 0.0 && h < |qs|
    requires Shaped(qs, nKvHeads, gqa, win) && WindowHolds(win, ks, vs)
    requires PassInput(m0, qs, ks[|ks| - 1], vs[|ks| - 1], win.w, gqa, V)
    requires forall j :: 0 <= j < |vs| ==> forall i :: 0 <= i < |vs[j]| ==> -V <= vs[j][i] <= V
    requires |partials| == |qs| * nchunks && Reduced(e, partials, |qs|, nchunks, outs)
    requires forall c: nat :: c < nchunks ==>
               At(h, c, nchunks) < |partials|
               && RecordIs(e, m0, qs, win, nKvHeads, gqa, nchunks, h, c, partials[At(h, c, nchunks)])
    ensures |outs| == |qs| && HeadDone(e, qs, ks, vs, win.w, nKvHeads, gqa, V, h, outs[h])
  {
    hide ExpLike; hide Row; hide Dot; hide Scaled; hide MergeAll; hide PassResult; hide ChunkRecord; hide At;
    HeadFits(nKvHeads, gqa, h);
    assert HeadReduced(e, partials, h, nchunks, outs[h]) && |outs[h]| == HD;
    assert OwnScore(m0, qs[h], ks[|ks| - 1], HeadOff(h, gqa));
    forall d: nat | d < HD ensures PassResult(e, qs[h], ks, vs, HeadOff(h, gqa), d, V, outs[h][d]) {
      DimensionResult(e, m0, qs[h], win, HeadOff(h, gqa), nchunks, ks, vs, V, d, HeadRecs(partials, h, nchunks, d));
    }
  }

  /** Where the chunks of a partition start, and the end of the last one. */
  function Cuts(n: nat, nchunks: nat): (cuts: seq<nat>)
    requires nchunks >= 1
    ensures |cuts| == nchunks + 1 && forall c: nat :: c <= nchunks ==> cuts[c] == Kv0(n, nchunks, c)
  {
    seq(nchunks + 1, c requires 0 <= c <= nchunks => Kv0(n, nchunks, c))
  }

  /** Records of all chunks are the records of a partition. */
  lemma PartitionRecords(e: real -> real, m0: real, x: seq<Ext>, v: seq<real>, nchunks: nat, recs: seq<Rec>)
    requires nchunks >= 1 && |recs| == nchunks && |v| == |x| && |x| % TILE == 0
    requires forall c: nat :: c < nchunks ==>
               ChunkRecord(e, m0, x, v, Kv0(|x|, nchunks, c), Kv1(|x|, nchunks, c), recs[c])
    ensures Records(e, m0, x, v, Cuts(|x|, nchunks), recs)
  {
    hide ChunkRecord; hide Kv0; hide Kv1; hide Cuts;
    var n, cuts := |x|, Cuts(|x|, nchunks);
    ChunksPartition(n, nchunks, 0);
    forall c: nat | c <= nchunks ensures cuts[c] <= n {
      ChunksPartition(n, nchunks, c);
    }
    forall c: nat | c < nchunks ensures ChunkRecord(e, m0, x, v, cuts[c], cuts[c + 1], recs[c]) {
      ChunksPartition(n, nchunks, c);
    }
  }

  /** The window's scores and values are those of the rows so far, then masked ones. */
  lemma LiveWindow(q: seq<real>, win: Window, headOff: nat, ks: seq<seq<real>>, vs: seq<seq<real>>, d: nat)
    requires |q| == HD && |ks| == |vs| >= 1 && d < HD
    requires Covered(win) && headOff + HD <= win.w && WindowHolds(win, ks, vs)
    ensures |ks| <= |win.mask| == PadUp(|ks|, WINDOW)
    ensures forall j: nat :: j < |ks| ==> |ks[j]| == |vs[j]| == win.w
    ensures Scores(q, win, headOff)[..|ks|] == LiveScores(q, ks, headOff)
    ensures Column(win, headOff, d)[..|ks|] == ColumnOf(vs, headOff, d)
    ensures forall j: nat :: |ks| <= j < |win.mask| ==> Scores(q, win, headOff)[j].NegInf?
  {
    hide Row; hide Dot; hide Scaled; hide PadUp;
    PadUpExact(|ks|, WINDOW);
    forall j: nat | j < |ks|
      ensures Scores(q, win, headOff)[j] == LiveScores(q, ks, headOff)[j]
      ensures Column(win, headOff, d)[j] == ColumnOf(vs, headOff, d)[j]
    {
      assert Row(win.k, win.w, j) == ks[j] && Row(win.v, win.w, j) == vs[j];
    }
  }

  /** One dimension: the chunk records of a partition of the window. */
  lemma DimensionResult(e: real -> real, m0: real, q: seq<real>, win: Window, headOff: nat, nchunks: nat,
                        ks: seq<seq<real>>, vs: seq<seq<real>>, V: real, d: nat, recs: seq<Rec>)
    requires ExpLike(e) && nchunks >= 1 && |ks| == |vs| >= 1 && V >= 0.0 && d < HD && |recs| == nchunks
    requires Covered(win) && headOff + HD <= win.w && |win.mask| % TILE == 0 && WindowHolds(win, ks, vs)
    requires OwnScore(m0, q, ks[|ks| - 1], headOff)
    requires forall j :: 0 <= j < |vs| ==> forall i :: 0 <= i < |vs[j]| ==> -V <= vs[j][i] <= V
    requires forall c: nat :: c < nchunks ==>
               ChunkRecord(e, m0, Scores(q, win, headOff), Column(win, headOff, d), Kv0(|win.mask|, nchunks, c),
                           Kv1(|win.mask|, nchunks, c), recs[c])
    ensures forall j :: 0 <= j < |ks| ==> headOff + HD <= |ks[j]| && headOff + HD <= |vs[j]|
    ensures PassResult(e, q, ks, vs, headOff, d, V, MergeAll(e, recs))
  {
    hide Covered; hide WindowHolds; hide ExpLike; hide Row; hide Dot; hide Scaled; hide MergeAll; hide PassResult;
    hide ChunkRecord; hide Records; hide Kv0; hide Kv1; hide Scores; hide Column; hide LiveScores; hide ColumnOf;
    hide Cuts; hide PadUp;
    var x, v, n := Scores(q, win, headOff), Column(win, headOff, d), |win.mask|;
    LiveWindow(q, win, headOff, ks, vs, d);
    PartitionRecords(e, m0, x, v, nchunks, recs);
    WindowResult(e, m0, q, ks, vs, headOff, d, x, v, Cuts(n, nchunks), recs, V);
  }

  // ---- a run of passes -------------------------------------------------------------------------------

  ghost predicate Inputs(m0: real, cast: real -> real, qs: seq<seq<seq<real>>>, ks: seq<seq<real>>, vs: seq<seq<real>>,
                         w: nat, nKvHeads: nat, gqa: nat, V: real) {
    && gqa >= 1 && nKvHeads * HD <= w && |qs| == |ks| == |vs|
    && forall p :: 0 <= p < |qs| ==>
         && |qs[p]| == nKvHeads * gqa && (forall h :: 0 <= h < |qs[p]| ==> |qs[p][h]| == HD)
         && |ks[p]| == |vs[p]| == w && PassInput(m0, qs[p], Cast(cast, ks[p]), Cast(cast, vs[p]), w, gqa, V)
  }

  /** From position 0, one row appended per pass: attention at pass p, for every head
      that a warp carries and every dimension, is over exactly rows 0..p, row j holding
      what pass j appended.  Stops where the window would pass the cap. */
  method RunPasses(e: real -> real, m0: real, cast: real -> real, cacheK: array<real>, cacheV: array<real>, w: nat,
                   qs: seq<seq<seq<real>>>, ks: seq<seq<real>>, vs: seq<seq<real>>, nKvHeads: nat, gqa: nat, warps: nat,
                   nchunks: nat, nthreads: nat, maskCap: nat, ghost V: real)
      returns (outs: seq<seq<seq<Fold>>>)
    requires ExpLike(e) && nchunks >= 1 && nthreads >= 1 && V >= 0.0 && w % 4 == 0 && cacheK != cacheV
    requires cacheK.Length == cacheV.Length == maskCap * w && Inputs(m0, cast, qs, ks, vs, w, nKvHeads, gqa, V)
    modifies cacheK, cacheV
    ensures |outs| <= |ks| && (|outs| < |ks| ==> PadUp(|outs| + 1, WINDOW) > maskCap)
    ensures Holds(cacheK[..], w, CastAll(cast, ks[..|outs|])) && Holds(cacheV[..], w, CastAll(cast, vs[..|outs|]))
    ensures forall p :: 0 <= p < |outs| ==>
              PassDone(e, qs[p], CastAll(cast, ks[..p + 1]), CastAll(cast, vs[..p + 1]), w, nKvHeads, gqa, warps, V,
                       outs[p])
  {
    hide ExpLike; hide Row; hide PassDone; hide PassInput;
    outs := [];
    for p := 0 to |ks|
      invariant |outs| == p
      invariant Holds(cacheK[..], w, CastAll(cast, ks[..p])) && Holds(cacheV[..], w, CastAll(cast, vs[..p]))
      invariant forall i :: 0 <= i < p ==>
                  PassDone(e, qs[i], CastAll(cast, ks[..i + 1]), CastAll(cast, vs[..i + 1]), w, nKvHeads, gqa, warps, V,
                           outs[i])
    {
      var mask := SetPassInputs(p, maskCap);
      if mask.None? { return; }
      WindowFits(p, maskCap, w);
      Append(cacheK, w, p, ks[p], cast, nthreads);
      Append(cacheV, w, p, vs[p], cast, nthreads);
      var win := Window(cacheK[..], cacheV[..], w, mask.value);
      ghost var K, U := CastAll(cast, ks[..p + 1]), CastAll(cast, vs[..p + 1]);
      assert Holds(cacheK[..], w, K) && Holds(cacheV[..], w, U);
      WindowReady(win, maskCap, p);
      ValuesBounded(m0, cast, qs, ks, vs, w, nKvHeads, gqa, V, p);
      var out := AttendPass(e, m0, qs[p], win, nKvHeads, gqa, warps, nchunks, K, U, V);
      outs := outs + [out];
    }
  }

  lemma WindowReady(win: Window, cap: nat, p: nat)
    requires |win.k| == |win.v| == cap * win.w && |win.mask| == PadUp(p + 1, WINDOW) <= cap
    ensures Covered(win) && |win.mask| % TILE == 0
  {
    PadUpExact(p + 1, WINDOW);
    forall j: nat | j < |win.mask| ensures |Row(win.k, win.w, j)| == win.w && |Row(win.v, win.w, j)| == win.w {
      RowInside(win.k, win.w, j, cap);
      RowInside(win.v, win.w, j, cap);
    }
  }

  lemma ValuesBounded(m0: real, cast: real -> real, qs: seq<seq<seq<real>>>, ks: seq<seq<real>>, vs: seq<seq<real>>,
                      w: nat, nKvHeads: nat, gqa: nat, V: real, p: nat)
    requires Inputs(m0, cast, qs, ks, vs, w, nKvHeads, gqa, V) && p < |vs|
    ensures var K, U := CastAll(cast, ks[..p + 1]), CastAll(cast, vs[..p + 1]);
            && PassInput(m0, qs[p], K[p], U[p], w, gqa, V)
            && forall j :: 0 <= j < |U| ==> |U[j]| == w && forall i :: 0 <= i < |U[j]| ==> -V <= U[j][i] <= V
  {
    hide OwnScore;
    var K, U := CastAll(cast, ks[..p + 1]), CastAll(cast, vs[..p + 1]);
    assert K[p] == Cast(cast, ks[p]) && U[p] == Cast(cast, vs[p]);
    forall j | 0 <= j < |U| ensures |U[j]| == w && forall i :: 0 <= i < |U[j]| ==> -V <= U[j][i] <= V {
      assert U[j] == Cast(cast, vs[j]) && PassInput(m0, qs[j], Cast(cast, ks[j]), Cast(cast, vs[j]), w, gqa, V);
    }
  }
}
