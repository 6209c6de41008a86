/** The rolling convolution window: history fetched from the state cache, one new
    input appended, the shifted history committed in place. */
module Conv {
  import opened Arith

  const TAPS: nat := 4
  const KEPT: nat := 3

  // ---- moving cache rows ---------------------------------------------------------------

  /** One row of op_state_load and op_state_store: thread tid of nthreads copies
      every nthreads-th element, or every nthreads-th group of four where both ends
      are aligned. */
  method CopyRow(src: array<real>, from: nat, dst: array<real>, to: nat, n: nat, nthreads: nat, aligned: bool)
    requires src != dst && nthreads >= 1 && from + n <= src.Length && to + n <= dst.Length
    modifies dst
    ensures dst[to..to + n] == old(src[from..from + n])
    ensures forall i :: 0 <= i < dst.Length && !(to <= i < to + n) ==> dst[i] == old(dst[i])
  {
    if n % 4 == 0 && aligned {
      for tid := 0 to nthreads
        invariant forall i :: 0 <= i < n && (i / 4) % nthreads < tid ==> dst[to + i] == src[from + i]
        invariant forall i :: 0 <= i < dst.Length && !(to <= i < to + n) ==> dst[i] == old(dst[i])
      {
        CopyQuads(src, from, dst, to, n, tid, nthreads);
      }
      ghost var S, D := src[from..from + n], dst[to..to + n];
      forall i | 0 <= i < n ensures D[i] == S[i] {
        assert (i / 4) % nthreads < nthreads;
      }
    } else {
      for tid := 0 to nthreads
        invariant forall i :: 0 <= i < n && i % nthreads < tid ==> dst[to + i] == src[from + i]
        invariant forall i :: 0 <= i < dst.Length && !(to <= i < to + n) ==> dst[i] == old(dst[i])
      {
        CopySingles(src, from, dst, to, n, tid, nthreads);
      }
      ghost var S, D := src[from..from + n], dst[to..to + n];
      forall i | 0 <= i < n ensures D[i] == S[i] {
        assert i % nthreads < nthreads;
      }
    }
  }

  method CopySingles(src: array<real>, from: nat, dst: array<real>, to: nat, n: nat, tid: nat, nthreads: nat)
    requires src != dst && tid < nthreads && from + n <= src.Length && to + n <= dst.Length
    modifies dst
    ensures forall i :: 0 <= i < n ==> dst[to + i] == if i % nthreads == tid then src[from + i] else old(dst[to + i])
    ensures forall i :: 0 <= i < dst.Length && !(to <= i < to + n) ==> dst[i] == old(dst[i])
  {
    var i := tid;
    DivModUnique(tid, nthreads, 0, tid);
    while i < n
      invariant i % nthreads == tid
      invariant forall j :: 0 <= j < n ==> dst[to + j] == if j % nthreads == tid && j < i then src[from + j]
                else old(dst[to + j])
      invariant forall j :: 0 <= j < dst.Length && !(to <= j < to + n) ==> dst[j] == old(dst[j])
    {
      dst[to + i] := src[from + i];
      forall j: nat | j % nthreads == tid ensures i <= j < i + nthreads ==> j == i { NextInStride(j, i, nthreads); }
      NextInStride(i, i, nthreads);
      i := i + nthreads;
    }
  }

  method CopyQuads(src: array<real>, from: nat, dst: array<real>, to: nat, n: nat, tid: nat, nthreads: nat)
    requires src != dst && tid < nthreads && from + n <= src.Length && to + n <= dst.Length && n % 4 == 0
    modifies dst
    ensures forall i :: 0 <= i < n ==> dst[to + i] == if (i / 4) % nthreads == tid then src[from + i]
            else old(dst[to + i])
    ensures forall i :: 0 <= i < dst.Length && !(to <= i < to + n) ==> dst[i] == old(dst[i])
  {
    var i := tid;
    DivModUnique(tid, nthreads, 0, tid);
    while i < n / 4
      invariant i % nthreads == tid
      invariant forall j :: 0 <= j < n ==>
                  dst[to + j] == if (j / 4) % nthreads == tid && j / 4 < i then src[from + j] else old(dst[to + j])
      invariant forall j :: 0 <= j < dst.Length && !(to <= j < to + n) ==> dst[j] == old(dst[j])
    {
      var at := 4 * i;
      dst[to + at], dst[to + at + 1] := src[from + at], src[from + at + 1];
      dst[to + at + 2], dst[to + at + 3] := src[from + at + 2], src[from + at + 3];
      forall j: nat | j % nthreads == tid ensures i <= j < i + nthreads ==> j == i { NextInStride(j, i, nthreads); }
      NextInStride(i, i, nthreads);
      i := i + nthreads;
    }
  }

  // ---- one token ------------------------------------------------------------------------------

  /** Channel c's kept inputs in a row of three per channel, its window of four. */
  function Kept(s: seq<real>, at: nat, c: nat): (h: seq<real>)
    requires at + c * KEPT + KEPT <= |s|
    ensures |h| == KEPT
  {
    s[at + c * KEPT..at + c * KEPT + KEPT]
  }

  function Window(s: seq<real>, c: nat): (w: seq<real>)
    requires c * TAPS + TAPS <= |s|
    ensures |w| == TAPS
  {
    s[c * TAPS..c * TAPS + TAPS]
  }

  /** op_conv_shift_concat for one channel. */
  method ShiftChannel(hist: array<real>, x: real, win: array<real>, cache: array<real>, at: nat, c: nat)
    requires hist != win && hist != cache && win != cache
    requires c * KEPT + KEPT <= hist.Length && c * TAPS + TAPS <= win.Length && at + c * KEPT + KEPT <= cache.Length
    modifies win, cache
    ensures Window(win[..], c) == Kept(hist[..], 0, c) + [x]
    ensures Kept(cache[..], at, c) == Window(win[..], c)[1..]
    ensures forall i :: 0 <= i < win.Length && !(c * TAPS <= i < c * TAPS + TAPS) ==> win[i] == old(win[i])
    ensures forall i :: 0 <= i < cache.Length && !(at + c * KEPT <= i < at + c * KEPT + KEPT) ==>
            cache[i] == old(cache[i])
  {
    var h0, h1, h2 := hist[c * KEPT], hist[c * KEPT + 1], hist[c * KEPT + 2];
    var w, s := c * TAPS, at + c * KEPT;
    win[w], win[w + 1], win[w + 2], win[w + 3] := h0, h1, h2, x;
    cache[s], cache[s + 1], cache[s + 2] := h1, h2, x;
  }

  ghost predicate Shifted(hist: seq<real>, x: seq<real>, win: seq<real>, cache: seq<real>, at: nat, c: nat) {
    && c < |x| && c * KEPT + KEPT <= |hist| && c * TAPS + TAPS <= |win| && at + c * KEPT + KEPT <= |cache|
    && Window(win, c) == Kept(hist, 0, c) + [x[c]]
    && Kept(cache, at, c) == Kept(hist, 0, c)[1..] + [x[c]]
  }

  /** Channel d is not touched by the shift of channel c. */
  lemma OtherChannel(hist: seq<real>, x: seq<real>, win0: seq<real>, cache0: seq<real>, win: seq<real>,
                     cache: seq<real>,
                     at: nat, c: nat, d: nat)
    requires Shifted(hist, x, win0, cache0, at, d) && d != c && |win| == |win0| && |cache| == |cache0|
    requires forall i :: 0 <= i < |win| && !(c * TAPS <= i < c * TAPS + TAPS) ==> win[i] == win0[i]
    requires forall i :: 0 <= i < |cache| && !(at + c * KEPT <= i < at + c * KEPT + KEPT) ==> cache[i] == cache0[i]
    ensures Shifted(hist, x, win, cache, at, d)
  {
    assert Window(win, d) == Window(win0, d);
    assert Kept(cache, at, d) == Kept(cache0, at, d);
  }

  /** Channel c is thread tid's. */
  predicate Turn(c: nat, tid: nat, nthreads: nat)
    requires tid < nthreads
  {
    c % nthreads == tid
  }

  lemma FirstTurn(tid: nat, nthreads: nat)
    requires tid < nthreads
    ensures Turn(tid, tid, nthreads) && forall d: nat :: d < tid ==> !Turn(d, tid, nthreads)
  {
    DivModUnique(tid, nthreads, 0, tid);
    forall d: nat | d < tid ensures !Turn(d, tid, nthreads) { DivModUnique(d, nthreads, 0, d); }
  }

  lemma NextTurn(c: nat, tid: nat, nthreads: nat)
    requires tid < nthreads && Turn(c, tid, nthreads)
    ensures Turn(c + nthreads, tid, nthreads)
    ensures forall d: nat :: Turn(d, tid, nthreads) && c <= d < c + nthreads ==> d == c
  {
    forall d: nat | Turn(d, tid, nthreads) ensures c <= d < c + nthreads ==> d == c { NextInStride(d, c, nthreads); }
    NextInStride(c, c, nthreads);
  }

  /** Thread tid of op_conv_shift_concat: every nthreads-th channel. */
  method ShiftThread(hist: array<real>, x: seq<real>, win: array<real>, cache: array<real>, at: nat, tid: nat,
                     nthreads: nat)
    requires hist != win && hist != cache && win != cache && tid < nthreads
    requires hist.Length == |x| * KEPT && win.Length == |x| * TAPS && at + |x| * KEPT <= cache.Length
    modifies win, cache
    ensures forall c: nat :: c < |x| ==>
              (Turn(c, tid, nthreads) || old(Shifted(hist[..], x, win[..], cache[..], at, c))) ==>
              Shifted(hist[..], x, win[..], cache[..], at, c)
    ensures forall i :: 0 <= i < cache.Length && !(at <= i < at + |x| * KEPT) ==> cache[i] == old(cache[i])
  {
    hide Turn;
    var c := tid;
    FirstTurn(tid, nthreads);
    while c < |x|
      invariant Turn(c, tid, nthreads)
      invariant forall d: nat ::
                  d < |x| &&
                  ((Turn(d, tid, nthreads) && d < c) || old(Shifted(hist[..], x, win[..], cache[..], at, d))) ==>
                  Shifted(hist[..], x, win[..], cache[..], at, d)
      invariant forall i :: 0 <= i < cache.Length && !(at <= i < at + |x| * KEPT) ==> cache[i] == old(cache[i])
    {
      ghost var win0, cache0 := win[..], cache[..];
      ShiftChannel(hist, x[c], win, cache, at, c);
      assert Shifted(hist[..], x, win[..], cache[..], at, c);
      hide Shifted;
      forall d: nat | d < |x| && d != c && Shifted(hist[..], x, win0, cache0, at, d)
        ensures Shifted(hist[..], x, win[..], cache[..], at, d)
      {
        OtherChannel(hist[..], x, win0, cache0, win[..], cache[..], at, c, d);
      }
      NextTurn(c, tid, nthreads);
      c := c + nthreads;
    }
  }

  /** op_conv_shift_concat: all threads. */
  method ShiftConcat(hist: array<real>, x: seq<real>, win: array<real>, cache: array<real>, at: nat, nthreads: nat)
    requires hist != win && hist != cache && win != cache && nthreads >= 1
    requires hist.Length == |x| * KEPT && win.Length == |x| * TAPS && at + |x| * KEPT <= cache.Length
    modifies win, cache
    ensures forall c: nat :: c < |x| ==> Shifted(hist[..], x, win[..], cache[..], at, c)
    ensures forall i :: 0 <= i < cache.Length && !(at <= i < at + |x| * KEPT) ==> cache[i] == old(cache[i])
  {
    hide Shifted;
    for tid := 0 to nthreads
      invariant forall c: nat :: c < |x| && c % nthreads < tid ==> Shifted(hist[..], x, win[..], cache[..], at, c)
      invariant forall i :: 0 <= i < cache.Length && !(at <= i < at + |x| * KEPT) ==> cache[i] == old(cache[i])
    {
      ShiftThread(hist, x, win, cache, at, tid, nthreads);
    }
    forall c: nat | c < |x| ensures Shifted(hist[..], x, win[..], cache[..], at, c) {
      assert c % nthreads < nthreads;
    }
  }

  /** The four taps in the op's order. */
  function Taps(x: seq<real>, w: seq<real>): real
    requires |x| == |w| == TAPS
  {
    (((0.0 + x[0] * w[0]) + x[1] * w[1]) + x[2] * w[2]) + x[3] * w[3]
  }

  /** op_ssm_conv_silu over all channels. */
  method ConvSilu(win: array<real>, weight: seq<real>, silu: real -> real, channels: nat) returns (dst: seq<real>)
    requires win.Length == |weight| == channels * TAPS
    ensures |dst| == channels
    ensures forall c :: 0 <= c < channels ==> dst[c] == silu(Taps(Window(win[..], c), Window(weight, c)))
  {
    dst := [];
    for c := 0 to channels
      invariant |dst| == c
      invariant forall d :: 0 <= d < c ==> dst[d] == silu(Taps(Window(win[..], d), Window(weight, d)))
    {
      var at := c * TAPS;
      var sum := 0.0;
      sum := sum + win[at] * weight[at];
      sum := sum + win[at + 1] * weight[at + 1];
      sum := sum + win[at + 2] * weight[at + 2];
      sum := sum + win[at + 3] * weight[at + 3];
      assert sum == Taps(Window(win[..], c), Window(weight, c));
      hide Taps;
      dst := dst + [silu(sum)];
    }
  }

  // ---- a token sequence against the full history --------------------------------------------------

  /** Channel c's inputs from the beginning: what the cache row held, then one per
      token. */
  function Stream(before: seq<real>, xs: seq<seq<real>>, c: nat): (s: seq<real>)
    requires |before| == KEPT && forall p :: 0 <= p < |xs| ==> c < |xs[p]|
    ensures |s| == KEPT + |xs|
  {
    before + seq(|xs|, p requires 0 <= p < |xs| => xs[p][c])
  }

  /** The causal convolution of a stream at token p, tap j weighing the input that
      is 3 - j tokens old. */
  function Causal(stream: seq<real>, w: seq<real>, p: nat, j: nat): real
    requires p + KEPT < |stream| && |w| == TAPS && j <= TAPS
  {
    if j == 0 then 0.0 else Causal(stream, w, p, j - 1) + stream[p + (j - 1)] * w[j - 1]
  }

  lemma TapsAreCausal(stream: seq<real>, w: seq<real>, p: nat)
    requires p + KEPT < |stream| && |w| == TAPS
    ensures Taps(stream[p..p + TAPS], w) == Causal(stream, w, p, TAPS)
  {
    var x := stream[p..p + TAPS];
    assert Causal(stream, w, p, 1) == 0.0 + x[0] * w[0];
    assert Causal(stream, w, p, 2) == Causal(stream, w, p, 1) + x[1] * w[1];
    assert Causal(stream, w, p, 3) == Causal(stream, w, p, 2) + x[2] * w[2];
  }

  predicate Channels(xs: seq<seq<real>>, n: nat) {
    forall p :: 0 <= p < |xs| ==> |xs[p]| == n
  }

  /** Load, shift and concatenate, convolve: one token. */
  method ConvToken(x: seq<real>, weight: seq<real>, silu: real -> real, cache: array<real>, at: nat, nthreads: nat,
                   aligned: bool)
    returns (y: seq<real>)
    requires |weight| == |x| * TAPS && at + |x| * KEPT <= cache.Length && nthreads >= 1
    modifies cache
    ensures |y| == |x|
    ensures forall c :: 0 <= c < |x| ==>
              && Kept(cache[..], at, c) == old(Kept(cache[..], at, c))[1..] + [x[c]]
              && y[c] == silu(Taps(old(Kept(cache[..], at, c)) + [x[c]], Window(weight, c)))
    ensures forall i :: 0 <= i < cache.Length && !(at <= i < at + |x| * KEPT) ==> cache[i] == old(cache[i])
  {
    var n := |x|;
    var hist, win := new real[n * KEPT](_ => 0.0), new real[n * TAPS](_ => 0.0);
    CopyRow(cache, at, hist, 0, n * KEPT, nthreads, aligned);
    forall c | 0 <= c < n ensures Kept(hist[..], 0, c) == old(Kept(cache[..], at, c)) {
      assert hist[..] == hist[0..n * KEPT] == old(cache[at..at + n * KEPT]);
      assert Kept(hist[..], 0, c) == old(cache[at..at + n * KEPT])[c * KEPT..c * KEPT + KEPT];
    }
    ShiftConcat(hist, x, win, cache, at, nthreads);
    y := ConvSilu(win, weight, silu, n);
    forall c | 0 <= c < n
      ensures Kept(cache[..], at, c) == old(Kept(cache[..], at, c))[1..] + [x[c]]
      ensures Window(win[..], c) == old(Kept(cache[..], at, c)) + [x[c]]
    {
      assert Shifted(hist[..], x, win[..], cache[..], at, c);
    }
  }

  lemma NextWindow(before: seq<real>, xs: seq<seq<real>>, c: nat, k: nat, w: seq<real>)
    requires |before| == KEPT && k < |xs| && |w| == TAPS && forall p :: 0 <= p < |xs| ==> c < |xs[p]|
    ensures var s := Stream(before, xs, c);
            && s[k..k + KEPT][1..] + [xs[k][c]] == s[k + 1..k + 1 + KEPT]
            && Taps(s[k..k + KEPT] + [xs[k][c]], w) == Causal(s, w, k, TAPS)
  {
    var s := Stream(before, xs, c);
    assert s[k + KEPT] == xs[k][c];
    assert s[k..k + KEPT] + [xs[k][c]] == s[k..k + TAPS];
    TapsAreCausal(s, w, k);
  }

  ghost predicate History(cache: seq<real>, at: nat, C0: seq<real>, xs: seq<seq<real>>, n: nat, k: nat)
    requires Channels(xs, n) && k <= |xs| && at + n * KEPT <= |cache| == |C0|
  {
    forall c: nat :: c < n ==> Kept(cache, at, c) == Stream(Kept(C0, at, c), xs, c)[k..k + KEPT]
  }

  ghost predicate OutputAt(y: seq<real>, at: nat, C0: seq<real>, xs: seq<seq<real>>, n: nat, weight: seq<real>,
                           silu: real -> real, p: nat)
    requires Channels(xs, n) && p < |xs| && at + n * KEPT <= |C0| && |weight| == n * TAPS && |y| == n
  {
    forall c: nat :: c < n ==> y[c] == silu(Causal(Stream(Kept(C0, at, c), xs, c), Window(weight, c), p, TAPS))
  }

  /** Over any token sequence the committed history is the last three inputs of the
      stream, and every output is the causal convolution of the stream; the rest of
      the cache is untouched. */
  method ConvTokens(xs: seq<seq<real>>, n: nat, weight: seq<real>, silu: real -> real, cache: array<real>, at: nat,
                    nthreads: nat, aligned: bool) returns (ys: seq<seq<real>>)
    requires Channels(xs, n) && |weight| == n * TAPS && at + n * KEPT <= cache.Length && nthreads >= 1
    modifies cache
    ensures |ys| == |xs| && Channels(ys, n)
    ensures History(cache[..], at, old(cache[..]), xs, n, |xs|)
    ensures forall p: nat :: p < |xs| ==> OutputAt(ys[p], at, old(cache[..]), xs, n, weight, silu, p)
    ensures forall i :: 0 <= i < cache.Length && !(at <= i < at + n * KEPT) ==> cache[i] == old(cache[i])
  {
    ghost var C0 := cache[..];
    hide Causal; hide Taps; hide Stream; hide Window; hide History; hide OutputAt;
    ys := [];
    assert History(cache[..], at, C0, xs, n, 0) by { StreamStarts(xs, n, C0, at); }
    for k := 0 to |xs|
      invariant |ys| == k && Channels(ys, n)
      invariant History(cache[..], at, C0, xs, n, k)
      invariant forall p: nat :: p < k ==> OutputAt(ys[p], at, C0, xs, n, weight, silu, p)
      invariant forall i :: 0 <= i < cache.Length && !(at <= i < at + n * KEPT) ==> cache[i] == old(cache[i])
    {
      ghost var C := cache[..];
      var y := ConvToken(xs[k], weight, silu, cache, at, nthreads, aligned);
      TokenStep(xs, n, weight, silu, C0, C, cache[..], at, k, y);
      ys := ys + [y];
    }
  }

  lemma TokenStep(xs: seq<seq<real>>, n: nat, weight: seq<real>, silu: real -> real, C0: seq<real>, C: seq<real>,
                  C': seq<real>,
                  at: nat, k: nat, y: seq<real>)
    requires Channels(xs, n) && |weight| == n * TAPS && at + n * KEPT <= |C0| == |C| == |C'| && k < |xs| && |y| == n
    requires History(C, at, C0, xs, n, k)
    requires forall c: nat :: c < n ==>
               && Kept(C', at, c) == Kept(C, at, c)[1..] + [xs[k][c]]
               && y[c] == silu(Taps(Kept(C, at, c) + [xs[k][c]], Window(weight, c)))
    ensures History(C', at, C0, xs, n, k + 1) && OutputAt(y, at, C0, xs, n, weight, silu, k)
  {
    hide Causal; hide Taps; hide Stream; hide Window;
    forall c: nat | c < n
      ensures Kept(C', at, c) == Stream(Kept(C0, at, c), xs, c)[k + 1..k + 1 + KEPT]
      ensures y[c] == silu(Causal(Stream(Kept(C0, at, c), xs, c), Window(weight, c), k, TAPS))
    {
      NextWindow(Kept(C0, at, c), xs, c, k, Window(weight, c));
    }
  }

  lemma StreamStarts(xs: seq<seq<real>>, n: nat, C0: seq<real>, at: nat)
    requires Channels(xs, n) && at + n * KEPT <= |C0|
    ensures History(C0, at, C0, xs, n, 0)
  {
  }
}
