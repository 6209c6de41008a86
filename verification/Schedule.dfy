/** The schedule compiler's window coalescing: adjacent windows are merged when no
    instruction of one touches a buffer that the other writes, no exchange is
    involved, and at most one heavy op ends up in the merged window. */
module Schedule {

  const HEAVY_EST: real := 524288.0
  const XCHG_KINDS: set<string> := {"OP_XCHG_PUSH", "OP_XCHG_REDUCE"}

  type Buf = string

  /** One instruction: its place in the unscheduled program, its kind, the estimated
      bytes it streams, the buffers it reads and writes. */
  datatype Ins = Ins(id: nat, kind: string, est: real, r: set<Buf>, w: set<Buf>)

  /** A window is a list of instructions that all blocks run between two boundaries. */
  type Window = seq<Ins>

  function Reads(w: Window): set<Buf> {
    if w == [] then {} else Reads(w[..|w| - 1]) + w[|w| - 1].r
  }

  function Writes(w: Window): set<Buf> {
    if w == [] then {} else Writes(w[..|w| - 1]) + w[|w| - 1].w
  }

  /** The accumulation loop of _win_rw. */
  method WinRw(w: Window) returns (r: set<Buf>, wr: set<Buf>)
    ensures r == Reads(w) && wr == Writes(w)
  {
    r, wr := {}, {};
    for k := 0 to |w|
      invariant r == Reads(w[..k]) && wr == Writes(w[..k])
    {
      assert w[..k + 1][..k] == w[..k];
      r, wr := r + w[k].r, wr + w[k].w;
    }
    assert w[..|w|] == w;
  }

  predicate Independent(a: Window, b: Window) {
    && Writes(a) * (Reads(b) + Writes(b)) == {}
    && Writes(b) * Reads(a) == {}
  }

  function NHeavy(w: Window): nat {
    if w == [] then 0 else NHeavy(w[..|w| - 1]) + (if w[|w| - 1].est >= HEAVY_EST then 1 else 0)
  }

  predicate HasXchg(w: Window) {
    exists k :: 0 <= k < |w| && w[k].kind in XCHG_KINDS
  }

  predicate Mergeable(a: Window, b: Window) {
    !HasXchg(a) && !HasXchg(b) && Independent(a, b) && NHeavy(a) + NHeavy(b) <= 1
  }

  // ---- the merging loop ------------------------------------------------------------

  /** One round of the loop: the next window joins the last merged one or starts a
      new one. */
  function Absorb(merged: seq<Window>, w: Window): seq<Window> {
    if merged != [] && Mergeable(merged[|merged| - 1], w)
    then merged[..|merged| - 1] + [merged[|merged| - 1] + w]
    else merged + [w]
  }

  function Coalesced(ws: seq<Window>): seq<Window> {
    if ws == [] then [] else Absorb(Coalesced(ws[..|ws| - 1]), ws[|ws| - 1])
  }

  method Coalesce(ws: seq<Window>) returns (merged: seq<Window>)
    ensures merged == Coalesced(ws)
  {
    merged := [];
    for k := 0 to |ws|
      invariant merged == Coalesced(ws[..k])
    {
      var w := ws[k];
      assert ws[..k + 1][..k] == ws[..k];
      if merged != [] && Mergeable(merged[|merged| - 1], w) {
        merged := merged[..|merged| - 1] + [merged[|merged| - 1] + w];
      } else {
        merged := merged + [w];
      }
    }
    assert ws[..|ws|] == ws;
  }

  // ---- the instruction sequence is unchanged --------------------------------------------

  function Flatten(ws: seq<Window>): seq<Ins> {
    if ws == [] then [] else Flatten(ws[..|ws| - 1]) + ws[|ws| - 1]
  }

  lemma FlattenSnoc(ws: seq<Window>, w: Window)
    ensures Flatten(ws + [w]) == Flatten(ws) + w
  {
    assert (ws + [w])[..|ws|] == ws;
  }

  lemma AbsorbKeepsOrder(before: seq<Window>, w: Window)
    ensures Flatten(Absorb(before, w)) == Flatten(before) + w
  {
    hide Flatten; hide Mergeable;
    if before != [] && Mergeable(before[|before| - 1], w) {
      var rest, last := before[..|before| - 1], before[|before| - 1];
      assert before == rest + [last];
      FlattenSnoc(rest, last);
      FlattenSnoc(rest, last + w);
      assert Flatten(rest) + (last + w) == Flatten(rest) + last + w;
    } else {
      FlattenSnoc(before, w);
    }
  }

  lemma {:induction false} CoalescingKeepsOrder(ws: seq<Window>)
    ensures Flatten(Coalesced(ws)) == Flatten(ws)
  {
    if ws != [] {
      var init, w := ws[..|ws| - 1], ws[|ws| - 1];
      CoalescingKeepsOrder(init);
      assert Coalesced(ws) == Absorb(Coalesced(init), w) && ws == init + [w];
      hide *;
      AbsorbKeepsOrder(Coalesced(init), w);
      FlattenSnoc(init, w);
    }
  }

  // ---- hazards ----------------------------------------------------------------------------

  /** One instruction writes what the other touches. */
  predicate Clash(x: Ins, y: Ins) {
    x.w * (y.r + y.w) != {}
  }

  /** What the lifetime check accepts. */
  predicate HazardFree(w: Window) {
    forall a, b :: 0 <= a < |w| && 0 <= b < |w| && a != b ==> !Clash(w[a], w[b])
  }

  predicate AllHazardFree(ws: seq<Window>) {
    forall k :: 0 <= k < |ws| ==> HazardFree(ws[k])
  }

  /** The clashing ordered pairs that are tried before pair (a, b). */
  function ClashesBefore(w: Window, a: nat, b: nat): set<(nat, nat)> {
    set i: nat, j: nat | i < |w| && j < |w| && (i < a || (i == a && j < b)) && i != j && Clash(w[i], w[j]) :: (i, j)
  }

  lemma NextPair(w: Window, a: nat, b: nat)
    requires a < |w| && b < |w|
    ensures ClashesBefore(w, a, b + 1)
            == ClashesBefore(w, a, b) + if a != b && Clash(w[a], w[b]) then {(a, b)} else {}
    ensures (a, b) !in ClashesBefore(w, a, b)
  {
    hide Clash;
  }

  lemma NextRow(w: Window, a: nat)
    requires a < |w|
    ensures ClashesBefore(w, a, |w|) == ClashesBefore(w, a + 1, 0)
  {
    hide Clash;
  }

  lemma NoClashes(w: Window)
    ensures ClashesBefore(w, 0, 0) == {}
    ensures |ClashesBefore(w, |w|, 0)| == 0 <==> HazardFree(w)
  {
    hide Clash;
    forall i: nat, j: nat | i < |w| && j < |w| && i != j
      ensures Clash(w[i], w[j]) <==> (i, j) in ClashesBefore(w, |w|, 0)
    {
    }
  }

  /** The lifetime check of one window: every ordered pair of instructions is
      tried, and each that clashes is counted, once. */
  method WindowHazards(w: Window) returns (hazards: nat)
    ensures hazards == |ClashesBefore(w, |w|, 0)|
    ensures hazards == 0 <==> HazardFree(w)
  {
    hide ClashesBefore; hide HazardFree;
    hazards := 0;
    NoClashes(w);
    for a := 0 to |w|
      invariant hazards == |ClashesBefore(w, a, 0)|
    {
      for b := 0 to |w|
        invariant hazards == |ClashesBefore(w, a, b)|
      {
        NextPair(w, a, b);
        if a != b && w[a].w * (w[b].r + w[b].w) != {} {
          hazards := hazards + 1;
        }
      }
      NextRow(w, a);
    }
  }

  function Hazards(ws: seq<Window>): nat {
    if ws == [] then 0
    else Hazards(ws[..|ws| - 1]) + |ClashesBefore(ws[|ws| - 1], |ws[|ws| - 1]|, 0)|
  }

  /** The check over the merged windows; the compiler stops unless it finds none. */
  method LifetimeCheck(ws: seq<Window>) returns (hazards: nat)
    ensures hazards == Hazards(ws)
    ensures hazards == 0 <==> AllHazardFree(ws)
  {
    hide ClashesBefore; hide HazardFree;
    hazards := 0;
    for k := 0 to |ws|
      invariant hazards == Hazards(ws[..k])
      invariant hazards == 0 <==> forall i :: 0 <= i < k ==> HazardFree(ws[i])
    {
      var h := WindowHazards(ws[k]);
      assert ws[..k + 1][..k] == ws[..k];
      hazards := hazards + h;
    }
    assert ws[..|ws|] == ws;
  }

  lemma {:induction false} InReads(w: Window, x: Buf)
    ensures x in Reads(w) <==> exists k :: 0 <= k < |w| && x in w[k].r
  {
    if w != [] {
      var m := |w| - 1;
      InReads(w[..m], x);
      assert forall k :: 0 <= k < m ==> w[..m][k] == w[k];
    }
  }

  lemma {:induction false} InWrites(w: Window, x: Buf)
    ensures x in Writes(w) <==> exists k :: 0 <= k < |w| && x in w[k].w
  {
    if w != [] {
      var m := |w| - 1;
      InWrites(w[..m], x);
      assert forall k :: 0 <= k < m ==> w[..m][k] == w[k];
    }
  }

  /** The union test of two windows is exactly the pairwise test of their
      instructions. */
  lemma IndependentExact(a: Window, b: Window)
    ensures Independent(a, b) <==>
              forall i, j :: 0 <= i < |a| && 0 <= j < |b| ==> !Clash(a[i], b[j]) && !Clash(b[j], a[i])
  {
    if Independent(a, b) {
      forall i, j | 0 <= i < |a| && 0 <= j < |b| ensures !Clash(a[i], b[j]) && !Clash(b[j], a[i]) {
        forall x: Buf ensures x !in a[i].w * (b[j].r + b[j].w) && x !in b[j].w * (a[i].r + a[i].w) {
          InWrites(a, x); InReads(a, x); InWrites(b, x); InReads(b, x);
          assert x in a[i].w * (b[j].r + b[j].w) ==> x in Writes(a) * (Reads(b) + Writes(b));
          assert x in b[j].w * (a[i].r + a[i].w) ==>
                 x in Writes(b) * Reads(a) || x in Writes(a) * (Reads(b) + Writes(b));
        }
      }
    } else {
      var x :| x in Writes(a) * (Reads(b) + Writes(b)) + Writes(b) * Reads(a);
      InWrites(a, x); InReads(a, x); InWrites(b, x); InReads(b, x);
      if x in Writes(a) {
        if x in Reads(b) {
          var i, j :| 0 <= i < |a| && 0 <= j < |b| && x in a[i].w && x in b[j].r;
          assert x in a[i].w * (b[j].r + b[j].w);
        } else if x in Writes(b) {
          var i, j :| 0 <= i < |a| && 0 <= j < |b| && x in a[i].w && x in b[j].w;
          assert x in a[i].w * (b[j].r + b[j].w);
        }
      }
      if x in Writes(b) && x in Reads(a) {
        var i, j :| 0 <= i < |a| && 0 <= j < |b| && x in a[i].r && x in b[j].w;
        assert x in b[j].w * (a[i].r + a[i].w);
      }
    }
  }

  /** A union of windows is hazard-free exactly if both parts are and no
      instruction of one clashes with one of the other. */
  lemma UnionHazardFree(a: Window, b: Window)
    ensures HazardFree(a + b) <==> HazardFree(a) && HazardFree(b) && Independent(a, b)
  {
    IndependentExact(a, b);
    var u := a + b;
    if HazardFree(u) {
      forall i, j | 0 <= i < |a| && 0 <= j < |a| && i != j ensures !Clash(a[i], a[j]) { assert !Clash(u[i], u[j]); }
      forall i, j | 0 <= i < |b| && 0 <= j < |b| && i != j ensures !Clash(b[i],
          b[j]) { assert !Clash(u[|a| + i], u[|a| + j]); }
      forall i, j | 0 <= i < |a| && 0 <= j < |b| ensures !Clash(a[i], b[j]) && !Clash(b[j], a[i]) {
        assert !Clash(u[i], u[|a| + j]) && !Clash(u[|a| + j], u[i]);
      }
    } else if HazardFree(a) && HazardFree(b) && Independent(a, b) {
      forall i, j | 0 <= i < |u| && 0 <= j < |u| && i != j ensures !Clash(u[i], u[j]) {
        if i < |a| && j < |a| { assert !Clash(a[i], a[j]); }
        else if i >= |a| && j >= |a| { assert !Clash(b[i - |a|], b[j - |a|]); }
        else if i < |a| { assert !Clash(a[i], b[j - |a|]); }
        else { assert !Clash(b[i - |a|], a[j]); }
      }
    }
  }

  /** Coalescing neither introduces a hazard nor hides one: the lifetime check
      accepts the merged windows exactly if it accepts the original ones. */
  lemma {:induction false} CoalescingKeepsHazards(ws: seq<Window>)
    ensures AllHazardFree(Coalesced(ws)) <==> AllHazardFree(ws)
  {
    if ws != [] {
      var before, w := Coalesced(ws[..|ws| - 1]), ws[|ws| - 1];
      CoalescingKeepsHazards(ws[..|ws| - 1]);
      AbsorbHazards(before, w);
      assert ws == ws[..|ws| - 1] + [w];
      SnocHazards(ws[..|ws| - 1], w);
    }
  }

  lemma SnocHazards(ws: seq<Window>, w: Window)
    ensures AllHazardFree(ws + [w]) <==> AllHazardFree(ws) && HazardFree(w)
  {
    if AllHazardFree(ws + [w]) {
      forall k | 0 <= k < |ws| ensures HazardFree(ws[k]) { assert HazardFree((ws + [w])[k]); }
      assert HazardFree((ws + [w])[|ws|]);
    }
  }

  lemma AbsorbHazards(before: seq<Window>, w: Window)
    ensures AllHazardFree(Absorb(before, w)) <==> AllHazardFree(before) && HazardFree(w)
  {
    if before != [] && Mergeable(before[|before| - 1], w) {
      var init, last := before[..|before| - 1], before[|before| - 1];
      assert before == init + [last];
      SnocHazards(init, last);
      SnocHazards(init, last + w);
      UnionHazardFree(last, w);
    } else {
      SnocHazards(before, w);
    }
  }

  // ---- boundaries are only removed ---------------------------------------------------------

  /** The instruction counts at which a boundary stands. */
  function Cuts(ws: seq<Window>): set<nat> {
    if ws == [] then {0} else Cuts(ws[..|ws| - 1]) + {|Flatten(ws)|}
  }

  lemma SnocCuts(ws: seq<Window>, w: Window)
    ensures Cuts(ws + [w]) == Cuts(ws) + {|Flatten(ws) + w|}
  {
    FlattenSnoc(ws, w);
    assert (ws + [w])[..|ws|] == ws;
    hide Flatten;
  }

  lemma AbsorbCuts(before: seq<Window>, w: Window)
    ensures Cuts(Absorb(before, w)) <= Cuts(before) + {|Flatten(before) + w|}
    ensures |Absorb(before, w)| <= |before| + 1
  {
    hide Cuts; hide Flatten;
    if before != [] && Mergeable(before[|before| - 1], w) {
      var rest, last := before[..|before| - 1], before[|before| - 1];
      assert before == rest + [last];
      FlattenSnoc(rest, last);
      SnocCuts(rest, last);
      SnocCuts(rest, last + w);
      assert Flatten(rest) + (last + w) == Flatten(rest) + last + w;
    } else {
      SnocCuts(before, w);
    }
  }

  /** Every boundary of the merged program is a boundary of the original one. */
  lemma {:induction false} CoalescingOnlyRemovesBoundaries(ws: seq<Window>)
    ensures Cuts(Coalesced(ws)) <= Cuts(ws) && |Coalesced(ws)| <= |ws|
  {
    if ws != [] {
      var init, w := ws[..|ws| - 1], ws[|ws| - 1];
      CoalescingOnlyRemovesBoundaries(init);
      CoalescingKeepsOrder(init);
      assert Coalesced(ws) == Absorb(Coalesced(init), w) && ws == init + [w];
      hide *;
      AbsorbCuts(Coalesced(init), w);
      SnocCuts(init, w);
    }
  }

  // ---- exchanges and heavy ops -----------------------------------------------------------------

  lemma {:induction false} HeavyUnion(a: Window, b: Window)
    ensures NHeavy(a + b) == NHeavy(a) + NHeavy(b)
  {
    if b == [] {
      assert a + b == a;
    } else {
      assert (a + b)[..|a + b| - 1] == a + b[..|b| - 1];
      HeavyUnion(a, b[..|b| - 1]);
    }
  }

  lemma XchgUnion(a: Window, b: Window)
    ensures HasXchg(a + b) <==> HasXchg(a) || HasXchg(b)
  {
    if HasXchg(a) {
      var k :| 0 <= k < |a| && a[k].kind in XCHG_KINDS;
      assert (a + b)[k].kind in XCHG_KINDS;
    }
    if HasXchg(b) {
      var k :| 0 <= k < |b| && b[k].kind in XCHG_KINDS;
      assert (a + b)[|a| + k].kind in XCHG_KINDS;
    }
  }

  /** A window that no merge may touch: an exchange, or two heavy ops already. */
  predicate Protected(w: Window) {
    HasXchg(w) || NHeavy(w) >= 2
  }

  function Kept(ws: seq<Window>): seq<Window> {
    if ws == [] then []
    else if Protected(ws[|ws| - 1]) then Kept(ws[..|ws| - 1]) + [ws[|ws| - 1]]
    else Kept(ws[..|ws| - 1])
  }

  /** The exchange windows and the windows with two heavy ops come out of
      coalescing exactly as they went in, in the same order, and no others of
      either sort appear. */
  lemma {:induction false} CoalescingKeepsProtected(ws: seq<Window>)
    ensures Kept(Coalesced(ws)) == Kept(ws)
  {
    if ws != [] {
      var before, w := Coalesced(ws[..|ws| - 1]), ws[|ws| - 1];
      CoalescingKeepsProtected(ws[..|ws| - 1]);
      if before != [] && Mergeable(before[|before| - 1], w) {
        var rest, last := before[..|before| - 1], before[|before| - 1];
        HeavyUnion(last, w);
        XchgUnion(last, w);
        assert (rest + [last + w])[..|rest|] == rest;
      } else {
        assert (before + [w])[..|before|] == before;
      }
    }
  }

  /** An exchange window cuts the list: what is before it and what is after it are
      coalesced each by itself. */
  lemma {:induction false} ExchangeSeparates(a: seq<Window>, x: Window, b: seq<Window>)
    requires HasXchg(x)
    ensures Coalesced(a + [x] + b) == Coalesced(a) + [x] + Coalesced(b)
  {
    hide *;
    if b == [] {
      ExchangeAlone(a, x);
      NothingCoalesced();
      assert a + [x] + b == a + [x] && Coalesced(a) + [x] + Coalesced(b) == Coalesced(a) + [x];
    } else {
      var init, w := b[..|b| - 1], b[|b| - 1];
      ExchangeSeparates(a, x, init);
      assert b == init + [w];
      SeparatesStep(a, x, init, w);
    }
  }

  lemma NothingCoalesced()
    ensures Coalesced([]) == []
  {
  }

  lemma SeparatesStep(a: seq<Window>, x: Window, init: seq<Window>, w: Window)
    requires HasXchg(x) && Coalesced(a + [x] + init) == Coalesced(a) + [x] + Coalesced(init)
    ensures Coalesced(a + [x] + (init + [w])) == Coalesced(a) + [x] + Coalesced(init + [w])
  {
    hide *;
    CoalescedSnoc(a + [x] + init, w);
    CoalescedSnoc(init, w);
    AbsorbAfter(Coalesced(a), x, Coalesced(init), w);
    assert a + [x] + (init + [w]) == (a + [x] + init) + [w];
  }

  lemma ExchangeAlone(a: seq<Window>, x: Window)
    requires HasXchg(x)
    ensures Coalesced(a + [x]) == Coalesced(a) + [x]
  {
    CoalescedSnoc(a, x);
  }

  lemma CoalescedSnoc(ws: seq<Window>, w: Window)
    ensures Coalesced(ws + [w]) == Absorb(Coalesced(ws), w)
  {
    assert (ws + [w])[..|ws|] == ws;
  }

  lemma AbsorbAfter(left: seq<Window>, x: Window, right: seq<Window>, w: Window)
    requires HasXchg(x)
    ensures Absorb(left + [x] + right, w) == left + [x] + Absorb(right, w)
  {
    hide NHeavy; hide Independent;
    var all := left + [x] + right;
    if right == [] {
      assert all == left + [x] && !Mergeable(x, w);
    } else {
      assert all[|all| - 1] == right[|right| - 1];
      assert all[..|all| - 1] == left + [x] + right[..|right| - 1];
    }
  }

  const PROJ_OUT: Buf := "proj_out"

  function Push(id: nat, est: real): Ins {
    Ins(id, "OP_XCHG_PUSH", est, {PROJ_OUT}, {})
  }

  function Fold(id: nat, est: real): Ins {
    Ins(id, "OP_XCHG_REDUCE", est, {PROJ_OUT}, {PROJ_OUT})
  }

  /** The cross-GPU fold after a column-split product: push and reduce, each in a
      window of its own; nothing on a single GPU. */
  method EmitColReduce(split: bool, prog: seq<Ins>, windows: seq<Window>, est: real)
      returns (prog': seq<Ins>, windows': seq<Window>)
    ensures !split ==> prog' == prog && windows' == windows
    ensures split ==> prog' == prog + [Ins(|prog|, "OP_XCHG_PUSH", est, {"proj_out"}, {}),
                                       Ins(|prog| + 1, "OP_XCHG_REDUCE", est, {"proj_out"}, {"proj_out"})]
    ensures split ==> Coalesced(windows') == Coalesced(windows) + [[prog'[|prog|]], [prog'[|prog| + 1]]]
  {
    prog', windows' := prog, windows;
    hide Coalesced;
    if split {
      var push := Push(|prog|, est);
      prog', windows' := prog' + [push], windows' + [[push]];
      var fold := Fold(|prog'|, est);
      prog', windows' := prog' + [fold], windows' + [[fold]];
      assert [push][0].kind in XCHG_KINDS && [fold][0].kind in XCHG_KINDS;
      ExchangeAlone(windows, [push]);
      ExchangeAlone(windows + [[push]], [fold]);
    }
  }

  // ---- a second pass finds nothing ---------------------------------------------------------------

  /** Neighbours of a fully coalesced list cannot be merged. */
  predicate Settled(ws: seq<Window>) {
    forall k :: 0 <= k < |ws| - 1 ==> !Mergeable(ws[k], ws[k + 1])
  }

  /** Dependence, heavy count and exchanges only grow with a window. */
  lemma MergeableMonotone(a: Window, b: Window, c: Window)
    requires Mergeable(a, b + c)
    ensures Mergeable(a, b)
  {
    HeavyUnion(b, c);
    XchgUnion(b, c);
    IndependentExact(a, b + c);
    IndependentExact(a, b);
    forall i, j | 0 <= i < |a| && 0 <= j < |b| ensures !Clash(a[i], b[j]) && !Clash(b[j], a[i]) {
      assert (b + c)[j] == b[j];
    }
  }

  lemma {:induction false} CoalescedIsSettled(ws: seq<Window>)
    ensures Settled(Coalesced(ws))
  {
    if ws != [] {
      var before, w := Coalesced(ws[..|ws| - 1]), ws[|ws| - 1];
      CoalescedIsSettled(ws[..|ws| - 1]);
      var after := Absorb(before, w);
      forall k | 0 <= k < |after| - 1 ensures !Mergeable(after[k], after[k + 1]) {
        assert k < |before| - 1 ==> !Mergeable(before[k], before[k + 1]);
        if k == |before| - 2 && |after| == |before| && Mergeable(after[k], after[k + 1]) {
          MergeableMonotone(before[k], before[k + 1], w);
        }
      }
    }
  }

  // ---- exactly what is joined ----------------------------------------------------------------

  /** Three reasons to keep two windows apart, said of their instructions: one is an
      exchange, one writes what one of the other window touches, or two of them
      stream half a mebibyte or more. */
  predicate Exchanges(u: Window) {
    exists k :: 0 <= k < |u| && (u[k].kind == "OP_XCHG_PUSH" || u[k].kind == "OP_XCHG_REDUCE")
  }

  predicate Touches(x: Ins, y: Ins) {
    exists c: Buf :: c in x.w + y.w && c in x.r + x.w && c in y.r + y.w
  }

  predicate Dependent(a: Window, b: Window) {
    exists i, j :: 0 <= i < |a| && 0 <= j < |b| && Touches(a[i], b[j])
  }

  predicate TwoHeavy(u: Window) {
    exists i, j :: 0 <= i < j < |u| && u[i].est >= 524288.0 && u[j].est >= 524288.0
  }

  predicate KeptApart(a: Window, b: Window) {
    Exchanges(a + b) || Dependent(a, b) || TwoHeavy(a + b)
  }

  lemma TouchesIsClash(x: Ins, y: Ins)
    ensures Touches(x, y) <==> Clash(x, y) || Clash(y, x)
  {
    if Touches(x, y) {
      var c: Buf :| c in x.w + y.w && c in x.r + x.w && c in y.r + y.w;
      assert c in x.w * (y.r + y.w) || c in y.w * (x.r + x.w);
    }
    if Clash(x, y) {
      var c: Buf :| c in x.w * (y.r + y.w);
      assert c in x.w + y.w && c in x.r + x.w;
    }
    if Clash(y, x) {
      var c: Buf :| c in y.w * (x.r + x.w);
      assert c in x.w + y.w && c in y.r + y.w;
    }
  }

  lemma DependentExact(a: Window, b: Window)
    ensures Dependent(a, b) <==> !Independent(a, b)
  {
    IndependentExact(a, b);
    forall i, j | 0 <= i < |a| && 0 <= j < |b|
      ensures Touches(a[i], b[j]) <==> Clash(a[i], b[j]) || Clash(b[j], a[i])
    {
      TouchesIsClash(a[i], b[j]);
    }
    hide Touches; hide Clash; hide Independent;
  }

  lemma {:induction false} SomeHeavy(u: Window)
    ensures NHeavy(u) >= 1 <==> exists k :: 0 <= k < |u| && u[k].est >= 524288.0
  {
    if u != [] {
      var m := |u| - 1;
      SomeHeavy(u[..m]);
      assert forall k :: 0 <= k < m ==> u[..m][k] == u[k];
    }
  }

  lemma {:induction false} TwoHeavyExact(u: Window)
    ensures NHeavy(u) >= 2 <==> TwoHeavy(u)
  {
    if u != [] {
      var m := |u| - 1;
      TwoHeavyExact(u[..m]);
      SomeHeavy(u[..m]);
      assert forall k :: 0 <= k < m ==> u[..m][k] == u[k];
    }
  }

  lemma MergeableExactly(a: Window, b: Window)
    ensures Mergeable(a, b) <==> !KeptApart(a, b)
  {
    XchgUnion(a, b);
    HeavyUnion(a, b);
    DependentExact(a, b);
    TwoHeavyExact(a + b);
    assert Exchanges(a + b) <==> HasXchg(a + b);
    hide HasXchg; hide Exchanges; hide NHeavy; hide TwoHeavy; hide Dependent; hide Independent;
  }

  /** The loop joins the next window to the last merged one exactly if there is none
      of the three reasons against it. */
  lemma JoinsExactly(ws: seq<Window>, w: Window)
    ensures var before := Coalesced(ws);
            Coalesced(ws + [w]) ==
            if before != [] && !KeptApart(before[|before| - 1], w)
            then before[..|before| - 1] + [before[|before| - 1] + w] else before + [w]
  {
    var before := Coalesced(ws);
    CoalescedSnoc(ws, w);
    if before != [] { MergeableExactly(before[|before| - 1], w); }
    hide KeptApart; hide Mergeable; hide Coalesced;
  }

  /** Between any two neighbours of the result there is one of the three reasons. */
  lemma NeighboursKeptApart(ws: seq<Window>, k: nat)
    requires k + 1 < |Coalesced(ws)|
    ensures KeptApart(Coalesced(ws)[k], Coalesced(ws)[k + 1])
  {
    CoalescedIsSettled(ws);
    MergeableExactly(Coalesced(ws)[k], Coalesced(ws)[k + 1]);
    hide KeptApart; hide Mergeable; hide Coalesced;
  }

  lemma {:induction false} SettledStays(ws: seq<Window>)
    requires Settled(ws)
    ensures Coalesced(ws) == ws
  {
    if ws != [] {
      var init := ws[..|ws| - 1];
      forall k | 0 <= k < |init| - 1 ensures !Mergeable(init[k], init[k + 1]) {
        assert !Mergeable(ws[k], ws[k + 1]);
      }
      SettledStays(init);
      assert ws == init + [ws[|ws| - 1]];
    }
  }

  /** Coalescing twice is coalescing once. */
  lemma CoalescingIsIdempotent(ws: seq<Window>)
    ensures Coalesced(Coalesced(ws)) == Coalesced(ws)
  {
    CoalescedIsSettled(ws);
    SettledStays(Coalesced(ws));
  }
}
