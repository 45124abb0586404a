/**
 * Just-intonation steps of the chord-diagram editor: the per-dimension `multipliers`
 * table the pitch buttons read (ratio up, ratio down, vertical distance on the
 * canvas), and the transposition playback applies from a diagram's pitch vector.
 *
 * A pitch vector has five slots; slot `k` (1 to 4) counts the net steps taken in
 * dimension `k + 1`, and slot 0 is never written. Playback multiplies every note by
 * `up[k]^p[k]` (or `down[k]^|p[k]|`) for each slot.
 *
 * Arithmetic is exact (`real`); the source uses double-precision floats.
 */
module Tuning {
  import opened Opt

  /** One row of the `multipliers` table. */
  datatype Step = Step(up: real, down: real, offset: int)

  type Table = map<int, Step>

  /** src/app/editor/page.tsx and src/app/editorLiquidGlass/page.tsx. */
  const EditorTable: Table := map[
    2 := Step(3.0 / 2.0, 2.0 / 3.0, 160),
    3 := Step(5.0 / 4.0, 4.0 / 5.0, 90),
    4 := Step(7.0 / 4.0, 4.0 / 7.0, 220),
    5 := Step(11.0 / 4.0, 4.0 / 11.0, 392)]

  /** src/app/page.jsx: the same table except that dimension 5 steps by 11/8. */
  const LandingTable: Table := map[
    2 := Step(3.0 / 2.0, 2.0 / 3.0, 160),
    3 := Step(5.0 / 4.0, 4.0 / 5.0, 90),
    4 := Step(7.0 / 4.0, 4.0 / 7.0, 220),
    5 := Step(11.0 / 8.0, 8.0 / 11.0, 392)]

  /** The playback arrays, indexed by pitch slot (slot 0 is a placeholder). */
  const EditorPlayUp: seq<real> := [0.0, 3.0 / 2.0, 5.0 / 4.0, 7.0 / 4.0, 11.0 / 4.0]
  const EditorPlayDown: seq<real> := [0.0, 2.0 / 3.0, 4.0 / 5.0, 4.0 / 7.0, 4.0 / 11.0]
  const LandingPlayUp: seq<real> := [0.0, 3.0 / 2.0, 5.0 / 4.0, 7.0 / 4.0, 11.0 / 8.0]
  const LandingPlayDown: seq<real> := [0.0, 2.0 / 3.0, 4.0 / 5.0, 4.0 / 7.0, 8.0 / 11.0]

  /** `multipliers[dimension]`: missing for any dimension outside the table. */
  function Lookup(tbl: Table, d: int): Option<Step>
  {
    if d in tbl then Some(tbl[d]) else None
  }

  /** The frequency ratio of one step. */
  function Ratio(s: Step, isUp: bool): real
  {
    if isUp then s.up else s.down
  }

  /** The vertical move of one step on the canvas: up is towards smaller y. */
  function Rise(s: Step, isUp: bool): int
  {
    if isUp then -s.offset else s.offset
  }

  /** Every step goes up by more than 1, comes back down by its reciprocal and moves a positive distance. */
  predicate Reciprocal(tbl: Table)
  {
    forall d | d in tbl :: tbl[d].up > 1.0 && tbl[d].up * tbl[d].down == 1.0 && tbl[d].offset > 0
  }

  /** The playback arrays are the button table read by pitch slot: slot `k` holds dimension `k + 1`. */
  predicate Agrees(tbl: Table, up: seq<real>, down: seq<real>)
  {
    && |up| == 5 && |down| == 5
    && (forall k | 1 <= k <= 4 :: k + 1 in tbl && up[k] == tbl[k + 1].up && down[k] == tbl[k + 1].down)
  }

  /** Only dimensions 2 to 5 have a step. */
  predicate Dimensions(tbl: Table)
  {
    tbl.Keys == {2, 3, 4, 5}
  }

  lemma TablesAreReciprocal()
    ensures Reciprocal(EditorTable) && Dimensions(EditorTable)
    ensures Reciprocal(LandingTable) && Dimensions(LandingTable)
  {
  }

  lemma PlaybackAgreesWithButtons()
    ensures Agrees(EditorTable, EditorPlayUp, EditorPlayDown)
    ensures Agrees(LandingTable, LandingPlayUp, LandingPlayDown)
  {
  }

  /** The two tables differ in dimension 5 only. */
  lemma TablesDifferAtFive()
    ensures forall d | d in EditorTable && d != 5 :: d in LandingTable && LandingTable[d] == EditorTable[d]
    ensures EditorTable[5].up == 2.0 * LandingTable[5].up
  {
  }

  // ---------------------------------------------------------------------------
  // Transposition
  // ---------------------------------------------------------------------------

  /** `Math.pow(r, n)` for a natural exponent. */
  function Pow(r: real, n: nat): (p: real)
    ensures r > 0.0 ==> p > 0.0
  {
    if n == 0 then 1.0 else Pow(r, n - 1) * r
  }

  /** `pitchMods[dim]`; a slot past the end reads as `undefined`, which is neither above nor below 0. */
  function Slot(mods: seq<int>, dim: nat): int
  {
    if dim < |mods| then mods[dim] else 0
  }

  /** The factor one pitch slot contributes. */
  function Factor(up: seq<real>, down: seq<real>, dim: nat, m: int): real
    requires dim < |up| && dim < |down|
  {
    if m > 0 then Pow(up[dim], m)
    else if m < 0 then Pow(down[dim], -m)
    else 1.0
  }

  /** The factors of slots 1 to 4, in the order the playback loop applies them. */
  function Factors(up: seq<real>, down: seq<real>, mods: seq<int>): (fs: seq<real>)
    requires |up| == 5 && |down| == 5
    ensures |fs| == 4
  {
    seq(4, i requires 0 <= i < 4 => Factor(up, down, i + 1, Slot(mods, i + 1)))
  }

  /** `f` multiplied by each factor in turn, from the left. */
  function Fold(f: real, fs: seq<real>): real
  {
    if fs == [] then f else Fold(f, fs[..|fs| - 1]) * fs[|fs| - 1]
  }

  /** One note of playback: the frequency after slots 1 to 4. */
  function Transpose(up: seq<real>, down: seq<real>, f: real, mods: seq<int>): real
    requires |up| == 5 && |down| == 5
  {
    Fold(f, Factors(up, down, mods))
  }

  /** With reciprocal ratios, one more step up multiplies a slot's factor by the up ratio. */
  lemma FactorStep(up: seq<real>, down: seq<real>, dim: nat, m: int)
    requires dim < |up| && dim < |down| && up[dim] * down[dim] == 1.0
    ensures Factor(up, down, dim, m + 1) == Factor(up, down, dim, m) * up[dim]
  {
    if m < -1 {
      var n: nat := -m - 1;
      assert Pow(down[dim], n + 1) == Pow(down[dim], n) * down[dim];
      calc {
        Factor(up, down, dim, m) * up[dim];
        Pow(down[dim], n) * down[dim] * up[dim];
        Pow(down[dim], n) * (down[dim] * up[dim]);
        Pow(down[dim], n);
      }
    } else if m == -1 {
      assert Pow(down[dim], 1) == down[dim];
    }
  }

  lemma Regroup(a: real, b: real, c: real)
    ensures (a * b) * c == (a * c) * b
  {
  }

  lemma MulCongruence(x: real, y: real, u: real)
    requires x == y
    ensures x * u == y * u
  {
  }

  /** Scaling any one factor by `u` scales the whole fold by `u`. */
  lemma {:induction false} FoldScale(f: real, fs: seq<real>, k: nat, u: real, v: real)
    requires k < |fs| && v == fs[k] * u
    ensures Fold(f, fs[k := v]) == Fold(f, fs) * u
  {
    var n := |fs| - 1;
    var gs := fs[k := v];
    if k == n {
      assert gs[..n] == fs[..n];
      Regroup(Fold(f, fs[..n]), fs[n], u);
    } else {
      assert gs[..n] == fs[..n][k := v];
      FoldScale(f, fs[..n], k, u, v);
      MulCongruence(Fold(f, gs[..n]), Fold(f, fs[..n]) * u, fs[n]);
      Regroup(Fold(f, fs[..n]), u, fs[n]);
    }
  }

  /** `gs` is `fs` with factor `i` multiplied by `u`. */
  predicate Bumped(fs: seq<real>, gs: seq<real>, i: nat, u: real)
  {
    && i < |fs| == |gs| && gs[i] == fs[i] * u
    && forall j | 0 <= j < |fs| && j != i :: gs[j] == fs[j]
  }

  /** A fold whose factors agree except at `i`, where one is `u` times the other, is `u` times the other fold. */
  lemma FoldBump(f: real, fs: seq<real>, gs: seq<real>, i: nat, u: real)
    requires Bumped(fs, gs, i, u)
    ensures Fold(f, gs) == Fold(f, fs) * u
  {
    assert gs == fs[i := gs[i]];
    FoldScale(f, fs, i, u, gs[i]);
  }

  /** One step up in pitch slot `k` changes that slot's factor alone, by the up ratio. */
  lemma BumpFactors(up: seq<real>, down: seq<real>, mods: seq<int>, k: nat)
    requires |up| == 5 && |down| == 5 && 1 <= k <= 4 && k < |mods| && up[k] * down[k] == 1.0
    ensures Bumped(Factors(up, down, mods), Factors(up, down, mods[k := mods[k] + 1]), k - 1, up[k])
  {
    FactorStep(up, down, k, mods[k]);
    var raised := mods[k := mods[k] + 1];
    assert forall i | 1 <= i <= 4 && i != k :: Slot(raised, i) == Slot(mods, i);
  }

  /** `FoldBump` for every fold at once, so that a bump fact already in hand is used as it stands. */
  lemma FoldBumpAll()
    ensures forall f: real, fs: seq<real>, gs: seq<real>, i: nat, u: real {:trigger Bumped(fs, gs, i, u), Fold(f, gs)}
      | Bumped(fs, gs, i, u) :: Fold(f, gs) == Fold(f, fs) * u
  {
    forall f: real, fs: seq<real>, gs: seq<real>, i: nat, u: real | Bumped(fs, gs, i, u)
      ensures Fold(f, gs) == Fold(f, fs) * u
    {
      FoldBump(f, fs, gs, i, u);
    }
  }

  /** When raising slot `k` bumps one factor by `u`, it multiplies every transposed note by `u`. */
  lemma TransposeBumped(up: seq<real>, down: seq<real>, mods: seq<int>, k: nat, i: nat, u: real)
    requires |up| == 5 && |down| == 5 && k < |mods|
    requires Bumped(Factors(up, down, mods), Factors(up, down, mods[k := mods[k] + 1]), i, u)
    ensures forall f :: Transpose(up, down, f, mods[k := mods[k] + 1]) == Transpose(up, down, f, mods) * u
  {
    FoldBumpAll();
  }

  /** One step up in pitch slot `k` multiplies every transposed note by the slot's up ratio. */
  lemma TransposeUp(up: seq<real>, down: seq<real>, f: real, mods: seq<int>, k: nat)
    requires |up| == 5 && |down| == 5 && 1 <= k <= 4 && k < |mods| && up[k] * down[k] == 1.0
    ensures Transpose(up, down, f, mods[k := mods[k] + 1]) == Transpose(up, down, f, mods) * up[k]
  {
    BumpFactors(up, down, mods, k);
    TransposeBumped(up, down, mods, k, k - 1, up[k]);
  }

  /** One step down in pitch slot `k` multiplies every transposed note by the slot's down ratio. */
  lemma TransposeDown(up: seq<real>, down: seq<real>, f: real, mods: seq<int>, k: nat)
    requires |up| == 5 && |down| == 5 && 1 <= k <= 4 && k < |mods| && up[k] * down[k] == 1.0
    ensures Transpose(up, down, f, mods[k := mods[k] - 1]) == Transpose(up, down, f, mods) * down[k]
  {
    var lowered := mods[k := mods[k] - 1];
    assert lowered[k := lowered[k] + 1] == mods;
    TransposeUp(up, down, f, lowered, k);
    var t := Transpose(up, down, f, lowered);
    calc {
      Transpose(up, down, f, mods) * down[k];
      t * up[k] * down[k];
      t * (up[k] * down[k]);
      t;
    }
  }

  /** One step up in slot `k` multiplies every transposed note by `u`, the slot's up ratio. */
  lemma TransposeRaise(up: seq<real>, down: seq<real>, p: seq<int>, k: nat, u: real)
    requires |up| == 5 && |down| == 5 && 1 <= k <= 4 && k < |p| && up[k] * down[k] == 1.0 && u == up[k]
    ensures forall f :: Transpose(up, down, f, p[k := p[k] + 1]) == Transpose(up, down, f, p) * u
  {
    forall f
      ensures Transpose(up, down, f, p[k := p[k] + 1]) == Transpose(up, down, f, p) * u
    {
      TransposeUp(up, down, f, p, k);
    }
  }

  /** One step down in slot `k` multiplies every transposed note by `u`, the slot's down ratio. */
  lemma TransposeLower(up: seq<real>, down: seq<real>, p: seq<int>, k: nat, u: real)
    requires |up| == 5 && |down| == 5 && 1 <= k <= 4 && k < |p| && up[k] * down[k] == 1.0 && u == down[k]
    ensures forall f :: Transpose(up, down, f, p[k := p[k] - 1]) == Transpose(up, down, f, p) * u
  {
    forall f
      ensures Transpose(up, down, f, p[k := p[k] - 1]) == Transpose(up, down, f, p) * u
    {
      TransposeDown(up, down, f, p, k);
    }
  }

  /** Factors of 1 leave the frequency unchanged. */
  lemma {:induction false} FoldOnes(f: real, fs: seq<real>)
    requires forall i | 0 <= i < |fs| :: fs[i] == 1.0
    ensures Fold(f, fs) == f
  {
    if fs != [] {
      FoldOnes(f, fs[..|fs| - 1]);
    }
  }

  /** An all-zero pitch vector leaves every note where it is. */
  lemma TransposeAtRest(up: seq<real>, down: seq<real>, f: real)
    requires |up| == 5 && |down| == 5
    ensures Transpose(up, down, f, [0, 0, 0, 0, 0]) == f
  {
    FoldOnes(f, Factors(up, down, [0, 0, 0, 0, 0]));
  }

  lemma Positive(a: real, b: real)
    requires a > 0.0 && b > 0.0
    ensures a * b > 0.0
  {
  }

  /** Positive factors keep a positive frequency positive. */
  lemma {:induction false} FoldPositive(f: real, fs: seq<real>)
    requires f > 0.0 && forall i | 0 <= i < |fs| :: fs[i] > 0.0
    ensures Fold(f, fs) > 0.0
  {
    if fs != [] {
      FoldPositive(f, fs[..|fs| - 1]);
      Positive(Fold(f, fs[..|fs| - 1]), fs[|fs| - 1]);
    }
  }

  /** With positive ratios, a positive frequency stays positive. */
  lemma TransposePositive(up: seq<real>, down: seq<real>, f: real, mods: seq<int>)
    requires |up| == 5 && |down| == 5 && f > 0.0
    requires forall k | 1 <= k <= 4 :: up[k] > 0.0 && down[k] > 0.0
    ensures Transpose(up, down, f, mods) > 0.0
  {
    FoldPositive(f, Factors(up, down, mods));
  }

}
