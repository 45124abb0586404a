/**
 * `playSound` of the editor pages: the frequencies it hands to the oscillators. Each
 * diagram contributes its unmuted notes in pre-order (`returnFrequencies`), every
 * note transposed by that diagram's pitch vector, and the diagrams follow one
 * another in order.
 */
module Playback {
  import opened PitchTree
  import opened Tuning

  /** Every note of one diagram, transposed by the diagram's pitch vector. */
  function TransposeAll(up: seq<real>, down: seq<real>, fs: seq<real>, mods: seq<int>): (r: seq<real>)
    requires |up| == 5 && |down| == 5
  {
    seq(|fs|, j requires 0 <= j < |fs| => Transpose(up, down, fs[j], mods))
  }

  /** Every element of `xs` multiplied by `u`. */
  function Scaled(xs: seq<real>, u: real): (r: seq<real>)
  {
    seq(|xs|, j requires 0 <= j < |xs| => xs[j] * u)
  }

  /** When a change of pitch vector multiplies every transposed note by `u`, it scales a diagram's playback by `u`. */
  lemma TransposeAllScaled(up: seq<real>, down: seq<real>, fs: seq<real>, p: seq<int>, p': seq<int>, u: real)
    requires |up| == 5 && |down| == 5
    requires forall f :: Transpose(up, down, f, p') == Transpose(up, down, f, p) * u
    ensures TransposeAll(up, down, fs, p') == Scaled(TransposeAll(up, down, fs, p), u)
  {
    var after, scaled := TransposeAll(up, down, fs, p'), Scaled(TransposeAll(up, down, fs, p), u);
    assert |after| == |scaled|;
    assert forall j | 0 <= j < |fs| :: after[j] == scaled[j];
  }

  /** Reference: the transposed notes of diagrams `0` to `n - 1`, in diagram order. */
  function PlayedUpTo(up: seq<real>, down: seq<real>, ds: seq<Node>, pitch: seq<seq<int>>, n: nat): seq<real>
    requires |up| == 5 && |down| == 5 && n <= |ds| && n <= |pitch|
  {
    if n == 0 then []
    else PlayedUpTo(up, down, ds, pitch, n - 1) + TransposeAll(up, down, Frequencies(ds[n - 1]), pitch[n - 1])
  }

  function Played(up: seq<real>, down: seq<real>, ds: seq<Node>, pitch: seq<seq<int>>): seq<real>
    requires |up| == 5 && |down| == 5 && |pitch| >= |ds|
  {
    PlayedUpTo(up, down, ds, pitch, |ds|)
  }

  lemma MulCongruenceRight(u: real, x: real, y: real)
    requires x == y
    ensures u * x == u * y
  {
  }

  /** The fold over the first `n + 1` factors is the fold over the first `n`, times factor `n`. */
  lemma FoldPrefix(f: real, fs: seq<real>, n: nat)
    requires n < |fs|
    ensures Fold(f, fs[..n + 1]) == Fold(f, fs[..n]) * fs[n]
  {
    assert fs[..n + 1][..n] == fs[..n];
  }

  /** One pass of the slot loop: multiply by a power of the up ratio when the slot is positive, of the down ratio when it is negative. */
  method ApplySlot(up: seq<real>, down: seq<real>, freq: real, dim: nat, mod: int) returns (r: real)
    requires dim < 5 && |up| == 5 && |down| == 5
    ensures r == freq * Factor(up, down, dim, mod)
  {
    r := freq;
    if mod > 0 {
      r := freq * Pow(up[dim], mod);
    } else if mod < 0 {
      r := freq * Pow(down[dim], -mod);
    }
  }

  /** The innermost loop of `playSound`: one note through pitch slots 1 to 4 in turn. */
  method TransposeNote(up: seq<real>, down: seq<real>, f: real, mods: seq<int>) returns (freq: real)
    requires |up| == 5 && |down| == 5
    ensures freq == Transpose(up, down, f, mods)
  {
    freq := f;
    ghost var fs := Factors(up, down, mods);
    var dim := 1;
    while dim <= 4
      invariant 1 <= dim <= 5
      invariant freq == Fold(f, fs[..dim - 1])
    {
      var mod := Slot(mods, dim);
      ghost var before := freq;
      freq := ApplySlot(up, down, freq, dim, mod);
      MulCongruenceRight(before, Factor(up, down, dim, mod), fs[dim - 1]);
      FoldPrefix(f, fs, dim - 1);
      dim := dim + 1;
    }
    assert fs[..4] == fs;
  }

  /**
   * The outer loops of `playSound`: over the diagrams, and over each diagram's
   * frequencies, which are rewritten in place.
   */
  method Playback(up: seq<real>, down: seq<real>, ds: seq<Node>, pitch: seq<seq<int>>) returns (all: seq<real>)
    requires |up| == 5 && |down| == 5 && |pitch| >= |ds|
    ensures all == Played(up, down, ds, pitch)
  {
    all := [];
    var i := 0;
    while i < |ds|
      invariant 0 <= i <= |ds|
      invariant all == PlayedUpTo(up, down, ds, pitch, i)
    {
      var frequencies := Frequencies(ds[i]);
      var mods := pitch[i];
      ghost var base := frequencies;
      var j := 0;
      while j < |frequencies|
        invariant 0 <= j <= |frequencies| == |base|
        invariant forall q | 0 <= q < j :: frequencies[q] == Transpose(up, down, base[q], mods)
        invariant forall q | j <= q < |base| :: frequencies[q] == base[q]
      {
        var freq := TransposeNote(up, down, frequencies[j], mods);
        frequencies := frequencies[j := freq];
        j := j + 1;
      }
      assert frequencies == TransposeAll(up, down, base, mods);
      all := all + frequencies;
      i := i + 1;
    }
  }

  /** Diagrams and pitch vectors after the first `n` are never read by the first `n` steps. */
  lemma {:induction false} PlayedUpToPrefix(up: seq<real>, down: seq<real>, ds: seq<Node>, pitch: seq<seq<int>>,
                                            ds': seq<Node>, pitch': seq<seq<int>>, n: nat)
    requires |up| == 5 && |down| == 5 && n <= |ds| && n <= |pitch| && n <= |ds'| && n <= |pitch'|
    requires ds[..n] == ds'[..n] && pitch[..n] == pitch'[..n]
    ensures PlayedUpTo(up, down, ds', pitch', n) == PlayedUpTo(up, down, ds, pitch, n)
  {
    if n > 0 {
      assert ds[..n - 1] == ds'[..n - 1] && pitch[..n - 1] == pitch'[..n - 1];
      PlayedUpToPrefix(up, down, ds, pitch, ds', pitch', n - 1);
      assert ds[n - 1] == ds[..n][n - 1] && ds'[n - 1] == ds'[..n][n - 1];
      assert pitch[n - 1] == pitch[..n][n - 1] && pitch'[n - 1] == pitch'[..n][n - 1];
    }
  }

  /** A new last diagram plays after all the others. */
  lemma PlayedAppend(up: seq<real>, down: seq<real>, ds: seq<Node>, pitch: seq<seq<int>>, t: Node, p: seq<int>)
    requires |up| == 5 && |down| == 5 && |pitch| == |ds|
    ensures Played(up, down, ds + [t], pitch + [p])
         == Played(up, down, ds, pitch) + TransposeAll(up, down, Frequencies(t), p)
  {
    var ds', ps := ds + [t], pitch + [p];
    assert ds'[..|ds|] == ds[..|ds|] && ps[..|ds|] == pitch[..|ds|];
    PlayedUpToPrefix(up, down, ds, pitch, ds', ps, |ds|);
    assert ds'[|ds|] == t && ps[|ds|] == p;
  }

  /** With positive ratios and positive notes, everything played is positive. */
  lemma {:induction false} PlayedPositive(up: seq<real>, down: seq<real>, ds: seq<Node>, pitch: seq<seq<int>>, n: nat)
    requires |up| == 5 && |down| == 5 && n <= |ds| && n <= |pitch|
    requires forall k | 1 <= k <= 4 :: up[k] > 0.0 && down[k] > 0.0
    requires forall i, f | 0 <= i < |ds| && f in Frequencies(ds[i]) :: f > 0.0
    ensures forall f | f in PlayedUpTo(up, down, ds, pitch, n) :: f > 0.0
  {
    if n > 0 {
      PlayedPositive(up, down, ds, pitch, n - 1);
      var fs := Frequencies(ds[n - 1]);
      var last := TransposeAll(up, down, fs, pitch[n - 1]);
      forall j | 0 <= j < |fs|
        ensures last[j] > 0.0
      {
        assert fs[j] in fs;
        TransposePositive(up, down, fs[j], pitch[n - 1]);
      }
    }
  }

}
