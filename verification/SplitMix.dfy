/** The SplitMix64 generator that drives bootstrap resampling, on 64-bit words that wrap around. */
module SplitMix {
  import opened Powers

  const GAMMA: bv64 := 0x9E37_79B9_7F4A_7C15

  /** The output map from the advanced state. */
  function Mix(state: bv64): bv64 {
    Fold31(Scale2(Fold27(Scale1(Fold30(state)))))
  }

  function Fold30(x: bv64): bv64 { x ^ (x >> 30) }

  function Fold27(x: bv64): bv64 { x ^ (x >> 27) }

  function Fold31(x: bv64): bv64 { x ^ (x >> 31) }

  function Scale1(x: bv64): bv64 { x * 0xBF58_476D_1CE4_E5B9 }

  function Scale2(x: bv64): bv64 { x * 0x94D0_49BB_1331_11EB }

  function Next(state: bv64): bv64 { state + GAMMA }

  /** The state after `draws` draws from `seed`. */
  function Advance(seed: bv64, draws: nat): bv64 {
    if draws == 0 then seed else Next(Advance(seed, draws - 1))
  }

  /** The index into `n` slots that draw number `draw` (counted from 0) yields. */
  function IndexAt(seed: bv64, draw: nat, n: nat): (i: nat)
    requires n > 0
    ensures i < n
  {
    (Mix(Advance(seed, draw + 1)) as int) % n
  }

  class SplitMix64 {
    var state: bv64
    ghost var seed: bv64
    ghost var draws: nat

    ghost predicate Valid()
      reads this
    {
      state == Advance(seed, draws)
    }

    constructor (seed: bv64)
      ensures Valid() && this.seed == seed && draws == 0
    {
      state := seed;
      this.seed, draws := seed, 0;
    }

    method NextU64() returns (z: bv64)
      requires Valid()
      modifies this
      ensures Valid() && seed == old(seed) && draws == old(draws) + 1
      ensures z == Mix(Advance(seed, draws))
    {
      state := Next(state);
      draws := draws + 1;
      hide Next, Fold30, Fold27, Fold31, Scale1, Scale2;
      z := state;
      z := Scale1(Fold30(z));
      z := Scale2(Fold27(z));
      z := Fold31(z);
    }

    method NextIndex(n: nat) returns (i: nat)
      requires Valid() && n > 0
      modifies this
      ensures Valid() && seed == old(seed) && draws == old(draws) + 1
      ensures i == IndexAt(seed, old(draws), n) == (Mix(Advance(seed, draws)) as int) % n
    {
      var z := NextU64();
      i := (z as int) % n;
    }
  }

  lemma {:induction false} AdvanceAdd(seed: bv64, a: nat, b: nat)
    ensures Advance(Advance(seed, a), b) == Advance(seed, a + b)
  {
    if b > 0 {
      AdvanceAdd(seed, a, b - 1);
    }
  }

  // ---- The output map is a permutation of the 64-bit words

  /** Undoes `Mix`: each fold is undone by repeating it, each odd factor by its inverse modulo 2^64. */
  function Unmix(output: bv64): bv64 {
    Unfold30(Unscale1(Unfold27(Unscale2(Unfold31(output)))))
  }

  function Unfold30(x: bv64): bv64 { x ^ (x >> 30) ^ (x >> 60) }

  function Unfold27(x: bv64): bv64 { x ^ (x >> 27) ^ (x >> 54) }

  function Unfold31(x: bv64): bv64 { x ^ (x >> 31) ^ (x >> 62) }

  function Unscale1(x: bv64): bv64 { x * 0x96DE_1B17_3F11_9089 }

  function Unscale2(x: bv64): bv64 { x * 0x3196_42B2_D24D_8EC3 }

  lemma Cancel30(x: bv64)
    ensures (x ^ (x >> 30)) ^ ((x ^ (x >> 30)) >> 30) ^ ((x ^ (x >> 30)) >> 60) == x
    ensures (x ^ (x >> 30) ^ (x >> 60)) ^ ((x ^ (x >> 30) ^ (x >> 60)) >> 30) == x
  {
  }

  lemma UndoFold30(x: bv64)
    ensures Unfold30(Fold30(x)) == x
  {
    calc {
      Unfold30(Fold30(x));
      Unfold30(x ^ (x >> 30));
      (x ^ (x >> 30)) ^ ((x ^ (x >> 30)) >> 30) ^ ((x ^ (x >> 30)) >> 60);
      { Cancel30(x); }
      x;
    }
  }

  lemma RedoFold30(x: bv64)
    ensures Fold30(Unfold30(x)) == x
  {
    calc {
      Fold30(Unfold30(x));
      Fold30(x ^ (x >> 30) ^ (x >> 60));
      (x ^ (x >> 30) ^ (x >> 60)) ^ ((x ^ (x >> 30) ^ (x >> 60)) >> 30);
      { Cancel30(x); }
      x;
    }
  }

  lemma Cancel27(x: bv64)
    ensures (x ^ (x >> 27)) ^ ((x ^ (x >> 27)) >> 27) ^ ((x ^ (x >> 27)) >> 54) == x
    ensures (x ^ (x >> 27) ^ (x >> 54)) ^ ((x ^ (x >> 27) ^ (x >> 54)) >> 27) == x
  {
  }

  lemma UndoFold27(x: bv64)
    ensures Unfold27(Fold27(x)) == x
  {
    calc {
      Unfold27(Fold27(x));
      Unfold27(x ^ (x >> 27));
      (x ^ (x >> 27)) ^ ((x ^ (x >> 27)) >> 27) ^ ((x ^ (x >> 27)) >> 54);
      { Cancel27(x); }
      x;
    }
  }

  lemma RedoFold27(x: bv64)
    ensures Fold27(Unfold27(x)) == x
  {
    calc {
      Fold27(Unfold27(x));
      Fold27(x ^ (x >> 27) ^ (x >> 54));
      (x ^ (x >> 27) ^ (x >> 54)) ^ ((x ^ (x >> 27) ^ (x >> 54)) >> 27);
      { Cancel27(x); }
      x;
    }
  }

  lemma Cancel31(x: bv64)
    ensures (x ^ (x >> 31)) ^ ((x ^ (x >> 31)) >> 31) ^ ((x ^ (x >> 31)) >> 62) == x
    ensures (x ^ (x >> 31) ^ (x >> 62)) ^ ((x ^ (x >> 31) ^ (x >> 62)) >> 31) == x
  {
  }

  lemma UndoFold31(x: bv64)
    ensures Unfold31(Fold31(x)) == x
  {
    calc {
      Unfold31(Fold31(x));
      Unfold31(x ^ (x >> 31));
      (x ^ (x >> 31)) ^ ((x ^ (x >> 31)) >> 31) ^ ((x ^ (x >> 31)) >> 62);
      { Cancel31(x); }
      x;
    }
  }

  lemma RedoFold31(x: bv64)
    ensures Fold31(Unfold31(x)) == x
  {
    calc {
      Fold31(Unfold31(x));
      Fold31(x ^ (x >> 31) ^ (x >> 62));
      (x ^ (x >> 31) ^ (x >> 62)) ^ ((x ^ (x >> 31) ^ (x >> 62)) >> 31);
      { Cancel31(x); }
      x;
    }
  }

  lemma UndoScale1(x: bv64)
    ensures Unscale1(Scale1(x)) == x
  {
    calc {
      Unscale1(Scale1(x));
      Unscale1(x * 0xBF58_476D_1CE4_E5B9);
      (x * 0xBF58_476D_1CE4_E5B9) * 0x96DE_1B17_3F11_9089;
      x;
    }
  }

  lemma RedoScale1(x: bv64)
    ensures Scale1(Unscale1(x)) == x
  {
    calc {
      Scale1(Unscale1(x));
      Scale1(x * 0x96DE_1B17_3F11_9089);
      (x * 0x96DE_1B17_3F11_9089) * 0xBF58_476D_1CE4_E5B9;
      x;
    }
  }

  lemma UndoScale2(x: bv64)
    ensures Unscale2(Scale2(x)) == x
  {
    calc {
      Unscale2(Scale2(x));
      Unscale2(x * 0x94D0_49BB_1331_11EB);
      (x * 0x94D0_49BB_1331_11EB) * 0x3196_42B2_D24D_8EC3;
      x;
    }
  }

  lemma RedoScale2(x: bv64)
    ensures Scale2(Unscale2(x)) == x
  {
    calc {
      Scale2(Unscale2(x));
      Scale2(x * 0x3196_42B2_D24D_8EC3);
      (x * 0x3196_42B2_D24D_8EC3) * 0x94D0_49BB_1331_11EB;
      x;
    }
  }

  /** `Mix` and `Unmix` are inverse to each other, so `Mix` is a permutation. */
  lemma MixIsPermutation(x: bv64)
    ensures Unmix(Mix(x)) == x
    ensures Mix(Unmix(x)) == x
  {
    hide Fold30, Fold27, Fold31, Scale1, Scale2, Unfold30, Unfold27, Unfold31, Unscale1, Unscale2;
    UndoFold30(x);
    UndoScale1(Fold30(x));
    UndoFold27(Scale1(Fold30(x)));
    UndoScale2(Fold27(Scale1(Fold30(x))));
    UndoFold31(Scale2(Fold27(Scale1(Fold30(x)))));

    RedoFold31(x);
    RedoScale2(Unfold31(x));
    RedoFold27(Unscale2(Unfold31(x)));
    RedoScale1(Unfold27(Unscale2(Unfold31(x))));
    RedoFold30(Unscale1(Unfold27(Unscale2(Unfold31(x)))));
  }

  lemma MixInjective(x: bv64, y: bv64)
    requires Mix(x) == Mix(y)
    ensures x == y
  {
    hide Mix, Unmix;
    MixIsPermutation(x);
    MixIsPermutation(y);
  }

  /** The generator's published first outputs from seed 0. */
  lemma KnownOutputs()
    ensures Mix(Advance(0, 1)) == 0xE220_A839_7B1D_CDAF
    ensures Mix(Advance(0, 2)) == 0x6E78_9E6A_A1B9_65F4
    ensures Mix(Advance(0, 3)) == 0x06C4_5D18_8009_454F
  {
    var one: bv64 := Advance(0, 1);
    assert one == GAMMA;
    assert Advance(0, 2) == Next(one) && Advance(0, 3) == Next(Next(one));
  }

  // ---- No state repeats within 2^64 draws

  /** `m` modulo 2^64. */
  function Word(m: nat): bv64 {
    if m == 0 then 0 else if m % 2 == 1 then Double(Word(m / 2)) + 1 else Double(Word(m / 2))
  }

  lemma {:induction false} WordNext(m: nat)
    ensures Word(m + 1) == Word(m) + 1
  {
    if m % 2 == 1 {
      WordNext(m / 2);
      assert (m + 1) / 2 == m / 2 + 1;
    } else {
      assert (m + 1) / 2 == m / 2;
    }
  }

  /** `seed` moved on by `steps` increments, modulo 2^64. */
  function Offset(seed: bv64, steps: bv64): bv64 {
    seed + GAMMA * steps
  }

  lemma OffsetNext(seed: bv64, steps: bv64)
    ensures Offset(seed, 0) == seed
    ensures Offset(seed, steps + 1) == Next(Offset(seed, steps))
  {
  }

  lemma OffsetFixed(seed: bv64, steps: bv64)
    requires Offset(seed, steps) == seed
    ensures steps == 0
  {
    assert steps * GAMMA == 0;
    assert (steps * GAMMA) * 0xF1DE_83E1_9937_733D == steps;
  }

  /** The state after `draws` draws is seed + draws * gamma modulo 2^64. */
  lemma {:induction false} AdvanceClosedForm(seed: bv64, draws: nat)
    ensures Advance(seed, draws) == Offset(seed, Word(draws))
  {
    hide Offset, Next;
    OffsetNext(seed, 0);
    if draws > 0 {
      AdvanceClosedForm(seed, draws - 1);
      WordNext(draws - 1);
      OffsetNext(seed, Word(draws - 1));
    }
  }

  function Double(x: bv64): bv64 { 2 * x }

  function Doubled(x: bv64, times: nat): bv64
    decreases times
  {
    if times == 0 then x else Double(Doubled(x, times - 1))
  }

  lemma {:induction false} DoubledAdd(x: bv64, a: nat, b: nat)
    ensures Doubled(Doubled(x, a), b) == Doubled(x, a + b)
  {
    if b > 0 {
      DoubledAdd(x, a, b - 1);
    }
  }

  lemma {:induction false} DoubledZero(times: nat)
    ensures Doubled(0, times) == 0
  {
    if times > 0 {
      DoubledZero(times - 1);
    }
  }

  function Shift7(x: bv64): bv64 { x << 7 }

  lemma SevenDoubles(x: bv64)
    ensures Double(Double(Double(Double(Double(Double(Double(x))))))) == Shift7(x)
  {
  }

  lemma DoubledSeven(x: bv64, before: nat)
    ensures Doubled(x, before + 7) == Shift7(Doubled(x, before))
  {
    hide Double, Shift7;
    SevenDoubles(Doubled(x, before));
    calc {
      Doubled(x, before + 7);
      Double(Doubled(x, before + 6));
      Double(Double(Doubled(x, before + 5)));
      Double(Double(Double(Doubled(x, before + 4))));
      Double(Double(Double(Double(Doubled(x, before + 3)))));
      Double(Double(Double(Double(Double(Doubled(x, before + 2))))));
      Double(Double(Double(Double(Double(Double(Doubled(x, before + 1)))))));
      Shift7(Doubled(x, before));
    }
  }

  lemma Shift63(w: bv64)
    ensures Shift7(Shift7(Shift7(Shift7(Shift7(Shift7(Shift7(Shift7(Shift7(Double(w) + 1)))))))))
            == 0x8000_0000_0000_0000
  {
  }

  /** An odd word doubled 63 times is the word with only the top bit set. */
  lemma DoubledOdd(w: bv64)
    ensures Doubled(Double(w) + 1, 63) == 0x8000_0000_0000_0000
  {
    hide Shift7;
    var x := Double(w) + 1;
    Shift63(w);
    DoubledSeven(x, 0);
    DoubledSeven(x, 7);
    DoubledSeven(x, 14);
    DoubledSeven(x, 21);
    DoubledSeven(x, 28);
    DoubledSeven(x, 35);
    DoubledSeven(x, 42);
    DoubledSeven(x, 49);
    DoubledSeven(x, 56);
  }

  /** An odd word is not doubled away in fewer than 64 steps. */
  lemma OddNonZero(w: bv64, n: nat)
    requires 1 <= n <= 64
    ensures Doubled(Double(w) + 1, 64 - n) != 0
  {
    DoubledOdd(w);
    hide Double, Doubled;
    DoubledAdd(Double(w) + 1, 64 - n, n - 1);
    DoubledZero(n - 1);
  }

  lemma {:induction false} WordNonZero(d: nat, n: nat)
    requires 1 <= n <= 64 && 0 < d < Pow2(n)
    ensures Doubled(Word(d), 64 - n) != 0
  {
    hide Double;
    if d % 2 == 1 {
      OddNonZero(Word(d / 2), n);
    } else {
      WordNonZero(d / 2, n - 1);
      DoubledAdd(Word(d / 2), 1, 64 - n);
      assert Doubled(Word(d / 2), 1) == Double(Doubled(Word(d / 2), 0)) == Word(d);
    }
  }

  /** Within any 2^64 consecutive draws no output repeats. */
  lemma NoOutputRepeats(seed: bv64, i: nat, j: nat)
    requires i < j && j - i < Pow2(64)
    ensures Mix(Advance(seed, i)) != Mix(Advance(seed, j))
  {
    hide Mix, Offset, Next, Advance, Word, Pow2;
    if Mix(Advance(seed, i)) == Mix(Advance(seed, j)) {
      MixInjective(Advance(seed, i), Advance(seed, j));
      AdvanceAdd(seed, i, j - i);
      AdvanceClosedForm(Advance(seed, i), j - i);
      OffsetFixed(Advance(seed, i), Word(j - i));
      WordNonZero(j - i, 64);
    }
  }

  lemma {:induction false} DistinctStatesStayDistinct(seed: bv64, seed': bv64, draws: nat)
    requires seed != seed'
    ensures Advance(seed, draws) != Advance(seed', draws)
  {
    if draws > 0 {
      DistinctStatesStayDistinct(seed, seed', draws - 1);
    }
  }

  /** Two different seeds differ at every draw. */
  lemma DistinctSeedsDistinctOutputs(seed: bv64, seed': bv64, draws: nat)
    requires seed != seed'
    ensures Mix(Advance(seed, draws)) != Mix(Advance(seed', draws))
  {
    DistinctStatesStayDistinct(seed, seed', draws);
    if Mix(Advance(seed, draws)) == Mix(Advance(seed', draws)) {
      MixInjective(Advance(seed, draws), Advance(seed', draws));
    }
  }
}
