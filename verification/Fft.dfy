/** The in-place iterative radix-2 transform: bit-reversal table, swap pass and butterfly stages. */
module Fft {
  import opened Bits
  import opened Complex
  import opened Fourier

  /** Two real buffers read as one complex sequence. */
  function View(re: seq<real>, im: seq<real>): (z: seq<C>)
    requires |re| == |im|
    ensures |z| == |re|
    ensures forall i :: 0 <= i < |z| ==> z[i] == C(re[i], im[i])
  {
    seq(|re|, i requires 0 <= i < |re| => C(re[i], im[i]))
  }

  function Cell(z: seq<C>, size: nat, b: nat, k: nat): C
    requires b * size + k < |z|
  {
    z[b * size + k]
  }

  lemma CellInRange(blocks: nat, size: nat, b: nat, k: nat)
    requires b < blocks && k < size
    ensures b * size + k < blocks * size
  {
    assert b * size <= (blocks - 1) * size;
  }

  /** The strided subsequence of the input whose transform block `b` holds when there are `2^level` blocks. */
  ghost function BlockInput(x: seq<C>, level: nat, size: nat, b: nat): (s: seq<C>)
    requires |x| == Pow2(level) * size
    ensures |s| == size
  {
    ReverseBound(level, b);
    assert size > 0 ==> Pow2(level) * size == Pow2(level) * (size - 1) + Pow2(level);
    Strided(x, Pow2(level), Reverse(level, b), size)
  }

  /** Every block of `size` elements holds the transform of its strided subsequence of `x`. */
  ghost predicate BlocksTransformed(x: seq<C>, unit: nat -> C, z: seq<C>, level: nat, size: nat) {
    && |z| == |x| == Pow2(level) * size
    && forall b: nat, k: nat :: b < Pow2(level) && k < size ==> BlockCell(x, unit, z, level, size, b, k)
  }

  ghost predicate BlockCell(x: seq<C>, unit: nat -> C, z: seq<C>, level: nat, size: nat, b: nat, k: nat)
    requires |z| == |x| == Pow2(level) * size && b < Pow2(level) && k < size
  {
    CellInRange(Pow2(level), size, b, k);
    Cell(z, size, b, k) == Eval(BlockInput(x, level, size, b), unit(Pow2(level) * k))
  }

  function Twiddled(unit: nat -> C, c: C, step: nat, k: nat): C { Mul(c, unit(step * k)) }

  /** One stage: every block of `2 * half` elements is replaced by the butterflies of its halves. */
  ghost predicate StageApplied(unit: nat -> C, z: seq<C>, z': seq<C>, blocks: nat, half: nat) {
    && |z| == |z'| == blocks * (2 * half)
    && forall b: nat, k: nat :: b < blocks && k < half ==> PairApplied(unit, z, z', blocks, half, b, k)
  }

  ghost predicate PairApplied(unit: nat -> C, z: seq<C>, z': seq<C>, blocks: nat, half: nat, b: nat, k: nat)
    requires |z| == |z'| == blocks * (2 * half) && b < blocks && k < half
  {
    CellInRange(blocks, 2 * half, b, k);
    CellInRange(blocks, 2 * half, b, k + half);
    var t := Twiddled(unit, Cell(z, 2 * half, b, k + half), blocks, k);
    && Cell(z', 2 * half, b, k) == Add(Cell(z, 2 * half, b, k), t)
    && Cell(z', 2 * half, b, k + half) == Sub(Cell(z, 2 * half, b, k), t)
  }

  /** The first `done` blocks are butterflied, the others untouched. */
  ghost predicate StageUpTo(unit: nat -> C, z: seq<C>, z': seq<C>, blocks: nat, half: nat, done: nat) {
    && |z| == |z'| == blocks * (2 * half)
    && (forall b: nat, k: nat :: b < done && b < blocks && k < half ==> PairApplied(unit, z, z', blocks, half, b, k))
    && (forall i :: done * (2 * half) <= i < |z| ==> z'[i] == z[i])
  }

  /** Only the block of `2 * half` elements at `start` changes: the first `done` of its pairs are butterflied. */
  ghost predicate BlockUpTo(unit: nat -> C, z: seq<C>, z': seq<C>, start: nat, half: nat, step: nat, done: nat) {
    && |z| == |z'| && start + 2 * half <= |z| && done <= half
    && (forall i :: start <= i < start + done ==> z'[i] == Add(z[i], Twiddled(unit, z[i + half], step, i - start)))
    && (forall i :: start + half <= i < start + half + done ==> z'[i] == Sub(z[i - half], Twiddled(unit, z[i], step, i - start - half)))
    && (forall i :: 0 <= i < |z| && !(start <= i < start + done) && !(start + half <= i < start + half + done) ==> z'[i] == z[i])
  }

  /** Elements `a` and `b` become their sum and difference, `b` rotated by `w` first. */
  ghost predicate CrossApplied(z: seq<C>, z': seq<C>, a: nat, b: nat, w: C) {
    && |z| == |z'| && a < b < |z|
    && z'[a] == Add(z[a], Mul(z[b], w)) && z'[b] == Sub(z[a], Mul(z[b], w))
    && (forall i :: 0 <= i < |z| && i != a && i != b ==> z'[i] == z[i])
  }

  lemma BlockExtend(unit: nat -> C, z: seq<C>, y: seq<C>, z': seq<C>, start: nat, half: nat, step: nat, k: nat)
    requires k < half && BlockUpTo(unit, z, y, start, half, step, k)
    requires CrossApplied(y, z', start + k, start + k + half, unit(k * step))
    ensures BlockUpTo(unit, z, z', start, half, step, k + 1)
  {
    hide Mul, Add, Sub;
    assert Twiddled(unit, z[start + k + half], step, k) == Mul(z[start + k + half], unit(k * step)) by { assert k * step == step * k; }
    hide Twiddled;
  }

  lemma TwiddleInRange(n: nat, half: nat, step: nat, k: nat)
    requires k < half && half * step <= n / 2 && step > 0
    ensures 0 <= k * step < n / 2
  {
    assert k * step <= (half - 1) * step;
  }

  lemma StageExtend(unit: nat -> C, z: seq<C>, y: seq<C>, z': seq<C>, blocks: nat, half: nat, done: nat)
    requires half > 0 && done < blocks
    requires StageUpTo(unit, z, y, blocks, half, done)
    requires BlockUpTo(unit, y, z', done * (2 * half), half, blocks, half)
    ensures StageUpTo(unit, z, z', blocks, half, done + 1)
  {
    hide PairApplied;
    forall b: nat, k: nat | b < done + 1 && b < blocks && k < half
      ensures PairApplied(unit, z, z', blocks, half, b, k)
    {
      if b < done { PairKept(unit, z, y, z', blocks, half, done, b, k); } else { PairNew(unit, z, y, z', blocks, half, done, k); }
    }
    NextStart(done, 2 * half);
  }

  lemma NextStart(done: nat, size: nat)
    ensures (done + 1) * size == done * size + size
  {}

  /** The block after it leaves a butterflied pair as it is. */
  lemma PairKept(unit: nat -> C, z: seq<C>, y: seq<C>, z': seq<C>, blocks: nat, half: nat, done: nat, b: nat, k: nat)
    requires half > 0 && b < done < blocks && k < half
    requires StageUpTo(unit, z, y, blocks, half, done)
    requires BlockUpTo(unit, y, z', done * (2 * half), half, blocks, half)
    ensures PairApplied(unit, z, z', blocks, half, b, k)
  {
    hide Twiddled, Add, Sub;
    var size := 2 * half;
    CellInRange(blocks, size, b, k);
    CellInRange(blocks, size, b, k + half);
    CellInRange(done, size, b, k);
    CellInRange(done, size, b, k + half);
    assert PairApplied(unit, z, y, blocks, half, b, k);
  }

  lemma PairNew(unit: nat -> C, z: seq<C>, y: seq<C>, z': seq<C>, blocks: nat, half: nat, done: nat, k: nat)
    requires half > 0 && done < blocks && k < half
    requires StageUpTo(unit, z, y, blocks, half, done)
    requires BlockUpTo(unit, y, z', done * (2 * half), half, blocks, half)
    ensures PairApplied(unit, z, z', blocks, half, done, k)
  {
    hide Twiddled, Add, Sub, PairApplied;
    CellInRange(blocks, 2 * half, done, k);
    CellInRange(blocks, 2 * half, done, k + half);
    PairOfBlock(unit, z, y, z', blocks, half, done, k);
  }

  lemma PairOfBlock(unit: nat -> C, z: seq<C>, y: seq<C>, z': seq<C>, blocks: nat, half: nat, done: nat, k: nat)
    requires half > 0 && done < blocks && k < half && |z| == |y| == |z'| == blocks * (2 * half)
    requires done * (2 * half) + (k + half) < |z|
    requires forall i :: done * (2 * half) <= i < |z| ==> y[i] == z[i]
    requires BlockUpTo(unit, y, z', done * (2 * half), half, blocks, half)
    ensures PairApplied(unit, z, z', blocks, half, done, k)
  {
    hide Twiddled, Add, Sub;
    var start := done * (2 * half);
    assert z'[start + k] == Add(y[start + k], Twiddled(unit, y[start + k + half], blocks, k));
    assert z'[start + k + half] == Sub(y[start + k], Twiddled(unit, y[start + k + half], blocks, k));
  }

  lemma StageTransforms(x: seq<C>, unit: nat -> C, z: seq<C>, z': seq<C>, level: nat, half: nat)
    requires half > 0 && UnitRoots(unit, |x|)
    requires BlocksTransformed(x, unit, z, level + 1, half)
    requires StageApplied(unit, z, z', Pow2(level), half)
    ensures BlocksTransformed(x, unit, z', level, 2 * half)
  {
    hide Mul, UnitRoots;
    var blocks := Pow2(level);
    forall b: nat, k: nat | b < blocks && k < 2 * half
      ensures |x| == blocks * (2 * half) && BlockCell(x, unit, z', level, 2 * half, b, k)
    {
      StageCell(x, unit, z, z', level, half, b, if k < half then k else k - half);
    }
  }

  lemma StageCell(x: seq<C>, unit: nat -> C, z: seq<C>, z': seq<C>, level: nat, half: nat, b: nat, k: nat)
    requires half > 0 && UnitRoots(unit, |x|) && b < Pow2(level) && k < half
    requires BlocksTransformed(x, unit, z, level + 1, half)
    requires StageApplied(unit, z, z', Pow2(level), half)
    ensures BlockCell(x, unit, z', level, 2 * half, b, k)
    ensures BlockCell(x, unit, z', level, 2 * half, b, k + half)
  {
    hide Mul, UnitRoots, Eval, Strided, Add, Sub, Cell, BlockInput, BlocksTransformed;
    var blocks, first := Pow2(level), Reverse(level, b);
    assert PairApplied(unit, z, z', blocks, half, b, k);
    HalvesTransformed(x, unit, z, level, half, b, k);
    ChildInputs(x, level, half, b);
    StridedFits(blocks, first, half, |x|);
    Butterfly(x, unit, |x|, blocks, half, first, k);
    MulComm(Cell(z, 2 * half, b, k + half), unit(blocks * k));
  }

  /** The halves of a block hold the transforms of the even and the odd elements of its subsequence. */
  lemma HalvesTransformed(x: seq<C>, unit: nat -> C, z: seq<C>, level: nat, half: nat, b: nat, k: nat)
    requires half > 0 && b < Pow2(level) && k < half && BlocksTransformed(x, unit, z, level + 1, half)
    ensures |x| == |z| == Pow2(level) * (2 * half) && b * (2 * half) + (k + half) < |z|
    ensures var blocks, first := Pow2(level), Reverse(level, b);
      && first + 2 * blocks * (half - 1) < |x| && first + blocks + 2 * blocks * (half - 1) < |x|
      && Cell(z, 2 * half, b, k) == Eval(Strided(x, 2 * blocks, first, half), unit(2 * blocks * k))
      && Cell(z, 2 * half, b, k + half) == Eval(Strided(x, 2 * blocks, first + blocks, half), unit(2 * blocks * k))
  {
    hide Eval, Strided, Cell, BlockInput, Reverse;
    var blocks := Pow2(level);
    assert Pow2(level + 1) == 2 * blocks;
    assert |z| == blocks * (2 * half);
    assert BlockCell(x, unit, z, level + 1, half, 2 * b, k);
    assert BlockCell(x, unit, z, level + 1, half, 2 * b + 1, k);
    CellOfHalves(z, blocks, half, b, k);
    ChildInputs(x, level, half, b);
  }

  lemma CellOfHalves(z: seq<C>, blocks: nat, half: nat, b: nat, k: nat)
    requires |z| == blocks * (2 * half) && b < blocks && k < half
    ensures b * (2 * half) + (k + half) < |z|
    ensures (2 * b) * half + k < |z| && (2 * b + 1) * half + k < |z|
    ensures Cell(z, half, 2 * b, k) == Cell(z, 2 * half, b, k)
    ensures Cell(z, half, 2 * b + 1, k) == Cell(z, 2 * half, b, k + half)
  {
    CellInRange(blocks, 2 * half, b, k + half);
    assert (2 * b) * half == b * (2 * half);
    assert (2 * b + 1) * half == b * (2 * half) + half;
  }

  lemma ChildInputs(x: seq<C>, level: nat, half: nat, b: nat)
    requires half > 0 && |x| == Pow2(level) * (2 * half) && b < Pow2(level)
    ensures Reverse(level, b) < Pow2(level)
    ensures var blocks, first := Pow2(level), Reverse(level, b);
      && first + blocks * (2 * half - 1) < |x| && first + 2 * blocks * (half - 1) < |x|
      && first + blocks + 2 * blocks * (half - 1) < |x| && |x| == Pow2(level + 1) * half
      && BlockInput(x, level, 2 * half, b) == Strided(x, blocks, first, 2 * half)
      && BlockInput(x, level + 1, half, 2 * b) == Strided(x, 2 * blocks, first, half)
      && BlockInput(x, level + 1, half, 2 * b + 1) == Strided(x, 2 * blocks, first + blocks, half)
  {
    ReverseBound(level, b);
    ReverseChild(level, b);
    var blocks, first := Pow2(level), Reverse(level, b);
    assert Pow2(level + 1) == 2 * blocks;
    hide Strided, Pow2, Reverse;
    TwiceHalf(blocks, half);
    StridedFits(blocks, first, half, |x|);
  }

  lemma TwiceHalf(blocks: nat, half: nat)
    ensures 2 * blocks * half == blocks * (2 * half)
  {}

  lemma StridedFits(blocks: nat, first: nat, half: nat, n: nat)
    requires half > 0 && first < blocks && n == 2 * blocks * half
    ensures first + blocks * (2 * half - 1) < n && n == 2 * half * blocks
    ensures first + 2 * blocks * (half - 1) < n && first + blocks + 2 * blocks * (half - 1) < n
  {
    assert blocks * (2 * half - 1) == 2 * blocks * half - blocks;
    assert 2 * blocks * (half - 1) == 2 * blocks * half - 2 * blocks;
  }

  /** Blocks of one element: the input in bit-reversed order. */
  lemma ReversedIsTransformed(x: seq<C>, unit: nat -> C, z: seq<C>, bits: nat)
    requires |x| == |z| == Pow2(bits)
    requires forall i :: 0 <= i < |x| ==> Reverse(bits, i) < |x| && z[i] == x[Reverse(bits, i)]
    ensures BlocksTransformed(x, unit, z, bits, 1)
  {
    hide Mul;
    forall b: nat, k: nat | b < Pow2(bits) && k < 1
      ensures BlockCell(x, unit, z, bits, 1, b, k)
    {
      var s := BlockInput(x, bits, 1, b);
      assert s == [x[Reverse(bits, b)]];
      var v := unit(Pow2(bits) * k);
      assert Eval(s, v) == Add(s[0], Mul(v, Eval(s[1..], v)));
      assert s[1..] == [];
      MulUnits(v, v);
      assert b * 1 + k == b;
    }
  }

  /** One block of all elements: the transform of the input. */
  lemma OneBlockIsDft(x: seq<C>, unit: nat -> C, z: seq<C>)
    requires UnitRoots(unit, |x|) && BlocksTransformed(x, unit, z, 0, |x|)
    ensures |z| == |x| && forall k :: 0 <= k < |x| ==> z[k] == Dft(x, unit, k)
  {
    hide Mul, UnitRoots;
    forall k | 0 <= k < |x| ensures z[k] == Dft(x, unit, k) {
      assert BlockCell(x, unit, z, 0, |x|, 0, k);
      assert BlockInput(x, 0, |x|, 0) == x;
      DftIsEval(x, unit, |x|, k);
    }
  }

  class Fft {
    const n: nat
    const rev: array<int>
    const cos: array<real>
    const sin: array<real>
    ghost const bits: nat
    ghost const unit: nat -> C

    ghost predicate Valid()
      reads rev, cos, sin
    {
      && n == Pow2(bits) == rev.Length && cos.Length == sin.Length == n / 2
      && cos != sin
      && UnitRoots(unit, n)
      && (forall i :: 0 <= i < n ==> rev[i] == Reverse(bits, i))
      && (forall i :: 0 <= i < n / 2 ==> C(cos[i], sin[i]) == unit(i))
    }

    /** `unit(i)` stands for the cosine and sine of the angle `-2 pi i / n`. */
    constructor (n: nat, unit: nat -> C)
      requires IsPowerOf2(n) && UnitRoots(unit, n)
      ensures Valid() && this.n == n && this.unit == unit
      ensures fresh(rev) && fresh(cos) && fresh(sin)
      ensures forall i :: 0 <= i < n ==> 0 <= rev[i] < n && rev[rev[i]] == i
    {
      hide Mul, UnitRoots;
      var bits := CountBits(n);
      var rev := new int[n];
      for i := 0 to n
        invariant forall j :: 0 <= j < i ==> rev[j] == Reverse(bits, j)
      {
        rev[i] := ReverseIndex(bits, i);
      }
      var cos, sin := new real[n / 2], new real[n / 2];
      for i := 0 to n / 2
        invariant forall j :: 0 <= j < i ==> C(cos[j], sin[j]) == unit(j)
        invariant forall j :: 0 <= j < n ==> rev[j] == Reverse(bits, j)
      {
        cos[i], sin[i] := unit(i).re, unit(i).im;
      }
      forall i | 0 <= i < n ensures 0 <= rev[i] < n && rev[rev[i]] == i {
        ReverseBound(bits, i);
        ReverseInvolution(bits, i);
      }
      this.n, this.rev, this.cos, this.sin, this.bits, this.unit := n, rev, cos, sin, bits, unit;
    }

    /** Replaces the signal in `re`, `im` by its discrete Fourier transform. */
    method Transform(re: array<real>, im: array<real>)
      requires Valid() && re.Length == im.Length == n && re != im
      requires re != cos && re != sin && im != cos && im != sin
      modifies re, im
      ensures forall k :: 0 <= k < n ==> C(re[k], im[k]) == Dft(View(old(re[..]), old(im[..])), unit, k)
    {
      hide Mul, UnitRoots, BlocksTransformed, StageApplied, Dft, Tiled, Pow2;
      ghost var x := View(re[..], im[..]);
      Permute(re, im);
      ReversedIsTransformed(x, unit, View(re[..], im[..]), bits);
      var size: nat := 2;
      ghost var level: nat := bits;
      assert Tiled(bits, 2, n) by { TiledStart(bits); }
      while size <= n
        invariant Tiled(level, size, n)
        invariant BlocksTransformed(x, unit, View(re[..], im[..]), level, size / 2)
        decreases level
      {
        StageCount(level, size, n);
        level := level - 1;
        ghost var z := View(re[..], im[..]);
        Stage(re, im, size, Pow2(level));
        StageTransforms(x, unit, z, View(re[..], im[..]), level, size / 2);
        size := size * 2;
      }
      StageCount(level, size, n);
      OneBlockIsDft(x, unit, View(re[..], im[..]));
    }

    /** The swap pass: every element moves to its bit-reversed position, once. */
    method Permute(re: array<real>, im: array<real>)
      requires Valid() && re.Length == im.Length == n && re != im
      modifies re, im
      ensures forall i :: 0 <= i < n ==> 0 <= rev[i] < n && rev[i] == Reverse(bits, i) && re[i] == old(re[rev[i]]) && im[i] == old(im[rev[i]])
    {
      hide Mul, UnitRoots;
      forall i | 0 <= i < n ensures 0 <= rev[i] < n && rev[rev[i]] == i && rev[i] == Reverse(bits, i) {
        ReverseBound(bits, i);
        ReverseInvolution(bits, i);
      }
      hide Reverse, Pow2;
      for i := 0 to n
        invariant forall p :: 0 <= p < n && (p < i || rev[p] < i) ==> re[p] == old(re[rev[p]]) && im[p] == old(im[rev[p]])
        invariant forall p :: 0 <= p < n && p >= i && rev[p] >= i ==> re[p] == old(re[p]) && im[p] == old(im[p])
      {
        var j := rev[i];
        if i < j {
          re[i], re[j] := re[j], re[i];
          im[i], im[j] := im[j], im[i];
        }
      }
    }

    /** One pass over the buffers: butterflies of every block of `size` elements. */
    method Stage(re: array<real>, im: array<real>, size: nat, ghost blocks: nat)
      requires Valid() && re.Length == im.Length == n && re != im
      requires re != cos && re != sin && im != cos && im != sin
      requires size >= 2 && size % 2 == 0 && blocks * size == n
      modifies re, im
      ensures StageApplied(unit, View(old(re[..]), old(im[..])), View(re[..], im[..]), blocks, size / 2)
    {
      hide Mul, UnitRoots, PairApplied, BlockUpTo;
      var half, step := size / 2, n / size;
      ghost var z := View(re[..], im[..]);
      DivExact(n, size, blocks);
      var start := 0;
      ghost var b: nat := 0;
      while start < n
        invariant b <= blocks && start == b * size
        invariant StageUpTo(unit, z, View(re[..], im[..]), blocks, half, b)
      {
        if b == blocks { assert false; }
        CellInRange(blocks, size, b, size - 1);
        StepInRange(n, half, step);
        ghost var y := View(re[..], im[..]);
        Block(re, im, start, half, step);
        StageExtend(unit, z, y, View(re[..], im[..]), blocks, half, b);
        assert (b + 1) * size == start + size;
        start, b := start + size, b + 1;
      }
      if b < blocks { CellInRange(blocks, size, b, 0); assert false; }
    }

    /** The butterflies of the block of `2 * half` elements at `start`. */
    method Block(re: array<real>, im: array<real>, start: nat, half: nat, step: nat)
      requires Valid() && re.Length == im.Length == n && re != im
      requires re != cos && re != sin && im != cos && im != sin
      requires start + 2 * half <= n && half * step <= n / 2 && step > 0
      modifies re, im
      ensures BlockUpTo(unit, View(old(re[..]), old(im[..])), View(re[..], im[..]), start, half, step, half)
    {
      ghost var z := View(re[..], im[..]);
      assert BlockUpTo(unit, z, z, start, half, step, 0);
      hide Mul, UnitRoots, Reverse, Pow2, BlockUpTo, CrossApplied;
      for k := 0 to half
        invariant BlockUpTo(unit, z, View(re[..], im[..]), start, half, step, k)
      {
        TwiddleInRange(n, half, step, k);
        ghost var y := View(re[..], im[..]);
        Cross(re, im, start + k, start + k + half, cos[k * step], sin[k * step]);
        BlockExtend(unit, z, y, View(re[..], im[..]), start, half, step, k);
      }
    }
  }

  /** One butterfly, on elements `a` and `b` with the twiddle factor `(wr, wi)`. */
  method Cross(re: array<real>, im: array<real>, a: nat, b: nat, wr: real, wi: real)
    requires re != im && a < b < re.Length == im.Length
    modifies re, im
    ensures CrossApplied(View(old(re[..]), old(im[..])), View(re[..], im[..]), a, b, C(wr, wi))
  {
    var tr := re[b] * wr - im[b] * wi;
    var ti := re[b] * wi + im[b] * wr;
    assert C(tr, ti) == Mul(C(re[b], im[b]), C(wr, wi));
    hide Mul;
    re[b], im[b] := re[a] - tr, im[a] - ti;
    re[a], im[a] := re[a] + tr, im[a] + ti;
  }

  /** `2^level` blocks of `size / 2` elements cover the buffer. */
  ghost predicate Tiled(level: nat, size: nat, n: nat) {
    size >= 2 && size % 2 == 0 && Pow2(level) * (size / 2) == n
  }

  lemma TiledStart(bits: nat)
    ensures Tiled(bits, 2, Pow2(bits))
  {}

  lemma StageCount(level: nat, size: nat, n: nat)
    requires Tiled(level, size, n)
    ensures size >= 2 && size % 2 == 0
    ensures size <= n <==> level > 0
    ensures level > 0 ==> Pow2(level - 1) * size == n && Tiled(level - 1, 2 * size, n)
    ensures level == 0 ==> size / 2 == n
  {
    if level > 0 {
      Halved(Pow2(level), Pow2(level - 1), size, size / 2);
    }
  }

  lemma Halved(q: nat, p: nat, size: nat, half: nat)
    requires q == 2 * p && size == 2 * half && p > 0
    ensures q * half == p * size >= size
  {
    assert (p - 1) * size >= 0;
  }

  lemma StepInRange(n: nat, half: nat, step: nat)
    requires half > 0 && n == step * (2 * half)
    ensures half * step <= n / 2
  {
    assert n == 2 * (half * step);
  }

  lemma DivExact(n: nat, d: nat, q: nat)
    requires d > 0 && q * d == n
    ensures n / d == q
  {
    Scale(d, q - n / d);
  }

  lemma Scale(d: nat, t: int)
    requires d > 0
    ensures t >= 1 ==> d * t >= d
    ensures t <= -1 ==> d * t < 0
  {}

  method CountBits(n: nat) returns (bits: nat)
    requires IsPowerOf2(n)
    ensures Pow2(bits) == n
  {
    bits := 0;
    ghost var e: nat :| Pow2(e) == n;
    while ShiftLeft(1, bits) < n
      invariant bits <= e
      decreases e - bits
    {
      if bits == e { assert false; }
      bits := bits + 1;
    }
    if bits < e { Pow2Increases(bits, e); }
  }

  /** The bit loop of the table: collects the bits of `i` from the lowest on. */
  method ReverseIndex(bits: nat, i: nat) returns (r: nat)
    ensures r == Reverse(bits, i)
  {
    r := 0;
    for b := 0 to bits
      invariant r == ShiftLeft(Reverse(b, i), bits - b)
    {
      OrDisjoint(Reverse(b, i), Bit(i, b), bits - 1 - b);
      r := Or(r, ShiftLeft(Bit(i, b), bits - 1 - b));
      ShiftStep(Reverse(b, i), Bit(i, b), bits - 1 - b);
    }
  }

  lemma ShiftStep(a: nat, bit: nat, p: nat)
    ensures ShiftLeft(a, p + 1) + ShiftLeft(bit, p) == ShiftLeft(2 * a + bit, p)
  {
    assert (2 * a + bit) * Pow2(p) == a * (2 * Pow2(p)) + bit * Pow2(p);
  }
}
