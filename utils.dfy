/**
 * utils.c: `xorshf96`, Marsaglia's xorshift generator over three 64-bit words kept
 * in static variables, as compiled for LP64 (unsigned long is 64 bits wide).
 */
module Utils {
  /** The generator's static state `x, y, z`. */
  datatype State = State(x: bv64, y: bv64, z: bv64)

  /** The static initializers. */
  const SEED: State := State(123456789, 362436069, 521288629)

  const ZERO: State := State(0, 0, 0)

  // The three in-place xorshifts applied to `x` at the start of each call; shifts
  // drop the bits pushed out of the 64-bit word.
  function XorShl16(x: bv64): bv64 { x ^ (x << 16) }
  function XorShr5(x: bv64): bv64 { x ^ (x >> 5) }
  function XorShl1(x: bv64): bv64 { x ^ (x << 1) }

  /** `x ^= x << 16; x ^= x >> 5; x ^= x << 1`. */
  function Scramble(x: bv64): bv64 {
    XorShl1(XorShr5(XorShl16(x)))
  }

  /** `t ^ x ^ y`, which forms the new `z`. */
  function Mix(t: bv64, a: bv64, b: bv64): bv64 {
    t ^ a ^ b
  }

  /** Mixing in the same two words again takes them back out. */
  lemma MixTwice(t: bv64, a: bv64, b: bv64)
    ensures Mix(Mix(t, a, b), a, b) == t
  {
  }

  /**
   * One call: the state after it; its `z` is the value the call returns. No
   * information is lost: `Unstep` recovers the state before the call.
   */
  function Step(s: State): (r: State)
    ensures Unstep(r) == s
  {
    UnscrambleScramble(s.x);
    MixTwice(Scramble(s.x), s.y, s.z);
    State(s.y, s.z, Mix(Scramble(s.x), s.y, s.z))
  }

  /** Undoes `XorShl16`. */
  function UnXorShl16(b: bv64): bv64 {
    var c := b ^ (b << 16);
    c ^ (c << 32)
  }

  /** Undoes `XorShr5`. */
  function UnXorShr5(b: bv64): bv64 {
    var c := b ^ (b >> 5);
    var d := c ^ (c >> 10);
    var e := d ^ (d >> 20);
    e ^ (e >> 40)
  }

  /** Undoes `XorShl1`. */
  function UnXorShl1(b: bv64): bv64 {
    var c := b ^ (b << 1);
    var d := c ^ (c << 2);
    var e := d ^ (d << 4);
    var f := e ^ (e << 8);
    var g := f ^ (f << 16);
    g ^ (g << 32)
  }

  // Each inverse is first proved on the shift written out, then carried over to the
  // named shift: the solver settles the former by rewriting, but not the latter.
  lemma UnXorShl16Expanded(a: bv64)
    ensures UnXorShl16(a ^ (a << 16)) == a
  {
  }

  lemma UnXorShr5Expanded(a: bv64)
    ensures UnXorShr5(a ^ (a >> 5)) == a
  {
  }

  lemma UnXorShl1Expanded(a: bv64)
    ensures UnXorShl1(a ^ (a << 1)) == a
  {
  }

  lemma UnXorShl16Inverse(a: bv64)
    ensures UnXorShl16(XorShl16(a)) == a
  {
    UnXorShl16Expanded(a);
  }

  lemma UnXorShr5Inverse(a: bv64)
    ensures UnXorShr5(XorShr5(a)) == a
  {
    UnXorShr5Expanded(a);
  }

  lemma UnXorShl1Inverse(a: bv64)
    ensures UnXorShl1(XorShl1(a)) == a
  {
    UnXorShl1Expanded(a);
  }

  /** The scramble undone, last shift first. */
  function Unscramble(r: bv64): bv64 {
    UnXorShl16(UnXorShr5(UnXorShl1(r)))
  }

  /** `Unscramble` is a left inverse of `Scramble`: no two words scramble alike. */
  lemma UnscrambleScramble(x: bv64)
    ensures Unscramble(Scramble(x)) == x
  {
    UnXorShl1Inverse(XorShr5(XorShl16(x)));
    UnXorShr5Inverse(XorShl16(x));
    UnXorShl16Inverse(x);
  }
  // The right inverses, proved the same way.
  lemma XorShl16Expanded(b: bv64)
    ensures XorShl16(var c := b ^ (b << 16); c ^ (c << 32)) == b
  {
  }

  lemma XorShr5Expanded(b: bv64)
    ensures XorShr5(var c := b ^ (b >> 5); var d := c ^ (c >> 10); var e := d ^ (d >> 20); e ^ (e >> 40)) == b
  {
  }

  lemma XorShl1Expanded(b: bv64)
    ensures XorShl1(var c := b ^ (b << 1); var d := c ^ (c << 2); var e := d ^ (d << 4);
                    var f := e ^ (e << 8); var g := f ^ (f << 16); g ^ (g << 32)) == b
  {
  }

  lemma XorShl16Unshift(b: bv64)
    ensures XorShl16(UnXorShl16(b)) == b
  {
    XorShl16Expanded(b);
  }

  lemma XorShr5Unshift(b: bv64)
    ensures XorShr5(UnXorShr5(b)) == b
  {
    XorShr5Expanded(b);
  }

  lemma XorShl1Unshift(b: bv64)
    ensures XorShl1(UnXorShl1(b)) == b
  {
    XorShl1Expanded(b);
  }

  /** `Unscramble` is also a right inverse: every word is the scramble of some word. */
  lemma ScrambleUnscramble(r: bv64)
    ensures Scramble(Unscramble(r)) == r
  {
    XorShl16Unshift(UnXorShr5(UnXorShl1(r)));
    XorShr5Unshift(UnXorShl1(r));
    XorShl1Unshift(r);
  }

  /** The state one call earlier. */
  function Unstep(s: State): State {
    State(Unscramble(Mix(s.z, s.x, s.y)), s.x, s.y)
  }

  /** A call is a bijection on states: `Unstep` undoes it, and `Step` undoes `Unstep`. */
  lemma StepBijective(s: State)
    ensures Unstep(Step(s)) == s
    ensures Step(Unstep(s)) == s
  {
    MixTwice(Scramble(s.x), s.y, s.z);
    UnscrambleScramble(s.x);
    ScrambleUnscramble(Mix(s.z, s.x, s.y));
    MixTwice(s.z, s.x, s.y);
  }

  /** The all-zero state is a fixed point, and it is the only state a call leads to it from. */
  lemma StepZero(s: State)
    ensures Step(s) == ZERO <==> s == ZERO
  {
    StepBijective(s);
    StepBijective(ZERO);
  }

  /** The state after `k` calls. */
  function Run(s: State, k: nat): State
    decreases k
  {
    if k == 0 then s else Run(Step(s), k - 1)
  }

  /** The values returned by the next `k` calls, in order. */
  function Outputs(s: State, k: nat): (r: seq<bv64>)
    ensures |r| == k
    decreases k
  {
    if k == 0 then [] else [Step(s).z] + Outputs(Step(s), k - 1)
  }

  /** From the all-zero state the generator stays there and returns 0 on every call;
    * from any other state it never reaches it. */
  lemma {:induction false} ZeroIsolated(s: State, k: nat)
    ensures Run(s, k) == ZERO <==> s == ZERO
    ensures s == ZERO ==> forall i :: 0 <= i < k ==> Outputs(s, k)[i] == 0
    decreases k
  {
    if k > 0 {
      StepZero(s);
      ZeroIsolated(Step(s), k - 1);
    }
  }

  /** The static variables `x, y, z`, updated in place by every call. */
  class Xorshf96 {
    var x: bv64
    var y: bv64
    var z: bv64

    function Current(): State
      reads this
    {
      State(x, y, z)
    }

    /** The state at program start. */
    constructor()
      ensures Current() == SEED
    {
      x, y, z := 123456789, 362436069, 521288629;
    }

    /** `xorshf96()`: scramble `x`, rotate the three words, and return the new `z`. */
    method Next() returns (r: bv64)
      modifies this
      ensures x == old(y) && y == old(z)
      ensures z == Mix(Scramble(old(x)), old(y), old(z))
      ensures r == z
      ensures Current() == Step(old(Current()))
    {
      x := XorShl16(x);
      x := XorShr5(x);
      x := XorShl1(x);
      var t := x;
      x := y;
      y := z;
      z := Mix(t, x, y);
      return z;
    }

    /** `k` successive calls. */
    method Draw(k: nat) returns (values: seq<bv64>)
      modifies this
      ensures values == Outputs(old(Current()), k)
      ensures Current() == Run(old(Current()), k)
    {
      values := [];
      var i := 0;
      while i < k
        invariant 0 <= i <= k
        invariant Outputs(old(Current()), k) == values + Outputs(Current(), k - i)
        invariant Run(old(Current()), k) == Run(Current(), k - i)
      {
        var v := Next();
        values := values + [v];
        i := i + 1;
      }
    }
  }

  /** Two runs of the program start from the same static state, so the first `k`
    * values they draw are the same, and are the seed's outputs. */
  method TwoRuns(k: nat) returns (first: seq<bv64>, second: seq<bv64>)
    ensures first == second == Outputs(SEED, k)
  {
    var a := new Xorshf96();
    first := a.Draw(k);
    var b := new Xorshf96();
    second := b.Draw(k);
  }
}
