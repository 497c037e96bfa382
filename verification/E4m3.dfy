// The E4M3FN word format: eight bits of sign, exponent and fraction whose
// finite values reach 448, and the search that rounds a value to its word.
module E4m3 {
  import opened Optional

  type Magnitude = x: real | x >= 0.0

  // A float with its sign kept apart, so that zero has one too.
  datatype Float = NotANumber | Infinite(negative: bool) | Finite(negative: bool, magnitude: Magnitude)

  const FP8_MAX: real := 448.0

  // The largest finite magnitude word; the one after it is not a number.
  const TOP: nat := 126

  // ---- Decoding -----------------------------------------------------------------------

  function TwoTo(n: nat): (p: nat)
    ensures p > 0
  {
    if n == 0 then 1 else 2 * TwoTo(n - 1)
  }

  // Subnormals count in steps of 2^-9, everything else scales 2^(exponent - 7).
  function DecodeFields(negative: bool, exponent: nat, fraction: nat): (number: Option<Float>)
    ensures number.Some? ==> number.value.Finite?
  {
    if exponent == 0 && fraction == 0 then Some(Finite(negative, 0.0))
    else if exponent == 0 then Some(Finite(negative, fraction as real / 512.0))
    else if exponent == 15 && fraction == 7 then None
    else Some(Finite(negative, Significand(fraction, TwoTo(exponent))))
  }

  function Significand(fraction: nat, power: nat): Magnitude {
    (1.0 + fraction as real / 8.0) * power as real / 128.0
  }

  function Decode(code: nat): (number: Option<Float>)
    requires code < 256
    ensures number.Some? ==> number.value.Finite?
  {
    DecodeFields(code >= 128, code / 8 % 16, code % 8)
  }

  // What a magnitude word stands for, counted in the smallest step 1/512.
  function Units(m: nat): nat {
    if m < 8 then m else (8 + m % 8) * TwoTo(m / 8 - 1)
  }

  function Steps(units: nat): Magnitude {
    units as real / 512.0
  }

  function Value(m: nat): Magnitude {
    Steps(Units(m))
  }

  // The step from a word to the next: one unit among the subnormals, then
  // doubling with every exponent.
  function Step(m: nat): (step: nat)
    ensures step > 0
  {
    if m < 8 then 1 else TwoTo(m / 8 - 1)
  }

  lemma UnitsStep(m: nat)
    ensures Units(m + 1) == Units(m) + Step(m)
  {
    hide TwoTo;
    if m == 7 {
      TwoToZero();
    } else if m > 7 {
      var e, f, t := m / 8, m % 8, TwoTo(m / 8 - 1);
      Doubled(e);
      NextFraction(f, t);
      NextPlace(m, e, f);
    }
  }

  lemma TwoToZero()
    ensures TwoTo(0) == 1
  {
  }

  lemma NextPlace(m: nat, e: nat, f: nat)
    requires e == m / 8 && f == m % 8
    ensures if f < 7 then (m + 1) / 8 == e && (m + 1) % 8 == f + 1 else (m + 1) / 8 == e + 1 && (m + 1) % 8 == 0
  {
  }

  lemma NextFraction(f: nat, t: nat)
    requires f <= 7
    ensures (8 + (f + 1)) * t == (8 + f) * t + t
    ensures f == 7 ==> 8 * (2 * t) == (8 + f) * t + t
  {
  }

  lemma {:induction false} UnitsIncrease(m: nat, n: nat)
    requires m < n
    ensures Units(m) < Units(n)
    decreases n
  {
    hide Units;
    UnitsStep(n - 1);
    if m == n - 1 {
    } else {
      UnitsIncrease(m, n - 1);
    }
  }

  lemma ValuesIncrease(m: nat, n: nat)
    requires m < n
    ensures Value(m) < Value(n)
  {
    hide Units;
    UnitsIncrease(m, n);
  }

  lemma Exponents()
    ensures TwoTo(14) == 16384
  {
    assert TwoTo(3) == 8;
    assert TwoTo(6) == 64;
    assert TwoTo(9) == 512;
    assert TwoTo(12) == 4096;
  }

  lemma TopIsMax()
    ensures Value(0) == 0.0 && Value(TOP) == FP8_MAX
  {
    Exponents();
    assert Units(TOP) == 14 * TwoTo(14);
  }

  lemma Normal(fraction: nat, power: nat, half: nat)
    requires power == 2 * half
    ensures Significand(fraction, power) == Steps((8 + fraction) * half)
  {
    var f, h := fraction as real, half as real;
    assert ((8 + fraction) * half) as real == (8.0 + f) * h;
    assert power as real == 2.0 * h;
    assert (1.0 + f / 8.0) * (2.0 * h) == (8.0 + f) * h / 4.0;
  }

  // A word is a sign and a magnitude word, and only 0x7f and 0xff are no number.
  lemma DecodeMeaning(code: nat)
    requires code < 256
    ensures Decode(code) ==
      if code % 128 == TOP + 1 then None else Some(Finite(code >= 128, Value(code % 128)))
  {
    hide DecodeFields, Value;
    var m := code % 128;
    assert code / 8 % 16 == m / 8 && code % 8 == m % 8;
    DecodeFieldsMeaning(code >= 128, m, m / 8, m % 8);
  }

  lemma DecodeFieldsMeaning(negative: bool, m: nat, exponent: nat, fraction: nat)
    requires m < 128 && exponent == m / 8 && fraction == m % 8
    ensures DecodeFields(negative, exponent, fraction) ==
      if m == TOP + 1 then None else Some(Finite(negative, Value(m)))
  {
    hide TwoTo, DecodeFields, Steps;
    if exponent == 0 {
      SubnormalFields(negative, fraction);
    } else if m <= TOP {
      NormalFields(negative, exponent, fraction);
    } else {
      NoNumber(negative);
    }
  }

  lemma NoNumber(negative: bool)
    ensures DecodeFields(negative, 15, 7).None?
  {
  }

  lemma SubnormalFields(negative: bool, fraction: nat)
    ensures DecodeFields(negative, 0, fraction) == Some(Finite(negative, Steps(fraction)))
  {
  }

  lemma NormalFields(negative: bool, exponent: nat, fraction: nat)
    requires exponent > 0 && (exponent != 15 || fraction != 7)
    ensures DecodeFields(negative, exponent, fraction)
      == Some(Finite(negative, Steps((8 + fraction) * TwoTo(exponent - 1))))
  {
    Doubled(exponent);
    hide TwoTo, Significand, Steps;
    Normal(fraction, TwoTo(exponent), TwoTo(exponent - 1));
  }

  lemma Doubled(n: nat)
    requires n > 0
    ensures TwoTo(n) == 2 * TwoTo(n - 1)
  {
  }

  // ---- Rounding -------------------------------------------------------------------------

  function Apart(x: real, y: real): (d: real)
    ensures d >= 0.0
  {
    if x < y then y - x else x - y
  }

  // m is nearest to x among the finite magnitude words, and even where another
  // word is as near.
  ghost predicate Nearest(x: real, m: nat) {
    m <= TOP && forall k :: 0 <= k <= TOP && k != m ==> Beats(x, m, k)
  }

  predicate Beats(x: real, m: nat, k: nat) {
    var mine, other := Apart(x, Value(m)), Apart(x, Value(k));
    mine < other || (mine == other && m % 2 == 0)
  }

  // A word with a smaller one on either side of it is beaten by neither unless
  // they are neighbours.
  lemma TiesAreNeighbours(x: real, m: nat, k: nat)
    requires m < k <= TOP && Apart(x, Value(m)) == Apart(x, Value(k))
    requires forall j :: 0 <= j <= TOP ==> Apart(x, Value(m)) <= Apart(x, Value(j))
    ensures k == m + 1
  {
    hide Value;
    ValuesIncrease(m, k);
    if m + 1 < k {
      ValuesIncrease(m, m + 1);
      ValuesIncrease(m + 1, k);
    }
  }

  lemma NearestIsUnique(x: real, m: nat, k: nat)
    requires Nearest(x, m) && Nearest(x, k)
    ensures m == k
  {
    hide Value, Apart;
    NoLaterNearest(x, m, k);
    NoLaterNearest(x, k, m);
  }

  lemma NoLaterNearest(x: real, m: nat, k: nat)
    requires Nearest(x, m) && Nearest(x, k)
    ensures k <= m
  {
    hide Value, Apart;
    if m < k {
      assert Beats(x, m, k) && Beats(x, k, m);
      forall j | 0 <= j <= TOP
        ensures Apart(x, Value(m)) <= Apart(x, Value(j))
      {
        assert j != m ==> Beats(x, m, j);
      }
      TiesAreNeighbours(x, m, k);
    }
  }

  // The search over the first n magnitude words.
  function Closest(x: real, n: nat): (m: nat)
    requires 1 <= n <= TOP + 1
    ensures m < n
  {
    if n == 1 then 0
    else
      var best := Closest(x, n - 1);
      var mine, other := Apart(x, Value(n - 1)), Apart(x, Value(best));
      if mine < other || (mine == other && (n - 1) % 2 == 0) then n - 1 else best
  }

  // Saturated to the finite range.
  function Clamp(x: Magnitude): Magnitude {
    if x > FP8_MAX then FP8_MAX else x
  }

  // Encoding keeps the sign, saturates at 448 and refuses what is not finite.
  function Encode(value: Float): Option<nat> {
    if !value.Finite? then None
    else Some((if value.negative then 128 else 0) + Closest(Clamp(value.magnitude), TOP + 1))
  }

  // The best so far is at least as near as every earlier word, and even if an
  // even one is as near.
  ghost predicate BestOf(x: real, m: nat, n: nat) {
    forall k :: 0 <= k < n ==>
      Apart(x, Value(m)) < Apart(x, Value(k))
      || (Apart(x, Value(m)) == Apart(x, Value(k)) && (k % 2 == 0 ==> m % 2 == 0))
  }

  lemma {:induction false} ClosestIsBest(x: real, n: nat)
    requires 1 <= n <= TOP + 1
    ensures BestOf(x, Closest(x, n), n)
  {
    hide Value, Apart;
    if n == 1 {
    } else {
      ClosestIsBest(x, n - 1);
    }
  }

  lemma BestIsNearest(x: real, m: nat)
    requires m <= TOP && BestOf(x, m, TOP + 1)
    ensures Nearest(x, m)
  {
    hide Value, Apart;
    forall k | 0 <= k <= TOP && k != m
      ensures Beats(x, m, k)
    {
      if Apart(x, Value(m)) == Apart(x, Value(k)) {
        if m < k {
          TiesAreNeighbours(x, m, k);
        } else {
          TiesAreNeighbours(x, k, m);
        }
      }
    }
  }

  lemma ClosestIsNearest(x: real, m: nat)
    ensures Closest(x, TOP + 1) == m <==> Nearest(x, m)
  {
    hide Nearest, BestOf, Closest;
    ClosestIsBest(x, TOP + 1);
    BestIsNearest(x, Closest(x, TOP + 1));
    if Nearest(x, m) {
      NearestIsUnique(x, m, Closest(x, TOP + 1));
    }
  }

  // A finite value encodes to the word of its own sign that is nearest to it
  // once saturated, the even one of two as near.
  lemma EncodeMeaning(value: Float, code: nat)
    ensures Encode(value) == Some(code) <==>
      && value.Finite? && code < 256 && (code >= 128) == value.negative
      && Nearest(Clamp(value.magnitude), code % 128)
  {
    hide Nearest, Closest, Clamp;
    if value.Finite? {
      var x := Clamp(value.magnitude);
      ClosestIsNearest(x, code % 128);
      ClosestIsNearest(x, Closest(x, TOP + 1));
    }
  }

  // ---- The search over all words -----------------------------------------------------------

  function Signed(value: Float): real
    requires value.Finite?
  {
    var x: real := value.magnitude;
    if value.negative then -x else x
  }

  // A real number as a float, zero without a sign.
  function FloatOf(x: real): Float {
    Finite(x < 0.0, Size(x))
  }

  function Size(x: real): Magnitude {
    if x < 0.0 then -x else x
  }

  lemma FloatIsSigned(x: real)
    ensures FloatOf(x).Finite? && Signed(FloatOf(x)) == x
  {
  }

  function Word(code: nat): Float {
    Finite(code >= 128, Value(code % 128))
  }

  function Distance(value: Float, represented: Float): real
    requires value.Finite? && represented.Finite?
  {
    Apart(Signed(value), Signed(represented))
  }

  // Words the search considers: a zero only with the value's own sign.
  predicate Candidate(negative: bool, code: nat) {
    code < 256 && code % 128 <= TOP && (code % 128 == 0 ==> (code >= 128) == negative)
  }

  ghost predicate BestWord(value: Float, best: nat, n: nat)
    requires value.Finite?
  {
    && Candidate(value.negative, best)
    && forall k :: 0 <= k < n && Candidate(value.negative, k) ==>
        Distance(value, Word(best)) < Distance(value, Word(k))
        || (Distance(value, Word(best)) == Distance(value, Word(k)) && (k % 2 == 0 ==> best % 2 == 0))
  }

  method EncodeE4m3(value: Float) returns (code: Option<nat>)
    ensures code == Encode(value)
  {
    hide Closest, Decode, Value, Apart, Encode;
    if !value.Finite? {
      EncodeRefuses(value);
      return None;
    }
    if value.magnitude == 0.0 {
      EncodeZero(value.negative);
      return Some(if value.negative then 128 else 0);
    }
    var clamped := Finite(value.negative, Clamp(value.magnitude));
    var best: nat := 0;
    var bestDistance: Option<real> := None;
    for c := 0 to 256
      invariant bestDistance.None? ==> forall k :: 0 <= k < c ==> !Candidate(clamped.negative, k)
      invariant bestDistance.Some? ==>
        BestWord(clamped, best, c) && bestDistance.value == Distance(clamped, Word(best))
    {
      DecodeMeaning(c);
      ZeroWord(c);
      if c == 0x7f || c == 0xff {
        continue;
      }
      var represented := Decode(c).value;
      if represented.magnitude == 0.0 && represented.negative != clamped.negative {
        continue;
      }
      var distance := Distance(clamped, represented);
      if bestDistance.None? || distance < bestDistance.value || (distance == bestDistance.value && c % 2 == 0) {
        best := c;
        bestDistance := Some(distance);
      }
    }
    assert Candidate(clamped.negative, 1);
    BestWordIsEncoded(value, best);
    code := Some(best);
  }

  lemma EncodeRefuses(value: Float)
    requires !value.Finite?
    ensures Encode(value).None?
  {
  }

  // Only the two signed zeros have no magnitude.
  lemma ZeroWord(code: nat)
    ensures Value(code % 128) == 0.0 <==> code % 128 == 0
  {
    hide Value;
    TopIsMax();
    if code % 128 > 0 {
      ValuesIncrease(0, code % 128);
    }
  }

  lemma EncodeZero(negative: bool)
    ensures Encode(Finite(negative, 0.0)) == Some(if negative then 128 else 0)
  {
    hide Value, Encode, Closest;
    TopIsMax();
    ValueIsNearest(0);
    EncodeMeaning(Finite(negative, 0.0), if negative then 128 else 0);
  }

  lemma ValueIsNearest(m: nat)
    requires m <= TOP
    ensures Nearest(Value(m), m)
  {
    hide Value;
    forall k | 0 <= k <= TOP && k != m
      ensures Beats(Value(m), m, k)
    {
      if m < k {
        ValuesIncrease(m, k);
      } else {
        ValuesIncrease(k, m);
      }
    }
  }

  function SignBit(negative: bool): nat {
    if negative then 128 else 0
  }

  // Words of the value's own sign are as far away as their magnitudes are.
  lemma OwnSign(negative: bool, x: Magnitude, k: nat)
    requires k <= TOP
    ensures var code := SignBit(negative) + k;
      && Candidate(negative, code) && code % 2 == k % 2
      && Distance(Finite(negative, x), Word(code)) == Apart(x, Value(k))
  {
    hide Value;
    var code := SignBit(negative) + k;
    assert code % 128 == k && (code >= 128) == negative;
  }

  // Zero of the value's own sign is nearer than any word of the other sign.
  lemma BestHasOwnSign(negative: bool, x: Magnitude, best: nat)
    requires x > 0.0 && BestWord(Finite(negative, x), best, 256)
    ensures best == SignBit(negative) + best % 128
  {
    hide Value;
    TopIsMax();
    ZeroWord(best);
    OwnSign(negative, x, 0);
    assert (best >= 128) == negative;
  }

  lemma BestWordIsEncoded(value: Float, best: nat)
    requires value.Finite? && value.magnitude > 0.0
    requires BestWord(Finite(value.negative, Clamp(value.magnitude)), best, 256)
    ensures Encode(value) == Some(best)
  {
    hide Value, Apart, Nearest, Encode, Distance, Word;
    var x, m := Clamp(value.magnitude), best % 128;
    BestHasOwnSign(value.negative, x, best);
    OwnSign(value.negative, x, m);
    forall k | 0 <= k <= TOP
      ensures Apart(x, Value(m)) < Apart(x, Value(k))
        || (Apart(x, Value(m)) == Apart(x, Value(k)) && (k % 2 == 0 ==> m % 2 == 0))
    {
      OwnSign(value.negative, x, k);
    }
    BestIsNearest(x, m);
    EncodeMeaning(value, best);
  }

  // ---- What rounding keeps ---------------------------------------------------------------

  // Every word that is a number encodes back to itself, both zeros included.
  lemma RoundTrip(code: nat)
    requires code < 256 && Decode(code).Some?
    ensures Encode(Decode(code).value) == Some(code)
  {
    hide Value, Encode, Decode, Nearest;
    var m := code % 128;
    DecodeMeaning(code);
    ValueIsNearest(m);
    TopIsMax();
    if m < TOP {
      ValuesIncrease(m, TOP);
    }
    EncodeMeaning(Decode(code).value, code);
  }

  // Whatever is at least 448 in magnitude gets the largest word of its sign.
  lemma Saturates(value: Float)
    requires value.Finite? && value.magnitude >= FP8_MAX
    ensures Encode(value) == Some(if value.negative then 0xfe else 0x7e)
    ensures Decode(0x7e) == Some(Finite(false, 448.0)) && Decode(0xfe) == Some(Finite(true, 448.0))
  {
    hide Value, Encode, Decode, Nearest;
    TopIsMax();
    ValueIsNearest(TOP);
    DecodeMeaning(0x7e);
    DecodeMeaning(0xfe);
    EncodeMeaning(value, if value.negative then 0xfe else 0x7e);
  }

  lemma NearestMonotone(x: real, y: real, m: nat, k: nat)
    requires x <= y && Nearest(x, m) && Nearest(y, k)
    ensures m <= k
  {
    hide Value;
    if k < m {
      ValuesIncrease(k, m);
      assert Beats(x, m, k) && Beats(y, k, m);
      assert x == y;
      NearestIsUnique(x, m, k);
    }
  }

  // Rounding never reorders values.
  lemma EncodeMonotone(v: Float, w: Float)
    requires v.Finite? && w.Finite? && Signed(v) <= Signed(w)
    ensures Signed(Word(Encode(v).value)) <= Signed(Word(Encode(w).value))
  {
    hide Value, Encode, Nearest, Closest;
    EncodeIsSome(v);
    EncodeIsSome(w);
    var a, b := Encode(v).value, Encode(w).value;
    EncodeMeaning(v, a);
    EncodeMeaning(w, b);
    if v.negative == w.negative {
      if v.negative {
        NearestMonotone(Clamp(w.magnitude), Clamp(v.magnitude), b % 128, a % 128);
        ValuesOrdered(b % 128, a % 128);
      } else {
        NearestMonotone(Clamp(v.magnitude), Clamp(w.magnitude), a % 128, b % 128);
        ValuesOrdered(a % 128, b % 128);
      }
    } else if w.negative {
      EncodeZero(v.negative);
      EncodeZero(w.negative);
      TopIsMax();
    }
  }

  lemma EncodeIsSome(value: Float)
    requires value.Finite?
    ensures Encode(value).Some?
  {
  }

  lemma ValuesOrdered(m: nat, n: nat)
    requires m <= n
    ensures Value(m) <= Value(n)
  {
    hide Value;
    if m < n {
      ValuesIncrease(m, n);
    }
  }

  // The word below a value of the finite range.
  lemma {:induction false} Bracket(x: real, n: nat) returns (k: nat)
    requires 0 < n <= TOP && 0.0 <= x <= Value(n)
    ensures k < n && Value(k) <= x <= Value(k + 1)
  {
    hide Value;
    if n == 1 || Value(n - 1) <= x {
      TopIsMax();
      return n - 1;
    }
    k := Bracket(x, n - 1);
  }

  lemma HalfStep(k: nat, x: real)
    requires Value(k) <= x <= Value(k + 1)
    ensures Apart(x, Value(k)) <= x / 16.0 || Apart(x, Value(k + 1)) <= x / 16.0
      || Apart(x, Value(k)) <= 1.0 / 1024.0 || Apart(x, Value(k + 1)) <= 1.0 / 1024.0
  {
    UnitsStep(k);
    if k >= 8 {
      StepIsRelative(k);
    }
    hide Units, Step;
    var u, s := Units(k) as real, Step(k) as real;
    assert Value(k) == u / 512.0 && Value(k + 1) == (u + s) / 512.0;
  }

  lemma StepIsRelative(k: nat)
    requires k >= 8
    ensures 8 * Step(k) <= Units(k)
  {
    var f, t := k % 8, Step(k);
    assert Units(k) == (8 + f) * t;
    assert (8 + f) * t == 8 * t + f * t;
  }

  // Within the finite range rounding moves a value by at most a sixteenth of
  // itself, or by half the smallest step.
  lemma RoundingError(value: Float)
    requires value.Finite? && value.magnitude <= FP8_MAX
    ensures var error := Distance(value, Word(Encode(value).value));
      error <= value.magnitude / 16.0 || error <= 1.0 / 1024.0
  {
    hide Value, Encode, Closest;
    var x := value.magnitude;
    EncodeIsSome(value);
    var code := Encode(value).value;
    EncodeMeaning(value, code);
    TopIsMax();
    var k := Bracket(x, TOP);
    HalfStep(k, x);
    var m := code % 128;
    assert k != m ==> Beats(x, m, k);
    assert k + 1 != m ==> Beats(x, m, k + 1);
    assert Distance(value, Word(code)) == Apart(x, Value(m));
  }
}
