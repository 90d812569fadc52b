/**
 * The food roulette of `components/FoodRoulette.tsx`. The wheel is a conic gradient of equal
 * slices, slice `i` spanning `[i * s, (i + 1) * s)` degrees clockwise from the top for
 * `s = 360 / n`. A spin picks the winner first, then turns the wheel forward by five full turns
 * plus whatever brings a jittered point of the winner's slice under the top pointer. The two
 * `Math.random()` draws are inputs in `[0, 1)`, and the 3000 ms timeout is the `Settle` event.
 */
module FoodRoulette {
  import opened Wrappers
  import opened JsMath

  /** `extraSpins = 360 * 5`. */
  const ExtraSpins: real := 1800.0

  /** `sliceAngle = 360 / totalItems`. */
  function SliceAngle(n: nat): (s: real)
    requires n > 0
    ensures s > 0.0 && s * (n as real) == 360.0
  {
    360.0 / (n as real)
  }

  /** `Math.floor(Math.random() * totalItems)`. */
  function WinningIndex(draw: real, n: nat): (i: nat)
    requires 0.0 <= draw < 1.0 && n > 0
    ensures i < n
    ensures (i as real) <= draw * (n as real) < (i as real) + 1.0
  {
    ScaleBounds(0.0, draw, 1.0, n as real);
    (draw * (n as real)).Floor
  }

  /** The slice under a wheel-frame angle in `[0, 360)`. */
  function SliceIndex(a: real, n: nat): (i: nat)
    requires 0.0 <= a < 360.0 && n > 0
    ensures i < n
    ensures (i as real) * SliceAngle(n) <= a < (i as real) * SliceAngle(n) + SliceAngle(n)
  {
    var s := SliceAngle(n);
    var q := a / s;
    assert q * s == a;
    ScaleBounds(0.0, a, 360.0, (n as real) / 360.0);
    assert q == a * ((n as real) / 360.0);
    var i := q.Floor;
    ScaleBounds(i as real, q, (i as real) + 1.0, s);
    i
  }

  /** An angle inside slice `i` is under no other slice. */
  lemma SliceIndexUnique(a: real, n: nat, i: nat)
    requires 0.0 <= a < 360.0 && n > 0 && i < n
    requires (i as real) * SliceAngle(n) <= a < (i as real) * SliceAngle(n) + SliceAngle(n)
    ensures SliceIndex(a, n) == i
  {
    var s := SliceAngle(n);
    var q := a / s;
    assert q * s == a;
    if q < i as real {
      ScaleBounds(q, q, i as real, s);
    }
    if q >= (i as real) + 1.0 {
      ScaleBounds((i as real) + 1.0, q, q + 1.0, s);
    }
  }

  /** The slices tile the full turn: the last one ends at 360 degrees. */
  lemma SlicesTile(n: nat, i: nat)
    requires n > 0 && i < n
    ensures (i as real) * SliceAngle(n) + SliceAngle(n) <= 360.0
  {
    var s := SliceAngle(n);
    assert ((n - 1 - i) as real) * s >= 0.0;
    assert (n as real) * s == ((i as real) + 1.0) * s + ((n - 1 - i) as real) * s;
  }

  /**
   * `targetRotation`: the turn, in `[0, 360)`, that puts the winner's slice centre
   * (`i * s + s / 2`) under the pointer, moved by a jitter of at most 40% of a slice.
   */
  function TargetRotation(i: nat, n: nat, draw: real): (t: real)
    requires i < n && 0.0 <= draw < 1.0
    ensures 0.0 < t < 360.0
    ensures (i as real) * SliceAngle(n) + 0.1 * SliceAngle(n) < 360.0 - t
    ensures 360.0 - t <= (i as real) * SliceAngle(n) + 0.9 * SliceAngle(n)
  {
    var s := SliceAngle(n);
    var itemCenterAngle := (i as real) * s + s / 2.0;
    var maxJitter := (s * 0.8) / 2.0;
    var jitter := (draw - 0.5) * 2.0 * maxJitter;
    JitterBounds(draw, s);
    assert -0.4 * s <= jitter < 0.4 * s;
    SlicesTile(n, i);
    ScaleBounds(0.0, i as real, (i as real) + 1.0, s);
    assert (i as real) * s >= 0.0;
    assert (i as real) * s + s <= 360.0;
    TargetBounds((i as real) * s, s, jitter);
    (360.0 - itemCenterAngle) + jitter
  }

  /** The target arithmetic with the slice start `p` and the jitter as plain numbers. */
  lemma TargetBounds(p: real, s: real, jitter: real)
    requires s > 0.0 && p >= 0.0 && p + s <= 360.0 && -0.4 * s <= jitter < 0.4 * s
    ensures 0.0 < (360.0 - (p + s / 2.0)) + jitter < 360.0
    ensures p + 0.1 * s < 360.0 - ((360.0 - (p + s / 2.0)) + jitter) <= p + 0.9 * s
  {
  }

  lemma JitterBounds(draw: real, s: real)
    requires 0.0 <= draw < 1.0 && s > 0.0
    ensures -0.4 * s <= (draw - 0.5) * 2.0 * ((s * 0.8) / 2.0) < 0.4 * s
  {
    var u := draw - 0.5;
    ScaleBounds(-0.5, u, 0.5, s);
    assert u * 2.0 * ((s * 0.8) / 2.0) == 0.8 * (u * s);
  }

  /** The wheel-frame angle under the top pointer when the wheel is turned `rotation` degrees clockwise. */
  function PointerAngle(rotation: real): (a: real)
    ensures 0.0 <= a < 360.0
  {
    Modulo(-rotation, 360.0)
  }

  /** A rotation congruent to the target turn puts the pointer strictly inside the winner's slice, away from its edges. */
  lemma PointerInWinnerSlice(rotation: real, i: nat, n: nat, draw: real)
    requires i < n && 0.0 <= draw < 1.0
    requires Modulo(rotation, 360.0) == TargetRotation(i, n, draw)
    ensures (i as real) * SliceAngle(n) + 0.1 * SliceAngle(n) < PointerAngle(rotation)
    ensures PointerAngle(rotation) <= (i as real) * SliceAngle(n) + 0.9 * SliceAngle(n)
    ensures SliceIndex(PointerAngle(rotation), n) == i
  {
    var t := TargetRotation(i, n, draw);
    var k := (rotation / 360.0).Floor;
    assert rotation == t + 360.0 * (k as real);
    assert -rotation == (360.0 - t) + ((-k - 1) as real) * 360.0;
    ModuloShift(360.0 - t, -k - 1, 360.0);
    SliceIndexUnique(PointerAngle(rotation), n, i);
  }

  /** The roulette's state. `pending` is the winner the scheduled timeout will announce. */
  class Wheel {
    var rotation: real
    var isSpinning: bool
    var winner: Option<string>
    var pending: Option<string>

    /** The rotation never goes negative, and a timeout is pending exactly while spinning. */
    predicate Valid()
      reads this
    {
      rotation >= 0.0 && (isSpinning <==> pending.Some?)
    }

    constructor()
      ensures Valid() && rotation == 0.0 && !isSpinning && winner.None? && pending.None?
    {
      rotation, isSpinning, winner, pending := 0.0, false, None, None;
    }

    /**
     * `spinWheel` with the two random draws. While spinning, or with no food, nothing happens.
     * Otherwise the winner is fixed at once, the wheel turns forward by at least five and less
     * than six turns to a rotation congruent to the target, and the winner is held back.
     */
    method Spin(foodList: seq<string>, draw: real, jitterDraw: real)
      requires Valid() && 0.0 <= draw < 1.0 && 0.0 <= jitterDraw < 1.0
      modifies this
      ensures Valid()
      ensures old(isSpinning) || |foodList| == 0 ==>
        rotation == old(rotation) && isSpinning == old(isSpinning) && winner == old(winner) && pending == old(pending)
      ensures !old(isSpinning) && |foodList| > 0 ==>
        var i := WinningIndex(draw, |foodList|);
        isSpinning && winner.None? && pending == Some(foodList[i])
        && Modulo(rotation, 360.0) == TargetRotation(i, |foodList|, jitterDraw)
        && old(rotation) + ExtraSpins <= rotation < old(rotation) + ExtraSpins + 360.0
    {
      var totalItems := |foodList|;
      if isSpinning || totalItems == 0 {
        return;
      }
      isSpinning := true;
      winner := None;
      var winningIndex := WinningIndex(draw, totalItems);
      var winningFood := foodList[winningIndex];
      var targetRotation := TargetRotation(winningIndex, totalItems, jitterDraw);
      var currentRotationMod := Remainder(rotation, 360.0);
      var diff := targetRotation - currentRotationMod;
      if diff < 0.0 {
        diff := diff + 360.0;
      }
      FinalCongruent(rotation, targetRotation, diff);
      rotation := rotation + ExtraSpins + diff;
      pending := Some(winningFood);
    }

    /** The 3000 ms timeout firing: the spin ends and the held-back winner is shown. */
    method Settle()
      requires Valid()
      modifies this
      ensures Valid() && rotation == old(rotation)
      ensures old(pending).Some? ==> !isSpinning && winner == old(pending) && pending.None?
      ensures old(pending).None? ==> isSpinning == old(isSpinning) && winner == old(winner) && pending.None?
    {
      if pending.Some? {
        isSpinning := false;
        winner := pending;
        pending := None;
      }
    }
  }

  /** The forward difference lands on the target modulo a full turn. */
  lemma FinalCongruent(rotation: real, target: real, diff: real)
    requires rotation >= 0.0 && 0.0 < target < 360.0
    requires var d := target - Remainder(rotation, 360.0); diff == if d < 0.0 then d + 360.0 else d
    ensures 0.0 <= diff < 360.0
    ensures Modulo(rotation + ExtraSpins + diff, 360.0) == target
  {
    RemainderIsModulo(rotation, 360.0);
    var k := (rotation / 360.0).Floor;
    assert Remainder(rotation, 360.0) == rotation - 360.0 * (k as real);
    if diff == target - Remainder(rotation, 360.0) {
      assert rotation + ExtraSpins + diff == target + ((k + 5) as real) * 360.0;
      ModuloShift(target, k + 5, 360.0);
    } else {
      assert rotation + ExtraSpins + diff == target + ((k + 6) as real) * 360.0;
      ModuloShift(target, k + 6, 360.0);
    }
  }

  /** Four foods, a first draw of 0.6 and no jitter: the third food wins and the pointer stops at its centre. */
  lemma FourFoodsExample()
    ensures WinningIndex(0.6, 4) == 2
    ensures TargetRotation(2, 4, 0.5) == 135.0
    ensures PointerAngle(1935.0) == 225.0
    ensures SliceIndex(225.0, 4) == 2
  {
    assert 0.6 * 4.0 == 2.4;
    ModuloShift(225.0, -6, 360.0);
    assert -1935.0 == 225.0 + (-6 as real) * 360.0;
    SliceIndexUnique(225.0, 4, 2);
  }
}
