/** The checkout page: the client-side points discount and the use-points toggle. */
module Payment {
  import opened Common
  import opened Orders

  /** The total shown after the points discount: with points in use and at
      least ten of them, every full ten points take 10 000 off, never below zero. */
  function DiscountedTotal(total: int, customerPoints: int, usePoints: bool): (r: int)
    ensures !(usePoints && customerPoints >= 10) ==> r == total
    ensures usePoints && customerPoints >= 10 ==>
      (total >= 0 ==> 0 <= r <= total) && (total < 0 ==> r == 0) &&
      (total >= customerPoints / 10 * 10000 ==> r == total - customerPoints / 10 * 10000) &&
      (total < customerPoints / 10 * 10000 ==> r == 0)
  {
    if usePoints && customerPoints >= 10 then
      var maxDiscount := Min(customerPoints / 10 * 10000, total);
      total - maxDiscount
    else
      total
  }

  /** The page shows the amount the back end will charge: for every total and
      points balance, the client's discounted total equals the final amount of
      order creation. */
  lemma {:induction false} DiscountAgreesWithBackend(total: int, customerPoints: int, usePoints: bool)
    ensures DiscountedTotal(total, customerPoints, usePoints) == ApplyPoints(total, customerPoints, usePoints).finalAmount
  {
    if usePoints && customerPoints >= 10 {
      var p := customerPoints / 10;
      var c := (total + 9999) / 10000;
      assert p >= 1;
      // c blocks of 10 000 cover the total, c - 1 blocks do not
      assert c * 10000 >= total && (c - 1) * 10000 < total;
      var used := Min(p * 10, c * 10);
      assert customerPoints / 10 * 10 == p * 10;
      assert MaxPointsNeeded(total) == c * 10;
      assert ApplyPoints(total, customerPoints, usePoints).pointsUsed == used;
      assert used / 10 == Min(p, c);
      assert CalculatePointsDiscount(used) == Min(p, c) * 10000;
      if p <= c {
        assert ApplyPoints(total, customerPoints, usePoints).finalAmount == Max(total - p * 10000, 0);
      } else {
        MulMonotone(c, p, 10000);
        assert ApplyPoints(total, customerPoints, usePoints).finalAmount == 0;
      }
    }
  }

  /** The page's state cells for the points toggle. */
  class PaymentPage {
    const total: int
    var customerPoints: int
    var isMember: bool
    var usePoints: bool
    var showMemberModal: bool
    var discountedTotal: int

    constructor (total: int)
      ensures this.total == total && customerPoints == 0 && !isMember
      ensures !usePoints && !showMemberModal && discountedTotal == total
    {
      this.total := total;
      customerPoints := 0;
      isMember := false;
      usePoints := false;
      showMemberModal := false;
      discountedTotal := total;
    }

    /** The effect that recomputes the discounted total when usePoints,
        customerPoints or total change. */
    method RecomputeDiscount()
      modifies this`discountedTotal
      ensures discountedTotal == DiscountedTotal(total, customerPoints, usePoints)
    {
      if usePoints && customerPoints >= 10 {
        var maxDiscount := Min(customerPoints / 10 * 10000, total);
        discountedTotal := total - maxDiscount;
      } else {
        discountedTotal := total;
      }
    }

    /** The checkbox handler: a non-member cannot switch points on; the
        attempt opens the membership dialog instead. */
    method HandleUsePointsChange(checked: bool)
      modifies this`usePoints, this`showMemberModal
      ensures usePoints ==> isMember
      ensures !isMember ==> !usePoints && showMemberModal
      ensures isMember ==> usePoints == checked && showMemberModal == old(showMemberModal)
    {
      if !isMember {
        showMemberModal := true;
        usePoints := false;
      } else {
        usePoints := checked;
      }
    }

    method CloseModal()
      modifies this`showMemberModal
      ensures !showMemberModal
    {
      showMemberModal := false;
    }
  }
}
