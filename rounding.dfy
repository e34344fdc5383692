/**
 * `Math.round(done / total * 100)`, as the progress store and the checklist
 * compute it, taken over the exact rationals: the nearest integer, halves
 * rounded up. The store and the checklist both treat an empty list as 0%.
 */
module Rounding {

  function RoundPercent(done: nat, total: nat): (r: nat)
    ensures total == 0 ==> r == 0
    // r is Math.round(100 * done / total): r - 1/2 <= 100 * done / total < r + 1/2
    ensures total > 0 ==> 2 * total * r <= 200 * done + total < 2 * total * (r + 1)
  {
    if total == 0 then 0 else
      var r := (200 * done + total) / (2 * total);
      assert 2 * total * r <= 200 * done + total < 2 * total * (r + 1) by {
        DivBounds(200 * done + total, 2 * total);
      }
      r
  }

  lemma DivBounds(a: nat, b: nat)
    requires b > 0
    ensures b * (a / b) <= a < b * (a / b + 1)
  {
  }

  /** A percentage of at most `total` items is at most 100. */
  lemma RoundPercentAtMost100(done: nat, total: nat)
    requires done <= total
    ensures RoundPercent(done, total) <= 100
  {
    if total > 0 {
      var r := RoundPercent(done, total);
      if r > 100 {
        assert 2 * total * r >= 2 * total * 101 by {
          MulMonotone(2 * total, 101, r);
        }
        assert false;
      }
    }
  }

  /** Nothing done is 0%. */
  lemma RoundPercentZero(total: nat)
    ensures RoundPercent(0, total) == 0
  {
    if total > 0 {
      DivUnique(total, 2 * total, 0);
    }
  }

  /**
   * With a non-empty list of fewer than 200 items, the rounded percentage
   * reaches 100 exactly when every item is done. From 200 items on, one
   * missing item is worth at most half a percent and rounds away
   * (see RoundPercentOneShortOf200).
   */
  lemma RoundPercentFull(done: nat, total: nat)
    requires done <= total && 0 < total < 200
    ensures RoundPercent(done, total) >= 100 <==> done == total
    ensures RoundPercent(done, total) == 100 <==> done == total
  {
    var a, b := 200 * done + total, 2 * total;
    if done == total {
      assert b * 100 <= a < b * 101;
      DivUnique(a, b, 100);
    } else {
      assert 200 * done <= 200 * total - 200;
      assert a < b * 100;
      DivBelow(a, b, 100);
    }
  }

  lemma DivUnique(a: nat, b: nat, q: nat)
    requires b > 0 && b * q <= a < b * (q + 1)
    ensures a / b == q
  {
    DivBounds(a, b);
    if a / b < q {
      MulMonotone(b, a / b + 1, q);
    } else if a / b > q {
      MulMonotone(b, q + 1, a / b);
    }
  }

  lemma DivBelow(a: nat, b: nat, q: nat)
    requires b > 0 && a < b * q
    ensures a / b < q
  {
    DivBounds(a, b);
    if a / b >= q {
      MulMonotone(b, q, a / b);
    }
  }

  /** 199 of 200 items done already shows as 100%. */
  lemma RoundPercentOneShortOf200()
    ensures RoundPercent(199, 200) == 100
  {
  }

  /** More items done never gives a smaller percentage. */
  lemma RoundPercentMonotone(d1: nat, d2: nat, total: nat)
    requires d1 <= d2
    ensures RoundPercent(d1, total) <= RoundPercent(d2, total)
  {
    if total > 0 {
      var r1, r2 := RoundPercent(d1, total), RoundPercent(d2, total);
      if r1 > r2 {
        assert 2 * total * (r2 + 1) <= 2 * total * r1 by {
          MulMonotone(2 * total, r2 + 1, r1);
        }
        assert false;
      }
    }
  }

  lemma MulMonotone(k: nat, a: nat, b: nat)
    requires a <= b
    ensures k * a <= k * b
  {
  }
}
