/**
 * The proportional split the withdrawal form computes, stated as a function of the
 * balances and the requested total, with the properties the form relies on.
 *
 * With B the summed balance and T the requested total, account i first gets the floor
 * share floor(b_i * T / B); the leftover T - (sum of floor shares) is then handed out one
 * unit at a time to the accounts in input order. When B is 0 every account gets 0.
 */
module Allocation {
  import opened Aavegotchis

  /** floor(balance * totalAmount / totalBalance), characterised by the two bounds of floor division. */
  function FloorShare(balance: nat, totalAmount: nat, totalBalance: nat): (share: nat)
    requires totalBalance > 0
    ensures totalBalance * share <= balance * totalAmount < totalBalance * (share + 1)
  {
    balance * totalAmount / totalBalance
  }

  /** The floor share of every account, in order. */
  function FloorShares(balances: seq<nat>, totalAmount: nat, totalBalance: nat): (shares: seq<nat>)
    requires totalBalance > 0
    ensures |shares| == |balances|
  {
    seq(|balances|, i requires 0 <= i < |balances| => FloorShare(balances[i], totalAmount, totalBalance))
  }

  /** `shares` with one extra unit on each of the first `extra` entries. */
  function Bumped(shares: seq<nat>, extra: int): (amounts: seq<nat>)
    ensures |amounts| == |shares|
  {
    seq(|shares|, i requires 0 <= i < |shares| => shares[i] + if i < extra then 1 else 0)
  }

  /** What the floor shares leave undistributed. */
  function Leftover(balances: seq<nat>, totalAmount: nat): int
    requires Sum(balances) > 0
  {
    totalAmount - Sum(FloorShares(balances, totalAmount, Sum(balances)))
  }

  /** The amount withdrawn from each account, in input order. */
  function Allocate(balances: seq<nat>, totalAmount: nat): (amounts: seq<nat>)
    ensures |amounts| == |balances|
  {
    if Sum(balances) == 0 then seq(|balances|, _ => 0)
    else Bumped(FloorShares(balances, totalAmount, Sum(balances)), Leftover(balances, totalAmount))
  }

  lemma FloorSharesPrefix(balances: seq<nat>, totalAmount: nat, totalBalance: nat, k: nat)
    requires totalBalance > 0 && k <= |balances|
    ensures FloorShares(balances, totalAmount, totalBalance)[..k]
         == FloorShares(balances[..k], totalAmount, totalBalance)
  {
  }

  lemma MulDistributes(a: int, x: int, y: int)
    ensures a * (x + y) == a * x + a * y
  {
  }

  lemma MulMonotone(a: nat, x: int, y: int)
    requires x <= y
    ensures a * x <= a * y
  {
  }

  lemma MulCancelLe(a: int, x: int, y: int)
    requires a > 0 && a * x <= a * y
    ensures x <= y
  {
  }

  lemma MulCancelLt(a: int, x: int, y: int)
    requires a > 0 && a * x < a * y
    ensures x < y
  {
  }

  /** If T * B + n <= B * (S + n) with B and n positive, then T - S < n. */
  lemma LeftoverBelowCount(total: int, amount: int, sharesSum: int, n: int)
    requires total > 0 && n > 0
    requires amount * total + n <= total * (sharesSum + n)
    ensures amount - sharesSum < n
  {
    if amount - sharesSum >= n {
      MulMonotone(total, n, amount - sharesSum);
      MulDistributes(total, sharesSum, n);
      MulDistributes(total, sharesSum, amount - sharesSum);
    }
  }

  /** One more account: the floor bounds of the prefix and of the new share add up. */
  lemma BoundsStep(total: int, amount: int, sharesSum: int, balancesSum: int, m: int, f: int, b: int)
    requires total * sharesSum <= amount * balancesSum
    requires amount * balancesSum + m <= total * (sharesSum + m)
    requires total * f <= b * amount < total * (f + 1)
    ensures total * (sharesSum + f) <= amount * (balancesSum + b)
    ensures amount * (balancesSum + b) + (m + 1) <= total * ((sharesSum + f) + (m + 1))
  {
    MulDistributes(total, sharesSum, f);
    MulDistributes(amount, balancesSum, b);
    MulDistributes(total, sharesSum + m, f + 1);
    assert (sharesSum + f) + (m + 1) == (sharesSum + m) + (f + 1);
  }

  /**
   * Summed over any accounts, the floor shares lose nothing below the exact proportional
   * amount and less than one unit per account:
   *   B * (sum of shares) <= T * (sum of balances) <= B * (sum of shares) + (B - 1) * n.
   */
  lemma {:induction false} FloorSharesBounds(balances: seq<nat>, totalAmount: nat, totalBalance: nat)
    requires totalBalance > 0
    ensures totalBalance * Sum(FloorShares(balances, totalAmount, totalBalance))
            <= totalAmount * Sum(balances)
    ensures totalAmount * Sum(balances) + |balances|
            <= totalBalance * (Sum(FloorShares(balances, totalAmount, totalBalance)) + |balances|)
  {
    var shares := FloorShares(balances, totalAmount, totalBalance);
    if balances != [] {
      var n := |balances|;
      var front := balances[..n - 1];
      var frontShares := FloorShares(front, totalAmount, totalBalance);
      FloorSharesPrefix(balances, totalAmount, totalBalance, n - 1);
      assert shares[..n - 1] == frontShares;
      FloorSharesBounds(front, totalAmount, totalBalance);
      assert shares[n - 1] == FloorShare(balances[n - 1], totalAmount, totalBalance);
      BoundsStep(totalBalance, totalAmount, Sum(frontShares), Sum(front), n - 1, shares[n - 1], balances[n - 1]);
    }
  }

  /**
   * The floor shares of any prefix of the accounts sum to at most the requested total:
   * when the form reaches account k, the share it computes never exceeds what remains.
   */
  lemma PrefixFloorSumAtMostTotal(balances: seq<nat>, totalAmount: nat, k: nat)
    requires Sum(balances) > 0 && k <= |balances|
    ensures Sum(FloorShares(balances, totalAmount, Sum(balances))[..k]) <= totalAmount
  {
    var total := Sum(balances);
    FloorSharesPrefix(balances, totalAmount, total, k);
    FloorSharesBounds(balances[..k], totalAmount, total);
    SumPrefixAtMost(balances, k);
    var s := Sum(FloorShares(balances[..k], totalAmount, total));
    MulMonotone(totalAmount, Sum(balances[..k]), total);
    assert total * s <= total * totalAmount;
    MulCancelLe(total, s, totalAmount);
  }

  /** After the floor pass the leftover is at least 0 and less than the number of accounts. */
  lemma LeftoverBounds(balances: seq<nat>, totalAmount: nat)
    requires Sum(balances) > 0
    ensures 0 <= Leftover(balances, totalAmount) < |balances|
  {
    var total := Sum(balances);
    var shares := FloorShares(balances, totalAmount, total);
    PrefixFloorSumAtMostTotal(balances, totalAmount, |balances|);
    assert shares[..|balances|] == shares;
    FloorSharesBounds(balances, totalAmount, total);
    LeftoverBelowCount(total, totalAmount, Sum(shares), |balances|);
  }

  lemma {:induction false} SumBumped(shares: seq<nat>, extra: nat)
    ensures Sum(Bumped(shares, extra)) == Sum(shares) + if extra < |shares| then extra else |shares|
  {
    if shares != [] {
      var n := |shares|;
      assert Bumped(shares, extra)[..n - 1] == Bumped(shares[..n - 1], extra);
      SumBumped(shares[..n - 1], extra);
    }
  }

  /** When the balances are not all zero, the amounts add up exactly to the requested total. */
  lemma AllocateSumsToTotal(balances: seq<nat>, totalAmount: nat)
    requires Sum(balances) > 0
    ensures Sum(Allocate(balances, totalAmount)) == totalAmount
  {
    LeftoverBounds(balances, totalAmount);
    SumBumped(FloorShares(balances, totalAmount, Sum(balances)), Leftover(balances, totalAmount));
  }

  /** Floor or floor plus one on every account, the plus-ones on a prefix, and the total exact. */
  predicate IsRoundedSplit(balances: seq<nat>, totalAmount: nat, amounts: seq<nat>)
    requires Sum(balances) > 0
  {
    var shares := FloorShares(balances, totalAmount, Sum(balances));
    && |amounts| == |balances|
    && Sum(amounts) == totalAmount
    && (forall i :: 0 <= i < |amounts| ==> amounts[i] == shares[i] || amounts[i] == shares[i] + 1)
    && (forall i, j :: 0 <= i < j < |amounts| && amounts[j] == shares[j] + 1 ==> amounts[i] == shares[i] + 1)
  }

  /** A floor-or-ceiling split whose extra units sit on a prefix is that prefix bumped. */
  lemma {:induction false} PrefixBumpForm(shares: seq<nat>, amounts: seq<nat>) returns (extra: nat)
    requires |amounts| == |shares|
    requires forall i :: 0 <= i < |amounts| ==> amounts[i] == shares[i] || amounts[i] == shares[i] + 1
    requires forall i, j :: 0 <= i < j < |amounts| && amounts[j] == shares[j] + 1 ==> amounts[i] == shares[i] + 1
    ensures extra <= |shares| && amounts == Bumped(shares, extra)
  {
    if shares == [] {
      extra := 0;
    } else {
      var n := |shares|;
      var front := PrefixBumpForm(shares[..n - 1], amounts[..n - 1]);
      if amounts[n - 1] == shares[n - 1] + 1 {
        extra := n;
      } else {
        extra := front;
        forall i | 0 <= i < n ensures amounts[i] == Bumped(shares, extra)[i] {
          if i < n - 1 {
            assert amounts[..n - 1][i] == Bumped(shares[..n - 1], front)[i];
          }
        }
      }
    }
  }

  /**
   * The allocation is a rounded split: floor shares, one more unit on a prefix of the
   * accounts, summing to the requested total.
   */
  lemma AllocateIsRoundedSplit(balances: seq<nat>, totalAmount: nat)
    requires Sum(balances) > 0
    ensures IsRoundedSplit(balances, totalAmount, Allocate(balances, totalAmount))
  {
    AllocateSumsToTotal(balances, totalAmount);
  }

  /** Any rounded split equals the allocation: the three properties determine it. */
  lemma RoundedSplitIsUnique(balances: seq<nat>, totalAmount: nat, amounts: seq<nat>)
    requires Sum(balances) > 0
    requires IsRoundedSplit(balances, totalAmount, amounts)
    ensures amounts == Allocate(balances, totalAmount)
  {
    var shares := FloorShares(balances, totalAmount, Sum(balances));
    var extra := PrefixBumpForm(shares, amounts);
    SumBumped(shares, extra);
    LeftoverBounds(balances, totalAmount);
    assert extra == Leftover(balances, totalAmount);
  }

  /** Each amount is within one unit of the exact proportional share b * T / B. */
  lemma ProportionalWithinOneUnit(balances: seq<nat>, totalAmount: nat, i: nat)
    requires Sum(balances) > 0 && i < |balances|
    ensures balances[i] * totalAmount < Sum(balances) * (Allocate(balances, totalAmount)[i] + 1)
    ensures Sum(balances) * Allocate(balances, totalAmount)[i] <= balances[i] * totalAmount + Sum(balances)
  {
    var total := Sum(balances);
    var f := FloorShares(balances, totalAmount, total)[i];
    assert f == FloorShare(balances[i], totalAmount, total);
    var a := Allocate(balances, totalAmount)[i];
    assert a == f || a == f + 1;
    MulDistributes(total, f, 1);
    MulDistributes(total, f + 1, 1);
  }

  /** All-zero balances give every account 0, whatever the requested total. */
  lemma ZeroBalancesGiveZero(balances: seq<nat>, totalAmount: nat)
    requires forall i :: 0 <= i < |balances| ==> balances[i] == 0
    ensures forall i :: 0 <= i < |balances| ==> Allocate(balances, totalAmount)[i] == 0
  {
    if Sum(balances) > 0 {
      ZeroBalancesSumToZero(balances);
    }
  }

  lemma {:induction false} ZeroBalancesSumToZero(balances: seq<nat>)
    requires forall i :: 0 <= i < |balances| ==> balances[i] == 0
    ensures Sum(balances) == 0
  {
    if balances != [] {
      ZeroBalancesSumToZero(balances[..|balances| - 1]);
    }
  }

  /** Requesting 0 withdraws 0 from every account. */
  lemma ZeroRequestGivesZero(balances: seq<nat>)
    ensures forall i :: 0 <= i < |balances| ==> Allocate(balances, 0)[i] == 0
  {
  }

  /** Requesting the whole summed balance withdraws every account's full balance. */
  lemma FullWithdrawalTakesEveryBalance(balances: seq<nat>)
    ensures Allocate(balances, Sum(balances)) == balances
  {
    var total := Sum(balances);
    if total == 0 {
      forall i | 0 <= i < |balances| ensures balances[i] == 0 {
        ElementAtMostSum(balances, i);
      }
    } else {
      var shares := FloorShares(balances, total, total);
      forall i | 0 <= i < |balances| ensures shares[i] == balances[i] {
        var f, b := shares[i], balances[i];
        assert total * f <= b * total < total * (f + 1);
        assert b * total == total * b;
        MulCancelLe(total, f, b);
        MulCancelLt(total, b, f + 1);
      }
      assert shares == balances;
    }
  }

  /**
   * With a request no larger than the summed balance, an account with a positive balance
   * never gives more than it holds. (A zero-balance account can: see ZeroBalanceAccountCanBeCharged.)
   */
  lemma PositiveBalanceNotOverdrawn(balances: seq<nat>, totalAmount: nat, i: nat)
    requires totalAmount <= Sum(balances)
    requires i < |balances| && balances[i] > 0
    ensures Allocate(balances, totalAmount)[i] <= balances[i]
  {
    var total := Sum(balances);
    ElementAtMostSum(balances, i);
    var b := balances[i];
    var f := FloorShares(balances, totalAmount, total)[i];
    assert total * f <= b * totalAmount;
    MulMonotone(b, totalAmount, total);
    assert b * total == total * b;
    MulCancelLe(total, f, b);
    if f == b {
      assert b * total <= b * totalAmount;
      MulCancelLe(b, total, totalAmount);
      FullWithdrawalTakesEveryBalance(balances);
    }
  }

  lemma SumOfThree(a: nat, b: nat, c: nat)
    ensures Sum([a, b, c]) == a + b + c
  {
    assert [a][..0] == [];
    assert Sum([a]) == a;
    assert [a, b][..1] == [a];
    assert Sum([a, b]) == a + b;
    assert [a, b, c][..2] == [a, b];
  }

  /** The remainder can land on an account that holds nothing: [0, 1, 1] with T = 1 charges the first. */
  lemma ZeroBalanceAccountCanBeCharged()
    ensures Allocate([0, 1, 1], 1) == [1, 0, 0]
  {
    var balances: seq<nat> := [0, 1, 1];
    SumOfThree(0, 1, 1);
    var shares := FloorShares(balances, 1, 2);
    assert shares == [0, 0, 0];
    SumOfThree(0, 0, 0);
    assert Leftover(balances, 1) == 1;
  }

  /** Exact division: [300, 100, 100] with T = 250 gives [150, 50, 50]. */
  lemma ExactSplitExample()
    ensures Allocate([300, 100, 100], 250) == [150, 50, 50]
  {
    var balances: seq<nat> := [300, 100, 100];
    SumOfThree(300, 100, 100);
    var shares := FloorShares(balances, 250, 500);
    assert shares == [150, 50, 50];
    SumOfThree(150, 50, 50);
    assert Leftover(balances, 250) == 0;
  }

  /** Rounding: [1, 1, 1] with T = 2 gives [1, 1, 0]. */
  lemma RoundingSplitExample()
    ensures Allocate([1, 1, 1], 2) == [1, 1, 0]
  {
    var balances: seq<nat> := [1, 1, 1];
    SumOfThree(1, 1, 1);
    var shares := FloorShares(balances, 2, 3);
    assert shares == [0, 0, 0];
    SumOfThree(0, 0, 0);
    assert Leftover(balances, 2) == 2;
  }
}
