/**
 * The withdrawal form: the proportional allocator as the form runs it (a floor pass that
 * tracks the remaining amount, then a pass that hands out the rounding leftover), the
 * checks made on submit before anything is allocated, and the "Max" amount.
 */
module WithdrawalForm {
  import opened Wrappers
  import opened Aavegotchis
  import opened Allocation

  /** One entry of the withdrawal plan: the Aavegotchi's token id and the amount taken from its escrow. */
  datatype Withdrawal = Withdrawal(tokenId: nat, amount: nat)

  /** Why a submit is refused before any allocation. */
  datatype SubmitError = NoAavegotchisSelected | InsufficientBalance

  /** The four parallel argument lists of the escrow contract's batch transfer. */
  datatype BatchTransfer = BatchTransfer(
    tokenIds: seq<nat>,
    tokenAddresses: seq<string>,
    recipients: seq<string>,
    amounts: seq<nat>)

  function Amounts(withdrawals: seq<Withdrawal>): (amounts: seq<nat>)
    ensures |amounts| == |withdrawals|
  {
    seq(|withdrawals|, i requires 0 <= i < |withdrawals| => withdrawals[i].amount)
  }

  /**
   * Splits `totalAmount` over `selectedGotchiData` in proportion to their balances of the
   * chosen token. The clamp of a share to what remains is kept as the source has it; it
   * never applies (PrefixFloorSumAtMostTotal).
   */
  method CalculateProportionalWithdrawals(selectedGotchiData: seq<Aavegotchi>, tokenOption: string, totalAmount: nat)
    returns (withdrawals: seq<Withdrawal>)
    ensures |withdrawals| == |selectedGotchiData|
    ensures forall i :: 0 <= i < |withdrawals| ==> withdrawals[i].tokenId == selectedGotchiData[i].tokenId
    ensures Amounts(withdrawals) == Allocate(Balances(selectedGotchiData, tokenOption), totalAmount)
    ensures TotalBalance(selectedGotchiData, tokenOption) == 0 ==>
              forall i :: 0 <= i < |withdrawals| ==> withdrawals[i].amount == 0
    ensures TotalBalance(selectedGotchiData, tokenOption) > 0 ==> Sum(Amounts(withdrawals)) == totalAmount
  {
    ghost var balances := Balances(selectedGotchiData, tokenOption);
    var totalBalance := TotalBalance(selectedGotchiData, tokenOption);
    if totalBalance == 0 {
      withdrawals := seq(|selectedGotchiData|, i requires 0 <= i < |selectedGotchiData| =>
                           Withdrawal(selectedGotchiData[i].tokenId, 0));
      assert Amounts(withdrawals) == Allocate(balances, totalAmount);
      return;
    }
    ghost var shares := FloorShares(balances, totalAmount, totalBalance);

    // The floor pass (the `map` callback): `remainingAmount` falls by each share taken.
    var remainingAmount: nat := totalAmount;
    withdrawals := [];
    var i := 0;
    while i < |selectedGotchiData|
      invariant 0 <= i <= |selectedGotchiData|
      invariant |withdrawals| == i
      invariant forall k :: 0 <= k < i ==>
                  withdrawals[k] == Withdrawal(selectedGotchiData[k].tokenId, shares[k])
      invariant remainingAmount + Sum(shares[..i]) == totalAmount
    {
      var tokenId := selectedGotchiData[i].tokenId;
      var gotchiBalance := BalanceOf(selectedGotchiData[i], tokenOption);
      var withdrawAmount := gotchiBalance * totalAmount / totalBalance;
      PrefixFloorSumAtMostTotal(balances, totalAmount, i + 1);
      assert shares[..i + 1] == shares[..i] + [withdrawAmount];
      SumSnoc(shares[..i], withdrawAmount);
      assert withdrawAmount <= remainingAmount;
      if withdrawAmount > remainingAmount {
        withdrawals := withdrawals + [Withdrawal(tokenId, remainingAmount)];
      } else {
        remainingAmount := remainingAmount - withdrawAmount;
        withdrawals := withdrawals + [Withdrawal(tokenId, withdrawAmount)];
      }
      i := i + 1;
    }
    assert shares[..i] == shares;
    LeftoverBounds(balances, totalAmount);

    // The remainder pass: one more unit to each account in order while anything remains.
    ghost var leftover := remainingAmount;
    if remainingAmount > 0 {
      var j := 0;
      while j < |withdrawals| && remainingAmount > 0
        invariant 0 <= j <= |withdrawals| == |selectedGotchiData|
        invariant remainingAmount + j == leftover
        invariant forall k :: 0 <= k < |withdrawals| ==>
                    withdrawals[k] == Withdrawal(selectedGotchiData[k].tokenId,
                                                 shares[k] + if k < j then 1 else 0)
      {
        withdrawals := withdrawals[j := withdrawals[j].(amount := withdrawals[j].amount + 1)];
        remainingAmount := remainingAmount - 1;
        j := j + 1;
      }
    }
    assert Amounts(withdrawals) == Bumped(shares, leftover);
    AllocateSumsToTotal(balances, totalAmount);
  }

  /** The checks `handleSubmit` makes before allocating: a non-empty selection that holds enough. */
  function CheckSubmit(selectedGotchiData: seq<Aavegotchi>, tokenOption: string, totalAmount: nat): Option<SubmitError>
  {
    if |selectedGotchiData| == 0 then Some(NoAavegotchisSelected)
    else if totalAmount > TotalBalance(selectedGotchiData, tokenOption) then Some(InsufficientBalance)
    else None
  }

  /**
   * A submit that passes the checks allocates exactly the requested total, and takes from
   * no account with a positive balance more than that balance.
   */
  lemma AcceptedSubmitIsExact(selectedGotchiData: seq<Aavegotchi>, tokenOption: string, totalAmount: nat)
    requires CheckSubmit(selectedGotchiData, tokenOption, totalAmount).None?
    ensures Sum(Allocate(Balances(selectedGotchiData, tokenOption), totalAmount)) == totalAmount
    ensures forall i :: 0 <= i < |selectedGotchiData| && BalanceOf(selectedGotchiData[i], tokenOption) > 0 ==>
              Allocate(Balances(selectedGotchiData, tokenOption), totalAmount)[i]
              <= BalanceOf(selectedGotchiData[i], tokenOption)
  {
    var balances := Balances(selectedGotchiData, tokenOption);
    if Sum(balances) > 0 {
      AllocateSumsToTotal(balances, totalAmount);
    } else {
      ZeroRequestGivesZero(balances);
      ZeroBalancesSumToZero(Allocate(balances, 0));
    }
    forall i | 0 <= i < |balances| && balances[i] > 0 ensures Allocate(balances, totalAmount)[i] <= balances[i] {
      PositiveBalanceNotOverdrawn(balances, totalAmount, i);
    }
  }

  /** `handleMaxAmount`: the summed balance of the selected owned Aavegotchis. */
  function MaxAmount(aavegotchis: seq<Aavegotchi>, selectedIds: seq<nat>, tokenOption: string): nat
  {
    TotalBalance(SelectedGotchiData(aavegotchis, selectedIds), tokenOption)
  }

  /** The "Max" amount always passes the checks of a non-empty selection, and withdraws every balance in full. */
  lemma MaxAmountIsAccepted(aavegotchis: seq<Aavegotchi>, selectedIds: seq<nat>, tokenOption: string)
    requires SelectedGotchiData(aavegotchis, selectedIds) != []
    ensures CheckSubmit(SelectedGotchiData(aavegotchis, selectedIds), tokenOption,
                        MaxAmount(aavegotchis, selectedIds, tokenOption)) == None
    ensures Allocate(Balances(SelectedGotchiData(aavegotchis, selectedIds), tokenOption),
                     MaxAmount(aavegotchis, selectedIds, tokenOption))
         == Balances(SelectedGotchiData(aavegotchis, selectedIds), tokenOption)
  {
    FullWithdrawalTakesEveryBalance(Balances(SelectedGotchiData(aavegotchis, selectedIds), tokenOption));
  }

  /**
   * The part of `handleSubmit` between reading the form and calling the contract: select the
   * owned Aavegotchis, refuse an empty selection or an amount above their summed balance,
   * allocate, and build the batch transfer that sends every amount of the chosen token to the user.
   */
  method PlanWithdrawal(aavegotchis: seq<Aavegotchi>, selectedIds: seq<nat>, tokenOption: string,
                        ghstContractAddress: string, customTokenAddress: string, userAddress: string,
                        totalAmount: nat)
    returns (result: Result<BatchTransfer, SubmitError>)
    ensures var selected := SelectedGotchiData(aavegotchis, selectedIds);
      && (result == Failure(NoAavegotchisSelected) <==> selected == [])
      && (result == Failure(InsufficientBalance) <==>
            selected != [] && totalAmount > TotalBalance(selected, tokenOption))
    ensures result.Success? ==>
      var selected := SelectedGotchiData(aavegotchis, selectedIds);
      var tokenAddress := if IsGhst(tokenOption) then ghstContractAddress else customTokenAddress;
      && |result.value.tokenIds| == |result.value.tokenAddresses| == |result.value.recipients|
         == |result.value.amounts| == |selected|
      && (forall i :: 0 <= i < |selected| ==>
            && result.value.tokenIds[i] == selected[i].tokenId
            && result.value.tokenAddresses[i] == tokenAddress
            && result.value.recipients[i] == userAddress)
      && result.value.amounts == Allocate(Balances(selected, tokenOption), totalAmount)
      && Sum(result.value.amounts) == totalAmount
  {
    var tokenAddress := if IsGhst(tokenOption) then ghstContractAddress else customTokenAddress;
    var selectedGotchiData := SelectedGotchiData(aavegotchis, selectedIds);
    var check := CheckSubmit(selectedGotchiData, tokenOption, totalAmount);
    if check.Some? {
      return Failure(check.value);
    }
    AcceptedSubmitIsExact(selectedGotchiData, tokenOption, totalAmount);
    var withdrawals := CalculateProportionalWithdrawals(selectedGotchiData, tokenOption, totalAmount);
    var n := |withdrawals|;
    result := Success(BatchTransfer(
      seq(n, i requires 0 <= i < n => withdrawals[i].tokenId),
      seq(n, _ => tokenAddress),
      seq(n, _ => userAddress),
      Amounts(withdrawals)));
  }
}
