/**
 * The escrow accounts the dashboard shows (one per Aavegotchi NFT), the rule that picks
 * the balance of the chosen token, the summed balance, and the owned/selected filters.
 *
 * Balances are naturals already scaled by 10^decimals: the decimal-string parsing of the
 * source is not part of this model.
 */
module Aavegotchis {
  import opened Wrappers

  /** One Aavegotchi with its escrow wallet and the balances held there. */
  datatype Aavegotchi = Aavegotchi(
    tokenId: nat,
    name: string,
    escrowWallet: string,
    ghstBalance: nat,
    customTokenBalance: Option<nat>,
    isLent: bool)

  /** ASCII lower-casing; no other code point lower-cases to a letter of "ghst". */
  function LowerChar(c: char): char {
    if 'A' <= c <= 'Z' then (c as int + 32) as char else c
  }

  /** `tokenOption.toLowerCase() === 'ghst'`. */
  predicate IsGhst(tokenOption: string)
  {
    |tokenOption| == 4 && forall i :: 0 <= i < 4 ==> LowerChar(tokenOption[i]) == "ghst"[i]
  }

  /** `s.toLowerCase()`, character by character. */
  function Lower(s: string): string
  {
    seq(|s|, i requires 0 <= i < |s| => LowerChar(s[i]))
  }

  /** The GHST test is the comparison `tokenOption.toLowerCase() === 'ghst'`. */
  lemma IsGhstIsLowerCaseComparison(tokenOption: string)
    ensures IsGhst(tokenOption) <==> Lower(tokenOption) == "ghst"
  {
  }

  /** The balance of the chosen token: GHST, or the custom token's balance defaulting to 0. */
  function BalanceOf(gotchi: Aavegotchi, tokenOption: string): nat
  {
    if IsGhst(tokenOption) then gotchi.ghstBalance else gotchi.customTokenBalance.GetOr(0)
  }

  /** The balances of `gotchis`, in order. */
  function Balances(gotchis: seq<Aavegotchi>, tokenOption: string): (balances: seq<nat>)
    ensures |balances| == |gotchis|
  {
    seq(|gotchis|, i requires 0 <= i < |gotchis| => BalanceOf(gotchis[i], tokenOption))
  }

  /** The sum of a sequence, folded from the left as `reduce` does. */
  function Sum(s: seq<nat>): nat
  {
    if s == [] then 0 else Sum(s[..|s| - 1]) + s[|s| - 1]
  }

  /** Summed balance of `gotchis`. */
  function TotalBalance(gotchis: seq<Aavegotchi>, tokenOption: string): nat
  {
    Sum(Balances(gotchis, tokenOption))
  }

  lemma SumSnoc(s: seq<nat>, x: nat)
    ensures Sum(s + [x]) == Sum(s) + x
  {
    assert (s + [x])[..|s|] == s;
  }

  /** A prefix never sums to more than the whole sequence. */
  lemma {:induction false} SumPrefixAtMost(s: seq<nat>, k: nat)
    requires k <= |s|
    ensures Sum(s[..k]) <= Sum(s)
  {
    if k < |s| {
      assert s[..|s| - 1][..k] == s[..k];
      SumPrefixAtMost(s[..|s| - 1], k);
    } else {
      assert s[..k] == s;
    }
  }

  /** Every element is at most the sum. */
  lemma {:induction false} ElementAtMostSum(s: seq<nat>, i: nat)
    requires i < |s|
    ensures s[i] <= Sum(s)
  {
    SumPrefixAtMost(s, i + 1);
    assert s[..i + 1] == s[..i] + [s[i]];
    SumSnoc(s[..i], s[i]);
  }

  /** Keeps the elements of `s` that satisfy `keep`, in order (`Array.prototype.filter`). */
  function Filter<T>(s: seq<T>, keep: T -> bool): (r: seq<T>)
    ensures |r| <= |s|
    ensures forall i :: 0 <= i < |r| ==> r[i] in s && keep(r[i])
    ensures forall i :: 0 <= i < |s| && keep(s[i]) ==> s[i] in r
  {
    if s == [] then []
    else (if keep(s[0]) then [s[0]] else []) + Filter(s[1..], keep)
  }

  /** `r` is `s` with some elements removed, the rest in their order. */
  predicate IsSubsequence<T(==)>(r: seq<T>, s: seq<T>)
  {
    if r == [] then true
    else if s == [] then false
    else (r[0] == s[0] && IsSubsequence(r[1..], s[1..])) || IsSubsequence(r, s[1..])
  }

  /** Filtering keeps the input's order. */
  lemma {:induction false} FilterIsSubsequence<T>(s: seq<T>, keep: T -> bool)
    ensures IsSubsequence(Filter(s, keep), s)
  {
    if s != [] {
      FilterIsSubsequence(s[1..], keep);
      var r := Filter(s, keep);
      if keep(s[0]) {
        assert r[0] == s[0] && r[1..] == Filter(s[1..], keep);
      } else {
        assert r == Filter(s[1..], keep);
      }
    }
  }

  /** Filtering keeps every occurrence of a kept element and drops every occurrence of the others. */
  lemma {:induction false} FilterKeepsEveryOccurrence<T>(s: seq<T>, keep: T -> bool, x: T)
    ensures multiset(Filter(s, keep))[x] == if keep(x) then multiset(s)[x] else 0
  {
    if s != [] {
      FilterKeepsEveryOccurrence(s[1..], keep, x);
      assert s == [s[0]] + s[1..];
      assert multiset(s) == multiset([s[0]]) + multiset(s[1..]);
      var head := if keep(s[0]) then [s[0]] else [];
      assert multiset(Filter(s, keep)) == multiset(head) + multiset(Filter(s[1..], keep));
    }
  }

  /** The Aavegotchis the user owns (not lent out). */
  function OwnedAavegotchis(aavegotchis: seq<Aavegotchi>): (owned: seq<Aavegotchi>)
    ensures forall g :: g in owned <==> g in aavegotchis && !g.isLent
  {
    Filter(aavegotchis, (g: Aavegotchi) => !g.isLent)
  }

  /** The owned Aavegotchis whose token id is selected, in the order of the owned list. */
  function SelectedGotchiData(aavegotchis: seq<Aavegotchi>, selectedIds: seq<nat>): (selected: seq<Aavegotchi>)
    ensures forall g :: g in selected <==> g in aavegotchis && !g.isLent && g.tokenId in selectedIds
  {
    Filter(OwnedAavegotchis(aavegotchis), (g: Aavegotchi) => g.tokenId in selectedIds)
  }

  /** The selection is a subsequence of the owned list, which is a subsequence of all Aavegotchis. */
  lemma SelectionKeepsOrder(aavegotchis: seq<Aavegotchi>, selectedIds: seq<nat>)
    ensures IsSubsequence(SelectedGotchiData(aavegotchis, selectedIds), OwnedAavegotchis(aavegotchis))
    ensures IsSubsequence(OwnedAavegotchis(aavegotchis), aavegotchis)
  {
    FilterIsSubsequence(OwnedAavegotchis(aavegotchis), (g: Aavegotchi) => g.tokenId in selectedIds);
    FilterIsSubsequence(aavegotchis, (g: Aavegotchi) => !g.isLent);
  }
}
