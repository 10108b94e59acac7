# Glass withdrawal allocator — a Dafny model

Glass is a browser dashboard for the escrow wallets of Aavegotchi NFTs: each Aavegotchi
holds token balances (GHST or a custom ERC-20) in its own escrow wallet, and the owner can
withdraw from several of them in one batch transfer. This project models the parts of the
dashboard that compute something:

- **The proportional withdrawal allocator** (`calculateProportionalWithdrawals` in
  `components/WithdrawalForm.tsx`). It splits a requested total over the selected escrow
  accounts in proportion to their balances. It takes the floor of `b * T / B` for each account
  (exact big-integer division), then hands out the rounding leftover one unit at a time in
  input order. `WithdrawalForm.CalculateProportionalWithdrawals` is that code as a method with
  the same two passes, the same running `remainingAmount` and the same clamp branch.
  `Allocation.Allocate` states its result as a function: floor shares, plus one unit on exactly
  the first `Leftover` accounts. The lemmas of module `Allocation` prove what the form relies on:
  - the clamp branch never fires;
  - the leftover is less than the number of accounts;
  - the amounts sum to the requested total;
  - requesting the whole balance takes every balance;
  - requesting 0 takes nothing.
- **The checks `handleSubmit` makes before allocating**: it refuses an empty selection and a
  total larger than the summed balances. `handleMaxAmount` computes that same sum. The
  owned/selected filters pick the accounts.
- **The near-white pixel pass** of `processImage` in `components/TopSection.tsx`. It is an
  in-place loop over an RGBA buffer that sets alpha to 0 where red, green and blue are all
  above 250.
- **Address shortening**: the `slice(0, 6) ... slice(-4)` form used for the connected
  wallet (`components/TopSection.tsx:155`) and the escrow wallets (`components/TopSection.tsx:219`),
  and `formatAddress` in `utils/utils.ts`.

Balances, totals and amounts are natural numbers already scaled by 10^decimals. The balance
of an account is its `ghstBalance` when the token option lower-cases to `ghst`. Otherwise it
is its `customTokenBalance`, or 0 when that is missing (`Aavegotchis.BalanceOf`).

Modules: `Wrappers` (Option, Result), `Aavegotchis` (records, balance rule, sums, filters),
`Allocation` (the allocation as a function and its lemmas), `WithdrawalForm` (the allocator
method, the submit checks, the max amount), `ImageProcessing`, `Addresses`.

### Behaviour of the code worth knowing (the model follows the code)

- Not every account satisfies `amount <= balance`. The code gives a remainder unit to the
  earliest accounts whatever their balance, so a zero-balance account can be charged:
  balances [0, 1, 1] with total 1 give [1, 0, 0] (`Allocation.ZeroBalanceAccountCanBeCharged`).
  The bound holds for accounts with a positive balance when the total is at most the summed
  balance (`Allocation.PositiveBalanceNotOverdrawn`).
- An amount can be a full unit away from the exact share `b * T / B`, not strictly less (the
  example above). `Allocation.ProportionalWithinOneUnit` states the bound that holds.
- The empty-selection and insufficient-balance checks are made in `handleSubmit`, not in the
  allocator. The allocator itself accepts any input; an empty list gives an empty plan.

## Model

| member | source | states |
|---|---|---|
| `Aavegotchis.IsGhstIsLowerCaseComparison` | components/WithdrawalForm.tsx:101 | the GHST test holds exactly when the token option lower-cases to "ghst" |
| `Aavegotchis.Filter` | components/WithdrawalForm.tsx:50 | a filtered list is no longer than its input; each of its elements is an input element that passes the test, and each input element that passes is in it (occurrence counts: `FilterKeepsEveryOccurrence`) |
| `Aavegotchis.FilterIsSubsequence` | components/WithdrawalForm.tsx:163-165 | filtering keeps the input's order (the result is a subsequence of the input) |
| `Aavegotchis.FilterKeepsEveryOccurrence` | components/WithdrawalForm.tsx:50 | filtering keeps every occurrence of an element that passes the test and none of one that fails it (as multisets) |
| `Aavegotchis.OwnedAavegotchis` | components/WithdrawalForm.tsx:50 | an Aavegotchi is owned exactly when it is in the list and not lent |
| `Aavegotchis.SelectedGotchiData` | components/WithdrawalForm.tsx:79-81 | an Aavegotchi is selected exactly when it is in the list, not lent, and its token id is among the selected ids |
| `Aavegotchis.SelectionKeepsOrder` | components/WithdrawalForm.tsx:163-165 | the selection keeps the order of the owned list, which keeps the order of all Aavegotchis |
| `Allocation.FloorShare` | components/WithdrawalForm.tsx:119 | the share is the floor of `b * T / B`: `B * share <= b * T < B * (share + 1)` |
| `Allocation.FloorSharesBounds` | components/WithdrawalForm.tsx:113-134 | over any accounts, B times the summed floor shares is at most T times the summed balances, and falls short of it by less than B per account |
| `Allocation.PrefixFloorSumAtMostTotal` | components/WithdrawalForm.tsx:119-128 | the floor shares of every prefix of the accounts sum to at most T, so each share is at most `remainingAmount` and the clamp at lines 121-126 never fires |
| `Allocation.LeftoverBounds` | components/WithdrawalForm.tsx:136-143 | after the floor pass the leftover is at least 0 and below the number of accounts, so one remainder pass drains it |
| `Allocation.AllocateSumsToTotal` | components/WithdrawalForm.tsx:112-145 | when the summed balance is positive the amounts sum exactly to the requested total |
| `Allocation.AllocateIsRoundedSplit` | components/WithdrawalForm.tsx:112-145 | the allocation gives each account its floor share or one more, gives the extra units to a prefix of the accounts (the earliest ones), and sums to T |
| `Allocation.RoundedSplitIsUnique` | components/WithdrawalForm.tsx:112-145 | any split with those three properties is the allocation, so they characterise it independently of the code |
| `Allocation.ProportionalWithinOneUnit` | components/WithdrawalForm.tsx:119-142 | each amount is within one unit of the exact proportional share `b * T / B` (strictly less than one unit under, at most one unit over) |
| `Allocation.ZeroBalancesGiveZero` | components/WithdrawalForm.tsx:105-110 | when every balance is 0, every amount is 0 whatever the requested total |
| `Allocation.ZeroRequestGivesZero` | components/WithdrawalForm.tsx:112-145 | a request of 0 gives every account 0 |
| `Allocation.FullWithdrawalTakesEveryBalance` | components/WithdrawalForm.tsx:112-145 | a request equal to the summed balance takes every account's full balance |
| `Allocation.PositiveBalanceNotOverdrawn` | components/WithdrawalForm.tsx:119-142 | with T at most the summed balance, an account with a positive balance gives at most its balance |
| `Allocation.ZeroBalanceAccountCanBeCharged` | components/WithdrawalForm.tsx:136-143 | balances [0, 1, 1] with T = 1 give [1, 0, 0]: the remainder unit goes to the first account even though it holds nothing |
| `Allocation.ExactSplitExample` | components/WithdrawalForm.tsx:112-145 | balances [300, 100, 100] with T = 250 give [150, 50, 50] |
| `Allocation.RoundingSplitExample` | components/WithdrawalForm.tsx:136-143 | balances [1, 1, 1] with T = 2 give [1, 1, 0]: the leftover goes to the earliest accounts |
| `WithdrawalForm.CalculateProportionalWithdrawals` | components/WithdrawalForm.tsx:95-146 | one withdrawal per selected account, in order, carrying that account's token id; the amounts are `Allocate` of the balances and the total; all 0 when the summed balance is 0; otherwise they sum exactly to the total |
| `WithdrawalForm.AcceptedSubmitIsExact` | components/WithdrawalForm.tsx:168-183 | once the submit checks pass, the allocation sums exactly to the requested total (a zero summed balance then forces a zero total), and no account with a positive balance gives more than it holds |
| `WithdrawalForm.MaxAmountIsAccepted` | components/WithdrawalForm.tsx:77-86 | for a non-empty selection the "Max" amount passes the submit checks and withdraws every selected balance in full |
| `WithdrawalForm.PlanWithdrawal` | components/WithdrawalForm.tsx:159-195 | refuses with "no Aavegotchis selected" exactly when the selection is empty, and with "not enough balance" exactly when it is not empty and the total exceeds its summed balance; otherwise it builds the batch transfer. That transfer has four parallel lists as long as the selection: the token ids in order, the chosen token's address, the user's address, and the allocated amounts, which sum to the total |
| `ImageProcessing.ClearNearWhite` | components/TopSection.tsx:100-109 | the pass keeps the buffer's length |
| `ImageProcessing.ClearNearWhiteAt` | components/TopSection.tsx:101-108 | red, green and blue bytes are never changed; an alpha byte becomes 0 exactly when its pixel's red, green and blue all exceed 250, and is unchanged otherwise |
| `ImageProcessing.ClearNearWhiteIdempotent` | components/TopSection.tsx:100-109 | running the pass twice gives the same buffer as running it once |
| `ImageProcessing.ClearNearWhitePixels` | components/TopSection.tsx:100-109 | the in-place stride-4 loop leaves the buffer equal to `ClearNearWhite` of its old contents |
| `Addresses.SliceOfPrefix` | components/TopSection.tsx:155 | `slice(0, n)` gives the first n characters of the address, or all of a shorter one |
| `Addresses.SliceFromLast` | components/TopSection.tsx:155 | `slice(-n)` with n > 0 gives the last n characters of the address, or all of a shorter one |
| `Addresses.ShortAddress` | components/TopSection.tsx:219 | the displayed address is its first min(6, n) characters, "...", then its last min(4, n) characters (the same expression shows the connected wallet at line 155) |
| `Addresses.FormatAddress` | utils/utils.ts:25-27 | `formatAddress` gives the first min(n, 8) characters followed by "...", so its length is min(n, 8) + 3 and it always ends with "..." |
| `Addresses.FormatAddressKeepsShortAddress` | utils/utils.ts:26 | an address of at most 8 characters is kept whole before the "..." |
| `Addresses.FormatAddressReadsEightCharacters` | utils/utils.ts:26 | two addresses with the same first 8 characters format the same |

## Left out

- React state, hooks, effects and rendering: the selection dropdown, the toast timer, the
  resize listener, dark mode, and the error banner. The model takes the form's state (the
  Aavegotchi list, the selected ids, the token option, the amount) as parameters.
- `ethers.parseUnits` and `formatUnits`: decimal strings and token decimals are not modelled.
  Balances and amounts are naturals already scaled. So the model does not cover an amount
  string that fails to parse, and it does not cover a negative amount. `parseUnits` accepts a
  leading minus, and the check at components/WithdrawalForm.tsx:179 does not refuse a negative
  total.
- Slice, Substring, ShortAddress, FormatAddress: positions and lengths are counted in
  characters, while JavaScript counts UTF-16 code units and can split a surrogate pair. The two
  counts agree for the ASCII hex addresses the dashboard shows.
- Token ids are modelled by their numeric value. The source compares the id strings when it
  selects and converts them with `BigInt` for the transfer.
- `customTokenBalance || '0'` also treats an empty string as missing. The model has only
  "present" or "missing".
- `toLowerCase` is modelled for ASCII letters only. No other character lower-cases to a letter
  of "ghst", so the GHST test is decided the same way.
- I/O in `handleSubmit`: the signer check and early return (line 150), `signer.getAddress`, the
  contract object, `batchTransferEscrow`, `onWithdraw`, logging, and the messages shown on
  failure. `PlanWithdrawal` returns the batch-transfer arguments it would send. The token and
  user addresses are parameters.
- The canvas work around the pixel pass: loading the image through the proxy, `drawImage`,
  `getImageData`, `putImageData` and `toDataURL`. Only the buffer transformation is modelled,
  on a buffer whose length is a multiple of 4 (as every RGBA image buffer is).
- Number formatting (`parseFloat(...).toFixed(4)` with `formatNumberWithCommas`, and
  `formatBalance`) uses floating point. `formatChainAsNum` and `cn` are thin wrappers over
  library calls.
- `components/AavegotchiThumbnail.tsx` (SVG fetch and portals), `pages/api/proxy-image.ts` (a
  network proxy), `pages/_app.tsx` (dark-mode class toggling), and the type and configuration
  files. They hold no logic of the core; `types/types.ts` only shaped the `Aavegotchi` datatype.
- Determinism of the allocation is not stated as a lemma: every Dafny function is
  deterministic by construction.
