/**
 * How wallet and escrow addresses are shortened for display: JavaScript's `slice` and
 * `substring` on strings, the "first 6 ... last 4" form shown in the account table and the
 * connected-wallet line, and `formatAddress`.
 */
module Addresses {

  function Min(a: int, b: int): int { if a < b then a else b }

  /** A `slice` position: negative counts back from the end; the result is clamped to [0, len]. */
  function SlicePosition(len: nat, position: int): (k: nat)
    ensures k <= len
  {
    if position < 0 then (if len + position < 0 then 0 else len + position)
    else if position > len then len
    else position
  }

  /** `s.slice(start, end)`: the characters between the two positions, or "" when they cross. */
  function Slice(s: string, start: int, end: int): string
  {
    var from, to := SlicePosition(|s|, start), SlicePosition(|s|, end);
    if from < to then s[from..to] else ""
  }

  /** `s.slice(start)`. */
  function SliceFrom(s: string, start: int): string
  {
    Slice(s, start, |s|)
  }

  /** `s.slice(0, n)` is the first n characters, or the whole of a shorter string. */
  lemma SliceOfPrefix(s: string, n: nat)
    ensures Slice(s, 0, n) == s[..Min(n, |s|)]
  {
  }

  /** `s.slice(-n)` for n > 0 is the last n characters, or the whole of a shorter string. */
  lemma SliceFromLast(s: string, n: nat)
    requires n > 0
    ensures SliceFrom(s, -(n as int)) == s[|s| - Min(n, |s|)..]
  {
  }

  /** A `substring` position: clamped to [0, len]. */
  function SubstringPosition(len: nat, position: int): (k: nat)
    ensures k <= len
  {
    if position < 0 then 0 else if position > len then len else position
  }

  /** `s.substring(start, end)`: the characters between the two positions, in either order. */
  function Substring(s: string, start: int, end: int): string
  {
    var a, b := SubstringPosition(|s|, start), SubstringPosition(|s|, end);
    if a <= b then s[a..b] else s[b..a]
  }

  /**
   * `address.slice(0, 6) + "..." + address.slice(-4)`: the first six characters (or all of a
   * shorter address), "...", then the last four (or all of a shorter address).
   */
  function ShortAddress(address: string): (shown: string)
    ensures var head, tail := Min(6, |address|), Min(4, |address|);
      && |shown| == head + 3 + tail
      && shown[..head] == address[..head]
      && shown[head..head + 3] == "..."
      && shown[head + 3..] == address[|address| - tail..]
  {
    Slice(address, 0, 6) + "..." + SliceFrom(address, -4)
  }

  /** `formatAddress`: `address.substring(0, 8)` followed by "...". */
  function FormatAddress(address: string): (shown: string)
    ensures |shown| == Min(|address|, 8) + 3
    ensures shown[..|shown| - 3] == address[..Min(|address|, 8)]
    ensures shown[|shown| - 3..] == "..."
  {
    Substring(address, 0, 8) + "..."
  }

  /** An address of at most eight characters is kept whole. */
  lemma FormatAddressKeepsShortAddress(address: string)
    requires |address| <= 8
    ensures FormatAddress(address) == address + "..."
  {
  }

  /** Only the first eight characters of an address matter to `formatAddress`. */
  lemma FormatAddressReadsEightCharacters(a: string, b: string)
    requires a[..Min(|a|, 8)] == b[..Min(|b|, 8)]
    ensures FormatAddress(a) == FormatAddress(b)
  {
  }
}
