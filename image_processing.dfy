/**
 * The pass over a canvas's RGBA pixel buffer that makes near-white pixels transparent
 * before the token image is shown.
 */
module ImageProcessing {

  /** One channel of a pixel buffer (a clamped 8-bit value). */
  type Byte = x: int | 0 <= x < 256

  /** Red, green and blue all above 250. */
  predicate NearWhite(r: Byte, g: Byte, b: Byte)
  {
    r > 250 && g > 250 && b > 250
  }

  /** One RGBA pixel after the pass: a near-white pixel gets alpha 0. */
  function ClearPixel(pixel: seq<Byte>): seq<Byte>
    requires |pixel| == 4
  {
    if NearWhite(pixel[0], pixel[1], pixel[2]) then pixel[..3] + [0] else pixel
  }

  /** The whole buffer after the pass, pixel by pixel. */
  function ClearNearWhite(data: seq<Byte>): (cleared: seq<Byte>)
    requires |data| % 4 == 0
    ensures |cleared| == |data|
    decreases |data|
  {
    if data == [] then [] else ClearPixel(data[..4]) + ClearNearWhite(data[4..])
  }

  /** The value the pass leaves at index `k` of `data`. */
  function ClearedAt(data: seq<Byte>, k: nat): Byte
    requires |data| % 4 == 0 && k < |data|
  {
    if k % 4 == 3 && NearWhite(data[k - 3], data[k - 2], data[k - 1]) then 0 else data[k]
  }

  /**
   * Index by index: red, green and blue are never written; an alpha byte becomes 0 exactly
   * when its pixel's red, green and blue all exceed 250, and is kept otherwise.
   */
  lemma {:induction false} ClearNearWhiteAt(data: seq<Byte>, k: nat)
    requires |data| % 4 == 0 && k < |data|
    ensures ClearNearWhite(data)[k] == ClearedAt(data, k)
    decreases |data|
  {
    if k >= 4 {
      ClearNearWhiteAt(data[4..], k - 4);
      assert ClearNearWhite(data)[k] == ClearNearWhite(data[4..])[k - 4];
    }
  }

  lemma ClearPixelIdempotent(pixel: seq<Byte>)
    requires |pixel| == 4
    ensures ClearPixel(ClearPixel(pixel)) == ClearPixel(pixel)
  {
    assert ClearPixel(pixel)[..3] == pixel[..3];
  }

  /** Running the pass twice leaves the buffer as running it once. */
  lemma {:induction false} ClearNearWhiteIdempotent(data: seq<Byte>)
    requires |data| % 4 == 0
    ensures ClearNearWhite(ClearNearWhite(data)) == ClearNearWhite(data)
    decreases |data|
  {
    if data != [] {
      var head, rest := ClearPixel(data[..4]), ClearNearWhite(data[4..]);
      assert (head + rest)[..4] == head && (head + rest)[4..] == rest;
      ClearPixelIdempotent(data[..4]);
      ClearNearWhiteIdempotent(data[4..]);
    }
  }

  /** The in-place loop over the buffer, four bytes at a time. */
  method ClearNearWhitePixels(data: array<Byte>)
    requires data.Length % 4 == 0
    modifies data
    ensures data[..] == ClearNearWhite(old(data[..]))
  {
    ghost var original := data[..];
    var i := 0;
    while i < data.Length
      invariant 0 <= i <= data.Length && i % 4 == 0
      invariant forall k :: 0 <= k < i ==> data[k] == ClearedAt(original, k)
      invariant forall k :: i <= k < data.Length ==> data[k] == original[k]
    {
      var r := data[i];
      var g := data[i + 1];
      var b := data[i + 2];
      if r > 250 && g > 250 && b > 250 {
        data[i + 3] := 0;
      }
      i := i + 4;
    }
    forall k | 0 <= k < data.Length ensures data[k] == ClearNearWhite(original)[k] {
      ClearNearWhiteAt(original, k);
    }
  }
}
