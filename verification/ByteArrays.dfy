/** Byte-array helpers of the crypto package (`packages/crypto/src/utils.ts`). */
module ByteArrays {

  type Byte = bv8

  /** The arrays' contents, one after the other. */
  function Flatten(parts: seq<seq<Byte>>): seq<Byte> {
    if parts == [] then [] else Flatten(parts[..|parts| - 1]) + parts[|parts| - 1]
  }

  ghost function Contents(arrays: seq<array<Byte>>): (parts: seq<seq<Byte>>)
    reads arrays
    ensures |parts| == |arrays|
  {
    seq(|arrays|, i requires 0 <= i < |arrays| reads arrays => arrays[i][..])
  }

  lemma {:induction false} FlattenPrefix(parts: seq<seq<Byte>>, k: nat)
    requires k <= |parts|
    ensures |Flatten(parts[..k])| <= |Flatten(parts)|
    decreases |parts|
  {
    if k < |parts| {
      FlattenPrefix(parts[..|parts| - 1], k);
      assert parts[..|parts| - 1][..k] == parts[..k];
    } else {
      assert parts[..k] == parts;
    }
  }

  /** Nothing but the parts, each whole, after all before it. */
  lemma {:induction false} PartsInOrder(parts: seq<seq<Byte>>, k: nat)
    requires k <= |parts|
    ensures k < |parts| ==> Flatten(parts[..k + 1]) == Flatten(parts[..k]) + parts[k]
    ensures k == 0 ==> Flatten(parts[..k]) == []
  {
    if k < |parts| { assert parts[..k + 1][..k] == parts[..k]; }
  }

  /** Copies an array into another at an offset; what lies before stays. */
  method CopyAt(result: array<Byte>, offset: nat, arr: array<Byte>)
    requires result != arr && offset + arr.Length <= result.Length
    modifies result
    ensures result[..offset + arr.Length] == old(result[..offset]) + arr[..]
  {
    forall k | 0 <= k < arr.Length { result[offset + k] := arr[k]; }
  }

  /** Concatenates the arrays into a new one, copying each at its offset. */
  method ConcatBytes(arrays: seq<array<Byte>>) returns (result: array<Byte>)
    ensures fresh(result) && result[..] == Flatten(Contents(arrays))
  {
    ghost var parts := Contents(arrays);
    var totalLength := 0;
    for i := 0 to |arrays|
      invariant totalLength == |Flatten(parts[..i])|
    {
      assert parts[..i + 1][..i] == parts[..i];
      totalLength := totalLength + arrays[i].Length;
    }
    assert parts[..|arrays|] == parts;
    result := new Byte[totalLength](_ => 0);
    var offset := 0;
    for i := 0 to |arrays|
      invariant Contents(arrays) == parts
      invariant offset == |Flatten(parts[..i])| <= result.Length
      invariant result[..offset] == Flatten(parts[..i])
    {
      assert parts[..i + 1][..i] == parts[..i];
      FlattenPrefix(parts, i + 1);
      var arr := arrays[i];
      assert parts[i] == arr[..];
      CopyAt(result, offset, arr);
      offset := offset + arr.Length;
    }
    assert parts[..|arrays|] == parts;
    assert result[..offset] == result[..];
  }

  lemma XorZero(x: Byte, y: Byte)
    ensures x ^ y == 0 <==> x == y
  {
  }

  lemma OrZero(x: Byte, y: Byte)
    ensures x | y == 0 <==> x == 0 && y == 0
  {
  }

  /** Compares without stopping early: the accumulated difference is zero exactly for equal contents. */
  method ConstantTimeEqual(a: array<Byte>, b: array<Byte>) returns (equal: bool)
    ensures equal <==> a[..] == b[..]
  {
    var result: Byte := 0;
    if a.Length != b.Length {
      var length := if a.Length > b.Length then a.Length else b.Length;
      for i := 0 to length {
        var x := if i < a.Length then a[i] else 0;
        var y := if i < b.Length then b[i] else 0;
        result := result | (x ^ y);
      }
      return false;
    }
    for i := 0 to a.Length
      invariant result == 0 <==> a[..i] == b[..i]
    {
      OrZero(result, a[i] ^ b[i]);
      XorZero(a[i], b[i]);
      assert a[..i + 1] == a[..i] + [a[i]] && b[..i + 1] == b[..i] + [b[i]];
      result := result | (a[i] ^ b[i]);
    }
    assert a[..a.Length] == a[..] && b[..b.Length] == b[..];
    equal := result == 0;
  }

  method ClearBytes(bytes: array<Byte>)
    modifies bytes
    ensures forall i | 0 <= i < bytes.Length :: bytes[i] == 0
  {
    for i := 0 to bytes.Length
      invariant forall k | 0 <= k < i :: bytes[k] == 0
    {
      bytes[i] := 0;
    }
  }
}
