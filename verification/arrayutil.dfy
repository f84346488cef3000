/** Array helpers (util/ArrayUtil.java): fixed-size block splitting, boxing and unboxing of
    primitive arrays, and a null-tolerant length. */
module ArrayUtil {
  import opened Wrappers
  import opened Primitives

  // ------------------------------------------------------------------ reference definitions

  /** `n` zero bytes, the default content of a fresh Java `byte[]`. */
  function Zeros(n: nat): (r: seq<byte>)
    ensures |r| == n && forall i :: 0 <= i < n ==> r[i] == 0
  {
    seq(n, _ => 0)
  }

  /** The blocks `split` produces, defined left to right: each block takes the next `len`
      bytes; a final short block is padded with zeros up to `len`. */
  function Chunks(s: seq<byte>, len: nat): (r: seq<seq<byte>>)
    requires len > 0
    ensures forall k :: 0 <= k < |r| ==> |r[k]| == len
    decreases |s|
  {
    if s == [] then []
    else if |s| < len then [s + Zeros(len - |s|)]
    else [s[..len]] + Chunks(s[len..], len)
  }

  /** The number of blocks: one per full `len` bytes, plus one for a remainder. */
  function ChunkCount(n: nat, len: nat): nat
    requires len > 0
  {
    n / len + (if n % len != 0 then 1 else 0)
  }

  /** All blocks laid end to end. */
  function Flatten(chunks: seq<seq<byte>>): seq<byte> {
    if chunks == [] then [] else chunks[0] + Flatten(chunks[1..])
  }

  // ------------------------------------------------------------------ properties of Chunks

  /** `split` yields `n/len` full blocks plus one more exactly when `n % len != 0`;
      an empty input yields no block at all. */
  lemma {:induction false} ChunksCount(s: seq<byte>, len: nat)
    requires len > 0
    ensures |Chunks(s, len)| == ChunkCount(|s|, len)
    ensures s == [] <==> Chunks(s, len) == []
    decreases |s|
  {
    if s == [] {
    } else if |s| < len {
      DivModOf(|s|, len, 0, |s|);
    } else {
      ChunksCount(s[len..], len);
      ChunkCountStep(|s|, len);
    }
  }

  /** Block `i` of the split: the `len` bytes at `i * len` when they all exist, otherwise the
      `n % len` bytes left over followed by `len - n % len` zeros. */
  lemma {:induction false} ChunkAt(s: seq<byte>, len: nat, i: nat)
    requires len > 0 && i < |Chunks(s, len)|
    ensures i * len < |s|
    ensures i * len + len <= |s| ==> Chunks(s, len)[i] == s[i * len..i * len + len]
    ensures i * len + len > |s| ==>
      i == |Chunks(s, len)| - 1 && |s| - i * len == |s| % len &&
      Chunks(s, len)[i] == s[i * len..] + Zeros(len - |s| % len)
    decreases i
  {
    if i == 0 {
      if |s| < len {
        DivModOf(|s|, len, 0, |s|);
      }
    } else {
      assert |s| >= len;
      var t := s[len..];
      ChunkAt(t, len, i - 1);
      MulStep(i, len);
      assert t[(i - 1) * len..] == s[i * len..];
      if i * len + len <= |s| {
        assert t[(i - 1) * len..(i - 1) * len + len] == s[i * len..i * len + len];
      } else {
        ModMinusLen(|s|, len);
      }
    }
  }

  /** Removing one full block takes one from the block count. */
  lemma ChunkCountStep(n: nat, len: nat)
    requires 0 < len <= n
    ensures ChunkCount(n, len) == ChunkCount(n - len, len) + 1
  {
    ModMinusLen(n, len);
  }

  /** Removing `len` from `n` takes one from the quotient and keeps the remainder. */
  lemma ModMinusLen(n: int, len: int)
    requires 0 < len <= n
    ensures (n - len) / len == n / len - 1 && (n - len) % len == n % len
  {
    var q, r := (n - len) / len, (n - len) % len;
    assert n - len == q * len + r;
    MulStep(q + 1, len);
    DivModOf(n, len, q + 1, r);
  }

  lemma MulStep(i: int, len: int)
    ensures (i - 1) * len + len == i * len
  {
  }

  /** Laying the blocks end to end and cutting at `n` gives back the input. */
  lemma {:induction false} ChunksFlatten(s: seq<byte>, len: nat)
    requires len > 0
    ensures |Flatten(Chunks(s, len))| >= |s|
    ensures Flatten(Chunks(s, len))[..|s|] == s
    decreases |s|
  {
    if s == [] {
    } else if |s| < len {
      assert Flatten(Chunks(s, len)) == s + Zeros(len - |s|) + [];
    } else {
      ChunksFlatten(s[len..], len);
      var rest := Flatten(Chunks(s[len..], len));
      assert Flatten(Chunks(s, len)) == s[..len] + rest;
      assert (s[..len] + rest)[..|s|] == s[..len] + rest[..|s| - len];
      assert s == s[..len] + s[len..];
    }
  }

  /** Division with remainder is unique: `q` and `r` are `a / b` and `a % b`. */
  lemma DivModOf(a: int, b: int, q: int, r: int)
    requires b > 0 && 0 <= r < b && a == q * b + r
    ensures a / b == q && a % b == r
  {
    var q', r' := a / b, a % b;
    assert (q - q') * b == r' - r;
    if q > q' {
      MulAtLeast(q - q', b);
    } else if q < q' {
      MulAtLeast(q' - q, b);
    }
  }

  lemma MulAtLeast(k: int, b: int)
    requires k >= 1 && b > 0
    ensures k * b >= b
  {
  }

  // ------------------------------------------------------------------ split

  /** `System.arraycopy(src, srcPos, dest, destPos, length)`: copies through a snapshot, so
      overlapping ranges behave as the platform promises. */
  method ArrayCopy(src: array<byte>, srcPos: nat, dest: array<byte>, destPos: nat, length: nat)
    requires srcPos + length <= src.Length && destPos + length <= dest.Length
    modifies dest
    ensures dest[destPos..destPos + length] == old(src[srcPos..srcPos + length])
    ensures dest[..destPos] == old(dest[..destPos])
    ensures dest[destPos + length..] == old(dest[destPos + length..])
  {
    var snapshot := src[srcPos..srcPos + length];
    var k := 0;
    while k < length
      invariant 0 <= k <= length
      invariant dest[destPos..destPos + k] == snapshot[..k]
      invariant dest[..destPos] == old(dest[..destPos])
      invariant dest[destPos + k..] == old(dest[destPos + k..])
    {
      dest[destPos + k] := snapshot[k];
      k := k + 1;
    }
  }

  /** `ArrayUtil.split(bytes, len)`: a fresh array holding `ChunkCount(n, len)` fresh,
      distinct blocks of exactly `len` bytes, block `i` being `Chunks(array, len)[i]`. */
  method Split(bytes: array<byte>, len: nat) returns (arrays: array<array?<byte>>)
    requires len > 0
    ensures fresh(arrays)
    ensures arrays.Length == ChunkCount(bytes.Length, len) == |Chunks(bytes[..], len)|
    ensures forall i :: 0 <= i < arrays.Length ==>
      arrays[i] != null && fresh(arrays[i]) && arrays[i][..] == Chunks(bytes[..], len)[i]
    ensures forall i, j :: 0 <= i < j < arrays.Length ==> arrays[i] != arrays[j]
  {
    ghost var s := bytes[..];
    var x := bytes.Length / len;
    var y := bytes.Length % len;
    var z := 0;
    if y != 0 {
      z := 1;
    }
    ChunksCount(s, len);
    arrays := new array?<byte>[x + z];
    for i := 0 to x + z
      invariant forall j :: 0 <= j < i ==>
        arrays[j] != null && fresh(arrays[j]) && arrays[j][..] == Chunks(s, len)[j]
      invariant forall j, k :: 0 <= j < k < i ==> arrays[j] != arrays[k]
    {
      var arr := NewBlock(bytes, len, i, i == x + z - 1 && y != 0);
      arrays[i] := arr;
    }
  }

  /** One turn of the loop in `split`: a fresh zero-filled block of `len` bytes, into which
      the `n % len` remaining bytes are copied for a partial last block, `len` bytes
      otherwise. */
  method NewBlock(bytes: array<byte>, len: nat, i: nat, lastPartial: bool) returns (arr: array<byte>)
    requires len > 0 && i < ChunkCount(bytes.Length, len) == |Chunks(bytes[..], len)|
    requires lastPartial <==> (i == ChunkCount(bytes.Length, len) - 1 && bytes.Length % len != 0)
    ensures fresh(arr) && arr[..] == Chunks(bytes[..], len)[i]
  {
    var off := i * len;
    ChunkAt(bytes[..], len, i);
    BlockBounds(bytes.Length, len, i);
    arr := new byte[len](_ => 0);
    if lastPartial {
      var y := bytes.Length % len;
      ArrayCopy(bytes, off, arr, 0, y);
      assert arr[..y] == bytes[off..];
      assert arr[..] == arr[..y] + arr[y..];
    } else {
      ArrayCopy(bytes, off, arr, 0, len);
      assert arr[..] == arr[0..len];
    }
  }

  /** The only block that runs past the end of the input is the last one, and only when
      there is a remainder. */
  lemma BlockBounds(n: nat, len: nat, i: nat)
    requires len > 0 && i < ChunkCount(n, len)
    ensures i * len + len <= n <==> !(i == ChunkCount(n, len) - 1 && n % len != 0)
  {
    var q, r := n / len, n % len;
    assert n == q * len + r;
    if i == ChunkCount(n, len) - 1 && r != 0 {
      assert i == q;
    } else {
      assert i < q;
      MulMono(i + 1, q, len);
      assert (i + 1) * len == i * len + len;
    }
  }

  lemma MulMono(a: int, b: int, c: int)
    requires 0 <= a <= b && c > 0
    ensures a * c <= b * c
  {
  }

  // ------------------------------------------------------------------ wrap and unWrap

  /** The boxed form of a primitive array: every element present. */
  function Boxed<T>(values: seq<T>): (r: seq<Option<T>>)
    ensures |r| == |values|
  {
    if values == [] then [] else [Some(values[0])] + Boxed(values[1..])
  }

  /** The primitive form of a boxed array, or `None` when an element is null. */
  function Unboxed<T>(values: seq<Option<T>>): (r: Option<seq<T>>)
    ensures r.Some? <==> forall i :: 0 <= i < |values| ==> values[i].Some?
    ensures r.Some? ==>
      (|r.value| == |values| && forall i :: 0 <= i < |values| ==> r.value[i] == values[i].value)
  {
    if values == [] then Some([])
    else if values[0].None? then None
    else
      match Unboxed(values[1..])
      case None => None
      case Some(rest) => Some([values[0].value] + rest)
  }

  /** `unWrap(wrap(v)) == v`: boxing then unboxing gives back the same elements in order. */
  lemma {:induction false} UnboxedBoxed<T>(values: seq<T>)
    ensures Unboxed(Boxed(values)) == Some(values)
  {
    if values != [] {
      UnboxedBoxed(values[1..]);
      var b := Boxed(values);
      assert b == [Some(values[0])] + Boxed(values[1..]);
      assert b[0] == Some(values[0]) && b[1..] == Boxed(values[1..]);
      assert [values[0]] + values[1..] == values;
    }
  }

  /** `ArrayUtil.wrap(values)`, for each primitive element type: a fresh array of boxes. */
  method Wrap<T>(values: array<T>) returns (boxed: array<Option<T>>)
    ensures fresh(boxed) && boxed[..] == Boxed(values[..])
  {
    var length := values.Length;
    boxed := new Option<T>[length];
    for i := 0 to length
      invariant forall j :: 0 <= j < i ==> boxed[j] == Some(values[j])
    {
      boxed[i] := Some(values[i]);
    }
    BoxedAt(values[..], boxed[..]);
  }

  lemma {:induction false} BoxedAt<T>(values: seq<T>, boxed: seq<Option<T>>)
    requires |boxed| == |values| && forall j :: 0 <= j < |values| ==> boxed[j] == Some(values[j])
    ensures boxed == Boxed(values)
  {
    if values != [] {
      BoxedAt(values[1..], boxed[1..]);
    }
  }

  /** `ArrayUtil.unWrap(values)`, for each primitive element type: fails with a
      `NullPointerException` on the first null element, otherwise a fresh primitive array
      holding the unboxed elements in order. */
  method UnWrap<T(0)>(values: array<Option<T>>) returns (r: Result<array<T>>)
    ensures r.Fail? <==> Unboxed(values[..]).None?
    ensures r.Fail? ==> r.error == NullPointer
    ensures r.Ok? ==> fresh(r.value) && Unboxed(values[..]) == Some(r.value[..])
  {
    var length := values.Length;
    var result := new T[length];
    for i := 0 to length
      invariant forall j :: 0 <= j < i ==> values[j].Some? && result[j] == values[j].value
    {
      if values[i].None? {
        return Fail(NullPointer);
      }
      result[i] := values[i].value;
    }
    assert forall j :: 0 <= j < length ==> values[..][j].Some?;
    var u := Unboxed(values[..]);
    assert u.Some? && |u.value| == length;
    assert u.value == result[..];
    return Ok(result);
  }

  // ------------------------------------------------------------------ length

  /** `ArrayUtil.length`: 0 for null, otherwise the number of elements. */
  function Length<T>(a: array?<T>): (r: nat)
    reads {}
    ensures a == null ==> r == 0
    ensures a != null ==> r == a.Length
  {
    if a == null then 0 else a.Length
  }
}
