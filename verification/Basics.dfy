/** Shared vocabulary: optional values, bytes, and concatenation of chunk lists. */
module Basics {

  datatype Option<+T> = None | Some(value: T)

  type Byte = x: int | 0 <= x < 256

  type Bytes = seq<Byte>

  /** The largest integer below which a JavaScript number is exact. */
  const MAX_SAFE_INTEGER: int := 0x1F_FFFF_FFFF_FFFF

  function Flatten<T>(parts: seq<seq<T>>): seq<T> {
    if parts == [] then [] else parts[0] + Flatten(parts[1..])
  }

  lemma {:induction false} FlattenAppend<T>(left: seq<seq<T>>, right: seq<seq<T>>)
    ensures Flatten(left + right) == Flatten(left) + Flatten(right)
  {
    if left == [] {
      assert left + right == right;
    } else {
      assert (left + right)[0] == left[0] && (left + right)[1..] == left[1..] + right;
      FlattenAppend(left[1..], right);
      assert left[0] + (Flatten(left[1..]) + Flatten(right)) == Flatten(left) + Flatten(right);
    }
  }

  lemma AppendAssociates<T>(a: seq<T>, b: seq<T>, c: seq<T>)
    ensures (a + b) + c == a + (b + c)
  {}

  lemma SplitAppend<T>(a: seq<T>, b: seq<T>)
    ensures (a + b)[..|a|] == a && (a + b)[|a|..] == b
  {}

  lemma CutJoins<T>(s: seq<T>, n: nat)
    requires n <= |s|
    ensures s == s[..n] + s[n..]
  {}

  lemma CutTwice<T>(s: seq<T>, a: nat, b: nat)
    requires a + b <= |s|
    ensures s[a..][b..] == s[a + b..]
  {}

  lemma Middle<T>(a: seq<T>, b: seq<T>, c: seq<T>)
    ensures (a + b + c)[|a|..|a| + |b|] == b
    ensures (a + b + c)[|a| + |b|..] == c
  {}

  lemma RowStep(y: int, width: nat)
    ensures (y + 1) * width == y * width + width && (y - 1) * width == y * width - width
  {}

  lemma {:induction false} RowsApart(low: nat, high: nat, width: nat)
    requires low < high
    ensures low * width + width <= high * width
    decreases high
  {
    RowStep(high, width);
    if low + 1 < high {
      RowsApart(low, high - 1, width);
    }
  }

  lemma QuotientIsUnique(q: nat, r: nat, y: nat, x: nat, width: nat)
    requires r < width && x < width && q * width + r == y * width + x
    ensures q == y && r == x
  {
    if q < y {
      RowsApart(q, y, width);
    } else if q > y {
      RowsApart(y, q, width);
    }
  }

  lemma MultiplyKeepsOrder(a: nat, b: nat, width: nat)
    ensures a <= b ==> a * width <= b * width
  {}

  function Max(a: int, b: int): int {
    if a < b then b else a
  }

  function MaxReal(a: real, b: real): real {
    if a < b then b else a
  }
}
