/** Byte strings, and where they are found in others. */
module ByteStrings {
  import opened Basics

  type Str = seq<byte>

  /** The bytes x are in b from p on. */
  ghost predicate At(b: Str, p: nat, x: Str) {
    p + |x| <= |b| && forall k :: 0 <= k < |x| ==> b[p + k] == x[k]
  }

  lemma AtJoin(b: Str, p: nat, x: Str, y: Str)
    ensures At(b, p, x + y) <==> At(b, p, x) && At(b, p + |x|, y)
  {
    var z := x + y;
    if At(b, p, z) {
      forall k | 0 <= k < |x| ensures b[p + k] == x[k] { assert z[k] == x[k]; }
      forall k | 0 <= k < |y| ensures b[p + |x| + k] == y[k] { assert z[|x| + k] == y[k]; }
    }
    if At(b, p, x) && At(b, p + |x|, y) {
      forall k | 0 <= k < |z| ensures b[p + k] == z[k] {
        if k >= |x| { assert b[p + |x| + (k - |x|)] == y[k - |x|]; }
      }
    }
  }

  /** The same with the place of y named. */
  lemma AtBoth(b: Str, p: nat, x: Str, q: nat, y: Str)
    requires q == p + |x|
    ensures At(b, p, x + y) <==> At(b, p, x) && At(b, q, y)
    ensures |x + y| == |x| + |y|
  {
    AtJoin(b, p, x, y);
    hide At;
  }

  lemma AtSlice(b: Str, p: nat, x: Str)
    ensures At(b, p, x) <==> p + |x| <= |b| && b[p..p + |x|] == x
  {
    if p + |x| <= |b| && b[p..p + |x|] == x {
      forall k | 0 <= k < |x| ensures b[p + k] == x[k] { assert b[p..p + |x|][k] == x[k]; }
    }
  }

  lemma AtByte(b: Str, p: nat, x: byte)
    ensures At(b, p, [x]) <==> p < |b| && b[p] == x
  {
    assert At(b, p, [x]) ==> b[p + 0] == [x][0];
  }
}
