/** Bytes, nibbles, and the order in which keys are compared. */
module Basics {

  type Byte = b: int | 0 <= b < 256
  type Bytes = seq<Byte>
  type Nibble = d: int | 0 <= d < 16
  type Path = seq<Nibble>
  type Bytes32 = s: Bytes | |s| == 32 witness seq(32, _ => 0)
  type Bytes20 = s: Bytes | |s| == 20 witness seq(20, _ => 0)

  datatype Option<+T> = None | Some(value: T)

  /** The length of the longest common prefix of `a` and `b`, known to be at least `i`. */
  function CommonLen(a: seq<int>, b: seq<int>, i: nat := 0): (n: nat)
    requires i <= |a| && i <= |b| && a[..i] == b[..i]
    ensures i <= n <= |a| && n <= |b|
    ensures a[..n] == b[..n]
    ensures n < |a| && n < |b| ==> a[n] != b[n]
    decreases |a| - i
  {
    if i < |a| && i < |b| && a[i] == b[i] then
      assert a[..i + 1] == a[..i] + [a[i]] == b[..i + 1];
      CommonLen(a, b, i + 1)
    else
      i
  }

  /** `prefix_length`: the scan computes the longest common prefix. */
  method PrefixLength(a: seq<int>, b: seq<int>) returns (n: nat)
    ensures n == CommonLen(a, b)
  {
    var len := if |a| < |b| then |a| else |b|;
    n := 0;
    while n < len
      invariant n <= len
      invariant a[..n] == b[..n]
    {
      if a[n] != b[n] {
        CommonLenUnique(a, b, n);
        return;
      }
      n := n + 1;
    }
    CommonLenUnique(a, b, n);
  }

  lemma CommonLenUnique(a: seq<int>, b: seq<int>, n: nat)
    requires n <= |a| && n <= |b| && a[..n] == b[..n]
    requires n < |a| && n < |b| ==> a[n] != b[n]
    ensures CommonLen(a, b) == n
  {
    var m := CommonLen(a, b);
    assert forall i | 0 <= i < n :: a[i] == a[..n][i] && b[i] == b[..n][i];
    assert forall i | 0 <= i < m :: a[i] == a[..m][i] && b[i] == b[..m][i];
  }

  /** Lexicographically smaller, and not a prefix. */
  predicate Before(a: seq<int>, b: seq<int>)
  {
    var d := CommonLen(a, b);
    d < |a| && d < |b| && a[d] < b[d]
  }

  lemma BeforeAt(a: seq<int>, b: seq<int>, d: nat)
    requires d < |a| && d < |b| && a[..d] == b[..d] && a[d] < b[d]
    ensures Before(a, b) && CommonLen(a, b) == d
  {
    CommonLenUnique(a, b, d);
  }

  lemma BeforeTransitive(a: seq<int>, b: seq<int>, c: seq<int>)
    requires Before(a, b) && Before(b, c)
    ensures Before(a, c)
  {
    var d, e := CommonLen(a, b), CommonLen(b, c);
    var f := if d < e then d else e;
    assert a[..f] == a[..d][..f] == b[..d][..f] == b[..f];
    assert b[..f] == b[..e][..f] == c[..e][..f] == c[..f];
    if d < e {
      assert b[d] == b[..e][d] == c[..e][d] == c[d];
    } else if e < d {
      assert a[e] == a[..d][e] == b[..d][e] == b[e];
    }
    BeforeAt(a, c, f);
  }

  lemma PrefixExtend(a: seq<int>, b: seq<int>, n: nat)
    requires n < |a| && n < |b| && a[..n] == b[..n] && a[n] == b[n]
    ensures a[..n + 1] == b[..n + 1]
  {
    assert a[..n + 1] == a[..n] + [a[n]];
    assert b[..n + 1] == b[..n] + [b[n]];
  }

  lemma PrefixTaken<T>(x: seq<T>, y: seq<T>)
    requires x <= y
    ensures y[..|x|] == x
  {
  }

  lemma PrefixSnoc<T>(s: seq<T>, n: nat)
    requires n < |s|
    ensures s[..n + 1] == s[..n] + [s[n]]
  {
  }
}
