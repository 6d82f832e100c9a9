/** Values shared by every component: machine integers, failure-aware results,
    and the two sequence operations the Rust code leans on, concatenating a list
    of byte vectors and cutting one vector into `chunks(n)`. */
module Basics {

  datatype Option<+T> = None | Some(value: T)

  datatype Result<+T, +E> = Ok(value: T) | Err(error: E)

  type byte = x: int | 0 <= x < 0x100

  type u32 = x: int | 0 <= x < 0x1_0000_0000

  function Min(a: nat, b: nat): nat {
    if a <= b then a else b
  }

  function Flatten<T>(ss: seq<seq<T>>): seq<T> {
    if ss == [] then [] else ss[0] + Flatten(ss[1..])
  }

  lemma {:induction false} FlattenConcat<T>(a: seq<seq<T>>, b: seq<seq<T>>)
    ensures Flatten(a + b) == Flatten(a) + Flatten(b)
  {
    if a == [] {
      assert a + b == b;
    } else {
      assert (a + b)[1..] == a[1..] + b;
      FlattenConcat(a[1..], b);
    }
  }

  lemma FlattenOne<T>(s: seq<T>)
    ensures Flatten([s]) == s
  {
    assert [s][1..] == [];
  }

  lemma FlattenSnoc<T>(a: seq<seq<T>>, s: seq<T>)
    ensures Flatten(a + [s]) == Flatten(a) + s
  {
    FlattenConcat(a, [s]);
    FlattenOne(s);
  }

  lemma Associative<T>(a: seq<T>, b: seq<T>, c: seq<T>)
    ensures a + b + c == a + (b + c)
  {
  }

  /** Rust's `slice::chunks`: pieces of exactly `n` elements, the last one possibly
      shorter, and no piece at all for an empty slice. */
  function Chunks<T>(s: seq<T>, n: nat): seq<seq<T>>
    requires n > 0
  {
    if s == [] then []
    else if |s| <= n then [s]
    else [s[..n]] + Chunks(s[n..], n)
  }

  /** Chunking loses nothing and makes pieces of 1 to `n` elements, of which all
      but the last are full. */
  lemma {:induction false} ChunksPartition<T>(s: seq<T>, n: nat)
    requires n > 0
    ensures Flatten(Chunks(s, n)) == s
    ensures forall i :: 0 <= i < |Chunks(s, n)| ==> 1 <= |Chunks(s, n)[i]| <= n
    ensures forall i :: 0 <= i < |Chunks(s, n)| - 1 ==> |Chunks(s, n)[i]| == n
  {
    if s == [] {
    } else if |s| <= n {
      FlattenOne(s);
    } else {
      ChunksPartition(s[n..], n);
      var rest := Chunks(s[n..], n);
      var all := Chunks(s, n);
      assert all == [s[..n]] + rest;
      assert forall i :: 1 <= i < |all| ==> all[i] == rest[i - 1];
      assert all[1..] == rest;
    }
  }

  /** ... and exactly ceil(|s| / n) of them. */
  lemma {:induction false} ChunksCount<T>(s: seq<T>, n: nat)
    requires n > 0
    ensures |Chunks(s, n)| == (|s| + n - 1) / n
  {
    if s == [] {
      QuotientUnique(n - 1, n, 0);
    } else if |s| <= n {
      QuotientUnique(|s| + n - 1, n, 1);
    } else {
      ChunksCount(s[n..], n);
      var q := (|s| - 1) / n;
      assert |s[n..]| + n - 1 == |s| - 1;
      DivisionBounds(|s| - 1, n);
      assert (q + 1) * n == q * n + n;
      assert (q + 2) * n == q * n + n + n;
      QuotientUnique(|s| + n - 1, n, q + 1);
    }
  }

  lemma DivisionBounds(a: nat, n: nat)
    requires n > 0
    ensures (a / n) * n <= a < (a / n) * n + n
  {
  }

  lemma ProductMonotone(x: nat, y: nat, n: nat)
    requires x <= y
    ensures x * n <= y * n
  {
  }

  lemma QuotientUnique(a: nat, n: nat, q: nat)
    requires n > 0 && q * n <= a < (q + 1) * n
    ensures a / n == q
  {
    var p := a / n;
    DivisionBounds(a, n);
    assert (p + 1) * n == p * n + n;
    if p < q {
      ProductMonotone(p + 1, q, n);
    } else if q < p {
      ProductMonotone(q + 1, p, n);
    }
  }
}
