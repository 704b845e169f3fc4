/** Packets, their sizes, and the order in which they pass. */
module Packets {

  /** Bytes of one delivery opportunity, and the largest packet accepted. */
  const PACKET_SIZE: nat := 1504

  datatype Packet = Packet(contents: string, arrival: nat)

  function Bytes(ps: seq<Packet>): nat {
    if ps == [] then 0 else |ps[0].contents| + Bytes(ps[1..])
  }

  lemma {:induction false} BytesConcat(a: seq<Packet>, b: seq<Packet>)
    ensures Bytes(a + b) == Bytes(a) + Bytes(b)
  {
    if a == [] {
      assert a + b == b;
    } else {
      BytesConcat(a[1..], b);
      assert (a + b)[1..] == a[1..] + b;
    }
  }

  lemma BytesSnoc(a: seq<Packet>, p: Packet)
    ensures Bytes(a + [p]) == Bytes(a) + |p.contents|
  {
    BytesConcat(a, [p]);
  }

  /** No packet is empty and none exceeds one opportunity. */
  predicate Sendable(ps: seq<Packet>) {
    forall k :: 0 <= k < |ps| ==> 0 < |ps[k].contents| <= PACKET_SIZE
  }

  lemma {:induction false} SendableBytes(ps: seq<Packet>)
    requires Sendable(ps)
    ensures Bytes(ps) >= |ps|
  {
    if ps != [] {
      SendableBytes(ps[1..]);
    }
  }

  /** `f` picks the elements of `xs` out of `ys`, in order and each once. */
  ghost predicate Picks<T(!new)>(f: seq<nat>, xs: seq<T>, ys: seq<T>) {
    && |f| == |xs|
    && (forall i :: 0 <= i < |f| ==> f[i] < |ys| && xs[i] == ys[f[i]])
    && (forall i, j :: 0 <= i < j < |f| ==> f[i] < f[j])
  }

  /** `xs` is a subsequence of `ys`. */
  ghost predicate Subsequence<T(!new)>(xs: seq<T>, ys: seq<T>) {
    exists f :: Picks(f, xs, ys)
  }

  lemma SubsequenceCut<T(!new)>(a: seq<T>, b: seq<T>, c: seq<T>, ys: seq<T>)
    requires Subsequence(a + b + c, ys)
    ensures Subsequence(a + c, ys)
  {
    var f :| Picks(f, a + b + c, ys);
    var g := f[..|a|] + f[|a| + |b|..];
    forall i | 0 <= i < |g|
      ensures g[i] < |ys| && (a + c)[i] == ys[g[i]]
    {
      if i >= |a| {
        assert g[i] == f[i + |b|] && (a + b + c)[i + |b|] == (a + c)[i];
      } else {
        assert g[i] == f[i] && (a + b + c)[i] == (a + c)[i];
      }
    }
    assert Picks(g, a + c, ys);
  }

  lemma SubsequenceSnoc<T(!new)>(xs: seq<T>, ys: seq<T>, y: T)
    requires Subsequence(xs, ys)
    ensures Subsequence(xs + [y], ys + [y])
    ensures Subsequence(xs, ys + [y])
  {
    var f :| Picks(f, xs, ys);
    var last: nat := |ys|;
    assert Picks(f + [last], xs + [y], ys + [y]);
    assert Picks(f, xs, ys + [y]);
  }
}
