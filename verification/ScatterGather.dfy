/** Bytes that are kept at scattered addresses: storing and reading a run of them. */
module ScatterGather {
  import opened FlatMemory

  /** The address at which each byte is kept. */
  type Places = map<nat, nat>

  ghost predicate Inside(p: Places) {
    forall a :: a in p ==> p[a] < ADDRESS_SPACE
  }

  ghost predicate OneToOne(p: Places) {
    forall a, b :: a in p && b in p && p[a] == p[b] ==> a == b
  }

  ghost predicate AllThere(p: Places, a: nat, n: nat) {
    n == 0 || (AllThere(p, a, n - 1) && a + (n - 1) in p)
  }

  lemma {:induction false} EachThere(p: Places, a: nat, n: nat, k: nat)
    requires AllThere(p, a, n) && k < n
    ensures AllThere(p, a, k) && a + k in p
  {
    if k < n - 1 { EachThere(p, a, n - 1, k); }
  }

  /** Memory after `data` was stored in the bytes from `a` on. */
  ghost function Scatter(v: Bytes, p: Places, a: nat, data: Bytes): (v': Bytes)
    requires |v| == ADDRESS_SPACE && Inside(p) && AllThere(p, a, |data|)
    ensures |v'| == ADDRESS_SPACE
  {
    if data == [] then v
    else
      var n := |data| - 1;
      Scatter(v, p, a, data[..n])[p[a + n] := data[n]]
  }

  /** The bytes from `a` on. */
  ghost function Gather(v: Bytes, p: Places, a: nat, n: nat): (data: Bytes)
    requires |v| == ADDRESS_SPACE && Inside(p) && AllThere(p, a, n)
    ensures |data| == n
  {
    if n == 0 then [] else Gather(v, p, a, n - 1) + [v[p[a + (n - 1)]]]
  }

  // ----- one piece at a time -----

  /** The bytes [a + n, a + to) are kept one after the other from `at` on. */
  ghost predicate Consecutive(p: Places, a: nat, n: nat, to: nat, at: nat)
    requires n <= to
  {
    to == n || (Consecutive(p, a, n, to - 1, at) && a + (to - 1) in p && p[a + (to - 1)] == at + (to - 1 - n))
  }

  ghost predicate FollowsAt(p: Places, a: nat, n: nat, k: nat, at: nat)
    requires n <= k
  {
    a + k in p && p[a + k] == at + (k - n)
  }

  lemma {:induction false} AllFollow(p: Places, a: nat, n: nat, to: nat, at: nat)
    requires n <= to && forall k :: n <= k < to ==> FollowsAt(p, a, n, k, at)
    ensures Consecutive(p, a, n, to, at)
  {
    if n < to {
      AllFollow(p, a, n, to - 1, at);
      assert FollowsAt(p, a, n, to - 1, at);
    }
  }

  /** Storing one contiguous piece continues the bytes before it, */
  lemma {:induction false} PieceStored(v: Bytes, p: Places, a: nat, data: Bytes, n: nat, to: nat, at: nat)
    requires |v| == ADDRESS_SPACE && Inside(p) && AllThere(p, a, n) && n <= to <= |data|
    requires Consecutive(p, a, n, to, at) && at + (to - n) <= ADDRESS_SPACE
    ensures AllThere(p, a, to)
    ensures Scatter(v, p, a, data[..to]) == Patch(Scatter(v, p, a, data[..n]), at, data[n..to])
  {
    if n < to {
      PieceStored(v, p, a, data, n, to - 1, at);
      NextStored(v, p, a, data, to - 1);
      NextPatched(Scatter(v, p, a, data[..n]), at, data, n, to - 1);
    } else {
      assert data[n..to] == [];
    }
  }

  lemma NextStored(v: Bytes, p: Places, a: nat, data: Bytes, k: nat)
    requires |v| == ADDRESS_SPACE && Inside(p) && k < |data| && AllThere(p, a, k) && a + k in p
    ensures AllThere(p, a, k + 1)
    ensures Scatter(v, p, a, data[..k + 1]) == Scatter(v, p, a, data[..k])[p[a + k] := data[k]]
  {
    assert data[..k + 1][..k] == data[..k];
  }

  lemma NextPatched(v: Bytes, at: nat, data: Bytes, n: nat, k: nat)
    requires n <= k < |data| && at + (k - n) < |v|
    ensures Patch(v, at, data[n..k + 1]) == Patch(v, at, data[n..k])[at + (k - n) := data[k]]
  {
  }

  /** and so does reading it. */
  lemma {:induction false} PieceRead(v: Bytes, p: Places, a: nat, n: nat, to: nat, at: nat)
    requires |v| == ADDRESS_SPACE && Inside(p) && AllThere(p, a, n) && n <= to
    requires Consecutive(p, a, n, to, at) && at + (to - n) <= ADDRESS_SPACE
    ensures AllThere(p, a, to)
    ensures Gather(v, p, a, to) == Gather(v, p, a, n) + v[at..at + (to - n)]
  {
    if n < to {
      PieceRead(v, p, a, n, to - 1, at);
      NextRead(v, at, to - 1 - n);
    }
  }

  lemma NextRead(v: Bytes, at: nat, k: nat)
    requires at + k < |v|
    ensures v[at..at + (k + 1)] == v[at..at + k] + [v[at + k]]
  {
  }

  // ----- what was stored is read back, and nothing else changes -----

  /** A store changes the bytes stored, and only those. */
  lemma {:induction false} ScatterExactly(v: Bytes, p: Places, a: nat, data: Bytes, x: nat)
    requires |v| == ADDRESS_SPACE && Inside(p) && AllThere(p, a, |data|) && x < ADDRESS_SPACE
    ensures (exists k: nat :: Keeps(p, a, |data|, k, x) && Scatter(v, p, a, data)[x] == data[k])
      || (Scatter(v, p, a, data)[x] == v[x] && forall k: nat :: !Keeps(p, a, |data|, k, x))
  {
    if data != [] {
      var n := |data| - 1;
      ScatterExactly(v, p, a, data[..n], x);
      if p[a + n] == x {
        assert Keeps(p, a, |data|, n, x);
      } else if k: nat :| Keeps(p, a, n, k, x) && Scatter(v, p, a, data[..n])[x] == data[..n][k] {
        assert Keeps(p, a, |data|, k, x);
      } else {
        forall k: nat
          ensures !Keeps(p, a, |data|, k, x)
        {
          assert !Keeps(p, a, n, k, x);
        }
      }
    }
  }

  /** Address `x` keeps the `k`-th of the `n` bytes from `a` on. */
  ghost predicate Keeps(p: Places, a: nat, n: nat, k: nat, x: nat) {
    k < n && a + k in p && p[a + k] == x
  }

  /** Bytes stored are read back, if no address keeps two of them. */
  lemma {:induction false} StoredIsRead(v: Bytes, p: Places, a: nat, data: Bytes, n: nat)
    requires |v| == ADDRESS_SPACE && Inside(p) && OneToOne(p) && AllThere(p, a, |data|) && n <= |data|
    ensures AllThere(p, a, n) && Gather(Scatter(v, p, a, data), p, a, n) == data[..n]
  {
    if n > 0 {
      StoredIsRead(v, p, a, data, n - 1);
      EachThere(p, a, |data|, n - 1);
      ByteIsStored(v, p, a, data, n - 1);
    }
  }

  lemma ByteIsStored(v: Bytes, p: Places, a: nat, data: Bytes, k: nat)
    requires |v| == ADDRESS_SPACE && Inside(p) && OneToOne(p) && AllThere(p, a, |data|) && k < |data| && a + k in p
    ensures Scatter(v, p, a, data)[p[a + k]] == data[k]
  {
    ScatterExactly(v, p, a, data, p[a + k]);
    assert Keeps(p, a, |data|, k, p[a + k]);
    var j: nat :| Keeps(p, a, |data|, j, p[a + k]) && Scatter(v, p, a, data)[p[a + k]] == data[j];
    assert a + j == a + k;
  }
}
