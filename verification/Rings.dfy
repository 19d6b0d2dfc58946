/** The fixed ring behind a host's recent logs and spans (internal/fleet/view.go):
    it always shows the newest entries of the stream pushed into it. */
module Rings {

  lemma ModShift(q: int, r: int, m: int)
    requires 0 <= r < m
    ensures (q * m + r) % m == r
  {
    var d := (q * m + r) / m;
    assert (q * m + r) - d * m == (q * m + r) % m;
    assert (q - d) * m == (q * m + r) % m - r;
    assert q - d >= 1 ==> (q - d) * m >= m;
    assert q - d <= -1 ==> (q - d) * m <= -m;
  }

  /** Going `i + 1` slots back from the next free one lands on the entry pushed
      that long ago. */
  lemma SlotBack(n: nat, i: nat, m: nat)
    requires m > 0 && i < m && i < n
    ensures 0 <= n % m - 1 - i + m * 2 && (n % m - 1 - i + m * 2) % m == (n - 1 - i) % m
  {
    var q, r := n / m, n % m;
    assert n == q * m + r;
    if r >= i + 1 {
      ModShift(q, r - 1 - i, m);
      ModShift(2, r - 1 - i, m);
    } else {
      ModShift(q - 1, r - 1 - i + m, m);
      assert (q - 1) * m + (r - 1 - i + m) == n - 1 - i;
      ModShift(1, r - 1 - i + m, m);
    }
  }

  /** The newest `m` entries occupy distinct slots. */
  lemma SlotsDiffer(j: nat, n: nat, m: nat)
    requires m > 0 && j < n < j + m
    ensures j % m != n % m
  {
    var q, r := j / m, j % m;
    assert j == q * m + r;
    if r + (n - j) < m { ModShift(q, r + (n - j), m); } else {
      assert (q + 1) * m + (r + (n - j) - m) == n;
      ModShift(q + 1, r + (n - j) - m, m);
    }
  }

  lemma NextSlot(n: nat, m: nat)
    requires m > 0
    ensures (n % m + 1) % m == (n + 1) % m
    ensures (n + 1) % m == 0 ==> n + 1 >= m
    ensures n + 1 == m ==> (n + 1) % m == 0
    ensures n < m ==> n % m == n
  {
    var q, r := n / m, n % m;
    assert n == q * m + r;
    if r + 1 < m {
      ModShift(q, r + 1, m);
      ModShift(0, r + 1, m);
    } else {
      assert (q + 1) * m + 0 == n + 1;
      ModShift(q + 1, 0, m);
      ModShift(1, 0, m);
    }
    if n < m { ModShift(0, n, m); }
    if n + 1 < m { ModShift(0, n + 1, m); }
  }

  /** Each of the newest |b| entries of the stream is in its slot. */
  ghost predicate Window<T>(b: seq<T>, stream: seq<T>)
    requires b != []
  {
    forall j: nat :: |stream| - |b| <= j < |stream| ==> b[j % |b|] == stream[j]
  }

  lemma WindowMore<T>(b: seq<T>, stream: seq<T>, v: T)
    requires b != [] && Window(b, stream)
    ensures Window(b[|stream| % |b| := v], stream + [v])
  {
    var n, m := |stream|, |b|;
    var b', stream' := b[n % m := v], stream + [v];
    forall j: nat | n + 1 - m <= j < n + 1 ensures b'[j % m] == stream'[j] {
      if j < n { SlotsDiffer(j, n, m); }
    }
  }

  class Ring<T(0)> {
    const buf: array<T>
    var next: nat
    var full: bool
    /** Everything ever pushed. */
    ghost var stream: seq<T>

    constructor (n: nat)
      ensures Valid() && stream == [] && buf.Length == n && fresh(buf)
    {
      buf := new T[n];
      next, full, stream := 0, false, [];
    }

    function Len(): nat
      reads this
    {
      if full then buf.Length else next
    }

    ghost predicate Valid()
      reads this, buf
    {
      && (buf.Length == 0 ==> next == 0 && !full)
      && (buf.Length > 0 ==>
            && next == |stream| % buf.Length
            && (full <==> |stream| >= buf.Length)
            && Window(buf[..], stream))
    }

    /** Record one entry, over the oldest one once the ring is full. */
    method Push(v: T)
      requires Valid()
      modifies this, buf
      ensures Valid() && stream == old(stream) + [v]
    {
      ghost var n, b := |stream|, buf[..];
      stream := stream + [v];
      if buf.Length == 0 { return; }
      NextSlot(n, buf.Length);
      WindowMore(b, old(stream), v);
      buf[next] := v;
      assert buf[..] == b[n % |b| := v];
      next := (next + 1) % buf.Length;
      if next == 0 { full := true; }
      hide Window;
    }

    /** The entries, newest first: as many of the stream as fit. */
    method Snapshot() returns (out: seq<T>)
      requires Valid()
      ensures |out| == if |stream| < buf.Length then |stream| else buf.Length
      ensures forall i :: 0 <= i < |out| ==> out[i] == stream[|stream|-1-i]
    {
      var n := Len();
      if buf.Length > 0 { NextSlot(|stream|, buf.Length); }
      out := [];
      for i := 0 to n
        invariant |out| == i
        invariant forall k :: 0 <= k < i ==> out[k] == stream[|stream|-1-k]
      {
        SlotBack(|stream|, i, buf.Length);
        assert buf[..][(|stream| - 1 - i) % buf.Length] == stream[|stream| - 1 - i];
        var idx := (next - 1 - i + buf.Length * 2) % buf.Length;
        out := out + [buf[idx]];
      }
    }
  }
}
