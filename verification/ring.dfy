/**
 * Ring-buffer arithmetic shared by the delay-line effects: the
 * `rem_euclid` tap index and the memory left behind by a run of
 * consecutive writes, with the round-trip property that reading `d`
 * slots behind the cursor gives back the value written `d` writes ago.
 */
module Ring {

  /**
   * The slot `d` positions behind cursor `ix`, computed as
   * `(ix - d).rem_euclid(len)`: always a valid slot, wrapping once when `d > ix`.
   */
  function TapIndex(ix: int, d: int, len: nat): (k: nat)
    requires len > 0
    ensures k < len
    ensures 0 <= ix - d < len ==> k == ix - d
    ensures -(len as int) <= ix - d < 0 ==> k as int == ix - d + len
  {
    (ix - d) % len
  }

  /** A non-zero multiple of `len` is at least `len` away from zero. */
  lemma MulGap(k: int, len: nat)
    requires len > 0
    ensures k == 0 || k * len >= len || k * len <= -(len as int)
  {
    if k >= 1 {
      assert k * len == (k - 1) * len + len;
    } else if k <= -1 {
      assert k * len == (k + 1) * len - len;
    }
  }

  /** Euclidean remainder is determined by any quotient/remainder split. */
  lemma ModUnique(y: int, m: int, r: int, len: nat)
    requires len > 0 && 0 <= r < len && y == m * len + r
    ensures y % len == r
  {
    var k := m - y / len;
    assert k * len == y % len - r;
    MulGap(k, len);
  }

  /** Shifting by whole turns does not change the slot. */
  lemma ModShift(x: int, q: int, len: nat)
    requires len > 0
    ensures (x + q * len) % len == x % len
  {
    ModUnique(x + q * len, x / len + q, x % len, len);
  }

  /** Taking the cursor modulo `len` first does not change the tap slot. */
  lemma TapIndexOfReduced(a: int, d: int, len: nat)
    requires len > 0
    ensures TapIndex(a % len, d, len) == (a - d) % len
  {
    ModShift(a % len - d, a / len, len);
  }

  /** Advancing a reduced cursor by one is the same as advancing the position by one. */
  lemma NextSlot(a: int, len: nat)
    requires len > 0
    ensures (a % len + 1) % len == (a + 1) % len
  {
    var q := a / len;
    ModShift(a % len + 1, q, len);
    assert a % len + 1 + q * len == a + 1;
  }

  /** Positions less than one turn apart occupy different slots. */
  lemma ModDistinct(a: int, b: int, len: nat)
    requires len > 0 && a < b < a + len
    ensures a % len != b % len
  {
    var k := b / len - a / len;
    assert b - a == k * len + (b % len - a % len);
    MulGap(k, len);
  }

  /** The slot written by the `j`-th write of a run starting at `start`. */
  function Slot(start: int, j: int, len: nat): nat
    requires len > 0
  {
    (start + j) % len
  }

  /** The memory after writing `vals[j]` into slot `(start + j) % |mem|` for each `j` in order. */
  function Written(mem: seq<real>, start: int, vals: seq<real>): (r: seq<real>)
    requires |mem| > 0
    ensures |r| == |mem|
    decreases |vals|
  {
    if vals == [] then mem
    else Written(mem, start, vals[..|vals| - 1])[(start + |vals| - 1) % |mem| := vals[|vals| - 1]]
  }

  /**
   * Round trip: after `n` writes, the slot `d` positions behind the next
   * write position holds the value written `d` writes ago, for every
   * `1 <= d <= n` that does not exceed the buffer length.
   */
  lemma {:induction false} WrittenRecent(mem: seq<real>, start: int, vals: seq<real>, d: nat)
    requires |mem| > 0 && 1 <= d <= |vals| && d <= |mem|
    ensures Written(mem, start, vals)[(start + |vals| - d) % |mem|] == vals[|vals| - d]
    decreases |vals|
  {
    var n := |vals|;
    if d > 1 {
      ModDistinct(start + n - d, start + n - 1, |mem|);
      WrittenRecent(mem, start, vals[..n - 1], d - 1);
    }
  }

  /** A slot that none of the writes reaches keeps its old value. */
  lemma {:induction false} WrittenUntouched(mem: seq<real>, start: int, vals: seq<real>, k: nat)
    requires |mem| > 0 && k < |mem|
    requires forall j :: 0 <= j < |vals| ==> Slot(start, j, |mem|) != k
    ensures Written(mem, start, vals)[k] == mem[k]
    decreases |vals|
  {
    if vals != [] {
      assert Slot(start, |vals| - 1, |mem|) != k;
      WrittenUntouched(mem, start, vals[..|vals| - 1], k);
    }
  }

  /** Every slot of the memory after a run of writes satisfies any bound met by the old memory and by every written value. */
  lemma {:induction false} WrittenBounded(mem: seq<real>, start: int, vals: seq<real>, lo: real)
    requires |mem| > 0
    requires forall k :: 0 <= k < |mem| ==> mem[k] >= lo
    requires forall j :: 0 <= j < |vals| ==> vals[j] >= lo
    ensures forall k :: 0 <= k < |mem| ==> Written(mem, start, vals)[k] >= lo
    decreases |vals|
  {
    if vals != [] {
      WrittenBounded(mem, start, vals[..|vals| - 1], lo);
    }
  }

  /**
   * One block of a feedback delay line that ADVANCES its cursor before it
   * stores (src/lowpass.rs, src/meter.rs): per sample, the tap is read
   * `offset` slots behind the cursor, the new value is `f(input, tap)`, the
   * cursor moves one slot, and the new value is stored at the new cursor.
   */
  datatype Feedback = Feedback(mem: seq<real>, ix: nat, taps: seq<real>, wets: seq<real>)

  ghost function AdvanceThenStore(mem0: seq<real>, ix0: nat, xs: seq<real>, offset: nat, f: (real, real) -> real): (r: Feedback)
    requires |mem0| > 0 && ix0 < |mem0|
    ensures |r.mem| == |mem0| && r.ix < |mem0| && |r.taps| == |xs| && |r.wets| == |xs|
    decreases |xs|
  {
    if xs == [] then Feedback(mem0, ix0, [], [])
    else
      var p := AdvanceThenStore(mem0, ix0, xs[..|xs| - 1], offset, f);
      var tap := p.mem[TapIndex(p.ix, offset, |mem0|)];
      var wet := f(xs[|xs| - 1], tap);
      var ix := (p.ix + 1) % |mem0|;
      Feedback(p.mem[ix := wet], ix, p.taps + [tap], p.wets + [wet])
  }

  /** One more sample: the trace of `xs[..i + 1]` is the trace of `xs[..i]` extended by sample `i`. */
  lemma AdvanceThenStoreNext(mem0: seq<real>, ix0: nat, xs: seq<real>, offset: nat, f: (real, real) -> real, i: nat)
    requires |mem0| > 0 && ix0 < |mem0| && i < |xs|
    ensures var p := AdvanceThenStore(mem0, ix0, xs[..i], offset, f);
      var tap := p.mem[TapIndex(p.ix, offset, |mem0|)];
      var ix := (p.ix + 1) % |mem0|;
      AdvanceThenStore(mem0, ix0, xs[..i + 1], offset, f) == Feedback(p.mem[ix := f(xs[i], tap)], ix, p.taps + [tap], p.wets + [f(xs[i], tap)])
  {
    assert xs[..i + 1][..i] == xs[..i];
  }

  /** After `n` samples the cursor has moved `n` slots, and the memory holds the values stored one per slot from `ix0 + 1`. */
  lemma {:induction false} AdvanceThenStoreShape(mem0: seq<real>, ix0: nat, xs: seq<real>, offset: nat, f: (real, real) -> real)
    requires |mem0| > 0 && ix0 < |mem0|
    ensures AdvanceThenStore(mem0, ix0, xs, offset, f).ix == (ix0 + |xs|) % |mem0|
    ensures AdvanceThenStore(mem0, ix0, xs, offset, f).mem == Written(mem0, ix0 + 1, AdvanceThenStore(mem0, ix0, xs, offset, f).wets)
    decreases |xs|
  {
    if xs == [] {
      ModUnique(ix0, 0, ix0, |mem0|);
    } else {
      var n := |xs|;
      AdvanceThenStoreShape(mem0, ix0, xs[..n - 1], offset, f);
      NextSlot(ix0 + n - 1, |mem0|);
      assert AdvanceThenStore(mem0, ix0, xs, offset, f).wets[..n - 1] == AdvanceThenStore(mem0, ix0, xs[..n - 1], offset, f).wets;
    }
  }

  /** Every stored value is `f` of its input and its tap. */
  lemma {:induction false} AdvanceThenStoreSamples(mem0: seq<real>, ix0: nat, xs: seq<real>, offset: nat, f: (real, real) -> real)
    requires |mem0| > 0 && ix0 < |mem0|
    ensures var r := AdvanceThenStore(mem0, ix0, xs, offset, f);
      forall k :: 0 <= k < |xs| ==> r.wets[k] == f(xs[k], r.taps[k])
    decreases |xs|
  {
    if xs != [] {
      var n := |xs|;
      AdvanceThenStoreSamples(mem0, ix0, xs[..n - 1], offset, f);
      var p := AdvanceThenStore(mem0, ix0, xs[..n - 1], offset, f);
      var r := AdvanceThenStore(mem0, ix0, xs, offset, f);
      assert r.taps[..n - 1] == p.taps && r.wets[..n - 1] == p.wets;
    }
  }

  /** The trace of a block extends the trace of each of its prefixes. */
  lemma {:induction false} AdvanceThenStorePrefix(mem0: seq<real>, ix0: nat, xs: seq<real>, offset: nat, f: (real, real) -> real, m: nat)
    requires |mem0| > 0 && ix0 < |mem0| && m <= |xs|
    ensures AdvanceThenStore(mem0, ix0, xs[..m], offset, f).taps == AdvanceThenStore(mem0, ix0, xs, offset, f).taps[..m]
    ensures AdvanceThenStore(mem0, ix0, xs[..m], offset, f).wets == AdvanceThenStore(mem0, ix0, xs, offset, f).wets[..m]
    decreases |xs|
  {
    if m < |xs| {
      var n := |xs|;
      assert xs[..n - 1][..m] == xs[..m];
      AdvanceThenStorePrefix(mem0, ix0, xs[..n - 1], offset, f, m);
    } else {
      assert xs[..m] == xs;
    }
  }

  /** The tap of sample `k` is read `offset` slots behind position `ix0 + k`, in the memory the first `k` samples left. */
  lemma AdvanceThenStoreTap(mem0: seq<real>, ix0: nat, xs: seq<real>, offset: nat, f: (real, real) -> real, k: nat)
    requires |mem0| > 0 && ix0 < |mem0| && k < |xs|
    ensures var r := AdvanceThenStore(mem0, ix0, xs, offset, f);
      r.taps[k] == Written(mem0, ix0 + 1, r.wets[..k])[(ix0 + k - offset) % |mem0|]
  {
    var p := AdvanceThenStore(mem0, ix0, xs[..k], offset, f);
    var r := AdvanceThenStore(mem0, ix0, xs, offset, f);
    AdvanceThenStoreNext(mem0, ix0, xs, offset, f, k);
    AdvanceThenStorePrefix(mem0, ix0, xs, offset, f, k + 1);
    assert r.taps[k] == p.mem[TapIndex(p.ix, offset, |mem0|)];
    AdvanceThenStorePrefix(mem0, ix0, xs, offset, f, k);
    AdvanceThenStoreShape(mem0, ix0, xs[..k], offset, f);
    TapIndexOfReduced(ix0 + k, offset, |mem0|);
  }

  /**
   * Because the cursor moves before the store, the tap `offset` slots back
   * at sample `k` reads the value stored `offset + 1` samples earlier:
   * a tap of 1 reaches two samples back, not one.
   */
  lemma TapReadsOneFurther(mem0: seq<real>, ix0: nat, xs: seq<real>, offset: nat, f: (real, real) -> real, k: nat)
    requires |mem0| > 0 && ix0 < |mem0| && k < |xs|
    requires offset + 1 <= k && offset + 1 <= |mem0|
    ensures AdvanceThenStore(mem0, ix0, xs, offset, f).taps[k] == AdvanceThenStore(mem0, ix0, xs, offset, f).wets[k - offset - 1]
  {
    var ws := AdvanceThenStore(mem0, ix0, xs, offset, f).wets[..k];
    AdvanceThenStoreTap(mem0, ix0, xs, offset, f, k);
    WrittenRecent(mem0, ix0 + 1, ws, offset + 1);
    assert ix0 + 1 + |ws| - (offset + 1) == ix0 + k - offset;
  }
}
