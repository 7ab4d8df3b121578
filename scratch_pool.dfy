/**
 * The scratch pool behind `GetHostVector`: a growable sequence of host
 * vectors addressed by slot id. Asking for slot `id` appends empty vectors
 * until the pool has `id + 1` of them, then, when the requested size is not
 * negative, resizes that one slot.
 *
 * `Grow` and `Acquire` describe the pool by its slot lengths; the class `Pool`
 * holds the vectors themselves and its method `GetHostVector` is proved to
 * change those lengths as `Acquire` says.
 */
module ScratchPool {

  function Max(a: nat, b: nat): nat {
    if a < b then b else a
  }

  /** Slot lengths after the growth loop: one empty vector appended per missing slot. */
  function Grow(lens: seq<nat>, id: nat): (r: seq<nat>)
    ensures |r| == Max(|lens|, id + 1)
    ensures r[..|lens|] == lens
    ensures forall k | |lens| <= k < |r| :: r[k] == 0
    decreases id + 1 - |lens|
  {
    if |lens| <= id then Grow(lens + [0], id) else lens
  }

  /**
   * Slot lengths after one request for slot `id` with size `size`: the pool
   * grows to cover `id`, every other slot keeps its length, slots created by
   * the request are empty, and slot `id` takes `size` unless `size` is negative.
   */
  function Acquire(lens: seq<nat>, id: nat, size: int): (r: seq<nat>)
    ensures |r| == Max(|lens|, id + 1)
    ensures forall k | 0 <= k < |lens| && k != id :: r[k] == lens[k]
    ensures forall k | |lens| <= k < |r| && k != id :: r[k] == 0
    ensures r[id] == if size >= 0 then size else if id < |lens| then lens[id] else 0
  {
    var grown := Grow(lens, id);
    assert forall k | 0 <= k < |lens| :: grown[k] == grown[..|lens|][k];
    if size >= 0 then grown[id := size] else grown
  }

  /** A second request for the same slot without a size, or with the same size, changes nothing. */
  lemma AcquireIdempotent(lens: seq<nat>, id: nat, size: int)
    ensures Acquire(Acquire(lens, id, size), id, -1) == Acquire(lens, id, size)
    ensures Acquire(Acquire(lens, id, size), id, size) == Acquire(lens, id, size)
  {
  }

  datatype Request = Request(id: nat, size: int)

  /** Slot lengths after the requests `reqs`, made one after another. */
  function AcquireAll(lens: seq<nat>, reqs: seq<Request>): seq<nat>
    decreases |reqs|
  {
    if reqs == [] then lens
    else AcquireAll(Acquire(lens, reqs[0].id, reqs[0].size), reqs[1..])
  }

  /** Pool length after `reqs`, starting from `n` slots: covers every requested id. */
  function Extent(n: nat, reqs: seq<Request>): nat
    decreases |reqs|
  {
    if reqs == [] then n else Extent(Max(n, reqs[0].id + 1), reqs[1..])
  }

  predicate Requested(reqs: seq<Request>, k: nat) {
    exists j | 0 <= j < |reqs| :: reqs[j].id == k
  }

  /**
   * Over a series of requests the pool never shrinks, ends exactly as long as
   * the largest id asked for requires, and a slot nobody asked for keeps its length.
   */
  lemma {:induction false} AcquireAllFrames(lens: seq<nat>, reqs: seq<Request>)
    ensures |AcquireAll(lens, reqs)| == Extent(|lens|, reqs) >= |lens|
    ensures forall j | 0 <= j < |reqs| :: reqs[j].id < |AcquireAll(lens, reqs)|
    ensures forall k | 0 <= k < |lens| && !Requested(reqs, k) :: AcquireAll(lens, reqs)[k] == lens[k]
    decreases |reqs|
  {
    if reqs != [] {
      var next := Acquire(lens, reqs[0].id, reqs[0].size);
      var rest := reqs[1..];
      AcquireAllFrames(next, rest);
      forall j | 0 <= j < |reqs|
        ensures reqs[j].id < |AcquireAll(lens, reqs)|
      {
        if j > 0 { assert reqs[j] == rest[j - 1]; }
      }
      forall k | 0 <= k < |lens| && !Requested(reqs, k)
        ensures AcquireAll(lens, reqs)[k] == lens[k]
      {
        assert !Requested(rest, k) by {
          forall j | 0 <= j < |rest| ensures rest[j].id != k {
            assert rest[j] == reqs[j + 1];
          }
        }
        assert reqs[0].id != k;
      }
    }
  }

  /** Asking for slot 0 and then slot 3 of an empty pool materializes slots 0 to 3, all empty. */
  lemma ZeroThenThreeMaterializesFour()
    ensures AcquireAll([], [Request(0, -1), Request(3, -1)]) == [0, 0, 0, 0]
  {
  }

  /** A host-resident vector owned by the pool. */
  class HostVector {
    var data: seq<real>

    constructor ()
      ensures data == []
    {
      data := [];
    }

    /** Resizes to `n` entries; what the entries hold afterwards is not promised. */
    method SetSize(n: nat)
      modifies this
      ensures |data| == n
    {
      if n <= |data| {
        data := data[..n];
      } else {
        data := data + seq(n - |data|, _ => 0.0);
      }
    }
  }

  /** The process-wide pool, as an object: slot `k` is the vector `slots[k]`. */
  class Pool {
    var slots: seq<HostVector>

    /** Every slot holds its own vector. */
    ghost predicate Valid()
      reads this
    {
      forall i, j | 0 <= i < j < |slots| :: slots[i] != slots[j]
    }

    /** The length of the vector in each slot. */
    ghost function Lengths(): seq<nat>
      reads this, slots
    {
      seq(|slots|, k reads this, slots requires 0 <= k < |slots| => |slots[k].data|)
    }

    constructor ()
      ensures Valid() && slots == []
    {
      slots := [];
    }

    /**
     * Returns the vector in slot `id`, creating empty vectors for every missing
     * slot up to `id` and resizing slot `id` to `size` when `size` is not negative.
     */
    method GetHostVector(id: nat, size: int) returns (v: HostVector)
      requires Valid()
      modifies this, slots
      ensures Valid()
      ensures Lengths() == Acquire(old(Lengths()), id, size)
      ensures |old(slots)| <= |slots| && slots[..|old(slots)|] == old(slots)
      ensures forall k | |old(slots)| <= k < |slots| :: fresh(slots[k])
      ensures forall k | 0 <= k < |old(slots)| && (k != id || size < 0) :: slots[k].data == old(slots[k].data)
      ensures v == slots[id]
    {
      ghost var before := Lengths();
      if |slots| <= id {
        var i := |slots|;
        while i < id + 1
          invariant |old(slots)| <= i <= id + 1 && |slots| == i
          invariant slots[..|old(slots)|] == old(slots)
          invariant forall k | 0 <= k < |old(slots)| :: slots[k].data == old(slots[k].data)
          invariant forall k | |old(slots)| <= k < |slots| :: fresh(slots[k]) && slots[k].data == []
          invariant Valid()
        {
          var empty := new HostVector();
          slots := slots + [empty];
          i := i + 1;
        }
      }
      ghost var grown := Grow(before, id);
      assert |Lengths()| == |grown|;
      forall k | 0 <= k < |slots|
        ensures Lengths()[k] == grown[k]
      {
        if k < |before| {
          assert slots[k] == old(slots)[k];
          assert grown[k] == grown[..|before|][k];
        }
      }
      assert Lengths() == grown;
      if size >= 0 {
        slots[id].SetSize(size);
        assert Lengths() == grown[id := size];
      }
      v := slots[id];
    }
  }

  /** Slots 0 and then 3 of a new pool, from a caller's side. */
  method PoolClient() {
    var pool := new Pool();
    var first := pool.GetHostVector(0, -1);
    var fourth := pool.GetHostVector(3, 5);
    assert |pool.slots| == 4 && first == pool.slots[0] && fourth == pool.slots[3];
    assert pool.Lengths() == [0, 0, 0, 5];
    var again := pool.GetHostVector(3, -1);
    assert again == fourth && pool.Lengths() == [0, 0, 0, 5];
  }
}
