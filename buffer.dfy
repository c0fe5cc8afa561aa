/** The reorder buffer (streamingSQL/src/core/types/buffer.rs): a FIFO queue of keyed deltas
    with a watermark, released in batches once it is large enough or a delay has passed.
    The monotonic clock is a parameter `now`, in nanoseconds. Integer casts and products on
    `u16` wrap around, as in a release build. */
module ReorderBuffer {
  import opened JsonValue
  import opened DataflowTypes

  const U16Limit := 0x1_0000
  const U32Limit := 0x1_0000_0000
  const NanosPerMilli := 1_000_000

  type U16 = x: int | 0 <= x < U16Limit
  type U32 = x: int | 0 <= x < U32Limit

  /** `(table, data, time, change)` */
  datatype Item = Item(table: string, data: DataflowData, time: U64, change: int)

  /** The result of `pop`: `None`, `Some(batch)`, or the panic of `front().unwrap()`. */
  datatype PopOutcome = NotReady | Released(batch: seq<Item>) | Panicked

  /** Where the release loop stops: after `n` items, or in the panic. */
  datatype Cut = Stop(n: nat) | Panics

  /** `Instant::elapsed`: saturates at zero. */
  function Elapsed(since: nat, now: nat): nat {
    if now >= since then now - since else 0
  }

  /** The stop test the loop makes once `n` items are taken: `n as u16 >= size` and the next
      item's time differs from the last taken one's. */
  predicate Boundary(q: seq<Item>, size: U16, n: nat)
    requires 1 <= n < |q|
  {
    n % U16Limit >= size && q[n].time != q[n - 1].time
  }

  /** The release loop as written, from the check made after taking `n` items: once
      `n as u16 >= size`, an emptied queue panics in `front().unwrap()`. */
  function CutFrom(q: seq<Item>, size: U16, n: nat): Cut
    requires 1 <= n <= |q|
    decreases |q| - n
  {
    if n == |q| then
      if n % U16Limit >= size then Panics else Stop(n)
    else if Boundary(q, size, n) then Stop(n)
    else CutFrom(q, size, n + 1)
  }

  function LoopCut(q: seq<Item>, size: U16): Cut
    requires |q| > 0
  {
    CutFrom(q, size, 1)
  }

  /** The release loop as intended: an emptied queue ends the batch. The batch is non-empty,
      it ends at the first boundary, and it takes the whole queue when there is none. */
  function FixedCutFrom(q: seq<Item>, size: U16, n: nat): (c: nat)
    requires 1 <= n <= |q|
    ensures n <= c <= |q|
    ensures c < |q| ==> Boundary(q, size, c)
    ensures forall m :: n <= m < c ==> !Boundary(q, size, m)
    decreases |q| - n
  {
    if n == |q| || Boundary(q, size, n) then n else FixedCutFrom(q, size, n + 1)
  }

  function FixedCut(q: seq<Item>, size: U16): (c: nat)
    requires |q| > 0
    ensures 1 <= c <= |q|
  {
    FixedCutFrom(q, size, 1)
  }

  /** The loop as written agrees with the intended one except at the very end: it panics
      exactly when the intended batch is the whole queue and `|q| as u16 >= size`. */
  lemma {:induction false} CutFromAgrees(q: seq<Item>, size: U16, n: nat)
    requires 1 <= n <= |q|
    ensures CutFrom(q, size, n) ==
      if FixedCutFrom(q, size, n) == |q| && |q| % U16Limit >= size then Panics
      else Stop(FixedCutFrom(q, size, n))
    decreases |q| - n
  {
    if n < |q| && !Boundary(q, size, n) {
      CutFromAgrees(q, size, n + 1);
    }
  }

  /** A queue that never reaches `size` items is drained whole, by either loop. */
  lemma ShortQueueDrains(q: seq<Item>, size: U16)
    requires 0 < |q| < size
    ensures FixedCut(q, size) == |q|
    ensures LoopCut(q, size) == Stop(|q|)
  {
    CutFromAgrees(q, size, 1);
  }

  /** The panic of `pop`: a queue of `size` or more items with no time boundary after the
      `size`-th item runs dry inside the loop. */
  lemma NoBoundaryPanics(q: seq<Item>, size: U16)
    requires |q| < U16Limit && size <= |q| && |q| > 0
    requires forall m :: 1 <= m < |q| ==> q[m].time == q[m - 1].time
    ensures LoopCut(q, size) == Panics
  {
    CutFromAgrees(q, size, 1);
  }

  class Buffer {
    var data: seq<Item>
    var watermark: U64
    /** The batch size after which `pop` may stop. */
    var size: U16
    /** The delay, in milliseconds, after which a non-empty queue is released. */
    var delay: U32
    /** The clock reading of the last release. */
    var lastPop: nat

    /** `Buffer::new`, with `BUFFER_SIZE` and `BUFFER_DELAY` already parsed. */
    constructor (size: U16, delay: U32, now: nat)
      ensures data == [] && watermark == 0
      ensures this.size == size && this.delay == delay && lastPop == now
    {
      data := [];
      watermark := 0;
      this.size := size;
      this.delay := delay;
      lastPop := now;
    }

    /** `push_back`: one item at the back, nothing else changes. */
    method Insert(table: string, d: DataflowData, time: U64, change: int)
      modifies this
      ensures data == old(data) + [Item(table, d, time, change)]
      ensures watermark == old(watermark) && size == old(size) && delay == old(delay) && lastPop == old(lastPop)
    {
      data := data + [Item(table, d, time, change)];
    }

    function GetWatermark(): (w: U64)
      reads this
      ensures w == watermark
    {
      watermark
    }

    /** The watermark becomes `time`; nothing else changes. */
    method UpdateWatermark(time: U64)
      modifies this
      ensures GetWatermark() == time
      ensures data == old(data) && size == old(size) && delay == old(delay) && lastPop == old(lastPop)
    {
      watermark := time;
    }

    /** `should_pop`: a non-empty queue is released when `len as u16 >= size * 2` (both in
        `u16`) or when `delay` milliseconds have passed since the last release. */
    predicate ShouldPop(now: nat): (due: bool)
      reads this
      ensures due ==> |data| > 0
    {
      |data| > 0 &&
      (|data| % U16Limit >= (2 * size) % U16Limit || Elapsed(lastPop, now) >= delay * NanosPerMilli)
    }

    /** `pop` as written: when the buffer is due, the batch is the queue's prefix up to the
        loop's cut, the rest stays queued in order and the release time is recorded; when
        the cut runs the queue dry after `size` items it panics with the queue drained. */
    method Pop(now: nat) returns (outcome: PopOutcome)
      modifies this
      ensures watermark == old(watermark) && size == old(size) && delay == old(delay)
      ensures !old(ShouldPop(now)) ==> outcome == NotReady && data == old(data) && lastPop == old(lastPop)
      ensures old(ShouldPop(now)) && LoopCut(old(data), size) == Panics ==> outcome == Panicked && data == []
      ensures old(ShouldPop(now)) && LoopCut(old(data), size).Stop? ==>
        var c := LoopCut(old(data), size).n;
        c <= |old(data)| && outcome == Released(old(data)[..c]) && data == old(data)[c..] && lastPop == now
    {
      if !ShouldPop(now) {
        return NotReady;
      }
      ghost var q := data;
      var results: seq<Item> := [];
      while data != []
        invariant |results| <= |q| && results == q[..|results|] && data == q[|results|..]
        invariant size == old(size) && watermark == old(watermark) && delay == old(delay)
        invariant |results| < |q| ==> LoopCut(q, size) == CutFrom(q, size, |results| + 1)
        invariant |results| == |q| ==> LoopCut(q, size) == Stop(|q|)
        decreases |data|
      {
        var item := data[0];
        data := data[1..];
        results := results + [item];
        assert results == q[..|results|];
        if |results| % U16Limit >= size {
          if data == [] {
            return Panicked;
          }
          if data[0].time != item.time {
            assert Boundary(q, size, |results|);
            break;
          }
        }
      }
      lastPop := now;
      return Released(results);
    }

    /** `pop` as intended: identical, except that an emptied queue ends the batch. The
        batch is non-empty and stops at the first time boundary after `size` items. */
    method PopFixed(now: nat) returns (outcome: PopOutcome)
      modifies this
      ensures watermark == old(watermark) && size == old(size) && delay == old(delay)
      ensures !old(ShouldPop(now)) ==> outcome == NotReady && data == old(data) && lastPop == old(lastPop)
      ensures old(ShouldPop(now)) ==>
        var c := FixedCut(old(data), size);
        outcome == Released(old(data)[..c]) && data == old(data)[c..] && lastPop == now
    {
      if !ShouldPop(now) {
        return NotReady;
      }
      ghost var q := data;
      var results: seq<Item> := [];
      while data != []
        invariant |results| <= |q| && results == q[..|results|] && data == q[|results|..]
        invariant size == old(size) && watermark == old(watermark) && delay == old(delay)
        invariant |results| < |q| ==> FixedCut(q, size) == FixedCutFrom(q, size, |results| + 1)
        invariant |results| == |q| ==> FixedCut(q, size) == |q|
        decreases |data|
      {
        var item := data[0];
        data := data[1..];
        results := results + [item];
        assert results == q[..|results|];
        if data != [] && |results| % U16Limit >= size && data[0].time != item.time {
          assert Boundary(q, size, |results|);
          break;
        }
      }
      lastPop := now;
      return Released(results);
    }
  }

  /** An empty buffer is never due. Below the `u16` wrap-around, `should_pop` is
      `len >= 2 * size` or the delay having passed; a `size` of 32768 wraps `size * 2` to 0,
      so such a buffer is due as soon as it holds anything. */
  lemma SizeTrigger(b: Buffer, now: nat)
    ensures |b.data| == 0 ==> !b.ShouldPop(now)
    ensures 0 < |b.data| < U16Limit && 2 * b.size < U16Limit ==>
      (b.ShouldPop(now) <==> |b.data| >= 2 * b.size || Elapsed(b.lastPop, now) >= b.delay * NanosPerMilli)
    ensures |b.data| > 0 && b.size == U16Limit / 2 ==> b.ShouldPop(now)
  {
  }
}
