/**
  The frame pool: a fixed set of preallocated frames, lent out last in first out and reset when
  they come back. The pipeline model keeps only the free list of this pool, as frame ids.
 */
module FramePool {
  import opened Common
  import opened Detections
  import opened Letterbox

  datatype FrameBufferSizes = FrameBufferSizes(inputElements: nat, outputElements: nat, maxDetections: nat)

  const STAGE_COUNT := 5

  /** The service times of a frame that no stage has seen. */
  const NO_SERVICE: seq<int> := [0, 0, 0, 0, 0]

  /** A frame; times are nanoseconds, and the image is its bytes. */
  class Frame {
    var sequenceNo: nat
    var capturedAt: int
    var image: seq<int>
    var imageCapacity: nat
    var input: seq<real>
    var output: seq<real>
    var letterbox: Transform
    var detections: seq<Detection>
    var tracks: seq<int>
    var serviceTime: seq<int>

    /** What a frame says about the picture it carries, and starts without. */
    ghost predicate Blank()
      reads this
    {
      sequenceNo == 0 && capturedAt == 0 && detections == [] && tracks == [] && serviceTime == NO_SERVICE
    }

    constructor (sizes: FrameBufferSizes)
      ensures Blank() && image == [] && imageCapacity == 0
      ensures |input| == sizes.inputElements && |output| == sizes.outputElements
    {
      sequenceNo, capturedAt := 0, 0;
      image, imageCapacity := [], 0;
      input, output := seq(sizes.inputElements, _ => 0.0), seq(sizes.outputElements, _ => 0.0);
      letterbox := Transform(1.0, 0, 0, 0, 0, 0, 0);
      detections, tracks, serviceTime := [], [], NO_SERVICE;
    }

    /** Forget what the frame says about its picture, but touch no buffer. */
    method Reset()
      modifies `sequenceNo, `capturedAt, `detections, `tracks, `serviceTime
      ensures Blank() && |serviceTime| == STAGE_COUNT
    {
      sequenceNo := 0;
      capturedAt := 0;
      detections := [];
      tracks := [];
      serviceTime := NO_SERVICE;
    }

    /** Make room for an image of this many bytes; the image itself stays. */
    method ReserveImage(bytes: nat)
      modifies `imageCapacity
      ensures imageCapacity == if old(imageCapacity) < bytes then bytes else old(imageCapacity)
    {
      if imageCapacity < bytes {
        imageCapacity := bytes;
      }
    }
  }

  ghost predicate NoDuplicates(s: seq<Frame>) {
    forall i, j :: 0 <= i < j < |s| ==> s[i] != s[j]
  }

  ghost function Members(s: seq<Frame>): set<Frame> {
    if |s| == 0 then {} else Members(s[..|s| - 1]) + {s[|s| - 1]}
  }

  lemma {:induction false} MembersAre(s: seq<Frame>, f: Frame)
    ensures f in Members(s) <==> f in s
  {
    if |s| > 0 {
      MembersAre(s[..|s| - 1], f);
      assert s == s[..|s| - 1] + [s[|s| - 1]];
    }
  }

  lemma {:induction false} MembersCount(s: seq<Frame>)
    requires NoDuplicates(s)
    ensures |Members(s)| == |s|
  {
    if |s| > 0 {
      MembersCount(s[..|s| - 1]);
      MembersAre(s[..|s| - 1], s[|s| - 1]);
    }
  }

  /** The free list and the frames in use partition the pool. */
  ghost predicate Partition(storage: seq<Frame>, free: seq<Frame>, lent: set<Frame>) {
    && NoDuplicates(storage) && NoDuplicates(free)
    && Members(storage) == Members(free) + lent && Members(free) !! lent
  }

  /** Free and lent frames are all of them, each in one place: none is lost, none is lent twice. */
  lemma FreeAndLentAreAll(storage: seq<Frame>, free: seq<Frame>, lent: set<Frame>)
    requires Partition(storage, free, lent)
    ensures |free| + |lent| == |storage|
    ensures lent == {} <==> |free| == |storage|
  {
    MembersCount(storage);
    MembersCount(free);
  }

  lemma TakingKeepsPartition(storage: seq<Frame>, free: seq<Frame>, lent: set<Frame>)
    requires Partition(storage, free, lent) && |free| > 0
    ensures var f := free[|free| - 1]; Partition(storage, free[..|free| - 1], lent + {f}) && f !in lent
  {
    var n := |free| - 1;
    MembersAre(free[..n], free[n]);
  }

  lemma ReturningKeepsPartition(storage: seq<Frame>, free: seq<Frame>, lent: set<Frame>, f: Frame)
    requires Partition(storage, free, lent) && f in lent
    ensures Partition(storage, free + [f], lent - {f})
  {
    MembersAre(free, f);
    assert (free + [f])[..|free|] == free;
    assert Members(free + [f]) == Members(free) + {f};
    hide Members;
  }

  class FramePool {
    const storage: seq<Frame>
    var free: seq<Frame>
    ghost var lent: set<Frame>

    ghost predicate Valid()
      reads this
    {
      |storage| > 0 && Partition(storage, free, lent)
    }

    constructor (frameCount: nat, sizes: FrameBufferSizes)
      requires frameCount > 0
      ensures Valid() && free == storage && |storage| == frameCount && lent == {}
      ensures forall f :: f in storage ==>
        fresh(f) && |f.input| == sizes.inputElements && |f.output| == sizes.outputElements
    {
      var frames: seq<Frame> := [];
      var i := 0;
      while i < frameCount
        invariant 0 <= i == |frames| <= frameCount && NoDuplicates(frames)
        invariant forall f :: f in frames ==>
          fresh(f) && |f.input| == sizes.inputElements && |f.output| == sizes.outputElements
      {
        var frame := new Frame(sizes);
        frames := frames + [frame];
        i := i + 1;
      }
      storage, free, lent := frames, frames, {};
    }

    /** A pool, or None where the source throws: a pool needs a frame. */
    static method Create(frameCount: nat, sizes: FrameBufferSizes) returns (r: Option<FramePool>)
      ensures r.None? <==> frameCount == 0
      ensures r.Some? ==> fresh(r.value) && r.value.Valid()
      ensures r.Some? ==> r.value.free == r.value.storage && |r.value.storage| == frameCount
    {
      if frameCount == 0 {
        return None;
      }
      var pool := new FramePool(frameCount, sizes);
      r := Some(pool);
    }

    /** The most recently returned frame, or None if every frame is in use. */
    method TryAcquire() returns (r: Option<Frame>)
      requires Valid()
      modifies this
      ensures Valid()
      ensures r.None? <==> old(free) == []
      ensures r.None? ==> free == old(free) && lent == old(lent)
      ensures r.Some? ==> old(free) == free + [r.value] && lent == old(lent) + {r.value} && r.value !in old(lent)
    {
      if free == [] {
        return None;
      }
      var frame := TakeLocked();
      r := Some(frame);
    }

    /** As above, once the wait is over: there is a frame, or a stop was requested. */
    method Acquire(stopRequested: bool) returns (r: Option<Frame>)
      requires Valid() && (free != [] || stopRequested)
      modifies this
      ensures Valid()
      ensures r.None? <==> old(free) == []
      ensures r.None? ==> free == old(free) && lent == old(lent)
      ensures r.Some? ==> old(free) == free + [r.value] && lent == old(lent) + {r.value} && r.value !in old(lent)
    {
      r := TryAcquire();
    }

    method TakeLocked() returns (frame: Frame)
      requires Valid() && free != []
      modifies this
      ensures Valid() && old(free) == free + [frame] && lent == old(lent) + {frame} && frame !in old(lent)
    {
      hide Partition;
      TakingKeepsPartition(storage, free, lent);
      frame := free[|free| - 1];
      assert free == free[..|free| - 1] + [frame];
      free := free[..|free| - 1];
      lent := lent + {frame};
    }

    /** Take a frame back, reset; its buffers stay as they are. */
    method Recycle(frame: Frame)
      requires Valid() && frame in lent
      modifies this, frame`sequenceNo, frame`capturedAt, frame`detections, frame`tracks, frame`serviceTime
      ensures Valid() && free == old(free) + [frame] && lent == old(lent) - {frame}
      ensures frame.Blank()
    {
      hide Partition;
      ReturningKeepsPartition(storage, free, lent, frame);
      frame.Reset();
      free := free + [frame];
      lent := lent - {frame};
    }

    /** Give every free frame room for an image of this size. Lent frames, and all else, stay as they are. */
    method ReserveImageBytes(bytes: nat)
      requires Valid()
      modifies free`imageCapacity
      ensures Valid()
      ensures forall f :: f in free ==>
        f.imageCapacity == if old(f.imageCapacity) < bytes then bytes else old(f.imageCapacity)
    {
      var i := 0;
      while i < |free|
        invariant 0 <= i <= |free|
        invariant forall j :: 0 <= j < i ==>
          free[j].imageCapacity == if old(free[j].imageCapacity) < bytes then bytes else old(free[j].imageCapacity)
        invariant forall j :: i <= j < |free| ==> free[j].imageCapacity == old(free[j].imageCapacity)
      {
        free[i].ReserveImage(bytes);
        i := i + 1;
      }
    }
  }
}
