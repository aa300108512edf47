/** The segmented byte queue between outputv and libutp (c_src/write_queue.cc). */
module WriteQueues {
  import opened Bytes

  /** What a list of segments holds once the first `offset` bytes are gone. */
  function Remaining(segments: seq<seq<byte>>, offset: nat): (r: seq<byte>)
    requires offset <= |Flatten(segments)|
  {
    Flatten(segments)[offset..]
  }

  lemma RemainingFront(segments: seq<seq<byte>>, offset: nat)
    requires segments != [] && offset <= |segments[0]|
    ensures offset <= |Flatten(segments)|
    ensures Remaining(segments, offset) == segments[0][offset..] + Flatten(segments[1..])
  {
    assert Flatten(segments) == segments[0] + Flatten(segments[1..]);
  }

  class WriteQueue {
    var queue: seq<seq<byte>>
    var sz: nat
    var offset: nat

    /** The offset is 0 or strictly inside the front segment, and the cached size is exact. */
    ghost predicate Valid()
      reads this
    {
      && (offset == 0 || (queue != [] && offset < |queue[0]|))
      && offset <= |Flatten(queue)|
      && sz == |Flatten(queue)| - offset
    }

    /** The flat byte sequence the queue stands for. */
    function Contents(): (r: seq<byte>)
      requires Valid()
      reads this
      ensures |r| == sz
    {
      Remaining(queue, offset)
    }

    constructor ()
      ensures Valid() && Contents() == []
    {
      queue, sz, offset := [], 0, 0;
    }

    method PushBack(bin: seq<byte>)
      requires Valid()
      modifies this
      ensures Valid() && Contents() == old(Contents()) + bin
    {
      FlattenSnoc(queue, bin);
      queue := queue + [bin];
      sz := sz + |bin|;
    }

    /** Copies `count` bytes out of a front segment that holds more than that. */
    method PopWithinFront(count: nat) returns (bytes: seq<byte>)
      requires Valid() && queue != [] && count < |queue[0]| - offset
      modifies this
      ensures Valid() && queue == old(queue) && offset == old(offset) + count
      ensures |bytes| == count && bytes + Contents() == old(Contents())
    {
      RemainingFront(queue, offset);
      RemainingFront(queue, offset + count);
      bytes := queue[0][offset..offset + count];
      assert bytes + queue[0][offset + count..] == queue[0][offset..];
      offset := offset + count;
      sz := sz - count;
    }

    /** Copies out what is left of the front segment and drops the segment. */
    method PopFrontSegment() returns (bytes: seq<byte>)
      requires Valid() && queue != []
      modifies this
      ensures Valid() && queue == old(queue)[1..]
      ensures |bytes| == |old(queue)[0]| - old(offset) && bytes + Contents() == old(Contents())
    {
      RemainingFront(queue, offset);
      bytes := queue[0][offset..];
      queue := queue[1..];
      offset := 0;
      sz := sz - |bytes|;
      assert Contents() == Flatten(queue);
    }

    /** A queue with bytes left has a front segment, with the offset inside it. */
    lemma FrontLeft()
      requires Valid() && sz > 0
      ensures queue != [] && offset <= |queue[0]|
    {
    }

    /** Removes exactly the first `count` bytes and copies them out in order. Zero-length segments
        on the way are dropped, so the measure is the number of segments left. */
    method PopBytes(count: nat) returns (buf: seq<byte>)
      requires Valid() && count <= sz
      modifies this
      ensures Valid()
      ensures buf == old(Contents())[..count]
      ensures Contents() == old(Contents())[count..]
    {
      hide Remaining, Contents, Flatten, Valid;
      buf := [];
      var left: nat := count;
      ghost var before := Contents();
      assert buf + Contents() == before;
      while left > 0
        invariant Valid() && left <= sz && left <= count
        invariant |buf| == count - left
        invariant buf + Contents() == before
        decreases |queue|
      {
        FrontLeft();
        ghost var now := Contents();
        var bytes;
        if |queue[0]| - offset > left {
          bytes := PopWithinFront(left);
          assert buf + now == (buf + bytes) + Contents();
          buf := buf + bytes;
          left := 0;
          break;
        } else {
          bytes := PopFrontSegment();
          assert buf + now == (buf + bytes) + Contents();
          buf := buf + bytes;
          left := left - |bytes|;
        }
      }
    }

    method Clear()
      modifies this
      ensures Valid() && Contents() == []
    {
      queue := [];
      sz, offset := 0, 0;
    }
  }
}
