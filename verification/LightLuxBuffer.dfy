/** The growable ring buffer of timed lux samples (light_lux_buffer.cpp). */
module LightLuxBuffers {
  import opened Arithmetic

  const BUFFER_SIZE_INCREASE: nat := 2
  const LUX_BUFFER_SIZE_MAX: nat := 512
  const LUX_BUFFER_SIZE_DEFAULT: nat := 32

  datatype Sample = Sample(time: int, lux: real)

  /** What a buffer denotes: its samples, oldest first, and the room it has. */
  datatype History = History(items: seq<Sample>, capacity: nat)

  ghost predicate WellFormed(h: History) {
    && 0 < h.capacity <= LUX_BUFFER_SIZE_MAX
    && |h.items| <= h.capacity
  }

  /** A push is lost exactly when the buffer is full and may not double any more. */
  ghost predicate PushIsLost(h: History) {
    |h.items| == h.capacity && LUX_BUFFER_SIZE_MAX < h.capacity * BUFFER_SIZE_INCREASE
  }

  ghost function Pushed(h: History, s: Sample): History {
    if PushIsLost(h) then h
    else History(h.items + [s], if |h.items| == h.capacity then h.capacity * BUFFER_SIZE_INCREASE else h.capacity)
  }

  /** The samples that survive: drop the head while its successor is not newer than the horizon. */
  ghost function Unexpired(items: seq<Sample>, horizon: int): (r: seq<Sample>)
    ensures |r| <= |items|
    ensures items != [] ==> r != []
  {
    if |items| > 1 && items[1].time <= horizon then Unexpired(items[1..], horizon) else items
  }

  ghost function HeadRaised(items: seq<Sample>, horizon: int): (r: seq<Sample>)
    ensures |r| == |items|
  {
    if items != [] && items[0].time < horizon then items[0 := items[0].(time := horizon)] else items
  }

  ghost function Pruned(h: History, horizon: int): History {
    h.(items := HeadRaised(Unexpired(h.items, horizon), horizon))
  }

  function OffsetIn(start: nat, capacity: nat, index: nat): (o: nat)
    requires start < capacity && index <= capacity
    ensures o < capacity
  {
    if start + index >= capacity then start + index - capacity else start + index
  }

  /** The wrapped index is the index modulo the capacity. */
  lemma OffsetIsModular(start: nat, capacity: nat, index: nat)
    requires start < capacity && index <= capacity
    ensures OffsetIn(start, capacity, index) == (start + index) % capacity
  {
    if start + index >= capacity {
      QuotientIsUnique(start + index, capacity, 1, start + index - capacity);
    } else {
      QuotientIsUnique(start + index, capacity, 0, start + index);
    }
  }

  class LightLuxBuffer {
    ghost var items: seq<Sample>
    ghost var Repr: set<object>

    var bufferData: array?<real>
    var bufferTime: array?<int>
    var capacity: nat
    var start: nat
    var end: nat
    var count: nat

    ghost predicate Valid()
      reads this, Repr
      ensures Valid() ==> this in Repr
    {
      && this in Repr
      && 0 < capacity <= LUX_BUFFER_SIZE_MAX
      && start < capacity
      && |items| == count <= capacity
      && end == OffsetIn(start, capacity, count)
      && (bufferData == null <==> bufferTime == null)
      && (bufferData == null ==> count == 0)
      && (bufferData != null ==>
            && bufferData in Repr && bufferTime in Repr
            && (bufferData as object?) != bufferTime
            && bufferData.Length == capacity && bufferTime.Length == capacity
            && forall i :: 0 <= i < count ==>
                 var o := OffsetIn(start, capacity, i);
                 items[i] == Sample(bufferTime[o], bufferData[o]))
    }

    ghost function Contents(): (h: History)
      reads this, Repr
      requires Valid()
      ensures WellFormed(h)
    {
      History(items, capacity)
    }

    constructor (initialCapacity: nat)
      ensures Valid() && fresh(Repr)
      ensures Contents() ==
              History([], if initialCapacity == 0 || initialCapacity >= LUX_BUFFER_SIZE_MAX
                          then LUX_BUFFER_SIZE_DEFAULT else initialCapacity)
    {
      items, Repr := [], {this};
      bufferData, bufferTime := null, null;
      start, end, count := 0, 0, 0;
      if initialCapacity == 0 || initialCapacity >= LUX_BUFFER_SIZE_MAX {
        capacity := LUX_BUFFER_SIZE_DEFAULT;
      } else {
        capacity := initialCapacity;
      }
    }

    /** Storage is allocated on the first push. */
    method LuxBufferCheck()
      requires Valid()
      modifies this
      ensures Valid() && fresh(Repr - old(Repr))
      ensures bufferData != null && bufferTime != null
      ensures Contents() == old(Contents())
      ensures start == old(start) && end == old(end) && count == old(count)
    {
      if bufferData == null {
        bufferData := new real[capacity];
        bufferTime := new int[capacity];
        Repr := Repr + {bufferData as object, bufferTime as object};
      }
    }

    /** Unrolls the full ring into larger storage, oldest sample first. */
    method CopyLuxBuffer(newSize: nat)
      requires Valid() && bufferData != null
      requires count == capacity < newSize
      modifies this`bufferData, this`bufferTime, this`Repr
      ensures bufferData != null && bufferTime != null && fresh(bufferData) && fresh(bufferTime)
      ensures Repr == old(Repr) + {bufferData as object, bufferTime as object}
      ensures bufferData.Length == newSize && bufferTime.Length == newSize
      ensures (bufferData as object) != bufferTime
      ensures forall i :: 0 <= i < count ==> items[i] == Sample(bufferTime[i], bufferData[i])
    {
      var newData := new real[newSize];
      var newTime := new int[newSize];
      var length := capacity - start;
      forall i | 0 <= i < length {
        newData[i] := bufferData[start + i];
      }
      forall i | 0 <= i < length {
        newTime[i] := bufferTime[start + i];
      }
      if start != 0 {
        forall i | 0 <= i < start {
          newData[length + i] := bufferData[i];
        }
        forall i | 0 <= i < start {
          newTime[length + i] := bufferTime[i];
        }
      }
      forall i | 0 <= i < count
        ensures items[i] == Sample(newTime[i], newData[i])
      {
        if length <= i {
          assert newData[length + (i - length)] == bufferData[i - length];
          assert newTime[length + (i - length)] == bufferTime[i - length];
        }
      }
      bufferData, bufferTime := newData, newTime;
      Repr := Repr + {newData, newTime};
    }

    /** Doubles the room; the next free slot is then just behind the old samples. */
    method Grow()
      requires Valid() && bufferData != null
      requires count == capacity && capacity * BUFFER_SIZE_INCREASE <= LUX_BUFFER_SIZE_MAX
      modifies this
      ensures Valid() && bufferData != null && fresh(Repr - old(Repr))
      ensures fresh(bufferData) && fresh(bufferTime)
      ensures items == old(items) && capacity == old(capacity) * BUFFER_SIZE_INCREASE
    {
      CopyLuxBuffer(capacity * BUFFER_SIZE_INCREASE);
      end := capacity;
      capacity := capacity * BUFFER_SIZE_INCREASE;
      start := 0;
    }

    method Push(timestamp: int, data: real)
      requires Valid()
      modifies Repr
      ensures Valid() && fresh(Repr - old(Repr))
      ensures Contents() == Pushed(old(Contents()), Sample(timestamp, data))
    {
      LuxBufferCheck();
      if count == capacity {
        if capacity * BUFFER_SIZE_INCREASE > LUX_BUFFER_SIZE_MAX {
          return;
        }
        Grow();
      }
      Append(timestamp, data);
    }

    method Append(timestamp: int, data: real)
      requires Valid() && bufferData != null && count < capacity
      modifies this, bufferData, bufferTime
      ensures Valid() && Repr == old(Repr)
      ensures items == old(items) + [Sample(timestamp, data)] && capacity == old(capacity)
    {
      var next := end;
      bufferTime[next] := timestamp;
      bufferData[next] := data;
      end := next + 1;
      if end == capacity {
        end := 0;
      }
      count := count + 1;
      items := items + [Sample(timestamp, data)];
    }

    method Prune(horizon: int)
      requires Valid()
      modifies Repr
      ensures Valid() && fresh(Repr - old(Repr))
      ensures Contents() == Pruned(old(Contents()), horizon)
    {
      if count == 0 || bufferTime == null {
        return;
      }
      DropExpired(horizon);
      if bufferTime[start] < horizon {
        bufferTime[start] := horizon;
        items := items[0 := items[0].(time := horizon)];
      }
    }

    /** Moves the start over the expired samples; the storage is not touched. */
    method DropExpired(horizon: int)
      requires Valid() && count > 0
      modifies this`start, this`count, this`items
      ensures Valid() && items == Unexpired(old(items), horizon)
    {
      while count > 1
        invariant Valid() && count > 0
        invariant Unexpired(items, horizon) == Unexpired(old(items), horizon)
        decreases count
      {
        var next := start + 1;
        if next >= capacity {
          next := next - capacity;
        }
        assert items[1].time == bufferTime[next];
        if bufferTime[next] > horizon {
          break;
        }
        start := next;
        count := count - 1;
        items := items[1..];
      }
    }

    method Clear()
      requires Valid()
      modifies this
      ensures Valid() && Repr == old(Repr)
      ensures Contents() == old(Contents()).(items := [])
    {
      start, end, count := 0, 0, 0;
      items := [];
    }

    function OffsetOf(index: nat): nat
      reads this, Repr
      requires Valid() && index < count
    {
      OffsetIn(start, capacity, index)
    }

    function GetData(index: nat): (data: real)
      reads this, Repr
      requires Valid()
      ensures data == if index < count then items[index].lux else 0.0
    {
      if bufferData == null || index >= count then 0.0 else bufferData[OffsetOf(index)]
    }

    function GetTime(index: nat): (time: int)
      reads this, Repr
      requires Valid()
      ensures time == if index < count then items[index].time else 0
    {
      if bufferTime == null || index >= count then 0 else bufferTime[OffsetOf(index)]
    }

    function GetSize(): (size: nat)
      reads this, Repr
      requires Valid()
      ensures size == |Contents().items|
    {
      count
    }
  }
}
