/**
The shared result buffer of cmd/main.go with Go's slices spelled out: a backing
array, a length, and the array's own length as the capacity. Each method is one
critical section under resultMu.
*/
module ResultBuffers {

  class ResultBuffer<R> {
    var data: array<R>
    var len: nat
    /** The batches handed to a Submit that has not returned. */
    ghost var flights: set<array<R>>

    ghost predicate Valid()
      reads this
    {
      len <= data.Length && data !in flights
    }

    ghost function Contents(): seq<R>
      reads this, data
      requires Valid()
    {
      data[..len]
    }

    constructor (capacity: array<R>)
      ensures Valid() && data == capacity && Contents() == [] && flights == {}
    {
      data, len, flights := capacity, 0, {};
    }

    /**
    A worker's append: in place while there is capacity, which reuses the
    backing array a flush has truncated; otherwise into a larger fresh array.
    */
    method Append(cr: R)
      requires Valid()
      modifies this, data
      ensures Valid() && (data == old(data) || fresh(data)) && flights == old(flights)
      ensures Contents() == old(Contents()) + [cr]
      ensures forall batch :: batch in flights ==> batch[..] == old(batch[..])
    {
      if len < data.Length {
        data[len] := cr;
      } else {
        var spare :| 0 <= spare;
        var from, n := data, len;
        data := new R[n + 1 + spare](i requires 0 <= i reads from => if i < from.Length then from[i] else cr);
        data[n] := cr;
      }
      len := len + 1;
    }

    /** flushResults up to Submit: a copy of the buffer, and the buffer truncated in place. */
    method Take() returns (batch: array<R>)
      requires Valid()
      modifies this
      ensures Valid() && data == old(data) && Contents() == []
      ensures fresh(batch) && batch[..] == old(Contents()) && flights == old(flights) + {batch}
    {
      var from := data;
      batch := new R[len](i requires 0 <= i < from.Length reads from => from[i]);
      len := 0;
      flights := flights + {batch};
    }

    /** Submit has failed: the batch goes back in front. With nothing newer the batch becomes the buffer itself. */
    method Requeue(batch: array<R>)
      requires Valid() && batch in flights
      modifies this
      ensures Valid() && (data == batch || fresh(data)) && flights == old(flights) - {batch}
      ensures Contents() == batch[..] + old(Contents())
    {
      flights := flights - {batch};
      if len == 0 {
        data, len := batch, batch.Length;
        return;
      }
      var newer, n := data, len;
      var spare :| 0 <= spare;
      var last := newer[n - 1];
      data := new R[batch.Length + n + spare](i requires 0 <= i reads batch, newer =>
        if i < batch.Length then batch[i]
        else if i - batch.Length < newer.Length then newer[i - batch.Length]
        else last);
      len := batch.Length + n;
    }

    /** Submit has succeeded. */
    method Acknowledge(batch: array<R>)
      requires Valid() && batch in flights
      modifies this
      ensures Valid() && data == old(data) && Contents() == old(Contents()) && flights == old(flights) - {batch}
    {
      flights := flights - {batch};
    }

    /** Step-down: whatever could not be flushed is dropped. */
    method DropUnflushed() returns (count: nat)
      requires Valid()
      modifies this
      ensures Valid() && data == old(data) && Contents() == [] && flights == old(flights)
      ensures count == |old(Contents())|
    {
      count := len;
      len := 0;
    }

    /**
    One flush during whose Submit workers append `newer`: what Submit saw never
    changes, and afterwards the buffer reads as the newer results, behind the
    batch again when Submit has failed.
    */
    method Flush(newer: seq<R>, ok: bool) returns (ghost seen: seq<R>)
      requires Valid()
      modifies this, data
      ensures Valid() && flights == old(flights)
      ensures seen == old(Contents())
      ensures Contents() == if ok then newer else old(Contents()) + newer
    {
      ghost var before, others := Contents(), flights;
      var batch := Take();
      seen := batch[..];
      var k := 0;
      while k < |newer|
        invariant k <= |newer| && Valid() && flights == others + {batch}
        invariant data == old(data) || fresh(data)
        invariant batch[..] == seen == before
        invariant Contents() == newer[..k]
      {
        Append(newer[k]);
        assert newer[..k + 1] == newer[..k] + [newer[k]];
        k := k + 1;
      }
      assert newer[..k] == newer;
      if ok {
        Acknowledge(batch);
      } else {
        Requeue(batch);
      }
      assert others + {batch} - {batch} == others by {
        assert batch !in others;
      }
    }
  }
}
