/** A client's queue as an object, and the two loops over it. */
module ClientQueues {
  import opened Wrappers
  import opened ClientFanout

  // These chunks are the first of the queue.
  predicate Leads(items: seq<Item>, chunks: seq<nat>) {
    |chunks| <= |items| && forall i :: 0 <= i < |chunks| ==> items[i] == Chunk(chunks[i])
  }

  // The first end mark is right behind these chunks.
  predicate EndsAfter(items: seq<Item>, chunks: seq<nat>) {
    Leads(items, chunks) && |chunks| < |items| && items[|chunks|].EndMark?
  }

  class ClientQueue {
    const capacity: int
    var items: seq<Item>

    constructor (capacity: int)
      ensures this.capacity == capacity && items == []
    {
      this.capacity, items := capacity, [];
    }

    method PutNowait(item: Item) returns (ok: bool)
      modifies this
      ensures ok == !(capacity > 0 && |old(items)| >= capacity)
      ensures items == if ok then old(items) + [item] else old(items)
    {
      ok := !(capacity > 0 && |items| >= capacity);
      if ok {
        items := items + [item];
      }
    }

    method GetNowait() returns (item: Option<Item>)
      modifies this
      ensures if old(items) == [] then item == None && items == []
              else item == Some(old(items)[0]) && items == old(items)[1..]
    {
      if items == [] {
        return None;
      }
      item := Some(items[0]);
      items := items[1..];
    }

    // Empty the queue.
    method Drain()
      modifies this
      ensures items == []
    {
      while true
        decreases |items|
      {
        var item := GetNowait();
        if item.None? {
          break;
        }
      }
    }

    /**
     Wait for a chunk, then take what else is there, up to a whole batch. The batch
     and what stays are the queue as it was; an end mark drops the unfinished batch.
     */
    method CollectHttpBatch() returns (batch: Option<seq<nat>>)
      requires items != []
      modifies this
      ensures batch.Some? ==>
                && 1 <= |batch.value| <= MAX_BATCH_CHUNKS
                && Leads(old(items), batch.value) && items == old(items)[|batch.value|..]
                && (|batch.value| == MAX_BATCH_CHUNKS || items == [])
      ensures batch.None? ==> exists dropped :: |dropped| < MAX_BATCH_CHUNKS && EndsAfter(old(items), dropped)
                                                && items == old(items)[|dropped| + 1..]
    {
      ghost var all := items;
      var first := GetNowait();
      if first.value.EndMark? {
        assert EndsAfter(all, []);
        return None;
      }
      var chunks := [first.value.index];
      while |chunks| < MAX_BATCH_CHUNKS
        invariant 1 <= |chunks| <= MAX_BATCH_CHUNKS
        invariant Leads(all, chunks) && items == all[|chunks|..]
      {
        var item := GetNowait();
        if item.None? {
          break;
        }
        if item.value.EndMark? {
          assert EndsAfter(all, chunks);
          return None;
        }
        chunks := chunks + [item.value.index];
      }
      return Some(chunks);
    }
  }
}
