/** The bounded work queue and the worker pool, as the objects they are. The blocking wait
    of `Pop` and the interleaving of several workers are in the step system. */
module Pools {
  import opened Codec
  import opened Reactors
  import opened Handling
  import opened Streams

  /** First in, first out, bounded; `accepted` and `popped` are its past. */
  class BoundedQueue<T> {
    const capacity: nat
    var items: seq<T>
    var closed: bool
    ghost var accepted: seq<T>
    ghost var popped: seq<T>

    ghost predicate Valid()
      reads this
    {
      |items| <= capacity && accepted == popped + items
    }

    constructor (capacity: nat)
      requires capacity > 0
      ensures Valid() && items == [] && !closed && this.capacity == capacity && accepted == []
    {
      this.capacity := capacity;
      items, closed, accepted, popped := [], false, [], [];
    }

    method TryPush(item: T) returns (ok: bool)
      requires Valid()
      modifies `items, `accepted
      ensures Valid()
      ensures ok <==> !closed && old(|items|) < capacity
      ensures items == old(items) + (if ok then [item] else [])
      ensures accepted == old(accepted) + (if ok then [item] else [])
    {
      if closed || |items| >= capacity {
        return false;
      }
      items, accepted := items + [item], accepted + [item];
      return true;
    }

    /** The part of `Pop` after its wait, which ends when the queue is closed or holds items:
        a closed queue is emptied before it reports its end. */
    method Pop() returns (item: Option<T>)
      requires Valid() && (closed || items != [])
      modifies `items, `popped
      ensures Valid() && accepted == old(accepted)
      ensures item.None? <==> old(items) == []
      ensures old(items) == (if item.Some? then [item.value] else []) + items
      ensures popped == old(popped) + (if item.Some? then [item.value] else [])
    {
      if items == [] {
        return None;
      }
      item := Some(items[0]);
      popped, items := popped + [items[0]], items[1..];
    }

    method Close()
      requires Valid()
      modifies `closed
      ensures Valid() && closed
    {
      closed := true;
    }
  }

  /** What a worker publishes for an item, whether or not the handler throws. */
  function Published(handler: Message -> Option<Message>, item: WorkItem): WorkResult {
    WorkResult(item.id, item.sequence, WorkerResponse(handler, item.request))
  }

  function AllPublished(handler: Message -> Option<Message>, items: seq<WorkItem>): (r: seq<WorkResult>)
    ensures |r| == |items|
  {
    seq(|items|, i requires 0 <= i < |items| => Published(handler, items[i]))
  }

  lemma PublishedNext(handler: Message -> Option<Message>, items: seq<WorkItem>, n: nat)
    requires n < |items|
    ensures AllPublished(handler, items[..n + 1]) == AllPublished(handler, items[..n]) + [Published(handler, items[n])]
  {
    hide Published;
  }

  lemma PublishedAt(handler: Message -> Option<Message>, items: seq<WorkItem>, i: nat)
    requires i < |items|
    ensures AllPublished(handler, items)[i] == Published(handler, items[i])
  {
    hide Published;
  }

  lemma PublishedIs(handler: Message -> Option<Message>, item: WorkItem)
    ensures var r := Published(handler, item);
            && r.id == item.id && r.sequence == item.sequence
            && (match handler(item.request)
                case Some(response) => r.response == response
                case None => IsError(r.response, item.request, "worker handler failed"))
  {
    hide HandleRequest, WorkerResponse, IsError;
    Replies(item.request, handler);
  }

  class WorkerPool {
    const queue: BoundedQueue<WorkItem>
    var results: seq<WorkResult>

    constructor (capacity: nat)
      requires capacity > 0
      ensures fresh(queue) && queue.Valid() && queue.items == [] && !queue.closed && results == []
    {
      queue := new BoundedQueue(capacity);
      results := [];
    }

    method TrySubmit(item: WorkItem) returns (ok: bool)
      requires queue.Valid()
      modifies queue`items, queue`accepted
      ensures queue.Valid()
      ensures ok <==> !queue.closed && old(|queue.items|) < queue.capacity
      ensures queue.items == old(queue.items) + (if ok then [item] else [])
    {
      ok := queue.TryPush(item);
    }

    /** `Stop`: the queue is closed and the worker, here the only one left running, works
        until the queue reports its end. Every item still queued is answered exactly once,
        in order, by the handler or by the error response for a handler that throws. */
    method Stop(handler: Message -> Option<Message>)
      requires queue.Valid()
      modifies this, queue
      ensures queue.Valid() && queue.closed && queue.items == []
      ensures results == old(results) + AllPublished(handler, old(queue.items))
      ensures |results| == |old(results)| + |old(queue.items)|
      ensures forall i :: 0 <= i < |old(queue.items)| ==>
                var item, r := old(queue.items)[i], results[|old(results)| + i];
                && r.id == item.id && r.sequence == item.sequence
                && (match handler(item.request)
                    case Some(response) => r.response == response
                    case None => IsError(r.response, item.request, "worker handler failed"))
    {
      hide AllPublished, Published, IsError;
      queue.Close();
      ghost var start, done := queue.items, 0;
      assert AllPublished(handler, start[..0]) == [];
      while true
        invariant queue.Valid() && queue.closed
        invariant 0 <= done <= |start| && queue.items == start[done..]
        invariant results == old(results) + AllPublished(handler, start[..done])
        decreases |queue.items|
      {
        var item := queue.Pop();
        if item.None? {
          assert start[..done] == start;
          forall i | 0 <= i < |start| ensures AllPublished(handler, start)[i] == Published(handler, start[i]) {
            PublishedAt(handler, start, i);
          }
          forall i | 0 <= i < |start|
            ensures var r := Published(handler, start[i]);
                    && r.id == start[i].id && r.sequence == start[i].sequence
                    && (match handler(start[i].request)
                        case Some(response) => r.response == response
                        case None => IsError(r.response, start[i].request, "worker handler failed"))
          {
            PublishedIs(handler, start[i]);
          }
          return;
        }
        PublishedNext(handler, start, done);
        Associative(old(results), AllPublished(handler, start[..done]), [Published(handler, start[done])]);
        results, done := results + [Published(handler, item.value)], done + 1;
      }
    }
  }
}
