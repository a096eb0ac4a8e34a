/** class Log on its block_queue, one call at a time: the queue-or-file decision of write_log
    and one round of async_write_log. */
module LogCalls {
  import opened BlockQueue

  class Log {
    /** m_log_queue, which only an asynchronous log has. */
    const queue: BlockQueue?<string>
    var file: seq<string>

    predicate IsAsync() { queue != null }

    ghost function Repr(): set<object?>
      reads this, queue
    {
      if queue == null then {this} else {this, queue, queue.slots}
    }

    ghost predicate Valid()
      reads this, queue, Repr()
    {
      queue != null ==> queue.Valid()
    }

    /** What has been logged and is not in the file yet. */
    ghost function Pending(): seq<string>
      requires Valid()
      reads this, queue, Repr()
    {
      if queue == null then [] else queue.State().Contents()
    }

    ghost predicate HasRoom()
      requires Valid()
      reads this, queue, Repr()
    {
      queue != null && |Pending()| < queue.maxSize
    }

    /** A maximal queue size of at least 1 selects asynchronous mode. */
    constructor (maxQueueSize: int)
      ensures Valid() && fresh(Repr()) && file == [] && Pending() == []
      ensures IsAsync() <==> maxQueueSize >= 1
      ensures IsAsync() ==> queue.maxSize == maxQueueSize
    {
      file := [];
      if maxQueueSize >= 1 {
        queue := new BlockQueue<string>(maxQueueSize);
      } else {
        queue := null;
      }
    }

    /** The end of write_log: into the queue if the log is asynchronous and the queue has room,
        else straight into the file, past the messages still queued. */
    method WriteLog(logStr: string)
      requires Valid()
      modifies Repr()
      ensures Valid() && Repr() == old(Repr())
      ensures if old(HasRoom())
              then Pending() == old(Pending()) + [logStr] && file == old(file)
              else Pending() == old(Pending()) && file == old(file) + [logStr]
    {
      var direct := !IsAsync();
      if !direct {
        direct := queue.Full();
      }
      if !direct {
        var _ := queue.Push(logStr);
      } else {
        file := file + [logStr];
      }
    }

    /** One round of the flush thread: the oldest queued message goes to the end of the file, and
        file and queue together keep their order. */
    method FlushOne()
      requires Valid() && Pending() != []
      modifies Repr()
      ensures Valid() && Repr() == old(Repr())
      ensures file + Pending() == old(file + Pending())
      ensures |file| == |old(file)| + 1
    {
      hide PopRing;
      var singleLog := queue.Pop();
      file := file + [singleLog];
    }

    /** The flush thread until it would sleep: the file gets everything, in order. */
    method Drain()
      requires Valid() && IsAsync()
      modifies Repr()
      ensures Valid() && Pending() == [] && file == old(file + Pending())
    {
      var n := queue.Size();
      while n > 0
        invariant Valid() && Repr() == old(Repr()) && n == |Pending()|
        invariant file + Pending() == old(file + Pending())
        decreases n
      {
        FlushOne();
        n := queue.Size();
      }
    }
  }
}
