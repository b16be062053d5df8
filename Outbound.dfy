/**
 * The platform's outbound queue (src/platform.ts `queue`, `queue_ready`, `enqueue`, `on_drain`).
 * Commands are written to the socket at once while the socket accepts writes; otherwise they
 * wait in the queue, in order, until the socket's next drain event.
 */
module Outbound {

  class Outbox {
    /** Lines waiting for the socket, oldest first. */
    var queue: seq<string>
    /** Whether the last write was accepted, so that the next line can go out at once. */
    var queueReady: bool
    /** Every line handed to the socket, in order. */
    ghost var written: seq<string>
    /** Every line ever queued, in order. */
    ghost var enqueued: seq<string>

    /** First in, first out: what was written and what waits make up what was queued. */
    ghost predicate Valid()
      reads this
    {
      written + queue == enqueued && (queueReady ==> queue == [])
    }

    constructor ()
      ensures Valid() && queue == [] && !queueReady && written == [] && enqueued == []
    {
      queue := [];
      queueReady := false;
      written := [];
      enqueued := [];
    }

    /**
     * `socket.write`: hands one line to the socket. Whether the socket can take more without
     * waiting for a drain is up to the socket, so any answer is possible.
     */
    method Write(line: string) returns (accepted: bool)
      modifies this`written
      ensures written == old(written) + [line]
    {
      written := written + [line];
      accepted :| true;
    }

    /**
     * `enqueue(data)`: queues `data` with its newline; when the last write was accepted, the
     * line goes straight out and the socket's answer decides whether the next one may too.
     */
    method Enqueue(data: string)
      requires Valid()
      modifies this
      ensures Valid()
      ensures enqueued == old(enqueued) + [data + "\n"]
      ensures old(queueReady) ==> written == old(written) + [data + "\n"] && queue == []
      ensures !old(queueReady) ==> written == old(written) && queue == old(queue) + [data + "\n"]
                                   && !queueReady
    {
      queue := queue + [data + "\n"];
      enqueued := enqueued + [data + "\n"];
      if queueReady {
        var line := queue[0];
        queue := queue[1..];
        queueReady := Write(line);
      }
    }

    /**
     * `on_drain`: the socket can take more, so queued lines are written, oldest first, until the
     * queue is empty or the socket refuses more.
     */
    method OnDrain()
      requires Valid()
      modifies this
      ensures Valid() && enqueued == old(enqueued)
      ensures |queue| <= |old(queue)| && queue == old(queue)[|old(queue)| - |queue|..]
      ensures written == old(written) + old(queue)[..|old(queue)| - |queue|]
      ensures old(queue) != [] ==> |queue| < |old(queue)|
      ensures queue != [] ==> !queueReady
      ensures old(queue) == [] ==> queueReady
    {
      queueReady := true;
      while queue != [] && queueReady
        invariant written + queue == enqueued && enqueued == old(enqueued)
        invariant |queue| <= |old(queue)| && queue == old(queue)[|old(queue)| - |queue|..]
        invariant written == old(written) + old(queue)[..|old(queue)| - |queue|]
        invariant queue == old(queue) ==> queueReady
        invariant old(queue) == [] ==> queueReady
        decreases |queue|
      {
        var line := queue[0];
        queue := queue[1..];
        queueReady := Write(line);
      }
    }
  }
}
