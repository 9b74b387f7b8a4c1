/** The queue as a poster sees it: `Runtime::post` on one thread. */
module PostSinks {
  class PostSink<E> {
    var queue: seq<E>
    var stopped: bool

    constructor ()
      ensures queue == [] && !stopped
    {
      queue, stopped := [], false;
    }

    /** Queued before stop, dropped once stop has been requested. */
    method Post(e: E)
      modifies this
      ensures stopped == old(stopped) && queue == if stopped then old(queue) else old(queue) + [e]
    {
      if !stopped {
        queue := queue + [e];
      }
    }

    method Stop()
      modifies this
      ensures stopped && queue == old(queue)
    {
      stopped := true;
    }
  }
}
