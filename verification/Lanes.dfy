/**
 Outbound dispatcher: what one select arm, one enqueue and the final drain do to
 a lane (channel, batch buffer, batches handed over), and the class that does it
 in place on its two lanes.
 */
module Lanes {

  datatype Lane<T> = Lane(chan: seq<T>, buf: seq<T>, sent: seq<seq<T>>)

  const DEFAULT_BATCH: nat := 50

  /** Hand over the buffer as one batch; an empty buffer is not sent. */
  function Flush<T>(l: Lane<T>): Lane<T> {
    if l.buf == [] then l else l.(sent := l.sent + [l.buf], buf := [])
  }

  /** Move the oldest channel item to the buffer. */
  function Take<T>(l: Lane<T>): Lane<T>
    requires l.chan != []
  {
    l.(chan := l.chan[1..], buf := l.buf + [l.chan[0]])
  }

  /** The loop's receive arm: flush once the batch size is reached. */
  function Receive<T>(l: Lane<T>, batch: nat): Lane<T>
    requires l.chan != []
  {
    var t := Take(l);
    if |t.buf| >= batch then Flush(t) else t
  }

  /** The final drain empties the channel into the buffer and sends what there is. */
  function Final<T>(l: Lane<T>): Lane<T> {
    Flush(l.(chan := [], buf := l.buf + l.chan))
  }

  /** A whole enqueue with no other goroutine in between: drop-oldest when full. */
  function Enqueued<T>(chan: seq<T>, capacity: nat, item: T): seq<T>
    requires 1 <= capacity
  {
    if |chan| < capacity then chan + [item] else chan[1..] + [item]
  }

  class Dispatcher<Content, Event> {
    const batchSize: nat
    const capacity: nat
    var contentsCh: seq<Content>
    var eventsCh: seq<Event>
    var contents: seq<Content>
    var events: seq<Event>
    var contentBatches: seq<seq<Content>>
    var eventBatches: seq<seq<Event>>

    ghost predicate Valid()
      reads this
    {
      1 <= batchSize && 1 <= capacity && |contentsCh| <= capacity && |eventsCh| <= capacity
    }

    ghost function Contents(): Lane<Content>
      reads this
    {
      Lane(contentsCh, contents, contentBatches)
    }

    ghost function Events(): Lane<Event>
      reads this
    {
      Lane(eventsCh, events, eventBatches)
    }

    constructor (batchSize: int, queueCapacity: int)
      ensures Valid()
      ensures this.batchSize == if batchSize <= 0 then 50 else batchSize
      ensures capacity == if queueCapacity <= 0 then this.batchSize * 8 else queueCapacity
      ensures Contents() == Lane([], [], []) && Events() == Lane([], [], [])
    {
      var b: nat := if batchSize <= 0 then DEFAULT_BATCH else batchSize;
      this.batchSize := b;
      this.capacity := if queueCapacity <= 0 then b * 8 else queueCapacity;
      contentsCh, contents, contentBatches := [], [], [];
      eventsCh, events, eventBatches := [], [], [];
    }

    method EnqueueContent(c: Content)
      requires Valid()
      modifies this`contentsCh
      ensures Valid()
      ensures contentsCh == Enqueued(old(contentsCh), capacity, c)
    {
      if |contentsCh| < capacity {
        contentsCh := contentsCh + [c];
        return;
      }
      if contentsCh != [] {
        contentsCh := contentsCh[1..];
      }
      if |contentsCh| < capacity {
        contentsCh := contentsCh + [c];
      }
    }

    method EnqueueEvent(e: Event)
      requires Valid()
      modifies this`eventsCh
      ensures Valid()
      ensures eventsCh == Enqueued(old(eventsCh), capacity, e)
    {
      if |eventsCh| < capacity {
        eventsCh := eventsCh + [e];
        return;
      }
      if eventsCh != [] {
        eventsCh := eventsCh[1..];
      }
      if |eventsCh| < capacity {
        eventsCh := eventsCh + [e];
      }
    }

    method OnContent()
      requires Valid() && contentsCh != []
      modifies this
      ensures Valid()
      ensures Contents() == Receive(old(Contents()), batchSize)
      ensures Events() == old(Events())
    {
      contents := contents + [contentsCh[0]];
      contentsCh := contentsCh[1..];
      if |contents| >= batchSize {
        contentBatches := contentBatches + [contents];
        contents := [];
      }
    }

    method OnEvent()
      requires Valid() && eventsCh != []
      modifies this
      ensures Valid()
      ensures Events() == Receive(old(Events()), batchSize)
      ensures Contents() == old(Contents())
    {
      events := events + [eventsCh[0]];
      eventsCh := eventsCh[1..];
      if |events| >= batchSize {
        eventBatches := eventBatches + [events];
        events := [];
      }
    }

    method OnTimer()
      requires Valid()
      modifies this
      ensures Valid()
      ensures Contents() == Flush(old(Contents())) && Events() == Flush(old(Events()))
    {
      if |contents| > 0 {
        contentBatches := contentBatches + [contents];
        contents := [];
      }
      if |events| > 0 {
        eventBatches := eventBatches + [events];
        events := [];
      }
    }

    /** Drain both channels, then send what was gathered, contents first. */
    method FlushFinal()
      requires Valid()
      modifies this
      ensures Valid()
      ensures Contents() == Final(old(Contents())) && Events() == Final(old(Events()))
    {
      while contentsCh != []
        invariant contents + contentsCh == old(contents) + old(contentsCh)
        invariant |contentsCh| <= old(|contentsCh|)
        invariant contentBatches == old(contentBatches) && Events() == old(Events())
        decreases |contentsCh|
      {
        contents, contentsCh := contents + [contentsCh[0]], contentsCh[1..];
      }
      assert contents == old(contents) + old(contentsCh);
      while eventsCh != []
        invariant events + eventsCh == old(events) + old(eventsCh)
        invariant |eventsCh| <= old(|eventsCh|)
        invariant contentsCh == [] && contents == old(contents) + old(contentsCh)
        invariant contentBatches == old(contentBatches) && eventBatches == old(eventBatches)
        decreases |eventsCh|
      {
        events, eventsCh := events + [eventsCh[0]], eventsCh[1..];
      }
      assert events == old(events) + old(eventsCh);
      OnTimer();
    }
  }
}
