/** The microphone pipeline: a pool of 12 PCM blocks (`mem_slab`), a queue
    of at most 10 block handles (`audio_mq`), a producer that reads filled
    blocks from the microphone and queues them (dropping, and freeing, a
    block when the queue is full) and a consumer that takes blocks in FIFO
    order and frees each one. Each half-step of either task is atomic. */
module Audio {
  import opened Wire

  /** Blocks in `mem_slab`. */
  const PoolBlocks := 12
  /** Depth of `audio_mq`. */
  const AudioQueueDepth := 10

  /** The pool's block handles, `0 .. PoolBlocks - 1`, in order. */
  function Handles(): seq<nat>
  {
    seq(PoolBlocks, i => i)
  }

  /** Every block of the pool. */
  function Pool(): set<nat>
  {
    Elems(Handles())
  }

  /** The blocks a task holds outside pool and queue: none or one. */
  function Held(h: Option<nat>): (s: set<nat>)
    ensures |s| <= 1
  {
    if h.Some? then {h.value} else {}
  }

  function Elems(q: seq<nat>): set<nat>
  {
    set x | x in q
  }

  /** No handle is queued twice. */
  predicate Distinct(q: seq<nat>)
  {
    forall i, j :: 0 <= i < j < |q| ==> q[i] != q[j]
  }

  lemma {:induction false} DistinctCard(q: seq<nat>)
    requires Distinct(q)
    ensures |Elems(q)| == |q|
  {
    if q != [] {
      var init := q[..|q| - 1];
      assert Elems(q) == Elems(init) + {q[|q| - 1]};
      assert q[|q| - 1] !in Elems(init);
      DistinctCard(init);
    }
  }

  /** Every block of the pool is in exactly one place: free, held by the
      producer, queued (once), or held by the consumer. */
  predicate Partitioned(free: set<nat>, producer: Option<nat>, queue: seq<nat>, consumer: Option<nat>)
  {
    Distinct(queue) &&
    free !! Elems(queue) && free !! Held(producer) && free !! Held(consumer) &&
    Elems(queue) !! Held(producer) && Elems(queue) !! Held(consumer) &&
    Held(producer) !! Held(consumer) &&
    free + Held(producer) + Elems(queue) + Held(consumer) == Pool()
  }

  /** Conservation: free, producer-held, queued and consumer-held blocks
      always add up to the pool size, so the free count stays within
      `0 .. PoolBlocks`. */
  lemma Conservation(free: set<nat>, producer: Option<nat>, queue: seq<nat>, consumer: Option<nat>)
    requires Partitioned(free, producer, queue, consumer)
    ensures |free| + |Held(producer)| + |queue| + |Held(consumer)| == PoolBlocks
    ensures |free| <= PoolBlocks
  {
    DistinctCard(Handles());
    DistinctCard(queue);
    var a := free + Held(producer);
    assert |a| == |free| + |Held(producer)|;
    var b := a + Elems(queue);
    assert a !! Elems(queue);
    assert |b| == |a| + |Elems(queue)|;
    assert b !! Held(consumer);
  }

  /** With the queue full and both tasks between iterations, two blocks are
      still free, so the microphone can keep filling while the consumer
      catches up. */
  lemma FullQueueLeavesTwoFree(free: set<nat>, queue: seq<nat>)
    requires Partitioned(free, None, queue, None) && |queue| == AudioQueueDepth
    ensures |free| == PoolBlocks - AudioQueueDepth
  {
    Conservation(free, None, queue, None);
  }

  // How each half-step moves one block between places.

  lemma TakeFromPool(free: set<nat>, b: nat, queue: seq<nat>, consumer: Option<nat>)
    requires Partitioned(free, None, queue, consumer) && b in free
    ensures Partitioned(free - {b}, Some(b), queue, consumer)
  {
    assert (free - {b}) + {b} == free;
  }

  lemma QueueAtTail(free: set<nat>, b: nat, queue: seq<nat>, consumer: Option<nat>)
    requires Partitioned(free, Some(b), queue, consumer)
    ensures Partitioned(free, None, queue + [b], consumer)
  {
    ElemsSnoc(queue, b);
    DistinctSnoc(queue, b);
    MoveOne(free, Elems(queue), Held(consumer), b);
  }

  /** Moving `b` from a place of its own into `e` keeps the places
      disjoint and their union unchanged. */
  lemma MoveOne(f: set<nat>, e: set<nat>, c: set<nat>, b: nat)
    requires f !! e && b !in f && f !! c && b !in e && e !! c && b !in c
    ensures f !! (e + {b}) && (e + {b}) !! c
    ensures f + {} + (e + {b}) + c == f + {b} + e + c
  {
  }

  lemma DistinctSnoc(queue: seq<nat>, b: nat)
    requires Distinct(queue) && b !in Elems(queue)
    ensures Distinct(queue + [b])
  {
    var q := queue + [b];
    forall i, j | 0 <= i < j < |q|
      ensures q[i] != q[j]
    {
      assert q[i] == queue[i] && queue[i] in Elems(queue);
      if j < |queue| {
        assert q[j] == queue[j];
      }
    }
  }

  lemma ElemsSnoc(queue: seq<nat>, b: nat)
    ensures Elems(queue + [b]) == Elems(queue) + {b}
  {
  }

  lemma ElemsCons(queue: seq<nat>)
    requires queue != []
    ensures Elems(queue) == {queue[0]} + Elems(queue[1..])
  {
    assert queue == [queue[0]] + queue[1..];
  }

  lemma DropToPool(free: set<nat>, b: nat, queue: seq<nat>, consumer: Option<nat>)
    requires Partitioned(free, Some(b), queue, consumer)
    ensures Partitioned(free + {b}, None, queue, consumer)
  {
  }

  lemma TakeFromQueue(free: set<nat>, producer: Option<nat>, queue: seq<nat>)
    requires Partitioned(free, producer, queue, None) && queue != []
    ensures Partitioned(free, producer, queue[1..], Some(queue[0]))
  {
    ElemsCons(queue);
    DistinctTail(queue);
    HeadOut(free, Held(producer), Elems(queue[1..]), queue[0]);
  }

  lemma DistinctTail(queue: seq<nat>)
    requires Distinct(queue) && queue != []
    ensures Distinct(queue[1..]) && queue[0] !in Elems(queue[1..])
  {
    forall i | 0 <= i < |queue[1..]|
      ensures queue[1..][i] != queue[0]
    {
      assert queue[1..][i] == queue[i + 1];
    }
  }

  /** Moving the head `x` of the queue's elements `{x} + e` into a place
      of its own keeps the places disjoint and their union unchanged. */
  lemma HeadOut(f: set<nat>, h: set<nat>, e: set<nat>, x: nat)
    requires x !in e && f !! ({x} + e) && ({x} + e) !! h && f !! h
    ensures f !! e && e !! h && f !! {x} && e !! {x} && h !! {x}
    ensures f + h + ({x} + e) + {} == f + h + e + {x}
  {
  }

  lemma ReturnToPool(free: set<nat>, producer: Option<nat>, queue: seq<nat>, b: nat)
    requires Partitioned(free, producer, queue, Some(b))
    ensures Partitioned(free + {b}, producer, queue, None)
  {
  }

  /** What one producer iteration did. */
  datatype ProducerOutcome = Idle | Queued(block: nat) | Dropped(block: nat)

  /** `mem_slab`, `audio_mq` and the blocks each task holds. */
  class AudioPipeline {
    /** Whether the PDM microphone device is ready; both tasks return at
        once when it is not. */
    const micReady: bool
    var free: set<nat>
    var producerHeld: Option<nat>
    var queue: seq<nat>
    var consumerHeld: Option<nat>

    ghost predicate Valid()
      reads this
    {
      Partitioned(free, producerHeld, queue, consumerHeld) && |queue| <= AudioQueueDepth
    }

    /** All blocks free, the queue empty. */
    constructor (micReady: bool)
      ensures Valid() && this.micReady == micReady
      ensures free == Pool() && queue == [] && producerHeld == None && consumerHeld == None
    {
      this.micReady := micReady;
      free := Pool();
      producerHeld := None;
      queue := [];
      consumerHeld := None;
    }

    /** `dmic_read`: on success the driver hands over a block it took from
        the pool and filled. An empty pool leaves it nothing to fill, which
        is a failed read. */
    method ProducerRead(readOk: bool) returns (got: bool)
      requires Valid() && producerHeld == None
      modifies this
      ensures Valid()
      ensures got <==> micReady && readOk && old(free) != {}
      ensures !got ==> free == old(free) && producerHeld == None
      ensures got ==> producerHeld.Some? && producerHeld.value in old(free) &&
                      free == old(free) - {producerHeld.value}
      ensures queue == old(queue) && consumerHeld == old(consumerHeld)
    {
      if !micReady || !readOk || free == {} {
        return false;
      }
      var b :| b in free;
      TakeFromPool(free, b, queue, consumerHeld);
      free := free - {b};
      producerHeld := Some(b);
      got := true;
    }

    /** `k_msgq_put(..., K_NO_WAIT)`: queue the block at the tail, or, when
        the queue is full, return it to the pool at once. */
    method ProducerPut() returns (ret: int)
      requires Valid() && producerHeld.Some?
      modifies this
      ensures Valid() && producerHeld == None && consumerHeld == old(consumerHeld)
      ensures ret == 0 <==> |old(queue)| < AudioQueueDepth
      ensures ret == 0 ==> queue == old(queue) + [old(producerHeld).value] && free == old(free)
      ensures ret != 0 ==> queue == old(queue) && free == old(free) + {old(producerHeld).value}
    {
      var b := producerHeld.value;
      if |queue| < AudioQueueDepth {
        QueueAtTail(free, b, queue, consumerHeld);
        queue, producerHeld := queue + [b], None;
        ret := 0;
      } else {
        DropToPool(free, b, queue, consumerHeld);
        free, producerHeld := free + {b}, None;
        ret := -1;
      }
    }

    /** `k_msgq_get(..., K_FOREVER)` as one step: the oldest handle, or
        nothing while the queue is empty. */
    method ConsumerGet() returns (got: Option<nat>)
      requires Valid() && consumerHeld == None
      modifies this
      ensures Valid() && consumerHeld == got
      ensures free == old(free) && producerHeld == old(producerHeld)
      ensures !micReady || old(queue) == [] ==> got == None && queue == old(queue)
      ensures micReady && old(queue) != [] ==> got == Some(old(queue)[0]) && queue == old(queue)[1..]
    {
      if !micReady || queue == [] {
        return None;
      }
      var b := queue[0];
      TakeFromQueue(free, producerHeld, queue);
      got := Some(b);
      queue := queue[1..];
      consumerHeld := got;
    }

    /** `k_mem_slab_free`: the consumer's block goes back to the pool. */
    method ConsumerFree()
      requires Valid() && consumerHeld.Some?
      modifies this
      ensures Valid() && consumerHeld == None
      ensures free == old(free) + {old(consumerHeld).value}
      ensures queue == old(queue) && producerHeld == old(producerHeld)
    {
      ReturnToPool(free, producerHeld, queue, consumerHeld.value);
      free := free + {consumerHeld.value};
      consumerHeld := None;
    }

    /** One iteration of `audio_thread_entry`'s loop: read a block, then
        queue it or drop it back into the pool. */
    method ProducerIteration(readOk: bool) returns (r: ProducerOutcome)
      requires Valid() && producerHeld == None
      modifies this
      ensures Valid() && producerHeld == None && consumerHeld == old(consumerHeld)
      ensures r.Idle? <==> !micReady || !readOk || old(free) == {}
      ensures r.Idle? ==> free == old(free) && queue == old(queue)
      ensures r.Queued? ==> r.block in old(free) && |old(queue)| < AudioQueueDepth &&
                            queue == old(queue) + [r.block] && free == old(free) - {r.block}
      ensures r.Dropped? ==> r.block in old(free) && |old(queue)| == AudioQueueDepth &&
                             queue == old(queue) && free == old(free)
    {
      var got := ProducerRead(readOk);
      if !got {
        return Idle;
      }
      var b := producerHeld.value;
      var ret := ProducerPut();
      if ret == 0 {
        r := Queued(b);
      } else {
        r := Dropped(b);
      }
    }

    /** One iteration of `audio_push_thread`'s loop: take the oldest block,
        process it, and free it. */
    method ConsumerIteration() returns (b: Option<nat>)
      requires Valid() && consumerHeld == None
      modifies this
      ensures Valid() && consumerHeld == None && producerHeld == old(producerHeld)
      ensures !micReady || old(queue) == [] ==> b == None && free == old(free) && queue == old(queue)
      ensures micReady && old(queue) != [] ==>
        b == Some(old(queue)[0]) && queue == old(queue)[1..] && free == old(free) + {old(queue)[0]}
    {
      b := ConsumerGet();
      if b.Some? {
        ConsumerFree();
      }
    }
  }
}
