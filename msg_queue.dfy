/** The command packet and the bounded command queue `nus_msgq` between
    the transport-receive callback (producer) and the dispatcher task
    (single consumer). */
module MsgQueue {
  import opened Wire

  /** Capacity of `message[]` in a packet. */
  const MaxMsgLen := 128
  /** Depth of `nus_msgq`. */
  const QueueDepth := 10

  type Message = s: seq<u8> | |s| == MaxMsgLen witness seq(MaxMsgLen, _ => 0)

  /** `struct nus_msg_packet`: id, total length including the 4-byte
      header, and a fixed 128-byte payload buffer of which `len - 4` bytes
      are meaningful. */
  datatype NusPacket = NusPacket(id: u16, len: u16, message: Message)

  /** The queue contents and the status code after `k_msgq_put`; the
      100 ms bounded wait is taken to expire whenever the queue is full. */
  datatype PutResult = PutResult(items: seq<NusPacket>, err: int)

  function Enqueue(items: seq<NusPacket>, p: NusPacket): (r: PutResult)
    ensures r.err == 0 || r.err == -1
    ensures r.err == 0 <==> |items| < QueueDepth
    ensures r.err == 0 ==> r.items == items + [p]
    ensures r.err == -1 ==> r.items == items
  {
    if |items| < QueueDepth then PutResult(items + [p], 0) else PutResult(items, -1)
  }

  /** Offers every packet of `ps` in turn, with no dequeue in between. */
  datatype Burst = Burst(items: seq<NusPacket>, accepted: nat, rejected: nat)

  /** Every packet offered is either accepted or refused; the queue grows
      by the accepted ones only and keeps what it held at its head. */
  function EnqueueAll(items: seq<NusPacket>, ps: seq<NusPacket>): (b: Burst)
    ensures b.accepted + b.rejected == |ps|
    ensures |b.items| == |items| + b.accepted && b.items[..|items|] == items
    decreases |ps|
  {
    if ps == [] then Burst(items, 0, 0)
    else
      var r := Enqueue(items, ps[0]);
      var rest := EnqueueAll(r.items, ps[1..]);
      if r.err == 0 then Burst(rest.items, rest.accepted + 1, rest.rejected)
      else Burst(rest.items, rest.accepted, rest.rejected + 1)
  }

  function Min(a: int, b: int): int { if a <= b then a else b }

  /** Back-pressure: a burst accepts exactly as many packets as there is
      room for, in order, and rejects the rest. */
  lemma {:induction false} BurstAcceptsUpToDepth(items: seq<NusPacket>, ps: seq<NusPacket>)
    requires |items| <= QueueDepth
    ensures var b := EnqueueAll(items, ps);
      b.accepted == Min(|ps|, QueueDepth - |items|) &&
      b.rejected == |ps| - b.accepted &&
      b.items == items + ps[..b.accepted]
    decreases |ps|
  {
    if ps != [] {
      var r := Enqueue(items, ps[0]);
      BurstAcceptsUpToDepth(r.items, ps[1..]);
      var rest := EnqueueAll(r.items, ps[1..]);
      if r.err == 0 {
        assert ps[..rest.accepted + 1] == [ps[0]] + ps[1..][..rest.accepted];
      } else {
        assert rest.accepted == 0;
      }
    }
  }

  /** Eleven packets offered to an empty queue: ten accepted, one refused. */
  lemma ElevenIntoEmpty(ps: seq<NusPacket>)
    requires |ps| == 11
    ensures EnqueueAll([], ps).accepted == 10 && EnqueueAll([], ps).rejected == 1
  {
    BurstAcceptsUpToDepth([], ps);
  }

  /** `nus_msgq`. */
  class NusMsgQueue {
    var items: seq<NusPacket>

    ghost predicate Valid()
      reads this
    {
      |items| <= QueueDepth
    }

    constructor ()
      ensures Valid() && items == []
    {
      items := [];
    }

    /** `bsp_nus_msg_send_to_rcv_task`: 0 when the packet is appended at
        the tail, -1 with the queue untouched when it is full. */
    method Put(p: NusPacket) returns (err: int)
      requires Valid()
      modifies this
      ensures Valid()
      ensures PutResult(items, err) == Enqueue(old(items), p)
    {
      if |items| < QueueDepth {
        items := items + [p];
        err := 0;
      } else {
        err := -1;
      }
    }

    /** `k_msgq_get(..., K_FOREVER)` as one step: the oldest packet, or
        `None` (the consumer keeps waiting) when the queue is empty. */
    method Get() returns (p: Option<NusPacket>)
      requires Valid()
      modifies this
      ensures Valid()
      ensures old(items) == [] ==> p == None && items == old(items)
      ensures old(items) != [] ==> p == Some(old(items)[0]) && items == old(items)[1..]
    {
      if items == [] {
        p := None;
      } else {
        p := Some(items[0]);
        items := items[1..];
      }
    }
  }
}
