/** The transport side of the firmware: the connection flag `current_conn`,
    the guarded outbound send, and the receive callback that turns a
    transport frame `[idHi, idLo, payload...]` into a command packet and
    offers it to the command queue. */
module Nus {
  import opened Wire
  import opened MsgQueue

  /** The link to the central, seen through `current_conn` and the frames
      handed to `bt_nus_send`. */
  class Link {
    var connected: bool
    var sent: seq<seq<u8>>

    constructor ()
      ensures !connected && sent == []
    {
      connected := false;
      sent := [];
    }

    /** The `connected` callback: a non-zero `err` leaves the flag as it was. */
    method Connected(err: u8)
      modifies this
      ensures connected == (err == 0 || old(connected))
      ensures sent == old(sent)
    {
      if err == 0 {
        connected := true;
      }
    }

    /** The `disconnected` callback. */
    method Disconnected()
      modifies this
      ensures !connected && sent == old(sent)
    {
      connected := false;
    }

    /** `ble_nus_send_data`: passes the frame to the stack only while a
        central is connected; a failed send is only logged. */
    method SendData(frame: seq<u8>)
      modifies this
      ensures connected == old(connected)
      ensures sent == old(sent) + (if connected then [frame] else [])
    {
      if connected {
        sent := sent + [frame];
      }
    }
  }

  /** The packet `bt_receive_cb` builds from a frame of `|data|` bytes,
      with only the payload copied. The local packet is uninitialised, and
      `stale` stands for whatever its message buffer holds beyond the
      payload. The two bytes the copy as written reads past the frame land
      in that unspecified part, so for frames of up to `MaxMsgLen` bytes
      this is also what the code as written builds (`CopyAsWritten`). */
  function DecodeFrame(data: seq<u8>, stale: Message): (p: NusPacket)
    requires 2 <= |data| <= MaxMsgLen + 2
    ensures p.id == data[0] as int * 256 + data[1]
    ensures p.len == |data| + 2 && p.len - 4 == |data| - 2
    ensures forall i :: 0 <= i < |data| - 2 ==> p.message[i] == data[i + 2]
  {
    NusPacket(Be16(data[0], data[1]), |data| + 2, data[2..] + stale[|data| - 2..])
  }

  /** The bytes `memcpy(send_data.message, &data[2], len)` stores as it is
      written: `len` bytes from the start of the payload, that is the
      payload and then the two bytes that follow the frame in memory
      (`beyond`). `None` when the copy would run past the 128-byte
      `message`. */
  function CopyAsWritten(data: seq<u8>, beyond: seq<u8>): (r: Option<seq<u8>>)
    requires |data| >= 2 && |beyond| == 2
    ensures r.Some? <==> |data| <= MaxMsgLen
    ensures r.Some? ==> |r.value| == |data| && r.value[..|data| - 2] == data[2..]
  {
    if |data| <= MaxMsgLen then Some(data[2..] + beyond) else None
  }

  /** A 129-byte frame carries 127 payload bytes, which fit in `message`,
      yet the copy as written overruns it; copying only the payload, as
      `DecodeFrame` does, keeps every payload byte. */
  lemma CopyOverrunsAt129(data: seq<u8>, beyond: seq<u8>, stale: Message)
    requires |data| == 129 && |beyond| == 2
    ensures |data| - 2 <= MaxMsgLen
    ensures CopyAsWritten(data, beyond) == None
    ensures DecodeFrame(data, stale).message[..|data| - 2] == data[2..]
  {
    var p := DecodeFrame(data, stale);
    assert p.message[..|data| - 2] == data[2..] by {
      forall i | 0 <= i < |data| - 2
        ensures p.message[i] == data[2..][i]
      {
      }
    }
  }

  /** What a central sends: the identifier big-endian, then the payload. */
  function EncodeFrame(id: u16, payload: seq<u8>): (data: seq<u8>)
    requires |payload| <= MaxMsgLen
    ensures |data| == |payload| + 2
  {
    [id / 0x100, id % 0x100] + payload
  }

  /** Decoding a central's frame recovers its identifier and payload, and
      the header length counts the payload plus the 4-byte header. */
  lemma DecodeEncode(id: u16, payload: seq<u8>, stale: Message)
    requires |payload| <= MaxMsgLen
    ensures var p := DecodeFrame(EncodeFrame(id, payload), stale);
      p.id == id && p.len == |payload| + 4 && p.message[..|payload|] == payload
  {
    var data := EncodeFrame(id, payload);
    var p := DecodeFrame(data, stale);
    assert p.message[..|payload|] == payload by {
      forall i | 0 <= i < |payload|
        ensures p.message[i] == payload[i]
      {
        assert data[i + 2] == payload[i];
      }
    }
  }

  /** `bt_receive_cb`: build the packet and offer it to the queue; a refusal
      is only logged, with no retry. */
  method Receive(q: NusMsgQueue, data: seq<u8>, stale: Message) returns (err: int)
    requires q.Valid()
    requires 2 <= |data| <= MaxMsgLen + 2
    modifies q
    ensures q.Valid()
    ensures PutResult(q.items, err) == Enqueue(old(q.items), DecodeFrame(data, stale))
  {
    var packet := DecodeFrame(data, stale);
    err := q.Put(packet);
  }
}
