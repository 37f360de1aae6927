/** The loops of `rtp_send_message` and `rtp_receive_message`, joined by the channel. */
module RtpLink {
  import opened RtpPackets
  import opened RtpTransfer

  /** What the channel adds to the checksum of the `k`-th packet sent: nothing once the pattern is over. */
  function Noise(noises: seq<int>, k: nat): int {
    if k < |noises| then noises[k] else 0
  }

  /** How many of the first `k` sends are corrupted. */
  function Corrupted(noises: seq<int>, k: nat): nat {
    if k == 0 then 0 else Corrupted(noises, k - 1) + if Noise(noises, k - 1) != 0 then 1 else 0
  }

  class Link {
    var packets: array<Packet>
    var i: nat
    var flight: Flight
    var buffer: array<byte>
    var length: nat
    var receiving: bool

    ghost predicate Valid()
      reads this`buffer, this`length
    {
      length == buffer.Length
    }

    function View(): Xfer
      reads this, packets, buffer
      requires Valid()
    {
      Xfer(packets[..], i, flight, buffer[..], receiving)
    }

    constructor (m: Message)
      ensures Valid() && fresh(packets) && fresh(buffer)
      ensures View() == Start(m)
    {
      var filled := Packetize(m);
      packets := filled;
      i, flight, length, receiving := 0, Nothing, 0, true;
      buffer := new byte[0];
    }

    /** The sender's `sendto`, the channel adding `noise` to the checksum. */
    method SendPacket(noise: int)
      requires Valid() && Enabled(View(), Send(noise))
      modifies this`flight
      ensures Valid() && View() == Apply(old(View()), Send(noise))
    {
      var p := packets[i];
      flight := Data(p.(checksum := p.checksum + noise));
    }

    /** A new buffer: the bytes so far, then the payload, each copied by a loop. */
    method Joined(p: Packet) returns (part: array<byte>)
      requires Valid() && p.length == |p.payload|
      ensures fresh(part) && part[..] == buffer[..] + p.payload
    {
      part := new byte[p.length + length];
      for k := 0 to length
        modifies part
        invariant forall j :: 0 <= j < k ==> part[j] == buffer[j]
      {
        part[k] := buffer[k];
      }
      for k := 0 to p.length
        modifies part
        invariant forall j :: 0 <= j < length ==> part[j] == buffer[j]
        invariant forall j :: 0 <= j < k ==> part[length + j] == p.payload[j]
      {
        part[k + length] := p.payload[k];
      }
    }

    /** One turn of the receiver's loop: check, reply, and grow the buffer by copying. */
    method ReceivePacket()
      requires Valid() && Enabled(View(), Receive)
      requires flight.packet.length == |flight.packet.payload|
      modifies this`flight, this`buffer, this`length, this`receiving
      ensures Valid() && packets == old(packets) && (buffer == old(buffer) || fresh(buffer))
      ensures View() == Apply(old(View()), Receive)
    {
      var p := flight.packet;
      assert p.payload[..p.length] == p.payload;
      var sum := Checksum(p.payload, p.length);
      if sum == p.checksum {
        flight := Reply(ACK);
        var part := Joined(p);
        buffer := part;
        length := length + p.length;
        receiving := p.kind != LAST_DATA;
      } else {
        flight := Reply(NACK);
      }
    }

    /** The sender's `recvfrom` and the step of its index. */
    method TakeReply()
      requires Valid() && Enabled(View(), Event.TakeReply)
      modifies this`flight, this`i
      ensures Valid() && View() == Apply(old(View()), Event.TakeReply)
    {
      if flight.kind == NACK {
        flight := Nothing;
      } else {
        flight, i := Nothing, i + 1;
      }
    }

    /** One packet out and one reply back; the index moves exactly when the packet was not corrupted. */
    method Round(m: Message, noise: int)
      requires Valid() && Inv(View(), m) && flight.Nothing? && i < packets.Length
      modifies this
      ensures Valid() && Inv(View(), m) && flight.Nothing?
      ensures packets == old(packets) && (buffer == old(buffer) || fresh(buffer))
      ensures i == old(i) + if noise == 0 then 1 else 0
    {
      PacketShape(m);
      hide CPacketize, Prefix;
      ghost var before := View();
      SendPacket(noise);
      StepKeepsInv(before, m, Send(noise));
      ghost var sent := View();
      ReceivePacket();
      StepKeepsInv(sent, m, Receive);
      ghost var answered := View();
      TakeReply();
      StepKeepsInv(answered, m, Event.TakeReply);
    }

    /** The sender's loop with the receiver answering: whatever the corruption pattern, it ends after
        packets + corruptions rounds with the exact message received and the receiver's loop over. */
    method Transfer(m: Message, noises: seq<int>) returns (rounds: nat)
      requires Valid() && View() == Start(m) && m != []
      modifies this
      ensures Valid() && buffer[..length] == m && !receiving && i == packets.Length
      ensures rounds == PacketCount(|m|) + Corrupted(noises, rounds)
    {
      rounds := 0;
      while i < packets.Length
        invariant Valid() && Inv(View(), m) && flight.Nothing?
        invariant packets == old(packets) && (buffer == old(buffer) || fresh(buffer))
        invariant rounds == i + Corrupted(noises, rounds)
        decreases packets.Length - i + if rounds < |noises| then |noises| - rounds else 0
      {
        Round(m, Noise(noises, rounds));
        rounds := rounds + 1;
      }
    }
  }
}
