/**
  One message over the stop-and-wait protocol: the C sender, the C receiver, and a channel that keeps
  order, loses nothing, and may change the checksum of a data packet.
*/
module RtpTransfer {
  import opened RtpPackets

  /** What is in flight between the two sides. */
  datatype Flight = Nothing | Data(packet: Packet) | Reply(kind: Kind)

  /** The sender's packets and index, the channel, and the receiver's message and whether it still loops. */
  datatype Xfer = Xfer(packets: seq<Packet>, i: nat, flight: Flight, message: Message, receiving: bool)

  /** The sender sends (the channel adding `noise` to the checksum), the receiver handles a packet, the
      sender handles a reply. */
  datatype Event = Send(noise: int) | Receive | TakeReply

  function Start(m: Message): Xfer {
    Xfer(CPacketize(m), 0, Nothing, [], true)
  }

  predicate Enabled(s: Xfer, e: Event) {
    match e
    case Send(_) => s.flight.Nothing? && s.i < |s.packets|
    case Receive => s.flight.Data? && s.receiving
    case TakeReply => s.flight.Reply?
  }

  /** One step of `rtp_send_message` or `rtp_receive_message`. */
  function Apply(s: Xfer, e: Event): Xfer
    requires Enabled(s, e)
  {
    match e
    case Send(noise) =>
      var p := s.packets[s.i];
      s.(flight := Data(p.(checksum := p.checksum + noise)))
    case Receive =>
      var p := s.flight.packet;
      if CSum(p.payload) == p.checksum then
        s.(flight := Reply(ACK), message := s.message + p.payload, receiving := !p.kind.LAST_DATA?)
      else
        s.(flight := Reply(NACK))
    case TakeReply =>
      s.(flight := Nothing, i := if s.flight.kind.NACK? then s.i else s.i + 1)
  }

  /** A run, each event enabled when its turn comes. */
  predicate Runs(s: Xfer, events: seq<Event>)
    decreases |events|, 0
  {
    events == [] ||
      var before := events[..|events| - 1];
      Runs(s, before) && Enabled(After(s, before), events[|events| - 1])
  }

  function After(s: Xfer, events: seq<Event>): Xfer
    requires Runs(s, events)
    decreases |events|, 1
  {
    if events == [] then s
    else Apply(After(s, events[..|events| - 1]), events[|events| - 1])
  }

  /** How many of the sends are corrupted. */
  function Corruptions(events: seq<Event>): nat {
    if events == [] then 0
    else
      var e := events[|events| - 1];
      Corruptions(events[..|events| - 1]) + if e.Send? && e.noise != 0 then 1 else 0
  }

  // ---------------------------------------------------------------- what every step keeps

  /** How many packets the receiver has accepted: one more than the sender's index while an ACK travels. */
  function Accepted(s: Xfer): nat {
    if s.flight == Reply(ACK) then s.i + 1 else s.i
  }

  /** The receiver holds the concatenation of the accepted packets, a prefix of the message, and stops after
      the last one; only packet `i`, with whatever checksum, or its reply is in flight. */
  ghost predicate Inv(s: Xfer, m: Message) {
    && s.packets == CPacketize(m)
    && Accepted(s) <= |s.packets|
    && s.message == Prefix(m, Accepted(s))
    && (s.receiving <==> Accepted(s) < |s.packets| || m == [])
    && match s.flight
       case Nothing => true
       case Data(p) => s.i < |s.packets| && p == s.packets[s.i].(checksum := p.checksum)
       case Reply(kind) => s.i < |s.packets| && (kind == ACK || kind == NACK)
  }

  lemma StepKeepsInv(s: Xfer, m: Message, e: Event)
    requires Inv(s, m) && Enabled(s, e)
    ensures Inv(Apply(s, e), m)
  {
    PacketShape(m);
    if e.Receive? {
      PrefixGrows(m, s.i);
    }
  }

  lemma {:induction false} RunKeepsInv(m: Message, events: seq<Event>)
    requires Runs(Start(m), events)
    ensures Inv(After(Start(m), events), m)
  {
    if events != [] {
      var before := events[..|events| - 1];
      RunKeepsInv(m, before);
      StepKeepsInv(After(Start(m), before), m, events[|events| - 1]);
    }
  }

  // ---------------------------------------------------------------- how long a run is

  /** The steps still to come if nothing more is corrupted. */
  ghost function Rank(s: Xfer): int {
    3 * (|s.packets| - s.i) +
    match s.flight
    case Nothing => 0
    case Data(p) => if CSum(p.payload) == p.checksum then -1 else 2
    case Reply(kind) => if kind == NACK then 1 else -2
  }

  lemma {:induction false} RunLength(m: Message, events: seq<Event>)
    requires Runs(Start(m), events)
    ensures |events| + Rank(After(Start(m), events)) == 3 * (PacketCount(|m|) + Corruptions(events))
  {
    if events != [] {
      var before := events[..|events| - 1];
      RunLength(m, before);
      RunKeepsInv(m, before);
      PacketShape(m);
    }
  }

  ghost predicate Stuck(s: Xfer) {
    !Enabled(s, Receive) && !Enabled(s, TakeReply) && forall noise :: !Enabled(s, Send(noise))
  }

  /** Exactly once: in every run the receiver's buffer is a prefix of the message, at the sender's index or
      one packet ahead while an ACK is in flight; a run of `c` corrupted sends can go on until it has
      `3 * (packets + c)` steps and no longer; then the buffer is the message and both loops have ended. */
  lemma {:induction false} ExactlyOnce(m: Message, events: seq<Event>)
    requires m != [] && Runs(Start(m), events)
    ensures var s := After(Start(m), events);
      && s.message <= m && Accepted(s) <= PacketCount(|m|)
      && s.message == Payloads(CPacketize(m)[..Accepted(s)])
      && |events| <= 3 * (PacketCount(|m|) + Corruptions(events))
      && (Stuck(s) <==> |events| == 3 * (PacketCount(|m|) + Corruptions(events)))
      && (Stuck(s) ==> s.message == m && s.i == |s.packets| && !s.receiving)
  {
    var s := After(Start(m), events);
    RunKeepsInv(m, events);
    RunLength(m, events);
    PayloadsArePrefix(m, Accepted(s));
    if s.flight.Nothing? && s.i < |s.packets| {
      assert Enabled(s, Send(0));
    }
  }

  /** The empty message is the one the pair does not transfer: no packet is sent and the receiver waits on. */
  lemma EmptyMessageStalls(m: Message, events: seq<Event>)
    requires Runs(Start(m), events) && Stuck(After(Start(m), events))
    ensures After(Start(m), events).receiving <==> m == []
  {
    RunKeepsInv(m, events);
    if m != [] {
      ExactlyOnce(m, events);
    }
  }
}
