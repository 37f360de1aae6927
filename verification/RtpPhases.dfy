/**
  The whole conversation: the C client sends each of its messages and receives a reply to it; the Python
  server receives a message and sends the reply. Packets are reduced to what steers the two programs: the
  type, whether it is the last of its message, and whether the checksum fits. The channel keeps order and
  loses nothing.
*/
module RtpPhases {
  import opened RtpPackets

  /** How many packets each message takes and how many the reply to it. */
  datatype Talk = Talk(messages: seq<nat>, replies: seq<nat>) {
    ghost predicate Valid() {
      && |messages| == |replies|
      && (forall k :: 0 <= k < |messages| ==> 0 < messages[k])
      && (forall k :: 0 <= k < |replies| ==> 0 < replies[k])
    }
  }

  datatype Datagram = Data(last: bool, corrupted: bool) | Ack | Nack

  /** Where the client is: about to send packet `i` of message `k`, waiting for the reply to it, receiving the
      answer to message `k`, or through. */
  datatype Client = CSend(k: nat, i: nat) | CAwait(k: nat, i: nat) | CRecv(k: nat) | CDone

  /** Where the server is; `SExit` is its exit on an invalid packet type. */
  datatype Server = SRecv(k: nat) | SSend(k: nat, j: nat) | SAwait(k: nat, j: nat) | SExit

  datatype State = State(client: Client, server: Server, toServer: seq<Datagram>, toClient: seq<Datagram>)

  datatype Event = ClientSend(corrupted: bool) | ClientReceive | ServerSend(corrupted: bool) | ServerReceive

  function Size(v: seq<nat>, k: nat): nat {
    if k < |v| then v[k] else 1
  }

  /** The client's place at the start of message `k`. */
  function Begin(t: Talk, k: nat): Client {
    if k < |t.messages| then CSend(k, 0) else CDone
  }

  function Start(t: Talk): State {
    State(Begin(t, 0), SRecv(0), [], [])
  }

  predicate Enabled(s: State, e: Event) {
    match e
    case ClientSend(_) => s.client.CSend?
    case ClientReceive => (s.client.CAwait? || s.client.CRecv?) && s.toClient != []
    case ServerSend(_) => s.server.SSend?
    case ServerReceive => (s.server.SRecv? || s.server.SAwait?) && s.toServer != []
  }

  /** The client takes a datagram. Waiting for a reply, everything but a NACK counts as an ACK; receiving,
      only the checksum is looked at, and an ACK or NACK would pass for an empty packet. */
  function ClientTakes(t: Talk, s: State): State
    requires Enabled(s, ClientReceive)
  {
    var d, rest := s.toClient[0], s.toClient[1..];
    match s.client
    case CAwait(k, i) =>
      var next := if d == Nack then CSend(k, i) else if i + 1 < Size(t.messages, k) then CSend(k, i + 1) else CRecv(k);
      s.(client := next, toClient := rest)
    case CRecv(k) =>
      if d.Data? && d.corrupted then s.(toClient := rest, toServer := s.toServer + [Nack])
      else
        s.(client := if d.Data? && d.last then Begin(t, k + 1) else CRecv(k),
           toClient := rest, toServer := s.toServer + [Ack])
  }

  /** The server takes a datagram; a packet of the wrong type makes it exit. */
  function ServerTakes(t: Talk, s: State): State
    requires Enabled(s, ServerReceive)
  {
    var d, rest := s.toServer[0], s.toServer[1..];
    match s.server
    case SRecv(k) =>
      if !d.Data? then s.(server := SExit, toServer := rest)
      else if d.corrupted then s.(toServer := rest, toClient := s.toClient + [Nack])
      else
        s.(server := if d.last then SSend(k, 0) else SRecv(k), toServer := rest, toClient := s.toClient + [Ack])
    case SAwait(k, j) =>
      if d.Data? then s.(server := SExit, toServer := rest)
      else
        var next := if d == Nack then SSend(k, j)
                    else if j + 1 < Size(t.replies, k) then SSend(k, j + 1)
                    else SRecv(k + 1);
        s.(server := next, toServer := rest)
  }

  function Apply(t: Talk, s: State, e: Event): State
    requires Enabled(s, e)
  {
    match e
    case ClientSend(corrupted) =>
      var k, i := s.client.k, s.client.i;
      s.(client := CAwait(k, i), toServer := s.toServer + [Data(i + 1 >= Size(t.messages, k), corrupted)])
    case ClientReceive => ClientTakes(t, s)
    case ServerSend(corrupted) =>
      var k, j := s.server.k, s.server.j;
      s.(server := SAwait(k, j), toClient := s.toClient + [Data(j + 1 >= Size(t.replies, k), corrupted)])
    case ServerReceive => ServerTakes(t, s)
  }

  /** A run, each event enabled when its turn comes. */
  predicate Runs(t: Talk, events: seq<Event>)
    decreases |events|, 0
  {
    events == [] ||
      var before := events[..|events| - 1];
      Runs(t, before) && Enabled(After(t, before), events[|events| - 1])
  }

  function After(t: Talk, events: seq<Event>): State
    requires Runs(t, events)
    decreases |events|, 1
  {
    if events == [] then Start(t)
    else Apply(t, After(t, events[..|events| - 1]), events[|events| - 1])
  }

  // ---------------------------------------------------------------- packets as datagrams

  /** What steers the server in a packet of the client, the channel having added `noise` to its checksum. */
  function SeenByServer(p: Packet, noise: int): Datagram {
    Data(p.kind == LAST_DATA, PySum(p.payload) != p.checksum + noise)
  }

  function SeenByClient(p: Packet, noise: int): Datagram {
    Data(p.kind == LAST_DATA, CSum(p.payload) != p.checksum + noise)
  }

  function Counts(ms: seq<Message>): seq<nat> {
    seq(|ms|, k requires 0 <= k < |ms| => PacketCount(|ms[k]|))
  }

  /** Messages and replies with something in each make a conversation. */
  lemma TalkOfMessages(ms: seq<Message>, rs: seq<Message>)
    requires |ms| == |rs|
    ensures Talk(Counts(ms), Counts(rs)).Valid() <==>
      (forall k :: 0 <= k < |ms| ==> ms[k] != []) && (forall k :: 0 <= k < |rs| ==> rs[k] != [])
  {
    var t := Talk(Counts(ms), Counts(rs));
    assert forall k :: 0 <= k < |ms| ==> (0 < t.messages[k] <==> ms[k] != []);
    assert forall k :: 0 <= k < |rs| ==> (0 < t.replies[k] <==> rs[k] != []);
  }

  /** A packet of a 7-bit message arrives as the datagram of the conversation: last when it is, and failing the
      other side's check exactly when the channel changed its checksum. Any other payload fails the check of
      the other side even unchanged. */
  lemma ClientPacketArrives(ms: seq<Message>, k: nat, i: nat, noise: int)
    requires k < |ms| && i < PacketCount(|ms[k]|)
    ensures var p := CPacketize(ms[k])[i];
      && (SevenBit(p.payload) ==> SeenByServer(p, noise) == Data(i + 1 >= Size(Counts(ms), k), noise != 0))
      && (SeenByServer(p, 0).corrupted <==> !SevenBit(p.payload))
  {
    PacketShape(ms[k]);
    ChecksumsAgree(CPacketize(ms[k])[i].payload);
  }

  lemma ServerPacketArrives(rs: seq<Message>, k: nat, j: nat, noise: int)
    requires k < |rs| && j < PacketCount(|rs[k]|)
    ensures var p := PyPacketize(rs[k])[j];
      && (SevenBit(p.payload) ==> SeenByClient(p, noise) == Data(j + 1 >= Size(Counts(rs), k), noise != 0))
      && (SeenByClient(p, 0).corrupted <==> !SevenBit(p.payload))
  {
    ChecksumsAgree(PyPacketize(rs[k])[j].payload);
  }

  // ---------------------------------------------------------------- the two sides agree

  ghost predicate OneData(q: seq<Datagram>, last: bool) {
    |q| == 1 && q[0].Data? && q[0].last == last
  }

  ghost predicate AckThenData(q: seq<Datagram>, last: bool) {
    |q| == 2 && q[0] == Ack && q[1].Data? && q[1].last == last
  }

  /** The joint configurations: which phase, which message and which packet each side is at, and what is then
      in flight. */
  ghost predicate Agree(t: Talk, s: State)
    requires t.Valid()
  {
    var up, down := s.toServer, s.toClient;
    match (s.client, s.server)
    case (CSend(k, i), SRecv(k')) =>
      k == k' < |t.messages| && i < t.messages[k] && up == [] && down == []
    case (CAwait(k, i), SRecv(k')) =>
      && k == k' < |t.messages| && i < t.messages[k]
      && var last := i + 1 == t.messages[k];
        || (OneData(up, last) && down == [])
        || (up == [] && (down == [Nack] || (down == [Ack] && !last)))
    case (CAwait(k, i), SSend(k', j)) =>
      k == k' < |t.messages| && i + 1 == t.messages[k] && j == 0 && up == [] && down == [Ack]
    case (CAwait(k, i), SAwait(k', j)) =>
      || (k == k' < |t.messages| && i + 1 == t.messages[k] && j == 0
          && up == [] && AckThenData(down, t.replies[k] == 1))
      || (k == k' + 1 < |t.messages| && i == 0 && j + 1 == t.replies[k']
          && AckThenData(up, t.messages[k] == 1) && down == [])
    case (CRecv(k), SSend(k', j)) =>
      k == k' < |t.messages| && j < t.replies[k] && up == [] && down == []
    case (CRecv(k), SAwait(k', j)) =>
      && k == k' < |t.messages| && j < t.replies[k]
      && var last := j + 1 == t.replies[k];
        || (OneData(down, last) && up == [])
        || (down == [] && (up == [Nack] || (up == [Ack] && !last)))
    case (CSend(k, i), SAwait(k', j)) =>
      k == k' + 1 < |t.messages| && i == 0 && j + 1 == t.replies[k'] && up == [Ack] && down == []
    case (CDone, SAwait(k', j)) =>
      k' + 1 == |t.messages| && j + 1 == t.replies[k'] && up == [Ack] && down == []
    case (CDone, SRecv(k')) => k' == |t.messages| && up == [] && down == []
    case _ => false
  }

  lemma SendKeepsAgree(t: Talk, s: State, e: Event)
    requires t.Valid() && Agree(t, s) && Enabled(s, e) && (e.ClientSend? || e.ServerSend?)
    ensures Agree(t, Apply(t, s, e))
  {
  }

  lemma ClientReceiveKeepsAgree(t: Talk, s: State)
    requires t.Valid() && Agree(t, s) && Enabled(s, ClientReceive)
    ensures Agree(t, ClientTakes(t, s))
  {
  }

  lemma ServerReceiveKeepsAgree(t: Talk, s: State)
    requires t.Valid() && Agree(t, s) && Enabled(s, ServerReceive)
    ensures Agree(t, ServerTakes(t, s))
  {
  }

  lemma StepKeepsAgree(t: Talk, s: State, e: Event)
    requires t.Valid() && Agree(t, s) && Enabled(s, e)
    ensures Agree(t, Apply(t, s, e))
  {
    hide Agree, ClientTakes, ServerTakes;
    match e
    case ClientReceive => ClientReceiveKeepsAgree(t, s);
    case ServerReceive => ServerReceiveKeepsAgree(t, s);
    case _ => SendKeepsAgree(t, s, e);
  }

  lemma {:induction false} RunKeepsAgree(t: Talk, events: seq<Event>)
    requires t.Valid() && Runs(t, events)
    ensures Agree(t, After(t, events))
  {
    if events != [] {
      var before := events[..|events| - 1];
      RunKeepsAgree(t, before);
      StepKeepsAgree(t, After(t, before), events[|events| - 1]);
    }
  }

  // ---------------------------------------------------------------- how long a run is

  /** The packets of `v` from number `k` on. */
  function SumFrom(v: seq<nat>, k: nat): nat
    decreases |v| - k
  {
    if k < |v| then v[k] + SumFrom(v, k + 1) else 0
  }

  /** The packets a side has yet to see acknowledged, from where it stands. */
  function ClientLeft(t: Talk, c: Client): int {
    match c
    case CSend(k, i) => SumFrom(t.messages, k) - i
    case CAwait(k, i) => SumFrom(t.messages, k) - i
    case CRecv(k) => SumFrom(t.messages, k + 1)
    case CDone => 0
  }

  function ServerLeft(t: Talk, s: Server): int {
    match s
    case SRecv(k) => SumFrom(t.replies, k)
    case SSend(k, j) => SumFrom(t.replies, k) - j
    case SAwait(k, j) => SumFrom(t.replies, k) - j
    case SExit => 0
  }

  /** What a datagram in flight adds to the steps to come. */
  function Weight(q: seq<Datagram>): int {
    if q == [] then 0
    else
      Weight(q[1..]) +
      match q[0]
      case Data(_, corrupted) => if corrupted then 2 else -1
      case Ack => -2
      case Nack => 1
  }

  /** The steps still to come if nothing more is corrupted. */
  function Rank(t: Talk, s: State): int {
    3 * (ClientLeft(t, s.client) + ServerLeft(t, s.server)) + Weight(s.toServer) + Weight(s.toClient)
  }

  function Corrupts(e: Event): nat {
    if (e.ClientSend? || e.ServerSend?) && e.corrupted then 1 else 0
  }

  function Corruptions(events: seq<Event>): nat {
    if events == [] then 0 else Corruptions(events[..|events| - 1]) + Corrupts(events[|events| - 1])
  }

  lemma {:induction false} WeightSplit(p: seq<Datagram>, q: seq<Datagram>)
    ensures Weight(p + q) == Weight(p) + Weight(q)
  {
    if p == [] {
      assert p + q == q;
    } else {
      WeightSplit(p[1..], q);
      assert (p + q)[1..] == p[1..] + q;
    }
  }

  lemma SendTakesOne(t: Talk, s: State, e: Event)
    requires t.Valid() && Agree(t, s) && Enabled(s, e) && (e.ClientSend? || e.ServerSend?)
    ensures Rank(t, Apply(t, s, e)) == Rank(t, s) - 1 + 3 * Corrupts(e)
  {
    hide Agree;
    match e
    case ClientSend(c) =>
      WeightSplit(s.toServer, [Data(s.client.i + 1 >= Size(t.messages, s.client.k), c)]);
    case ServerSend(c) =>
      WeightSplit(s.toClient, [Data(s.server.j + 1 >= Size(t.replies, s.server.k), c)]);
  }

  lemma ClientReceiveTakesOne(t: Talk, s: State)
    requires t.Valid() && Agree(t, s) && Enabled(s, ClientReceive)
    ensures Rank(t, ClientTakes(t, s)) == Rank(t, s) - 1
  {
    WeightSplit(s.toServer, [Nack]);
    WeightSplit(s.toServer, [Ack]);
  }

  lemma ServerReceiveTakesOne(t: Talk, s: State)
    requires t.Valid() && Agree(t, s) && Enabled(s, ServerReceive)
    ensures Rank(t, ServerTakes(t, s)) == Rank(t, s) - 1
  {
    WeightSplit(s.toClient, [Nack]);
    WeightSplit(s.toClient, [Ack]);
  }

  lemma StepTakesOne(t: Talk, s: State, e: Event)
    requires t.Valid() && Agree(t, s) && Enabled(s, e)
    ensures Rank(t, Apply(t, s, e)) == Rank(t, s) - 1 + 3 * Corrupts(e)
  {
    hide Agree, ClientTakes, ServerTakes, Rank;
    match e
    case ClientReceive => ClientReceiveTakesOne(t, s);
    case ServerReceive => ServerReceiveTakesOne(t, s);
    case _ => SendTakesOne(t, s, e);
  }

  function Packets(t: Talk): nat {
    SumFrom(t.messages, 0) + SumFrom(t.replies, 0)
  }

  lemma {:induction false} RunLength(t: Talk, events: seq<Event>)
    requires t.Valid() && Runs(t, events)
    ensures |events| + Rank(t, After(t, events)) == 3 * (Packets(t) + Corruptions(events))
  {
    if events != [] {
      var before := events[..|events| - 1];
      RunLength(t, before);
      RunKeepsAgree(t, before);
      StepTakesOne(t, After(t, before), events[|events| - 1]);
    }
  }

  // ---------------------------------------------------------------- the results

  ghost predicate Stuck(s: State) {
    forall e :: !Enabled(s, e)
  }

  /** In every reachable state the two sides agree, the server has not exited, and at most two datagrams are
      in flight: two exactly when both sides wait for a reply, the ACK of one phase's last packet travelling
      ahead of the first packet of the next. */
  lemma {:induction false} PhaseAgreement(t: Talk, events: seq<Event>)
    requires t.Valid() && Runs(t, events)
    ensures var s := After(t, events);
      && Agree(t, s) && s.server != SExit
      && |s.toServer| + |s.toClient| <= 2
      && (|s.toServer| + |s.toClient| == 2 <==> s.client.CAwait? && s.server.SAwait?)
      && (s.toServer == [] || s.toClient == [])
  {
    RunKeepsAgree(t, events);
  }

  /** Two datagrams do come to be in flight: one message of one packet, its ACK, and the first reply packet. */
  lemma TwoInFlight()
    ensures var t, events := Talk([1], [1]), [ClientSend(false), ServerReceive, ServerSend(false)];
      t.Valid() && Runs(t, events) && After(t, events).toClient == [Ack, Data(true, false)]
  {
    var t, events := Talk([1], [1]), [ClientSend(false), ServerReceive, ServerSend(false)];
    assert events[..2] == [ClientSend(false), ServerReceive];
    assert events[..2][..1] == [ClientSend(false)];
    assert events[..2][..1][..0] == [];
    assert After(t, []) == Start(t);
    assert After(t, events[..2][..1]) == State(CAwait(0, 0), SRecv(0), [Data(true, false)], []);
    assert After(t, events[..2]) == State(CAwait(0, 0), SSend(0, 0), [], [Ack]);
  }

  /** However many messages: a conversation never blocks before the client is through, takes three steps for
      every packet and every corruption, and ends with every message and every reply transferred. */
  lemma {:induction false} ConversationFinishes(t: Talk, events: seq<Event>)
    requires t.Valid() && Runs(t, events)
    ensures var s := After(t, events);
      && |events| <= 3 * (Packets(t) + Corruptions(events))
      && (Stuck(s) <==> |events| == 3 * (Packets(t) + Corruptions(events)))
      && (Stuck(s) <==> s == State(CDone, SRecv(|t.messages|), [], []))
  {
    RunKeepsAgree(t, events);
    RunLength(t, events);
    StuckOnlyAtEnd(t, After(t, events));
    RankPositive(t, After(t, events));
  }

  lemma StuckOnlyAtEnd(t: Talk, s: State)
    requires t.Valid() && Agree(t, s)
    ensures Stuck(s) <==> s == State(CDone, SRecv(|t.messages|), [], [])
  {
    if s.client.CSend? {
      assert Enabled(s, ClientSend(false));
    } else if s.server.SSend? {
      assert Enabled(s, ServerSend(false));
    } else if s.toClient != [] {
      assert Enabled(s, ClientReceive);
    } else if s.toServer != [] {
      assert Enabled(s, ServerReceive);
    }
  }

  lemma RankPositive(t: Talk, s: State)
    requires t.Valid() && Agree(t, s)
    ensures Rank(t, s) >= 0
    ensures Rank(t, s) == 0 <==> s == State(CDone, SRecv(|t.messages|), [], [])
  {
    WeightBound(s.toServer);
    WeightBound(s.toClient);
  }

  lemma WeightBound(q: seq<Datagram>)
    requires |q| <= 2
    ensures |q| == 1 ==> Weight(q) >= -2
    ensures |q| == 2 && q[0] == Ack && q[1].Data? ==> Weight(q) >= -3
  {
    if |q| == 2 {
      assert q == [q[0]] + [q[1]];
      WeightSplit([q[0]], [q[1]]);
    }
  }
}
