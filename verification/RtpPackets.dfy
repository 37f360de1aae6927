/** Cutting a message into packets, as the C client and as the Python server do it. */
module RtpPackets {

  const MAX_PAYLOAD_LENGTH: nat := 10

  type byte = b: int | 0 <= b < 256
  type Message = seq<byte>

  datatype Kind = DATA | LAST_DATA | ACK | NACK | TERM

  /** A packet; `payload` is the used part of the payload field. */
  datatype Packet = Packet(kind: Kind, checksum: int, length: nat, payload: seq<byte>)

  // ---------------------------------------------------------------- checksums

  /** A byte as C's signed `char`. */
  function Signed(b: byte): int {
    if b < 128 then b else b - 256
  }

  /** The C checksum: the sum of the signed characters. */
  function CSum(s: seq<byte>): int {
    if s == [] then 0 else CSum(s[..|s| - 1]) + Signed(s[|s| - 1])
  }

  /** The Python checksum: the sum of the character codes. */
  function PySum(s: seq<byte>): nat {
    if s == [] then 0 else PySum(s[..|s| - 1]) + s[|s| - 1]
  }

  predicate SevenBit(s: seq<byte>) {
    forall i :: 0 <= i < |s| ==> s[i] < 128
  }

  /** The two checksums agree on 7-bit text; otherwise the C one is smaller. */
  lemma {:induction false} ChecksumsAgree(s: seq<byte>)
    ensures CSum(s) <= PySum(s)
    ensures CSum(s) == PySum(s) <==> SevenBit(s)
  {
    if s != [] {
      ChecksumsAgree(s[..|s| - 1]);
      assert forall i :: 0 <= i < |s| - 1 ==> s[i] == s[..|s| - 1][i];
    }
  }

  /** Both checksums add over concatenation. */
  lemma {:induction false} SumsAdd(s: seq<byte>, r: seq<byte>)
    ensures CSum(s + r) == CSum(s) + CSum(r) && PySum(s + r) == PySum(s) + PySum(r)
  {
    if r == [] {
      assert s + r == s;
    } else {
      SumsAdd(s, r[..|r| - 1]);
      assert (s + r)[..|s + r| - 1] == s + r[..|r| - 1];
    }
  }

  /** One byte for another changes the Python sum by their difference, and the C sum too if both are 7-bit. */
  lemma SumsFollowBytes(s: seq<byte>, k: nat, y: byte)
    requires k < |s|
    ensures PySum(s[k := y]) == PySum(s) + y - s[k]
    ensures s[k] < 128 && y < 128 ==> CSum(s[k := y]) == CSum(s) + y - s[k]
  {
    assert s == s[..k] + [s[k]] + s[k + 1..];
    assert s[k := y] == s[..k] + [y] + s[k + 1..];
    SumsAdd(s[..k] + [s[k]], s[k + 1..]);
    SumsAdd(s[..k], [s[k]]);
    SumsAdd(s[..k] + [y], s[k + 1..]);
    SumsAdd(s[..k], [y]);
  }

  /** The C sum is smaller by 256 for every byte that is not 7-bit. */
  lemma {:induction false} ChecksumGap(s: seq<byte>)
    ensures PySum(s) - CSum(s) == 256 * |set i: nat | i < |s| && s[i] >= 128|
  {
    if s != [] {
      var n, r := |s| - 1, s[..|s| - 1];
      ChecksumGap(r);
      var was, now := set i: nat | i < n && r[i] >= 128, set i: nat | i < |s| && s[i] >= 128;
      assert now == was + if s[n] >= 128 then {n} else {};
    }
  }

  // ---------------------------------------------------------------- packets

  /** The number of packets both packetizers aim for. */
  function PacketCount(n: nat): nat {
    if n % MAX_PAYLOAD_LENGTH == 0 then n / MAX_PAYLOAD_LENGTH else n / MAX_PAYLOAD_LENGTH + 1
  }

  function Chunk(m: Message, i: nat): seq<byte>
    requires MAX_PAYLOAD_LENGTH * i <= |m|
  {
    if MAX_PAYLOAD_LENGTH * (i + 1) < |m| then m[MAX_PAYLOAD_LENGTH * i..MAX_PAYLOAD_LENGTH * (i + 1)]
    else m[MAX_PAYLOAD_LENGTH * i..]
  }

  /** The `i`-th packet the C packetizer fills in. */
  function CPacket(m: Message, i: nat): Packet
    requires i < PacketCount(|m|)
  {
    var p := Chunk(m, i);
    Packet(if MAX_PAYLOAD_LENGTH * (i + 1) < |m| then DATA else LAST_DATA, CSum(p), |p|, p)
  }

  function CPacketize(m: Message): seq<Packet> {
    seq(PacketCount(|m|), i requires 0 <= i < PacketCount(|m|) => CPacket(m, i))
  }

  /** A full-length packet of the Python packetizer. */
  function PyPacket(m: Message, x: nat): Packet
    requires MAX_PAYLOAD_LENGTH * (x + 1) <= |m|
  {
    var p := m[MAX_PAYLOAD_LENGTH * x..MAX_PAYLOAD_LENGTH * (x + 1)];
    Packet(DATA, PySum(p), MAX_PAYLOAD_LENGTH, p)
  }

  function FullPackets(m: Message, n: nat): seq<Packet>
    requires MAX_PAYLOAD_LENGTH * n <= |m|
  {
    seq(n, x requires 0 <= x < n => PyPacket(m, x))
  }

  /** The Python packetizer: all but one packet are full, and there is always a last one. */
  function PyPacketize(m: Message): seq<Packet> {
    var num := PacketCount(|m|);
    if num == 0 then [Packet(LAST_DATA, 0, 0, [])]
    else
      var p := m[MAX_PAYLOAD_LENGTH * (num - 1)..];
      FullPackets(m, num - 1) + [Packet(LAST_DATA, PySum(p), |p|, p)]
  }

  /** The payloads put together again. */
  function Payloads(ps: seq<Packet>): Message {
    if ps == [] then [] else Payloads(ps[..|ps| - 1]) + ps[|ps| - 1].payload
  }

  /** The first `k` packets carry the first `10 * k` bytes, or all of them. */
  function Prefix(m: Message, k: nat): Message {
    if MAX_PAYLOAD_LENGTH * k < |m| then m[..MAX_PAYLOAD_LENGTH * k] else m
  }

  lemma {:induction false} PayloadsArePrefix(m: Message, k: nat)
    requires k <= PacketCount(|m|)
    ensures Payloads(CPacketize(m)[..k]) == Prefix(m, k)
  {
    hide CSum, Chunk, Prefix;
    if k == 0 {
      assert CPacketize(m)[..0] == [];
      NothingCarried(m);
    } else {
      PayloadsArePrefix(m, k - 1);
      PrefixGrows(m, k - 1);
      var ps := CPacketize(m)[..k];
      assert ps[..k - 1] == CPacketize(m)[..k - 1];
      assert ps[k - 1] == CPacket(m, k - 1);
    }
  }

  lemma NothingCarried(m: Message)
    ensures Prefix(m, 0) == []
  {
  }

  lemma PrefixGrows(m: Message, k: nat)
    requires k < PacketCount(|m|)
    ensures Prefix(m, k + 1) == Prefix(m, k) + Chunk(m, k)
  {
    assert MAX_PAYLOAD_LENGTH * k < |m|;
    assert MAX_PAYLOAD_LENGTH * (k + 1) >= |m| ==> m == m[..MAX_PAYLOAD_LENGTH * k] + m[MAX_PAYLOAD_LENGTH * k..];
  }

  /** Cutting up and putting together gives the message back, whatever its bytes. */
  lemma RoundTrip(m: Message)
    ensures Payloads(CPacketize(m)) == m
  {
    PayloadsArePrefix(m, PacketCount(|m|));
    assert CPacketize(m)[..PacketCount(|m|)] == CPacketize(m);
  }

  /** A message takes ceil(length / 10) packets; every packet but the last is full and only the last is
      marked so; no packet is empty. */
  lemma PacketShape(m: Message)
    ensures |CPacketize(m)| == (|m| + MAX_PAYLOAD_LENGTH - 1) / MAX_PAYLOAD_LENGTH
    ensures forall i :: 0 <= i < |CPacketize(m)| ==>
      var p := CPacketize(m)[i];
      && (p.kind == if i == |CPacketize(m)| - 1 then LAST_DATA else DATA)
      && 0 < p.length == |p.payload| <= MAX_PAYLOAD_LENGTH && p.checksum == CSum(p.payload)
      && (i < |CPacketize(m)| - 1 ==> p.length == MAX_PAYLOAD_LENGTH)
  {
  }

  /** The two packetizers give the same packets exactly on the non-empty 7-bit messages. */
  lemma PacketizersAgree(m: Message)
    ensures CPacketize(m) == PyPacketize(m) <==> m != [] && SevenBit(m)
  {
    var cs, ps := CPacketize(m), PyPacketize(m);
    var n := PacketCount(|m|);
    if m != [] {
      assert |cs| == |ps| == n;
      forall i | 0 <= i < n
        ensures ps[i] == cs[i].(checksum := PySum(cs[i].payload)) && cs[i].payload == Chunk(m, i)
        ensures cs[i] == ps[i] <==> SevenBit(Chunk(m, i))
      {
        ChecksumsAgree(Chunk(m, i));
      }
      ChunksCover(m);
    }
  }

  /** The Python packets of a non-empty message are the C ones but for the checksums; an empty message still has
      one, which is empty. */
  lemma PyPacketShape(m: Message)
    ensures m == [] ==> PyPacketize(m) == [Packet(LAST_DATA, PySum([]), 0, [])]
    ensures m != [] ==> |PyPacketize(m)| == |CPacketize(m)|
    ensures m != [] ==> forall i :: 0 <= i < |CPacketize(m)| ==>
      PyPacketize(m)[i] == CPacketize(m)[i].(checksum := PySum(CPacketize(m)[i].payload))
  {
    hide CSum, PySum;
    if m == [] {
      NothingSums();
    } else {
      forall i | 0 <= i < PacketCount(|m|)
        ensures PyPacketize(m)[i] == CPacket(m, i).(checksum := PySum(Chunk(m, i)))
      {
      }
    }
  }

  lemma ChunksCover(m: Message)
    requires m != []
    ensures SevenBit(m) <==> forall i :: 0 <= i < PacketCount(|m|) ==> SevenBit(Chunk(m, i))
  {
    if forall i :: 0 <= i < PacketCount(|m|) ==> SevenBit(Chunk(m, i)) {
      forall j | 0 <= j < |m| ensures m[j] < 128 {
        var i := j / MAX_PAYLOAD_LENGTH;
        assert SevenBit(Chunk(m, i));
        assert m[j] == Chunk(m, i)[j - MAX_PAYLOAD_LENGTH * i];
      }
    }
  }

  // ---------------------------------------------------------------- the loops

  method Checksum(buffer: seq<byte>, length: nat) returns (sum: int)
    requires length <= |buffer|
    ensures sum == CSum(buffer[..length])
  {
    sum := 0;
    for i := 0 to length
      invariant sum == CSum(buffer[..i])
    {
      sum := sum + Signed(buffer[i]);
      assert buffer[..i + 1][..i] == buffer[..i];
    }
  }

  /** The inner loop of `packetize`. */
  method CopyPayload(buffer: Message, start: nat, length: nat) returns (payload: seq<byte>)
    requires start + length <= |buffer|
    ensures payload == buffer[start..start + length]
  {
    payload := [];
    for j := 0 to length
      invariant payload == buffer[start..start + j]
    {
      payload := payload + [buffer[start + j]];
    }
  }

  /** Fills an array of packets from a message buffer. */
  method Packetize(buffer: Message) returns (packets: array<Packet>)
    ensures fresh(packets) && packets[..] == CPacketize(buffer)
  {
    hide CSum;
    var length := |buffer|;
    var count := if length % MAX_PAYLOAD_LENGTH == 0 then length / MAX_PAYLOAD_LENGTH
                 else length / MAX_PAYLOAD_LENGTH + 1;
    packets := new Packet[count](_ => Packet(DATA, 0, 0, []));
    for i := 0 to count
      invariant forall k :: 0 <= k < i ==> packets[k] == CPacket(buffer, k)
    {
      var payloadLength, kind;
      if MAX_PAYLOAD_LENGTH * (i + 1) < length {
        payloadLength, kind := MAX_PAYLOAD_LENGTH, DATA;
      } else {
        payloadLength, kind := length - MAX_PAYLOAD_LENGTH * i, LAST_DATA;
      }
      var payload := CopyPayload(buffer, MAX_PAYLOAD_LENGTH * i, payloadLength);
      var sum := Checksum(payload, payloadLength);
      assert buffer[MAX_PAYLOAD_LENGTH * i..length] == buffer[MAX_PAYLOAD_LENGTH * i..];
      assert payload[..payloadLength] == payload;
      packets[i] := Packet(kind, sum, payloadLength, payload);
    }
  }

  lemma NothingSums()
    ensures PySum([]) == 0
  {
  }

  lemma OneMoreFull(m: Message, n: nat)
    requires MAX_PAYLOAD_LENGTH * (n + 1) <= |m|
    ensures FullPackets(m, n + 1) == FullPackets(m, n) + [PyPacket(m, n)]
  {
  }

  method PyPacketizeLoop(msg: Message) returns (packets: seq<Packet>)
    ensures packets == PyPacketize(msg)
  {
    hide PySum, PyPacket, FullPackets;
    var num := |msg| / MAX_PAYLOAD_LENGTH + if |msg| % MAX_PAYLOAD_LENGTH != 0 then 1 else 0;
    packets := [];
    NoneFull(msg);
    var x := 0;
    while x < num - 1
      invariant 0 <= x && (x <= num - 1 || x == 0 == num)
      invariant packets == FullPackets(msg, x)
    {
      OneMoreFull(msg, x);
      packets := packets + [PyPacket(msg, x)];
      x := x + 1;
    }
    var payload := if num == 0 then [] else msg[MAX_PAYLOAD_LENGTH * (num - 1)..];
    packets := packets + [Packet(LAST_DATA, PySum(payload), |payload|, payload)];
    NothingSums();
  }

  lemma NoneFull(m: Message)
    ensures FullPackets(m, 0) == []
  {
  }
}
