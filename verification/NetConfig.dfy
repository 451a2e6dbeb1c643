/**
 The network registers of the four TCP/UDP stacks, and the Prestart loop that gives each stream
 its own address by reading one instance back and stepping it for the next.
 */
module NetConfig {
  import opened Bytes

  const MTU_DEFAULT: Word := 1500
  const MTU_JUMBO: Word := 8000

  datatype Client = Client(
    stateRequest: Word, addr: Word, subnet: Word, gateway: Word, macHigh: Word, macLow: Word,
    mtu: Word, tcpDest: Word, tcpPort: Word, udpDest: Word, udpPort: Word)

  /** Four bytes in dotted order, and a six-byte MAC address. */
  datatype Quad = Quad(b0: Byte, b1: Byte, b2: Byte, b3: Byte)
  datatype Mac = Mac(m0: Byte, m1: Byte, m2: Byte, m3: Byte, m4: Byte, m5: Byte)

  /** What the read-back routine hands to its caller. */
  datatype Settings = Settings(
    ip: Quad, subnet: Quad, gateway: Quad, mac: Mac, udp: Quad, tcp: Quad, udpPort: Word, tcpPort: Word)

  function Pack(q: Quad): Word {
    WordLE(q.b3, q.b2, q.b1, q.b0)
  }

  function Unpack(w: Word): Quad {
    Quad(ByteOf(w, 3), ByteOf(w, 2), ByteOf(w, 1), ByteOf(w, 0))
  }

  lemma PackThenUnpack(q: Quad)
    ensures Unpack(Pack(q)) == q
  {
    BytesOfWordLE(q.b3, q.b2, q.b1, q.b0);
  }

  lemma UnpackThenPack(w: Word)
    ensures Pack(Unpack(w)) == w
  {
    WordOfBytes(w);
  }

  function MacHigh(m: Mac): Word {
    m.m0 * 0x100 + m.m1
  }

  function MacLow(m: Mac): Word {
    Pack(Quad(m.m2, m.m3, m.m4, m.m5))
  }

  function MacOf(high: Word, low: Word): Mac {
    var q := Unpack(low);
    Mac(ByteOf(high, 1), ByteOf(high, 0), q.b0, q.b1, q.b2, q.b3)
  }

  lemma MacBack(m: Mac)
    ensures MacOf(MacHigh(m), MacLow(m)) == m
  {
    BytesOfPair(m.m1, m.m0);
    PackThenUnpack(Quad(m.m2, m.m3, m.m4, m.m5));
  }

  const NO_ADDRESS := Quad(0, 0, 0, 0)

  lemma ZeroAddress()
    ensures Unpack(0) == NO_ADDRESS
  {
    BytesOfWordLE(0, 0, 0, 0);
  }

  function Ushort(v: int): int {
    v % 0x1_0000
  }

  function LocalPort(localport: int): int {
    if Ushort(localport) == 0 then 10001 else Ushort(localport)
  }

  function SetNetCfg(c: Client, udpMode: bool, s: Settings, dest: Quad, destport: int, localport: int): Client {
    var port := LocalPort(localport);
    Client(0, Pack(s.ip), Pack(s.subnet), Pack(s.gateway),
           MacHigh(s.mac), MacLow(s.mac),
           if udpMode then MTU_JUMBO else MTU_DEFAULT,
           if udpMode then 0 else Pack(dest),
           if udpMode then port * 0x1_0000 else port * 0x1_0000 + Ushort(destport),
           if udpMode then Pack(dest) else 0,
           if udpMode then (port + 1) % 0x1_0000 * 0x1_0000 + Ushort(destport) else (port + 1) % 0x1_0000 * 0x1_0000)
  }

  function GetNetCfg(c: Client): Settings {
    Settings(Unpack(c.addr), Unpack(c.subnet), Unpack(c.gateway), MacOf(c.macHigh, c.macLow),
             Unpack(c.udpDest), Unpack(c.tcpDest), c.udpPort, c.tcpPort)
  }

  /** A destination and its port under the transport in use, and 0 under the other. */
  predicate Directed(s: Settings, udpMode: bool, dest: Quad, destport: int) {
    && s.udp == (if udpMode then dest else NO_ADDRESS) && s.tcp == (if udpMode then NO_ADDRESS else dest)
    && s.udpPort % 0x1_0000 == (if udpMode then Ushort(destport) else 0)
    && s.tcpPort % 0x1_0000 == (if udpMode then 0 else Ushort(destport))
  }

  /** The local port for TCP, and the next one for UDP. */
  predicate Bound(s: Settings, localport: int) {
    && s.tcpPort / 0x1_0000 == LocalPort(localport)
    && s.udpPort / 0x1_0000 == (LocalPort(localport) + 1) % 0x1_0000
  }

  /** The settings a stream keeps of its own. */
  predicate SameOwn(s: Settings, t: Settings) {
    s.ip == t.ip && s.subnet == t.subnet && s.gateway == t.gateway && s.mac == t.mac
  }

  lemma PortHalves(high: int, low: int)
    requires 0 <= high < 0x1_0000 && 0 <= low < 0x1_0000
    ensures (high * 0x1_0000 + low) / 0x1_0000 == high && (high * 0x1_0000 + low) % 0x1_0000 == low
  {
  }

  /** Reading back returns what was set, with the destination and its port under the transport in use,
      and the local ports. */
  lemma SetThenGet(c: Client, udpMode: bool, s: Settings, dest: Quad, destport: int, localport: int)
    ensures var got := GetNetCfg(SetNetCfg(c, udpMode, s, dest, destport, localport));
            SameOwn(got, s) && Directed(got, udpMode, dest, destport) && Bound(got, localport)
  {
    var port := LocalPort(localport);
    PortHalves(port, if udpMode then 0 else Ushort(destport));
    PortHalves((port + 1) % 0x1_0000, if udpMode then Ushort(destport) else 0);
    PackThenUnpack(s.ip);
    PackThenUnpack(s.subnet);
    PackThenUnpack(s.gateway);
    PackThenUnpack(dest);
    MacBack(s.mac);
    ZeroAddress();
  }

  /** The step from one instance's settings to the next one's, in unsigned char arithmetic. */
  function Stepped(s: Settings): Settings {
    var ip: int := s.ip.b3;
    var mac: int := s.mac.m4;
    s.(ip := s.ip.(b3 := (ip + 1) % 256), mac := s.mac.(m4 := (mac + 1) % 256))
  }

  /** What the run's configuration fixes for all streams. */
  datatype Target = Target(netMode: int, emuip: Word, emuport: int, localport: int)

  /** The loop over the connections: the registers and the settings last read back.  Instances
      above 3 do not exist; the routines refuse them and leave their arguments alone. */
  function Configure(clients: seq<Client>, n: nat, t: Target): (r: (seq<Client>, Settings))
    requires |clients| == 4
    ensures |r.0| == 4
  {
    if n == 0 then (clients, GetNetCfg(clients[0]))
    else
      var (done, s) := Configure(clients, n - 1, t);
      var own := if n == 1 then s else Stepped(s);
      if n > 4 then (done, own)
      else
        var c := SetNetCfg(done[n - 1], t.netMode != 0, own, Unpack(t.emuip), t.emuport, t.localport);
        (done[n - 1 := c], GetNetCfg(c))
  }

  class NetPort {
    var clients: seq<Client>

    method ConfigureStreams(numConnections: nat, t: Target)
      requires |clients| == 4
      modifies this
      ensures clients == Configure(old(clients), numConnections, t).0
    {
      var dest := Unpack(t.emuip);
      var s := GetNetCfg(clients[0]);
      for inst := 0 to numConnections
        invariant |clients| == 4
        invariant (clients, s) == Configure(old(clients), inst, t)
      {
        if inst > 0 {
          s := Stepped(s);
        }
        if inst <= 3 {
          clients := clients[inst := SetNetCfg(clients[inst], t.netMode != 0, s, dest, t.emuport, t.localport)];
          s := GetNetCfg(clients[inst]);
        }
      }
    }
  }

  /** `i` steps on from the base settings. */
  function Nth(base: Settings, i: nat): Settings {
    var ip: int := base.ip.b3;
    var mac: int := base.mac.m4;
    base.(ip := base.ip.(b3 := (ip + i) % 256), mac := base.mac.(m4 := (mac + i) % 256))
  }

  /** The registers of stream `i` are right: its own address and MAC, the common subnet and
      gateway, the destination under the transport in use and 0 under the other. */
  ghost predicate StreamSet(c: Client, base: Settings, i: nat, t: Target) {
    var own := Nth(base, i);
    && Unpack(c.addr) == own.ip && Unpack(c.subnet) == base.subnet && Unpack(c.gateway) == base.gateway
    && GetNetCfg(c).mac == own.mac
    && (if t.netMode != 0 then c.udpDest == t.emuip && c.tcpDest == 0
        else c.tcpDest == t.emuip && c.udpDest == 0)
    && Directed(GetNetCfg(c), t.netMode != 0, Unpack(t.emuip), t.emuport) && Bound(GetNetCfg(c), t.localport)
  }

  lemma NthStep(base: Settings, i: nat)
    ensures Stepped(Nth(base, i)) == Nth(base, i + 1)
  {
    StepWraps(base.ip.b3, i);
    StepWraps(base.mac.m4, i);
  }

  lemma StepWraps(b: int, i: nat)
    ensures ((b + i) % 256 + 1) % 256 == (b + (i + 1)) % 256
  {
  }

  /** Configuring one instance from its own settings sets its stream up. */
  lemma OneStream(c: Client, base: Settings, own: Settings, i: nat, t: Target)
    requires SameOwn(own, Nth(base, i))
    ensures var d := SetNetCfg(c, t.netMode != 0, own, Unpack(t.emuip), t.emuport, t.localport);
            && StreamSet(d, base, i, t)
            && SameOwn(GetNetCfg(d), Nth(base, i))
  {
    SetThenGet(c, t.netMode != 0, own, Unpack(t.emuip), t.emuport, t.localport);
    UnpackThenPack(t.emuip);
  }

  /** How many steps have been made after `n` passes of the loop. */
  function StepsMade(n: nat): nat {
    if n == 0 then 0 else n - 1
  }

  lemma NextOwn(base: Settings, s: Settings, n: nat)
    requires n > 0 && SameOwn(s, Nth(base, StepsMade(n - 1)))
    ensures SameOwn(if n == 1 then s else Stepped(s), Nth(base, n - 1))
  {
    if n > 1 {
      NthStep(base, n - 2);
    }
  }

  /** The first `n` streams are set up and the others untouched. */
  ghost predicate FirstSet(before: seq<Client>, after: seq<Client>, n: nat, t: Target)
    requires |before| == |after| == 4
  {
    && (forall i :: 0 <= i < n && i < 4 ==> StreamSet(after[i], GetNetCfg(before[0]), i, t))
    && (forall i :: n <= i < 4 ==> after[i] == before[i])
  }

  /** After the loop every configured stream has its own settings and the rest are untouched. */
  lemma {:induction false} StreamsConfigured(clients: seq<Client>, n: nat, t: Target)
    requires |clients| == 4
    ensures FirstSet(clients, Configure(clients, n, t).0, n, t)
    ensures SameOwn(Configure(clients, n, t).1, Nth(GetNetCfg(clients[0]), StepsMade(n)))
  {
    if n > 0 {
      StreamsConfigured(clients, n - 1, t);
      var base := GetNetCfg(clients[0]);
      var (done, s) := Configure(clients, n - 1, t);
      NextOwn(base, s, n);
      if n <= 4 {
        OneStream(done[n - 1], base, if n == 1 then s else Stepped(s), n - 1, t);
      }
    }
  }

  lemma StepsDiffer(b: int, i: nat, j: nat)
    requires 0 <= b < 256 && i < j < 4
    ensures (b + i) % 256 != (b + j) % 256
  {
  }

  /** No two streams share an address or a MAC. */
  lemma StreamsDistinct(clients: seq<Client>, n: nat, t: Target, i: nat, j: nat)
    requires |clients| == 4 && i < j < n && j < 4
    ensures var after := Configure(clients, n, t).0;
            && after[i].addr != after[j].addr
            && GetNetCfg(after[i]).mac != GetNetCfg(after[j]).mac
  {
    var base := GetNetCfg(clients[0]);
    StepsDiffer(base.ip.b3, i, j);
    StepsDiffer(base.mac.m4, i, j);
    assert Nth(base, i).ip != Nth(base, j).ip && Nth(base, i).mac != Nth(base, j).mac;
    StreamsConfigured(clients, n, t);
    var after := Configure(clients, n, t).0;
    assert StreamSet(after[i], base, i, t) && StreamSet(after[j], base, j, t);
  }

  /** The registers by their bits: addresses and the low four bytes of the MAC most significant byte first,
      the local port in the high half of a port register and the destination's in the low half. */
  lemma Registers(c: Client, udpMode: bool, s: Settings, dest: Quad, destport: int, localport: int)
    ensures var d := SetNetCfg(c, udpMode, s, dest, destport, localport);
            var port := if localport % 65536 == 0 then 10001 else localport % 65536;
            && d.addr == s.ip.b0 * 16777216 + s.ip.b1 * 65536 + s.ip.b2 * 256 + s.ip.b3
            && d.subnet == s.subnet.b0 * 16777216 + s.subnet.b1 * 65536 + s.subnet.b2 * 256 + s.subnet.b3
            && d.gateway == s.gateway.b0 * 16777216 + s.gateway.b1 * 65536 + s.gateway.b2 * 256 + s.gateway.b3
            && d.macHigh == s.mac.m0 * 256 + s.mac.m1
            && d.macLow == s.mac.m2 * 16777216 + s.mac.m3 * 65536 + s.mac.m4 * 256 + s.mac.m5
            && d.stateRequest == 0 && d.mtu == (if udpMode then 8000 else 1500)
            && (var address := dest.b0 * 16777216 + dest.b1 * 65536 + dest.b2 * 256 + dest.b3;
                d.udpDest == (if udpMode then address else 0) && d.tcpDest == (if udpMode then 0 else address))
            && d.tcpPort == port * 65536 + (if udpMode then 0 else destport % 65536)
            && d.udpPort == (port + 1) % 65536 * 65536 + (if udpMode then destport % 65536 else 0)
  {
  }
}
