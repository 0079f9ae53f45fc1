/** The loopback address that an App's ports give its metrics endpoint. */
module Loopback {
  import opened Numbers
  import opened Strings

  datatype Proto = Tcp | Udp | OtherProto

  datatype AppPort = AppPort(proto: Proto, publicPort: int, endPort: int)

  /** The last port of the range; a missing end means a single port. */
  function EndOf(p: AppPort): int {
    if p.endPort == 0 then p.publicPort else p.endPort
  }

  /** What an App's port occupies: a protocol class, TCP or not, and an end port. */
  function Occupied(p: AppPort): (bool, int) {
    (p.proto.Tcp?, EndOf(p))
  }

  /** The highest end port of one class, 0 if there is none above. */
  function Highest(ports: seq<AppPort>, tcp: bool): (m: nat)
    ensures forall i :: 0 <= i < |ports| && ports[i].proto.Tcp? == tcp ==> EndOf(ports[i]) <= m
    ensures m > 0 ==> exists i :: 0 <= i < |ports| && Occupied(ports[i]) == (tcp, m)
  {
    if ports == [] then 0
    else
      var n := |ports| - 1;
      var before := Highest(ports[..n], tcp);
      assert forall i :: 0 <= i < n ==> ports[..n][i] == ports[i];
      if ports[n].proto.Tcp? == tcp && EndOf(ports[n]) > before then
        assert Occupied(ports[n]) == (tcp, EndOf(ports[n]));
        EndOf(ports[n])
      else
        assert before > 0 ==> exists i :: 0 <= i < n && Occupied(ports[..n][i]) == (tcp, before);
        before
  }

  /** The class with the higher port, and that port; TCP wins a tie. */
  function Top(ports: seq<AppPort>): (bool, nat) {
    var tcp, udp := Highest(ports, true), Highest(ports, false);
    if tcp >= udp then (true, tcp) else (false, udp)
  }

  /** The octets, most significant first. */
  function Octets(top: (bool, nat)): seq<string> {
    ["127", if top.0 then "1" else "2", Decimal(top.1 / 256), Decimal(top.1 % 256)]
  }

  /** GetUniqueLoopbackIp. */
  method GetUniqueLoopbackIp(ports: seq<AppPort>) returns (ip: string)
    ensures ip == Join(Octets(Top(ports)), '.')
  {
    hide Join;
    var maxUdp, maxTcp := 0, 0;
    for i := 0 to |ports|
      invariant maxTcp == Highest(ports[..i], true) && maxUdp == Highest(ports[..i], false)
    {
      var p := ports[i];
      assert ports[..i + 1][..i] == ports[..i];
      var endPort := p.endPort;
      if endPort == 0 {
        endPort := p.publicPort;
      }
      if p.proto.Tcp? {
        if endPort > maxTcp {
          maxTcp := endPort;
        }
      } else {
        if endPort > maxUdp {
          maxUdp := endPort;
        }
      }
    }
    assert ports[..|ports|] == ports;
    var top := if maxTcp >= maxUdp then (true, maxTcp) else (false, maxUdp);
    ip := Join(Octets(top), '.');
  }

  lemma NoDots(top: (bool, nat), i: nat)
    requires i < 4
    ensures '.' !in Octets(top)[i]
  {
  }

  lemma OctetsTellTop(a: (bool, nat), b: (bool, nat))
    requires Octets(a) == Octets(b)
    ensures a == b
  {
    var x, y := Octets(a), Octets(b);
    assert x[1] == y[1] && x[2] == y[2] && x[3] == y[3];
    DecimalRoundTrip(a.1 / 256);
    DecimalRoundTrip(b.1 / 256);
    DecimalRoundTrip(a.1 % 256);
    DecimalRoundTrip(b.1 % 256);
  }

  /** Two Apps get the same address exactly when their highest ports agree, in number and in being TCP or not. */
  lemma SameAddressExactly(a: seq<AppPort>, b: seq<AppPort>)
    ensures Join(Octets(Top(a)), '.') == Join(Octets(Top(b)), '.') <==> Top(a) == Top(b)
  {
    hide Top, Join;
    forall i | 0 <= i < 4 ensures '.' !in Octets(Top(a))[i] && '.' !in Octets(Top(b))[i] {
      NoDots(Top(a), i);
      NoDots(Top(b), i);
    }
    hide Octets;
    OctetsLength(Top(a));
    OctetsLength(Top(b));
    SplitJoin(Octets(Top(a)), '.');
    SplitJoin(Octets(Top(b)), '.');
    if Octets(Top(a)) == Octets(Top(b)) { OctetsTellTop(Top(a), Top(b)); }
  }

  lemma OctetsLength(top: (bool, nat))
    ensures |Octets(top)| == 4
  {
  }

  /** Apps that have ports, all of them positive, and share none, in class and end port, get different addresses. */
  lemma DisjointPortsDiffer(a: seq<AppPort>, b: seq<AppPort>)
    requires a != [] && forall i :: 0 <= i < |a| ==> EndOf(a[i]) > 0
    requires b != [] && forall i :: 0 <= i < |b| ==> EndOf(b[i]) > 0
    requires forall i, j :: 0 <= i < |a| && 0 <= j < |b| ==> Occupied(a[i]) != Occupied(b[j])
    ensures Join(Octets(Top(a)), '.') != Join(Octets(Top(b)), '.')
  {
    TopOccupied(a);
    TopOccupied(b);
    SameAddressExactly(a, b);
  }

  lemma TopOccupied(ports: seq<AppPort>)
    requires ports != [] && EndOf(ports[0]) > 0
    ensures exists i :: 0 <= i < |ports| && Occupied(ports[i]) == Top(ports)
  {
    assert Highest(ports, ports[0].proto.Tcp?) >= EndOf(ports[0]);
  }

  /** The address is one of 127.0.0.0/8 exactly when the highest port is a 16-bit number. */
  lemma ValidExactly(ports: seq<AppPort>)
    ensures Value(Octets(Top(ports))[2]) <= 255 && Value(Octets(Top(ports))[3]) <= 255 <==> Top(ports).1 <= 65535
  {
    DecimalRoundTrip(Top(ports).1 / 256);
    DecimalRoundTrip(Top(ports).1 % 256);
  }
}
