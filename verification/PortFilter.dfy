/** The packet filter of the host bridge: port ranges, the filter's meaning, and which packets count as game traffic. */
module PortFilter {
  import opened Basics

  // ---------------------------------------------------------------------------------------------
  // Sorted sets of ports

  ghost predicate Ascending(s: seq<int>) {
    forall i, j | 0 <= i < j < |s| :: s[i] < s[j]
  }

  function Insert(s: seq<int>, x: int): (r: seq<int>)
    requires Ascending(s)
    ensures Ascending(r) && forall y :: y in r <==> y in s || y == x
  {
    if s == [] then [x]
    else if x < s[0] then [x] + s
    else if x == s[0] then s
    else
      var rest := Insert(s[1..], x);
      assert s == [s[0]] + s[1..];
      assert forall k | 0 <= k < |rest| :: rest[k] in rest && s[0] < rest[k];
      [s[0]] + rest
  }

  /** `sorted(set(ports))` */
  function SortedSet(ports: seq<int>): (r: seq<int>)
    ensures Ascending(r) && forall y :: y in r <==> y in ports
  {
    if ports == [] then []
    else
      assert ports == [ports[0]] + ports[1..];
      Insert(SortedSet(ports[1..]), ports[0])
  }

  // ---------------------------------------------------------------------------------------------
  // Ranges

  datatype Range = Range(low: int, high: int) {
    predicate Covers(port: int) {
      low <= port <= high
    }
  }

  predicate ValidPort(port: int) {
    1 <= port <= 65535
  }

  /** Ranges in order, with at least one port missing between neighbours. */
  ghost predicate Separated(ranges: seq<Range>) {
    && (forall i | 0 <= i < |ranges| :: ranges[i].low <= ranges[i].high)
    && (forall i, j | 0 <= i < j < |ranges| :: ranges[i].high + 1 < ranges[j].low)
  }

  predicate Covered(ranges: seq<Range>, port: int) {
    exists i :: 0 <= i < |ranges| && ranges[i].Covers(port)
  }

  datatype Ranges = InvalidPort(port: int) | Ranges(ranges: seq<Range>)

  /**
   * Either every port is valid and the ranges are separated and cover exactly the given ports, or the smallest
   * invalid port is reported.
   */
  method ContiguousPortRanges(ports: seq<int>) returns (r: Ranges)
    ensures r.Ranges? <==> forall p | p in ports :: 1 <= p <= 65535
    ensures r.Ranges? ==> Separated(r.ranges) && forall p :: Covered(r.ranges, p) <==> p in ports
    ensures r.InvalidPort? ==>
              r.port in ports && !(1 <= r.port <= 65535) && forall p | p in ports && p < r.port :: 1 <= p <= 65535
  {
    hide Separated, Covered;
    var sorted := SortedSet(ports);
    var ranges: seq<Range> := [];
    NoRanges();
    var i := 0;
    while i < |sorted|
      invariant 0 <= i <= |sorted|
      invariant forall p | p in sorted[..i] :: ValidPort(p)
      invariant Separated(ranges)
      invariant forall p :: Covered(ranges, p) <==> p in sorted[..i]
      invariant i > 0 ==> |ranges| > 0 && ranges[|ranges| - 1].high == sorted[i - 1]
      invariant i == 0 ==> ranges == []
    {
      var port := sorted[i];
      if !ValidPort(port) {
        SmallerComesFirst(sorted, i);
        assert port in sorted;
        return InvalidPort(port);
      }
      var last := |ranges| - 1;
      ghost var before := ranges;
      if ranges != [] && port == ranges[last].high + 1 {
        ranges := ranges[last := Range(ranges[last].low, port)];
        RangeExtended(before, ranges, port);
      } else {
        ranges := ranges + [Range(port, port)];
        RangeAdded(before, port);
      }
      assert sorted[..i + 1] == sorted[..i] + [port];
      i := i + 1;
    }
    assert sorted[..i] == sorted;
    return Ranges(ranges);
  }

  lemma SmallerComesFirst(sorted: seq<int>, i: nat)
    requires i < |sorted| && Ascending(sorted)
    ensures forall p | p in sorted && p < sorted[i] :: p in sorted[..i]
  {
    forall p | p in sorted && p < sorted[i]
      ensures p in sorted[..i]
    {
      var j :| 0 <= j < |sorted| && sorted[j] == p;
      assert j < i && sorted[..i][j] == p;
    }
  }

  lemma NoRanges()
    ensures Separated([]) && forall p :: !Covered([], p)
  {
  }

  lemma RangeExtended(before: seq<Range>, after: seq<Range>, port: int)
    requires before != [] && before[|before| - 1].high + 1 == port && Separated(before)
    requires after == before[|before| - 1 := Range(before[|before| - 1].low, port)]
    ensures Separated(after) && forall p :: Covered(after, p) <==> Covered(before, p) || p == port
  {
    var last := |before| - 1;
    assert after[last].Covers(port);
    forall p ensures Covered(after, p) <==> Covered(before, p) || p == port {
      if Covered(before, p) {
        var i :| 0 <= i < |before| && before[i].Covers(p);
        assert after[i].Covers(p);
      }
      if Covered(after, p) {
        var i :| 0 <= i < |after| && after[i].Covers(p);
        assert before[i].Covers(p) || p == port;
      }
    }
  }

  lemma RangeAdded(before: seq<Range>, port: int)
    requires Separated(before) && (before != [] ==> before[|before| - 1].high + 1 < port)
    ensures var after := before + [Range(port, port)];
            Separated(after) && forall p :: Covered(after, p) <==> Covered(before, p) || p == port
  {
    var after := before + [Range(port, port)];
    assert after[|before|].Covers(port);
    forall p ensures Covered(after, p) <==> Covered(before, p) || p == port {
      if Covered(before, p) {
        var i :| 0 <= i < |before| && before[i].Covers(p);
        assert after[i].Covers(p);
      }
      if Covered(after, p) {
        var i :| 0 <= i < |after| && after[i].Covers(p);
        assert i < |before| ==> before[i].Covers(p);
      }
    }
  }

  lemma NothingCovered(a: seq<Range>, b: seq<Range>)
    requires a == [] && Separated(b) && forall p :: Covered(a, p) <==> Covered(b, p)
    ensures b == []
  {
    assert b != [] ==> b[0].Covers(b[0].low) && !Covered(a, b[0].low);
  }

  lemma SameFirstRange(a: seq<Range>, b: seq<Range>)
    requires a != [] && Separated(a) && Separated(b) && forall p :: Covered(a, p) <==> Covered(b, p)
    ensures b != [] && a[0] == b[0]
  {
    assert a[0].Covers(a[0].low) && Covered(a, a[0].low);
    assert b != [];
    assert b[0].Covers(b[0].low) && Covered(b, b[0].low);
    FirstStarts(a, b);
    FirstStarts(b, a);
    FirstEnds(a, b);
    FirstEnds(b, a);
  }

  lemma SameRestCovered(a: seq<Range>, b: seq<Range>, p: int)
    requires a != [] && b != [] && a[0] == b[0] && Separated(a) && Separated(b) && (Covered(a, p) <==> Covered(b, p))
    ensures Covered(a[1..], p) <==> Covered(b[1..], p)
  {
    RestCovers(a, p);
    RestCovers(b, p);
  }

  /** Separated ranges that cover the same ports are the same ranges: the result is the shortest description. */
  lemma {:induction false} RangesAreUnique(a: seq<Range>, b: seq<Range>)
    requires Separated(a) && Separated(b) && forall p :: Covered(a, p) <==> Covered(b, p)
    ensures a == b
    decreases |a|
  {
    hide Covered;
    if a == [] {
      NothingCovered(a, b);
    } else {
      SameFirstRange(a, b);
      forall p ensures Covered(a[1..], p) <==> Covered(b[1..], p) {
        SameRestCovered(a, b, p);
      }
      RangesAreUnique(a[1..], b[1..]);
      assert a == [a[0]] + a[1..] && b == [b[0]] + b[1..];
    }
  }

  lemma FirstStarts(a: seq<Range>, b: seq<Range>)
    requires a != [] && b != [] && Separated(a) && Separated(b) && Covered(b, a[0].low)
    ensures b[0].low <= a[0].low
  {
    var i :| 0 <= i < |b| && b[i].Covers(a[0].low);
    assert i > 0 ==> b[0].high + 1 < b[i].low;
  }

  lemma FirstEnds(a: seq<Range>, b: seq<Range>)
    requires a != [] && b != [] && Separated(a) && Separated(b) && a[0].low == b[0].low
    requires forall p :: Covered(a, p) <==> Covered(b, p)
    ensures b[0].high <= a[0].high
  {
    var next := a[0].high + 1;
    assert !Covered(a, next) by {
      assert forall i | 0 < i < |a| :: a[i].low > next;
    }
    assert !Covered(b, next);
    assert !b[0].Covers(next);
  }

  lemma RestCovers(a: seq<Range>, p: int)
    requires a != [] && Separated(a)
    ensures Covered(a[1..], p) <==> Covered(a, p) && !a[0].Covers(p)
  {
    if Covered(a[1..], p) {
      var i :| 0 <= i < |a[1..]| && a[1..][i].Covers(p);
      assert a[i + 1].Covers(p) && a[0].high + 1 < a[i + 1].low;
    }
    if Covered(a, p) && !a[0].Covers(p) {
      var i :| 0 <= i < |a| && a[i].Covers(p);
      assert a[1..][i - 1].Covers(p);
    }
  }

  // ---------------------------------------------------------------------------------------------
  // Packets, game traffic and the filter

  datatype Packet = Packet(
    udp: bool, source: string, destination: string, sourcePort: int, destinationPort: int, inbound: bool,
    outbound: bool, payload: seq<byte>)

  datatype Route = DirectPeer | GamePort

  predicate GameInbound(p: Packet, peer: string, ports: seq<int>) {
    p.inbound && (p.source == peer || p.destinationPort in ports)
  }

  predicate GameOutbound(p: Packet, peer: string, ports: seq<int>) {
    p.outbound && (p.destination == peer || p.sourcePort in ports)
  }

  function GameRoute(p: Packet, peer: string, ports: seq<int>): (r: Option<Route>)
    ensures r.Some? <==> GameInbound(p, peer, ports) || GameOutbound(p, peer, ports)
    ensures r == Some(GamePort) ==> p.sourcePort in ports || p.destinationPort in ports
  {
    if (p.inbound && p.source == peer) || (p.outbound && p.destination == peer) then Some(DirectPeer)
    else if (p.inbound && p.destinationPort in ports) || (p.outbound && p.sourcePort in ports) then Some(GamePort)
    else None
  }

  datatype Term =
    | SourceIs(address: string)
    | DestinationIs(address: string)
    | SourcePort(range: Range)
    | DestinationPort(range: Range)
  {
    predicate Holds(p: Packet) {
      match this
      case SourceIs(a) => p.source == a
      case DestinationIs(a) => p.destination == a
      case SourcePort(range) => range.Covers(p.sourcePort)
      case DestinationPort(range) => range.Covers(p.destinationPort)
    }
  }

  predicate Accepts(terms: seq<Term>, p: Packet) {
    p.udp && exists i :: 0 <= i < |terms| && terms[i].Holds(p)
  }

  /** How a peer address reads: not an address at all, or an address of a version. */
  datatype AddressKind = NotAnAddress | Version(version: nat)

  datatype Filter = InvalidPeer | NotVersion4 | BadPort(port: int) | Filter(terms: seq<Term>)

  method PortFilterTerms(ports: seq<int>) returns (r: Ranges, terms: seq<Term>)
    ensures r.Ranges? <==> forall p | p in ports :: ValidPort(p)
    ensures r.InvalidPort? ==> !ValidPort(r.port) && r.port in ports
    ensures r.Ranges? ==> forall p: Packet ::
              (exists i :: 0 <= i < |terms| && terms[i].Holds(p))
              <==> p.sourcePort in ports || p.destinationPort in ports
  {
    r := ContiguousPortRanges(ports);
    terms := [];
    if r.InvalidPort? {
      return;
    }
    for i := 0 to |r.ranges|
      invariant |terms| == 2 * i
      invariant forall j | 0 <= j < i ::
                  terms[2 * j] == SourcePort(r.ranges[j]) && terms[2 * j + 1] == DestinationPort(r.ranges[j])
    {
      terms := terms + [SourcePort(r.ranges[i]), DestinationPort(r.ranges[i])];
    }
    forall p: Packet
      ensures (exists i :: 0 <= i < |terms| && terms[i].Holds(p))
              <==> p.sourcePort in ports || p.destinationPort in ports
    {
      TermsMeanPorts(r.ranges, terms, p);
      assert Covered(r.ranges, p.sourcePort) <==> p.sourcePort in ports;
      assert Covered(r.ranges, p.destinationPort) <==> p.destinationPort in ports;
    }
  }

  lemma TermsMeanPorts(ranges: seq<Range>, terms: seq<Term>, p: Packet)
    requires |terms| == 2 * |ranges|
    requires forall j | 0 <= j < |ranges| ::
               terms[2 * j] == SourcePort(ranges[j]) && terms[2 * j + 1] == DestinationPort(ranges[j])
    ensures (exists i :: 0 <= i < |terms| && terms[i].Holds(p))
            <==> Covered(ranges, p.sourcePort) || Covered(ranges, p.destinationPort)
  {
    if Covered(ranges, p.sourcePort) {
      var j :| 0 <= j < |ranges| && ranges[j].Covers(p.sourcePort);
      assert terms[2 * j].Holds(p);
    }
    if Covered(ranges, p.destinationPort) {
      var j :| 0 <= j < |ranges| && ranges[j].Covers(p.destinationPort);
      assert terms[2 * j + 1].Holds(p);
    }
    if i :| 0 <= i < |terms| && terms[i].Holds(p) {
      var j := i / 2;
      assert i == 2 * j || i == 2 * j + 1;
      assert ranges[j].Covers(p.sourcePort) || ranges[j].Covers(p.destinationPort);
    }
  }

  /**
   * The filter accepts a UDP packet exactly when an end is the peer or one of the ports, so everything that is
   * classified as game traffic passes it.
   */
  method PacketFilterForRoutes(peer: string, kind: AddressKind, ports: seq<int>) returns (f: Filter)
    ensures f.InvalidPeer? <==> kind.NotAnAddress?
    ensures f.NotVersion4? <==> kind.Version? && kind.version != 4
    ensures f.BadPort? ==> !ValidPort(f.port) && f.port in ports
    ensures f.Filter? <==> kind == Version(4) && forall p | p in ports :: ValidPort(p)
    ensures f.Filter? ==> forall p: Packet ::
              Accepts(f.terms, p)
              <==> p.udp
                   && (p.source == peer || p.destination == peer || p.sourcePort in ports || p.destinationPort in ports)
    ensures f.Filter? ==> forall p: Packet | p.udp && GameRoute(p, peer, ports).Some? :: Accepts(f.terms, p)
  {
    if kind.NotAnAddress? {
      return InvalidPeer;
    }
    if kind.version != 4 {
      return NotVersion4;
    }
    var r, portTerms := PortFilterTerms(ports);
    if r.InvalidPort? {
      return BadPort(r.port);
    }
    var terms := [SourceIs(peer), DestinationIs(peer)] + portTerms;
    forall p: Packet
      ensures Accepts(terms, p)
              <==> p.udp
                   && (p.source == peer || p.destination == peer || p.sourcePort in ports || p.destinationPort in ports)
    {
      TermsWithPeer(peer, portTerms, p);
    }
    return Filter(terms);
  }

  lemma TermsWithPeer(peer: string, portTerms: seq<Term>, p: Packet)
    ensures var terms := [SourceIs(peer), DestinationIs(peer)] + portTerms;
            (exists i :: 0 <= i < |terms| && terms[i].Holds(p))
            <==> p.source == peer || p.destination == peer
                 || exists i :: 0 <= i < |portTerms| && portTerms[i].Holds(p)
  {
    var terms := [SourceIs(peer), DestinationIs(peer)] + portTerms;
    assert terms[0].Holds(p) <==> p.source == peer;
    assert terms[1].Holds(p) <==> p.destination == peer;
    if i :| 0 <= i < |portTerms| && portTerms[i].Holds(p) {
      assert terms[i + 2].Holds(p);
    }
    if i :| 2 <= i < |terms| && terms[i].Holds(p) {
      assert portTerms[i - 2].Holds(p);
    }
  }
}
