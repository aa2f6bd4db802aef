/** Which packets count as game traffic, and what a building command in them becomes. */
module HostTraffic {
  import opened Basics
  import opened PythonBytes
  import opened PortFilter
  import opened CarrierRewrite
  import opened CarrierReadBack
  import opened CarrierResults
  import opened CarrierFound
  import opened HostInterceptor

  // ---------------------------------------------------------------------------------------------
  // Ends of a packet

  function RemoteAddress(p: Packet): string {
    if p.inbound then p.source else p.destination
  }

  function LocalPort(p: Packet): int {
    if p.inbound then p.destinationPort else p.sourcePort
  }

  /** It comes from or goes to the peer, or it uses one of the game's own ports. */
  predicate Game(p: Packet, peer: string, ports: seq<int>) {
    RemoteAddress(p) == peer || LocalPort(p) in ports
  }

  /** A packet that moves in one direction counts by its remote address and its local port; the peer comes first. */
  lemma TrafficIff(p: Packet, peer: string, ports: seq<int>)
    requires p.inbound != p.outbound
    ensures GameInbound(p, peer, ports) <==> p.inbound && Game(p, peer, ports)
    ensures GameOutbound(p, peer, ports) <==> p.outbound && Game(p, peer, ports)
    ensures GameRoute(p, peer, ports)
            == if RemoteAddress(p) == peer then Some(DirectPeer)
               else if LocalPort(p) in ports then Some(GamePort) else None
  {
  }

  /** What answers a packet: the same ends the other way round. */
  function Reply(p: Packet, payload: seq<byte>): Packet {
    Packet(p.udp, p.destination, p.source, p.destinationPort, p.sourcePort, p.outbound, p.inbound, payload)
  }

  lemma RepliesAreGameTraffic(p: Packet, payload: seq<byte>, peer: string, ports: seq<int>)
    ensures GameOutbound(Reply(p, payload), peer, ports) <==> GameInbound(p, peer, ports)
    ensures GameRoute(Reply(p, payload), peer, ports) == GameRoute(p, peer, ports)
  {
  }

  // ---------------------------------------------------------------------------------------------
  // Carriers and confirmations

  /** A game packet towards the host that names the source. */
  predicate NamesSource(c: Config, a: Arrival) {
    a.packet.inbound && Game(a.packet, c.peer, c.ports) && Contains(a.packet.payload, c.carrier)
  }

  /** A game packet from the host that names the target. */
  predicate NamesTarget(c: Config, a: Arrival) {
    a.packet.outbound && Game(a.packet, c.peer, c.ports) && Contains(a.packet.payload, c.target)
  }

  predicate OneWay(arrivals: seq<Arrival>) {
    forall i | 0 <= i < |arrivals| :: arrivals[i].packet.inbound != arrivals[i].packet.outbound
  }

  lemma CarrierIff(c: Config, a: Arrival)
    requires a.packet.inbound != a.packet.outbound
    ensures IsCarrier(c, a) <==> NamesSource(c, a)
    ensures IsOutbound(c, a) && Contains(a.packet.payload, c.target) <==> NamesTarget(c, a)
  {
    TrafficIff(a.packet, c.peer, c.ports);
  }

  lemma FirstCarrierIff(c: Config, arrivals: seq<Arrival>, n: nat)
    requires OneWay(arrivals) && n <= |arrivals|
    ensures FirstCarrier(c, arrivals, n).Some? <==> exists k :: 0 <= k < n && NamesSource(c, arrivals[k])
  {
    forall k | 0 <= k < n ensures IsCarrier(c, arrivals[k]) <==> NamesSource(c, arrivals[k]) {
      CarrierIff(c, arrivals[k]);
    }
  }

  /** A packet confirms exactly when it names the target on its way out, behind a packet that named the source. */
  lemma ConfirmsIff(c: Config, arrivals: seq<Arrival>, i: nat)
    requires OneWay(arrivals) && i < |arrivals|
    ensures Confirms(c, arrivals, i)
            <==> NamesTarget(c, arrivals[i]) && exists k :: 0 <= k < i && NamesSource(c, arrivals[k])
  {
    hide NamesSource, NamesTarget;
    FirstCarrierIff(c, arrivals, i);
    CarrierIff(c, arrivals[i]);
  }

  // ---------------------------------------------------------------------------------------------
  // A building command on its way to the host

  /** The packet carries a zone-slot command that can be rewritten for the action. */
  ghost predicate CarriesZoneSlot(
    payload: seq<byte>, action: BuildAction, source: seq<byte>, record: CommandRecord, marker: nat)
  {
    && ZoneSlotAt(payload, source, record, marker) && StandsOnceSomewhere(payload, source)
    && ZoneSlotFits(action) && |action.buildingId| <= |source|
    && !SourceComesBack(RewriteZoneSlot(payload, action, source), action, source)
  }

  lemma BuildingRewriterWorks(
    payload: seq<byte>, action: BuildAction, source: seq<byte>, record: CommandRecord, marker: nat)
    requires 0 < |source| < 65536 && CarriesZoneSlot(payload, action, source, record, marker)
    ensures var r := RewriteZoneSlot(payload, action, source);
            && r.Rewritten? && BuildingRewriter(action, source)(payload) == Some(r.payload)
            && r.offset == record.offset && r.length == record.length
  {
    hide ZoneSlotAt, StandsOnceSomewhere, ZoneSlotFits, SourceComesBack, RewriteZoneSlot, RewriteCarrier;
    ZoneSlotCarrierIff(payload, action, source, record, marker);
  }

  /** A command with the fields of the action stands at a record's place. */
  predicate AsksFor(payload: seq<byte>, record: CommandRecord, action: BuildAction) {
    && 0 <= action.queue && 0 <= action.colony && 0 <= action.zone
    && ReadCommand(payload, record.offset, record.offset + record.length, ZONE_SLOT_COLONY_TAG, ZONE_SLOT_ZONE_TAG)
       == Some(BuildFields(action.queue, action.buildingId, action.colony, action.zone))
  }

  /**
   * The first packet that names the source, with a zone-slot command that can be rewritten: in a complete iteration
   * the host gets one packet of the same length, and its command asks for what the action says.
   */
  lemma HostGetsTheAction(
    c: Config, action: BuildAction, arrivals: seq<Arrival>, sent: seq<seq<seq<byte>>>, ending: Ending, i: nat,
    record: CommandRecord, marker: nat)
    requires 0 < |c.carrier| < 65536 && OneWay(arrivals) && i < |sent| <= |arrivals|
    requires WentOn(c, BuildingRewriter(action, c.carrier), arrivals, sent, |sent| - 1)
    requires EndsWith(c, BuildingRewriter(action, c.carrier), arrivals, |sent| - 1, ending, sent[|sent| - 1])
    requires NamesSource(c, arrivals[i]) && forall k | 0 <= k < i :: !NamesSource(c, arrivals[k])
    requires CarriesZoneSlot(arrivals[i].packet.payload, action, c.carrier, record, marker)
    requires !arrivals[i].stop && arrivals[i].sendWorks
    ensures |sent[i]| == 1 && |sent[i][0]| == |arrivals[i].packet.payload| && AsksFor(sent[i][0], record, action)
  {
    hide WentOn, EndsWith, CarriesZoneSlot, NamesSource, FirstCarrier, IsCarrier, BuildingRewriter, Contains, AsksFor, TimeIsUp, Confirms;
    var payload := arrivals[i].packet.payload;
    BuildingRewriterWorks(payload, action, c.carrier, record, marker);
    CarrierIff(c, arrivals[i]);
    FirstCarrierIff(c, arrivals, i);
    WhatWentOut(c, BuildingRewriter(action, c.carrier), arrivals, sent, ending, i);
    NotRaised(c, BuildingRewriter(action, c.carrier), arrivals, sent, ending, i);
    ZoneSlotAsks(payload, action, c.carrier, record);
  }

  /** A packet that is to be sent, can be rewritten and can be sent does not end the run with an exception. */
  lemma NotRaised(
    c: Config, rewrite: Rewriter, arrivals: seq<Arrival>, sent: seq<seq<seq<byte>>>, ending: Ending, i: nat)
    requires i < |sent| <= |arrivals| && !arrivals[i].stop && arrivals[i].sendWorks
    requires EndsWith(c, rewrite, arrivals, |sent| - 1, ending, sent[|sent| - 1])
    requires rewrite(arrivals[i].packet.payload).Some?
    ensures i == |sent| - 1 ==> !ending.Raised? && !ending.StoppedByOperator?
  {
    hide FirstCarrier, IsCarrier, Forwarded, Confirms, TimeIsUp;
  }

  lemma ZoneSlotAsks(payload: seq<byte>, action: BuildAction, source: seq<byte>, record: CommandRecord)
    requires RewriteZoneSlot(payload, action, source).Rewritten?
    requires RewriteZoneSlot(payload, action, source).offset == record.offset
    requires RewriteZoneSlot(payload, action, source).length == record.length
    ensures var r := RewriteZoneSlot(payload, action, source);
            |r.payload| == |payload| && AsksFor(r.payload, record, action)
  {
    hide RewriteZoneSlot, ReadCommand, FrameKept, At;
    var r := RewriteZoneSlot(payload, action, source);
    ZoneSlotReadsBack(payload, action, source, r);
    KeepsLength(payload, r);
  }
}
