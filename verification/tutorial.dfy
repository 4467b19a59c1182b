/** The `Tutorial` component: one controller-wide learning switch. Each handler
    is a pure step from the current `mac_to_port` table and one event to the
    next table and the message (if any) sent back to the switch that raised
    the event. */
module Tutorial {
  import opened OpenFlow
  import opened MacTable

  /** Priority the flood path puts on its packet-out. */
  const FLOOD_PRIORITY: uint16 := 10
  /** Priority, idle and hard timeouts of an installed forwarding rule. */
  const FLOW_PRIORITY: uint16 := 40
  const FLOW_IDLE_TIMEOUT: uint16 := 30
  const FLOW_HARD_TIMEOUT: uint16 := 30

  /** The parsed Ethernet frame of a packet-in (`event.parsed`); `parsed` is
      false when the frame could not be decoded completely. */
  datatype Ethernet = Ethernet(parsed: bool, src: Mac, dst: Mac)

  /** A PacketIn event: the switch that raised it, its parsed frame and the
      raw `ofp_packet_in` (`event.ofp`). */
  datatype PacketInEvent = PacketInEvent(dpid: Dpid, packet: Ethernet, ofp: PacketIn) {
    /** `event.port`: the ingress port, which is the packet-in's `in_port`. */
    function Port(): Port {
      ofp.inPort
    }
  }

  /** The events the component handles. */
  datatype Event =
    | ConnectionUp(dpid: Dpid)
    | PacketInArrived(ev: PacketInEvent)

  /** `event.connection.send(msg)`: a message addressed to one switch. */
  datatype Send = Send(dpid: Dpid, msg: Message)

  /** The table after an event, and what was sent in reaction to it. */
  datatype Outcome = Outcome(table: Table, sent: Option<Send>)

  /** The event makes the controller learn and answer: a complete packet-in. */
  predicate Learns(e: Event) {
    e.PacketInArrived? && e.ev.packet.parsed
  }

  /** `po` re-emits the packet of `ev` out of every port but the ingress one. */
  predicate IsFloodFor(po: PacketOut, ev: PacketInEvent) {
    && po.data == ev.ofp
    && po.priority == FLOOD_PRIORITY
    && po.actions == [Output(OFPP_ALL)]
  }

  /** `fm` installs a rule for exactly the flow of `ev` (its source and
      destination addresses, nothing else), lasting at most 30 time units,
      forwarding to `outPort`, and carrying the packet-in's buffer id (which
      releases the buffered packet through the new rule, unless the packet
      was not buffered). */
  ghost predicate IsFlowRuleFor(fm: FlowMod, ev: PacketInEvent, outPort: Port) {
    && fm.flowMatch.dlSrc == Some(ev.packet.src)
    && fm.flowMatch.dlDst == Some(ev.packet.dst)
    && (forall h :: Matches(fm.flowMatch, h) <==> h.dlSrc == ev.packet.src && h.dlDst == ev.packet.dst)
    && fm.idleTimeout == FLOW_IDLE_TIMEOUT
    && fm.hardTimeout == FLOW_HARD_TIMEOUT
    && fm.priority == FLOW_PRIORITY
    && fm.actions == [Output(outPort)]
    && fm.bufferId == ev.ofp.bufferId
  }

  /** A fresh `ofp_match` with only `dl_src` and `dl_dst` set: it matches a
      packet exactly when both addresses agree, whatever its other fields. */
  function ExactL2Match(src: Mac, dst: Mac): (m: Match)
    ensures m.dlSrc == Some(src) && m.dlDst == Some(dst)
    ensures forall h :: Matches(m, h) <==> h.dlSrc == src && h.dlDst == dst
  {
    MatchAll.(dlSrc := Some(src), dlDst := Some(dst))
  }

  /** `resend_packet`: a packet-out to the event's switch carrying the
      original packet-in, with one output action to `outPort`. */
  function ResendPacket(ev: PacketInEvent, outPort: Port): (o: Send)
    ensures o.dpid == ev.dpid && o.msg.PacketOutMsg?
    ensures o.msg.packetOut.data == ev.ofp
    ensures o.msg.packetOut.priority == FLOOD_PRIORITY
    ensures o.msg.packetOut.actions == [Output(outPort)]
  {
    Send(ev.dpid, PacketOutMsg(PacketOut(ev.ofp, FLOOD_PRIORITY, [Output(outPort)])))
  }

  /** `act_like_hub`: flood the packet; on a switch with physical ports
      `ports` it leaves by every one of them except the ingress port. */
  function ActLikeHub(ev: PacketInEvent): (o: Send)
    ensures o.dpid == ev.dpid && o.msg.PacketOutMsg?
    ensures IsFloodFor(o.msg.packetOut, ev)
    ensures forall ports :: Egress(o.msg.packetOut.actions[0], ev.Port(), ports) == ports - {ev.Port()}
  {
    ResendPacket(ev, OFPP_ALL)
  }

  /** `act_like_switch`: learn the source address at the ingress port, then
      look the destination up in the updated table. Stated against the table
      as it was BEFORE the event: the destination counts as known when it was
      already in the table or when it is the source itself, and in that case
      the rule forwards to the ingress port. */
  function ActLikeSwitch(table: Table, ev: PacketInEvent): (r: Outcome)
    ensures Lookup(r.table, ev.packet.src) == Some(ev.Port())
    ensures forall m :: m != ev.packet.src ==> Lookup(r.table, m) == Lookup(table, m)
    ensures r.sent.Some? && r.sent.value.dpid == ev.dpid
    ensures r.sent.value.msg.FlowModMsg? <==> ev.packet.dst == ev.packet.src || ev.packet.dst in table
    ensures r.sent.value.msg.FlowModMsg? ==>
              IsFlowRuleFor(r.sent.value.msg.flowMod, ev,
                            if ev.packet.dst == ev.packet.src then ev.Port() else table[ev.packet.dst])
    ensures r.sent.value.msg.PacketOutMsg? ==> IsFloodFor(r.sent.value.msg.packetOut, ev)
  {
    var learned := Learn(table, ev.packet.src, ev.Port());
    match Lookup(learned, ev.packet.dst)
    case Some(outPort) =>
      var fm := FlowMod(ExactL2Match(ev.packet.src, ev.packet.dst),
                        FLOW_IDLE_TIMEOUT, FLOW_HARD_TIMEOUT, FLOW_PRIORITY,
                        ev.ofp.bufferId, [Output(outPort)]);
      Outcome(learned, Some(Send(ev.dpid, FlowModMsg(fm))))
    case None =>
      Outcome(learned, Some(ResendPacket(ev, OFPP_ALL)))
  }

  /** `_handle_PacketIn`: an incomplete packet is ignored (no state change,
      nothing sent); a complete one goes through `act_like_switch`. */
  function HandlePacketIn(table: Table, ev: PacketInEvent): (r: Outcome)
    ensures !ev.packet.parsed ==> r.table == table && r.sent.None?
    ensures ev.packet.parsed ==> r == ActLikeSwitch(table, ev)
  {
    if !ev.packet.parsed then Outcome(table, None)
    else ActLikeSwitch(table, ev)
  }

  /** `_handle_ConnectionUp`: a new switch changes nothing and is sent
      nothing; in particular it gets no table of its own. */
  function HandleConnectionUp(table: Table, dpid: Dpid): (r: Outcome)
    ensures r.table == table && r.sent.None?
  {
    Outcome(table, None)
  }

  /** One event, dispatched to its handler. */
  function Step(table: Table, e: Event): (r: Outcome)
    ensures r.sent.Some? <==> Learns(e)
    ensures !Learns(e) ==> r.table == table
    ensures r.sent.Some? ==> r.sent.value.dpid == e.ev.dpid
  {
    match e
    case ConnectionUp(dpid) => HandleConnectionUp(table, dpid)
    case PacketInArrived(ev) => HandlePacketIn(table, ev)
  }

  /** Learning happens before the lookup: a frame addressed to its own sender
      always installs a rule, forwarding back to the ingress port, even when
      the sender was unknown until this packet. */
  lemma LearnBeforeLookup(table: Table, ev: PacketInEvent)
    requires ev.packet.parsed && ev.packet.dst == ev.packet.src
    ensures var r := HandlePacketIn(table, ev);
      && r.sent.Some? && r.sent.value.msg.FlowModMsg?
      && r.sent.value.msg.flowMod.actions == [Output(ev.Port())]
  {
  }

  /** Such a hairpin rule sends the packet nowhere: a switch does not output
      a packet to its own ingress port through a plain physical-port action. */
  lemma HairpinRuleDeliversNothing(table: Table, ev: PacketInEvent, ports: set<Port>)
    requires ev.packet.parsed && ev.packet.dst == ev.packet.src && IsPhysical(ev.Port())
    ensures var fm := HandlePacketIn(table, ev).sent.value.msg.flowMod;
      Egress(fm.actions[0], ev.Port(), ports) == {}
  {
  }

  /** A packet-in delivered twice (a switch re-sending it) gets the same
      answer the second time and leaves the table as the first delivery did. */
  lemma RepeatedPacketInIsIdempotent(table: Table, ev: PacketInEvent)
    ensures var once := HandlePacketIn(table, ev);
      HandlePacketIn(once.table, ev) == once
  {
    if ev.packet.parsed {
      LearnIdempotent(table, ev.packet.src, ev.Port());
    }
  }

  /** The priority the code gives an installed rule (40) exceeds the one it
      assigns to the flood packet-out (10). */
  lemma FlowPriorityAboveFlood(t1: Table, e1: PacketInEvent, t2: Table, e2: PacketInEvent)
    requires e1.packet.parsed && e2.packet.parsed
    requires HandlePacketIn(t1, e1).sent.value.msg.FlowModMsg?
    requires HandlePacketIn(t2, e2).sent.value.msg.PacketOutMsg?
    ensures HandlePacketIn(t1, e1).sent.value.msg.flowMod.priority
            > HandlePacketIn(t2, e2).sent.value.msg.packetOut.priority
  {
  }

  /** For a destination never seen, the switch behaves exactly like the hub. */
  lemma UnknownDestinationActsLikeHub(table: Table, ev: PacketInEvent)
    requires ev.packet.parsed
    ensures (ev.packet.dst != ev.packet.src && ev.packet.dst !in table)
            <==> HandlePacketIn(table, ev).sent == Some(ActLikeHub(ev))
  {
  }

  /** A packet-in that the switch did not buffer, to a known destination, is
      answered by the flow-mod alone: the flow-mod carries NO_BUFFER and no
      packet-out is sent, so nothing delivers that packet itself. */
  lemma UnbufferedPacketIsNotResent(table: Table, ev: PacketInEvent)
    requires ev.packet.parsed && ev.ofp.bufferId == NO_BUFFER
    requires ev.packet.dst == ev.packet.src || ev.packet.dst in table
    ensures var r := HandlePacketIn(table, ev);
      && r.sent.Some?
      && !r.sent.value.msg.PacketOutMsg?
      && r.sent.value.msg.flowMod.bufferId == NO_BUFFER
  {
  }
}
