/** The slice of the OpenFlow Switch Specification 1.0.0 that the learning switch
    uses: port numbers (section 5.2.1), the flow match (section 5.2.3), the
    output action, and the packet-in (section 5.4.1), flow-mod (section 5.3.3)
    and packet-out (section 5.3.6) messages, kept abstract (no wire layout). */
module OpenFlow {

  /** A match field that is fixed to a value or wildcarded; also the
      controller's optional reaction to an event. */
  datatype Option<+T> = None | Some(value: T)

  type uint8 = x: int | 0 <= x < 0x100
  type uint16 = x: int | 0 <= x < 0x1_0000
  type uint32 = x: int | 0 <= x < 0x1_0000_0000
  type uint64 = x: int | 0 <= x < 0x1_0000_0000_0000_0000

  /** A 48-bit Ethernet address as its six bytes. */
  type Mac = s: seq<uint8> | |s| == 6 witness [0, 0, 0, 0, 0, 0]

  /** A switch port number (`uint16_t` in section 5.2.1). */
  type Port = uint16

  /** A datapath identifier: the 64-bit name of one switch. */
  type Dpid = uint64

  /** Highest number of a physical port; the numbers above it are reserved. */
  const OFPP_MAX: Port := 0xff00
  /** Reserved port: all physical ports except the input port. */
  const OFPP_ALL: Port := 0xfffc

  predicate IsPhysical(p: Port) {
    1 <= p <= OFPP_MAX
  }

  /** An `ofp_match`: each field is either fixed to a value (Some) or
      wildcarded (None). */
  datatype Match = Match(
    inPort: Option<Port>,
    dlSrc: Option<Mac>,
    dlDst: Option<Mac>,
    dlVlan: Option<uint16>,
    dlVlanPcp: Option<uint8>,
    dlType: Option<uint16>,
    nwTos: Option<uint8>,
    nwProto: Option<uint8>,
    nwSrc: Option<uint32>,
    nwDst: Option<uint32>,
    tpSrc: Option<uint16>,
    tpDst: Option<uint16>)

  /** The match that wildcards every field, as a freshly built `ofp_match` is. */
  const MatchAll: Match :=
    Match(None, None, None, None, None, None, None, None, None, None, None, None)

  /** The header fields of one packet that a flow match is compared against. */
  datatype Header = Header(
    inPort: Port,
    dlSrc: Mac,
    dlDst: Mac,
    dlVlan: uint16,
    dlVlanPcp: uint8,
    dlType: uint16,
    nwTos: uint8,
    nwProto: uint8,
    nwSrc: uint32,
    nwDst: uint32,
    tpSrc: uint16,
    tpDst: uint16)

  predicate FieldMatches<T(==)>(field: Option<T>, v: T) {
    field.None? || field.value == v
  }

  /** A packet matches a flow entry when every non-wildcarded field agrees. */
  predicate Matches(m: Match, h: Header) {
    && FieldMatches(m.inPort, h.inPort)
    && FieldMatches(m.dlSrc, h.dlSrc)
    && FieldMatches(m.dlDst, h.dlDst)
    && FieldMatches(m.dlVlan, h.dlVlan)
    && FieldMatches(m.dlVlanPcp, h.dlVlanPcp)
    && FieldMatches(m.dlType, h.dlType)
    && FieldMatches(m.nwTos, h.nwTos)
    && FieldMatches(m.nwProto, h.nwProto)
    && FieldMatches(m.nwSrc, h.nwSrc)
    && FieldMatches(m.nwDst, h.nwDst)
    && FieldMatches(m.tpSrc, h.tpSrc)
    && FieldMatches(m.tpDst, h.tpDst)
  }

  /** `ofp_action_output`: forward to a port (physical or reserved). */
  datatype Action = Output(port: Port)

  /** The physical ports an output action delivers a packet to, for a packet
      that came in on `inPort` of a switch whose physical ports are `ports`.
      Covered are physical ports and `OFPP_ALL`; the other reserved ports
      (such as `OFPP_LOCAL`, which can be learned as an ingress port) are not. */
  function Egress(a: Action, inPort: Port, ports: set<Port>): (out: set<Port>)
    requires IsPhysical(a.port) || a.port == OFPP_ALL
    ensures out <= ports
    ensures a.port == OFPP_ALL ==> out == ports - {inPort}
    ensures IsPhysical(a.port) ==> (out == {a.port} <==> a.port in ports && a.port != inPort)
    ensures IsPhysical(a.port) ==> (out == {} <==> a.port !in ports || a.port == inPort)
  {
    if a.port == OFPP_ALL then ports - {inPort}
    else if a.port in ports && a.port != inPort then {a.port}
    else {}
  }

  /** Why a switch sent a packet to the controller. */
  datatype PacketInReason = NoMatch | ActionToController

  /** Buffer id meaning "not buffered on the switch" (-1 in section 5.4.1). */
  const NO_BUFFER: uint32 := 0xffff_ffff

  /** `ofp_packet_in`: a packet the switch could not match, with the id of
      the switch-side buffer holding it (or NO_BUFFER). */
  datatype PacketIn = PacketIn(
    bufferId: uint32,
    inPort: Port,
    reason: PacketInReason,
    data: seq<uint8>)

  /** `ofp_flow_mod` as this controller fills it in. */
  datatype FlowMod = FlowMod(
    flowMatch: Match,
    idleTimeout: uint16,
    hardTimeout: uint16,
    priority: uint16,
    bufferId: uint32,
    actions: seq<Action>)

  /** `ofp_packet_out` carrying an earlier packet-in as its data.
      `priority` is the attribute the controller assigns on the message
      object; section 5.3.6 gives packet-out no priority on the wire. */
  datatype PacketOut = PacketOut(
    data: PacketIn,
    priority: uint16,
    actions: seq<Action>)

  datatype Message =
    | FlowModMsg(flowMod: FlowMod)
    | PacketOutMsg(packetOut: PacketOut)
}
