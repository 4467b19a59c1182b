# POX learning switch, modelled in Dafny

This project models the decision logic of the `Tutorial` component of a POX
OpenFlow controller (`controller-based.py`). The component turns a switch
into an L2 learning switch. For every packet-in a switch sends to the
controller, it does this:

1. It ignores the packet if the frame was not parsed completely.
2. Otherwise it records the frame's source MAC address against the ingress
   port in `mac_to_port`.
3. It looks up the destination MAC in the same table.
   - If the destination is unknown, it floods the packet. This is a
     packet-out with one `output(OFPP_ALL)` action and priority 10.
   - If the destination is known, it installs an OpenFlow 1.0 flow-mod. The
     flow-mod matches exactly `dl_src`/`dl_dst`, has idle and hard timeouts
     of 30 and priority 40, has one output action to the learned port, and
     carries the packet-in's `buffer_id`.

`act_like_hub` is also modelled, although its only call is commented out
(controller-based.py:121).

Each handler is a pure function from `(table, event)` to `(table', optional
message)`. The message carries the datapath id of the switch it is sent back
to.

The controller has exactly **one** `mac_to_port` table. The component is
registered once, listens to every switch, and creates the table only in its
constructor. `_handle_ConnectionUp` only logs. So the model has a single
table that all switches share. `Trace.TableIsSharedBetweenSwitches` shows one
result of this: a host learned on one switch becomes a known destination on
every other switch. The class docstring (controller-based.py:40) says one
object is created per switch. The code does not do that, and the model
follows the code: there are no per-switch tables, no session registry, no
disconnect handling and no "unknown session" error.

Modules, one file each:

- `OpenFlow` (`openflow.dfy`): the parts of the OpenFlow Switch
  Specification 1.0.0 that are used here:
  - `Option`, for match fields that are fixed or wildcarded;
  - `ofp_port` numbers, including `OFPP_ALL = 0xfffc` (section 5.2.1);
  - `ofp_match`, with one optional field per match field, and its matching
    rule (section 5.2.3);
  - the output action;
  - the packet-in (section 5.4.1), flow-mod (section 5.3.3) and packet-out
    (section 5.3.6) messages, as abstract records;
  - `Egress`, the set of physical ports an output action delivers to.
- `MacTable` (`mac_table.dfy`): `mac_to_port` as `map<Mac, Port>`.
- `Tutorial` (`tutorial.dfy`): the handlers, one `Step` per event, and
  lemmas about a single event.
- `Trace` (`trace.dfy`): event streams, with a reference definition of what
  the table holds after any stream, and scenarios.

Integer widths follow OpenFlow 1.0 as subset types of `int`: ports,
timeouts and priorities are 16-bit, buffer ids 32-bit and datapath ids
64-bit. No arithmetic is done on them, so wrap-around never arises.

The code sets `msg.priority = 10` on the packet-out. Section 5.3.6 gives
`ofp_packet_out` no priority field, so that value never goes on the wire.
The model keeps it as an attribute of the message, because it is what the
code assigns.

A frame addressed to its own sender gets a rule whose output is its own
ingress port, because learning comes before lookup.
`Tutorial.HairpinRuleDeliversNothing` shows that such an action sends the
packet to no physical port (a switch only sends back out the input port
through `OFPP_IN_PORT`). This matches how a learning bridge normally treats
such frames, so it is not listed as a finding.

The flow-mod passes on the packet-in's `buffer_id` and is the only message
on that branch. If the switch did not buffer the packet (`buffer_id` is
`NO_BUFFER`, the -1 of section 5.4.1), no message delivers the packet that
triggered the rule. The model does what the code does here;
`Tutorial.UnbufferedPacketIsNotResent` states it.

## Model

| member | source | states |
|---|---|---|
| MacTable.Learn | controller-based.py:84 | After learning, the address maps to the given port. Every other address looks up exactly as before. The key set grows by that one address at most. |
| MacTable.LearnOverwrites | controller-based.py:84 | A second observation of the same address replaces the first. The repeat does not grow the table. |
| MacTable.LearnIdempotent | controller-based.py:84 | Learning the same (address, port) fact twice gives the same table as learning it once. |
| OpenFlow.Egress | controller-based.py:103-105 | `output(OFPP_ALL)` reaches every physical port except the ingress port. A physical-port output reaches that one port only when it is not the ingress port. |
| Tutorial.ExactL2Match | controller-based.py:90-93 | The match fixes `dl_src` and `dl_dst`. A packet matches it exactly when both addresses agree, whatever its other header fields are. |
| Tutorial.ResendPacket | controller-based.py:53-67 | The result is a packet-out to the event's switch. Its data is the original packet-in, its priority is 10, and it has one output action to the requested port. |
| Tutorial.ActLikeHub | controller-based.py:70-76 | Flooding sends the packet-in back to its switch with one `OFPP_ALL` output action. That action reaches every physical port except the ingress port. |
| Tutorial.ActLikeSwitch | controller-based.py:80-105 | The source is learned at the ingress port and nothing else in the table changes. Exactly one message goes back to the event's switch. It is a flow-mod exactly when the destination was already known or equals the source; otherwise it is the flood packet-out. The flow-mod matches only (src, dst), has timeouts 30/30 and priority 40, outputs to the destination's port (the ingress port when dst = src), and carries the packet-in's buffer id. |
| Tutorial.HandlePacketIn | controller-based.py:110-122 | An incomplete packet leaves the table unchanged and sends nothing. A complete one is handled by `act_like_switch`. |
| Tutorial.HandleConnectionUp | controller-based.py:125-126 | A connecting switch changes no state, gets no table of its own and is sent nothing. |
| Tutorial.Step | controller-based.py:110-126 | Something is sent exactly for complete packet-ins, and always to the switch that raised the event. Any other event leaves the table unchanged. |
| Tutorial.LearnBeforeLookup | controller-based.py:84-88 | A frame whose destination is its own source always installs a rule that outputs to the ingress port, even if the source was unknown before. |
| Tutorial.HairpinRuleDeliversNothing | controller-based.py:84-98 | On a physical ingress port, that rule's output action delivers the packet to no port. |
| Tutorial.RepeatedPacketInIsIdempotent | controller-based.py:84-105 | Handling the same packet-in twice gives the same table and the same message as handling it once. |
| Tutorial.FlowPriorityAboveFlood | controller-based.py:61-97 | Any installed rule's priority (40) is strictly greater than any flood packet-out's priority (10). |
| Tutorial.UnbufferedPacketIsNotResent | controller-based.py:87-100 | A packet-in with buffer id `NO_BUFFER` to a known destination gets only a flow-mod carrying `NO_BUFFER`. No packet-out is sent, so nothing delivers that packet. |
| Tutorial.UnknownDestinationActsLikeHub | controller-based.py:70-105 | For a complete packet-in, the switch sends exactly the hub's flood message if and only if the destination is neither known nor the source. |
| Trace.Run | controller-based.py:44-50 | One table, created once, is threaded through every event from every switch. There is one reaction slot per event, and no address is ever forgotten. |
| Trace.RunRemembersLastObservation | controller-based.py:84 | After any stream, an address maps to the ingress port of its last complete packet-in. An address with none keeps its initial entry. Nothing is aged out. |
| Trace.RunSentIsStepAfterPrefix | controller-based.py:110-122 | The reaction to the i-th event is that event's handler applied to the table left by the first i events. |
| Trace.AnswerPerCompletePacket | controller-based.py:110-122 | Each complete packet-in gets exactly one message, addressed to its own switch. Connection-ups and incomplete packets get none. |
| Trace.OnlyCompletePacketsMatter | controller-based.py:110-126 | Removing connection-ups and incomplete packets from a stream changes neither the final table nor the sequence of messages sent. |
| Trace.TableIsSharedBetweenSwitches | controller-based.py:44-50 | A host learned on one switch is a known destination on any other switch. The rule installed there outputs to the port number the host was seen on at the first switch. |
| Trace.TwoHostConversation | controller-based.py:80-105 | Scenario with A on port 1, then B on port 2, then A again. The first packet floods, the reply installs B->A out of port 1, the next packet installs A->B out of port 2, and the table ends as {A: 1, B: 2}. |

## Left out

- POX event plumbing (`EventMixin`, `listenTo`, `addListeners`, `core.registerNew`): this is framework dispatch. `Step` stands for it.
- `launch`, `pox.openflow.discovery.launch()` and the discovery subscription: these are bootstrap and an external service. The code has no filtering of its own for discovery traffic.
- Logging and `dpid_to_str`: they have side effects only.
- Wire encoding of `ofp_packet_out` / `ofp_flow_mod` and `event.connection.send`: messages are abstract records, and "sending" means returning the message with its destination datapath id.
- Frame parsing (`event.parsed`): the parsed flag and the source and destination addresses are inputs. The ingress port and buffer id come from the packet-in record.
- Library defaults of `ofp_flow_mod` that the code never sets (command ADD, cookie, flags, `out_port`): the POX library supplies them, not this component.
- How the POX library fills a packet-out's `buffer_id`, `in_port` or raw bytes from the packet-in it is given: the model keeps the whole packet-in as the packet-out's data, which is what the code assigns.
- OpenFlow.Egress: it covers physical ports and `OFPP_ALL` only. A rule can output to a learned reserved ingress port such as `OFPP_LOCAL`, and that case is outside `Egress`.
- OpenFlow.Matches: it treats each field as either exact or wildcarded. It does not model the CIDR prefix wildcards of `nw_src`/`nw_dst`, which this controller never uses.
- Switch-side behaviour (rule expiry after the timeouts, priority ordering of rules): the switch enforces it. Because of expiry, a table entry can outlive the rule it was used for.
- Concurrency: events are modelled as one sequential stream, as the single-threaded POX dispatcher delivers them.
