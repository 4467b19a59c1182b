/** The component over a whole stream of events, in arrival order, starting
    from one table that all switches share. */
module Trace {
  import opened OpenFlow
  import opened MacTable
  import opened Tutorial

  /** The table after a stream of events, and what was sent in reaction to
      each event, position by position (None where nothing was sent). */
  datatype History = History(table: Table, sent: seq<Option<Send>>)

  /** Process `evs` one at a time, starting from table `t`. */
  function Run(t: Table, evs: seq<Event>): (h: History)
    ensures |h.sent| == |evs|
    ensures t.Keys <= h.table.Keys
    decreases |evs|
  {
    if evs == [] then History(t, [])
    else
      var before := Run(t, evs[..|evs| - 1]);
      var o := Step(before.table, evs[|evs| - 1]);
      History(o.table, before.sent + [o.sent])
  }

  /** Reference definition of learning: the ingress port of the last complete
      packet-in whose source is `m`, if there is one. */
  function LastPort(evs: seq<Event>, m: Mac): Option<Port>
    decreases |evs|
  {
    if evs == [] then None
    else
      var e := evs[|evs| - 1];
      if Learns(e) && e.ev.packet.src == m then Some(e.ev.Port())
      else LastPort(evs[..|evs| - 1], m)
  }

  /** After any stream, an address maps to the port of its last complete
      packet-in; an address that never sent one keeps its initial entry (or
      stays absent). Nothing is ever aged out. */
  lemma {:induction false} RunRemembersLastObservation(t: Table, evs: seq<Event>, m: Mac)
    ensures LastPort(evs, m).Some? ==> Lookup(Run(t, evs).table, m) == LastPort(evs, m)
    ensures LastPort(evs, m).None? ==> Lookup(Run(t, evs).table, m) == Lookup(t, m)
    decreases |evs|
  {
    if evs != [] {
      RunRemembersLastObservation(t, evs[..|evs| - 1], m);
    }
  }

  /** What is sent for the i-th event is what that event's handler sends
      given the table the first i events produced. */
  lemma {:induction false} RunSentIsStepAfterPrefix(t: Table, evs: seq<Event>, i: nat)
    requires i < |evs|
    ensures Run(t, evs).sent[i] == Step(Run(t, evs[..i]).table, evs[i]).sent
    decreases |evs|
  {
    var n := |evs| - 1;
    if i < n {
      RunSentIsStepAfterPrefix(t, evs[..n], i);
      assert evs[..n][..i] == evs[..i];
    } else {
      assert evs[..i] == evs[..n];
    }
  }

  /** Exactly one message answers each complete packet-in, and it goes to the
      switch that raised it; connection-ups and incomplete packets get none. */
  lemma AnswerPerCompletePacket(t: Table, evs: seq<Event>, i: nat)
    requires i < |evs|
    ensures Run(t, evs).sent[i].Some? <==> Learns(evs[i])
    ensures Run(t, evs).sent[i].Some? ==> Run(t, evs).sent[i].value.dpid == evs[i].ev.dpid
  {
    RunSentIsStepAfterPrefix(t, evs, i);
  }

  /** The complete packet-ins of a stream, in order. */
  function CompletePackets(evs: seq<Event>): (ps: seq<Event>)
    ensures forall i :: 0 <= i < |ps| ==> Learns(ps[i])
    ensures |ps| <= |evs|
    decreases |evs|
  {
    if evs == [] then []
    else
      var e := evs[|evs| - 1];
      CompletePackets(evs[..|evs| - 1]) + (if Learns(e) then [e] else [])
  }

  /** The messages actually sent, in order. */
  function Delivered(sent: seq<Option<Send>>): seq<Send>
    decreases |sent|
  {
    if sent == [] then []
    else
      var o := sent[|sent| - 1];
      Delivered(sent[..|sent| - 1]) + (if o.Some? then [o.value] else [])
  }

  /** Connection-ups and incomplete packets are invisible: dropping them from
      a stream changes neither the final table nor the messages sent. */
  lemma {:induction false} OnlyCompletePacketsMatter(t: Table, evs: seq<Event>)
    ensures Run(t, CompletePackets(evs)).table == Run(t, evs).table
    ensures Delivered(Run(t, CompletePackets(evs)).sent) == Delivered(Run(t, evs).sent)
    decreases |evs|
  {
    if evs != [] {
      var n := |evs| - 1;
      var prefix, e := evs[..n], evs[n];
      OnlyCompletePacketsMatter(t, prefix);
      var full := Run(t, evs);
      var before := Run(t, prefix);
      assert full.sent == before.sent + [Step(before.table, e).sent];
      assert full.sent[..n] == before.sent;
      if Learns(e) {
        var kept := CompletePackets(prefix);
        assert CompletePackets(evs) == kept + [e];
        assert (kept + [e])[..|kept|] == kept;
        var keptRun := Run(t, kept);
        var s := keptRun.sent + [Step(keptRun.table, e).sent];
        assert s[..|keptRun.sent|] == keptRun.sent;
        assert Run(t, kept + [e]) == History(Step(keptRun.table, e).table, s);
      } else {
        assert CompletePackets(evs) == CompletePackets(prefix);
        assert Step(before.table, e).table == before.table;
        assert full.table == before.table;
      }
    }
  }

  /** The table is controller-wide: a host learned through one switch is a
      known destination for every other switch, and the rule installed there
      forwards to the port number it was seen on at the first switch. */
  lemma TableIsSharedBetweenSwitches(t: Table, first: PacketInEvent, second: PacketInEvent)
    requires first.packet.parsed && second.packet.parsed
    requires second.packet.dst == first.packet.src && second.packet.src != first.packet.src
    ensures var after := HandlePacketIn(t, first).table;
      var o := HandlePacketIn(after, second).sent.value;
      && o.dpid == second.dpid
      && o.msg.FlowModMsg?
      && o.msg.flowMod.actions == [Output(first.Port())]
  {
  }

  /** A complete packet-in from `src` to `dst` on port `port` of switch `dpid`. */
  function Packet(dpid: Dpid, src: Mac, dst: Mac, port: Port, bufferId: uint32): Event {
    PacketInArrived(PacketInEvent(dpid, Ethernet(true, src, dst), PacketIn(bufferId, port, NoMatch, [])))
  }

  /** Two hosts on one switch: A (port 1) talks to B (port 2), B answers, A
      sends again. The first packet is flooded, the answer installs B->A out
      of port 1, and the second packet installs A->B out of port 2. */
  lemma TwoHostConversation()
    ensures
      var a, b: Mac := [0, 0, 0, 0, 0, 1], [0, 0, 0, 0, 0, 2];
      var e1, e2, e3 := Packet(7, a, b, 1, 100), Packet(7, b, a, 2, 101), Packet(7, a, b, 1, 102);
      var r0 := Step(Empty, ConnectionUp(7));
      var r1 := Step(r0.table, e1);
      var r2 := Step(r1.table, e2);
      var r3 := Step(r2.table, e3);
      && r0.table == Empty && r0.sent.None?
      && r1.table == map[a := 1]
      && r1.sent.value.msg.PacketOutMsg? && IsFloodFor(r1.sent.value.msg.packetOut, e1.ev)
      && r2.table == map[a := 1, b := 2]
      && r2.sent.value.msg.FlowModMsg? && IsFlowRuleFor(r2.sent.value.msg.flowMod, e2.ev, 1)
      && r3.table == map[a := 1, b := 2]
      && r3.sent.value.msg.FlowModMsg? && IsFlowRuleFor(r3.sent.value.msg.flowMod, e3.ev, 2)
  {
  }
}
