/** The controller's `mac_to_port` dictionary: which switch port each Ethernet
    address was last seen on. There is exactly one such table for the whole
    controller, shared by every switch it controls. */
module MacTable {
  import opened OpenFlow

  type Table = map<Mac, Port>

  /** The table as the controller starts with it. */
  const Empty: Table := map[]

  /** `mac in mac_to_port` / `mac_to_port[mac]`. */
  function Lookup(t: Table, mac: Mac): Option<Port> {
    if mac in t then Some(t[mac]) else None
  }

  /** `mac_to_port[mac] = port`: afterwards `mac` maps to `port`, every other
      address maps to what it mapped to before, and no address is forgotten. */
  function Learn(t: Table, mac: Mac, port: Port): (t': Table)
    ensures Lookup(t', mac) == Some(port)
    ensures forall m :: m != mac ==> Lookup(t', m) == Lookup(t, m)
    ensures t'.Keys == t.Keys + {mac}
  {
    t[mac := port]
  }

  /** A later observation replaces an earlier one for the same address. */
  lemma LearnOverwrites(t: Table, mac: Mac, p1: Port, p2: Port)
    ensures Learn(Learn(t, mac, p1), mac, p2) == Learn(t, mac, p2)
    ensures |Learn(Learn(t, mac, p1), mac, p2)| == |Learn(t, mac, p1)|
  {
  }

  /** Learning the same fact twice is the same as learning it once. */
  lemma LearnIdempotent(t: Table, mac: Mac, port: Port)
    ensures Learn(Learn(t, mac, port), mac, port) == Learn(t, mac, port)
  {
    LearnOverwrites(t, mac, port, port);
  }
}
