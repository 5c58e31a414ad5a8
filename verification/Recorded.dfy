/** What an object that ended Ready shows of the device: its operational state and its LLDP neighbour by field. */
module Recorded {
  import opened Text
  import opened Redis
  import opened AgentSet
  import opened InterfaceNames
  import R = Reconcile
  import opened Reconcile

  /** A field of APPL_DB; the empty text when it is absent. */
  function ApplField(appl: Store, key: string, field: string): string {
    if key in appl && field in appl[key] then appl[key][field] else ""
  }

  /** The port is operationally up. */
  predicate LinkUp(appl: Store, port: string) {
    ApplField(appl, "PORT_TABLE:" + port, "oper_status") == "up"
  }

  /** A field of the port's LLDP entry. */
  function Lldp(appl: Store, port: string, field: string): string {
    ApplField(appl, "LLDP_ENTRY_TABLE:" + port, field)
  }

  /** The neighbour as the LLDP entry gives it: chassis id as MAC address, system name, and as handle the port
      description turned into an abstract name, or the port id where there is no description. Without chassis id or
      system name there is none. */
  predicate Reports(appl: Store, port: string, found: Option<Neighbor>) {
    var chassis, system := Lldp(appl, port, "lldp_rem_chassis_id"), Lldp(appl, port, "lldp_rem_sys_name");
    var desc := Lldp(appl, port, "lldp_rem_port_desc");
    && (found.Some? <==> chassis != "" && system != "")
    && (found.Some? ==> found.value.mac == chassis && found.value.system == system)
    && (found.Some? && desc == "" ==> found.value.handle == Lldp(appl, port, "lldp_rem_port_id"))
    && (found.Some? && desc != "" ==> NativeToAbstract(desc) == Some(found.value.handle))
  }

  lemma ReadNeighborReports(appl: Store, port: string)
    ensures ReadNeighbor(appl, port).Some? ==> Reports(appl, port, ReadNeighbor(appl, port).value)
    ensures "LLDP_ENTRY_TABLE:" + port !in appl ==> Reports(appl, port, None)
  {
    hide NativeToAbstract;
  }

  // ---------- the invariant ----------

  /** A status says up only of a port that is up; when it could not be read it counts as down. */
  predicate OperTrue(appl: Store, port: string, oper: string) {
    oper == "down" || (oper == "up" && LinkUp(appl, port))
  }

  predicate OperShown(appl: Store, c: Ctl) {
    && WritePort(c.spec).Some?
    && (c.status.oper == "Up" || c.status.oper == "Down")
    && (c.status.oper == "Up" ==> LinkUp(appl, WritePort(c.spec).value))
  }

  /** What is recorded, and what is about to be, is what APPL_DB says. */
  predicate ShowsDevice(dev: Device, c: Ctl) {
    match c.pc
    case Setting(call) => OperTrue(dev.appl, call.port, call.oper)
    case NeighConnect => OperShown(dev.appl, c)
    case NeighExists => OperShown(dev.appl, c)
    case NeighRead => OperShown(dev.appl, c)
    case NeighReturn(found) => OperShown(dev.appl, c) && Reports(dev.appl, WritePort(c.spec).value, found)
    case Patch(_) => c.status.state == "Ready" ==> OperShown(dev.appl, c) && NeighborShown(dev.appl, c)
    case _ => true
  }

  predicate NeighborShown(appl: Store, c: Ctl)
    requires WritePort(c.spec).Some?
  {
    var n := c.status.neighbor;
    Reports(appl, WritePort(c.spec).value, if n == Neighbor("", "", "") then None else Some(n))
  }

  lemma StepOperTrue(dev: Device, call: Call, r: Reply)
    requires OperTrue(dev.appl, call.port, call.oper)
    ensures OperTrue(Step(dev, call, r).0.appl, Step(dev, call, r).1.port, Step(dev, call, r).1.oper)
    ensures Step(dev, call, r).0.appl == dev.appl
  {
    hide Put, HasField, PortKey, FieldName;
  }

  lemma SettingShows(w: World, r: Reply)
    requires w.ctl.pc.Setting? && ShowsDevice(w.dev, w.ctl) && CtlInv(w.dev, w.ctl)
    ensures ShowsDevice(CtlStep(w, r).dev, CtlStep(w, r).ctl)
  {
    hide Step, LinkUp, Reports, PortKey, Has, CallInv, ReadPort, WritePort;
    StepOperTrue(w.dev, w.ctl.pc.call, r);
  }

  lemma NeighborShows(w: World, r: Reply)
    requires w.ctl.pc.NeighExists? || w.ctl.pc.NeighRead? || w.ctl.pc.NeighReturn?
    requires ShowsDevice(w.dev, w.ctl)
    ensures ShowsDevice(CtlStep(w, r).dev, CtlStep(w, r).ctl)
  {
    hide LinkUp, Lldp, ResolvePort, ReadNeighbor, NativeToAbstract;
    if WritePort(w.ctl.spec).Some? {
      ReadNeighborReports(w.dev.appl, WritePort(w.ctl.spec).value);
    }
  }

  lemma OtherShows(w: World, r: Reply)
    requires !w.ctl.pc.Setting? && !w.ctl.pc.NeighExists? && !w.ctl.pc.NeighRead? && !w.ctl.pc.NeighReturn?
    requires ShowsDevice(w.dev, w.ctl) && CtlInv(w.dev, w.ctl)
    ensures ShowsDevice(CtlStep(w, r).dev, CtlStep(w, r).ctl)
  {
    hide LinkUp, Reports, PortKey, HasField, Lookup, ReadPort, WritePort, Oper, AdminOf, ToApi, ToDevice, Achieved;
  }

  lemma NextShows(w: World, e: Event)
    requires ShowsDevice(w.dev, w.ctl) && CtlInv(w.dev, w.ctl)
    ensures ShowsDevice(Next(w, e).dev, Next(w, e).ctl)
  {
    hide CtlStep, CtlInv, LinkUp, Reports;
    if e.Controller? {
      if w.ctl.pc.Setting? {
        SettingShows(w, e.reply);
      } else if w.ctl.pc.NeighExists? || w.ctl.pc.NeighRead? || w.ctl.pc.NeighReturn? {
        NeighborShows(w, e.reply);
      } else {
        OtherShows(w, e.reply);
      }
    }
  }

  lemma {:induction false} ShowsOverRuns(w: World, es: seq<Event>)
    requires w.ctl.pc.Idle?
    ensures ShowsDevice(R.Run(w, es).dev, R.Run(w, es).ctl) && R.Run(w, es).dev.appl == w.dev.appl
  {
    hide Next, CtlInv, ShowsDevice;
    if es == [] {
      IdleShows(w);
    } else {
      var init, e := es[..|es| - 1], es[|es| - 1];
      ShowsOverRuns(w, init);
      CtlInvOverRuns(w, init);
      NextShows(R.Run(w, init), e);
      ApplStays(R.Run(w, init), e);
    }
  }

  lemma IdleShows(w: World)
    requires w.ctl.pc.Idle?
    ensures ShowsDevice(w.dev, w.ctl)
  {
  }

  /** Nobody in this system writes APPL_DB. */
  lemma ApplStays(w: World, e: Event)
    ensures Next(w, e).dev.appl == w.dev.appl
  {
    hide Step, Put, Gate, AfterGet, AfterSet, ReadNeighbor, List, NativeToAbstract, ReadPort, WritePort;
    if e.Controller? && w.ctl.pc.Setting? {
      StepAppl(w.dev, w.ctl.pc.call, e.reply);
    }
  }

  lemma StepAppl(dev: Device, call: Call, r: Reply)
    ensures Step(dev, call, r).0.appl == dev.appl
  {
    hide Put, Lookup, HasField, PortKey, FieldName, Oper;
  }

  /** In every run, whatever interleaves and fails, a reconcile that ended Ready recorded of the port NativeName
      denotes: the neighbour of its LLDP entry, MAC, system and handle each from its own field, cleared exactly when
      chassis id or system name is missing; and as operational state Up or Down, Up only if the port's oper_status is
      up. */
  lemma ReadyRecordsDevice(w: World, es: seq<Event>)
    requires w.ctl.pc.Idle? && R.Run(w, es).ctl.pc.Patch? && R.Run(w, es).ctl.status.state == "Ready"
    ensures var c, appl := R.Run(w, es).ctl, w.dev.appl;
            && WritePort(c.spec).Some?
            && (var port, n := WritePort(c.spec).value, c.status.neighbor;
                var chassis, system := Lldp(appl, port, "lldp_rem_chassis_id"), Lldp(appl, port, "lldp_rem_sys_name");
                var desc := Lldp(appl, port, "lldp_rem_port_desc");
                && (n == Neighbor("", "", "") <==> chassis == "" || system == "")
                && (n != Neighbor("", "", "") ==> n.mac == chassis && n.system == system)
                && (n != Neighbor("", "", "") && desc == "" ==> n.handle == Lldp(appl, port, "lldp_rem_port_id"))
                && (n != Neighbor("", "", "") && desc != "" ==> NativeToAbstract(desc) == Some(n.handle))
                && (c.status.oper == "Up" || c.status.oper == "Down")
                && (c.status.oper == "Up" ==> LinkUp(appl, port)))
  {
    hide R.Run, LinkUp, Lldp, NativeToAbstract, WritePort;
    ShowsOverRuns(w, es);
  }
}
