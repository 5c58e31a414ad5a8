/** One switch port under its two controllers. The SwitchInterface controller runs `reconcile` — through the gRPC
    client, the server and the agent — one exchange at a time; the Switch controller lists the device and force-applies
    the spec; users edit the spec; the device copies CONFIG_DB to STATE_DB. Any of these steps may come next, and any
    exchange may fail. */
module Reconcile {
  import opened Text
  import opened Redis
  import opened AgentSet
  import opened InterfaceNames

  // ---------- the object ----------

  datatype Spec = Spec(handle: string, native: string, hasRef: bool, admin: string)
  datatype Neighbor = Neighbor(mac: string, system: string, handle: string)
  datatype Status = Status(state: string, admin: string, oper: string, neighbor: Neighbor)

  const NO_NEIGHBOR := Neighbor("", "", "")

  /** `APIAdminStateToAgentDeviceStatus`. */
  function ToDevice(admin: string): Option<string> {
    if admin == "Up" then Some("up") else if admin == "Down" then Some("down") else None
  }

  /** `AgentDeviceStatusToAPIAdminState` on the two values the agent reports. */
  function ToApi(status: string): string {
    if status == "up" then "Up" else "Down"
  }

  // ---------- the SwitchInterface controller ----------

  /** Where a reconcile stands; each step is one exchange. `Patch` is the deferred status patch. */
  datatype Pc =
    | Idle | Finalizer | NewClient
    | GetConnect | GetExists | GetState | GetApplConnect | GetAppl | GetLink | GetAlias | GetReturn
    | Setting(call: Call)
    | NeighConnect | NeighExists | NeighRead | NeighReturn(found: Option<Neighbor>)
    | Patch(err: bool)

  /** The controller's copy of the object, the status as fetched, and what the agent reported. */
  datatype Ctl = Ctl(spec: Spec, original: Status, status: Status, pc: Pc, seenAdmin: string, seenOper: string,
                     seenAlias: string)

  /** The Switch controller, seen from this port: idle, listing, or holding the admin status it is about to apply. */
  datatype Lister = Resting | Listing | Holding(admin: string)

  datatype World = World(spec: Spec, status: Status, finalized: bool, dev: Device, ctl: Ctl, lister: Lister)

  function StateKey(port: string): string {
    "PORT_TABLE|" + port
  }

  function AdminOf(state: Store, port: string): string {
    if Lookup(state, StateKey(port), "admin_status") == "up" then "up" else "down"
  }

  /** Every error path: the state becomes Failed and the error is returned. */
  function Fail(c: Ctl): Ctl {
    c.(status := c.status.(state := "Failed"), pc := Patch(true))
  }

  /** The port read through the handle: the client converts it to a native name. */
  function ReadPort(spec: Spec): Option<string> {
    AbstractToNative(spec.handle)
  }

  /** The port written through the native name, as the agent resolves it. */
  function WritePort(spec: Spec): Option<string> {
    ResolvePort(spec.native)
  }

  /** After the finalizer: the Pending step, the missing reference, or on to the agent. */
  function Gate(c: Ctl): Ctl {
    if c.status.state == "" then c.(status := c.status.(state := "Pending"), pc := Patch(false))
    else if !c.spec.hasRef then c.(status := c.status.(state := "Failed"), pc := Patch(false))
    else c.(pc := NewClient)
  }

  /** Once the alias is right: record what was read, then request the desired admin status. */
  function RequestAdmin(c: Ctl): Ctl {
    var c1 := c.(status := c.status.(oper := ToApi(c.seenOper), admin := ToApi(c.seenAdmin)));
    var desired, port := ToDevice(c.spec.admin), WritePort(c.spec);
    if desired.None? || port.None? then Fail(c1)
    else c1.(pc := Setting(Start(Admin, port.value, desired.value)))
  }

  /** The reply of GetInterface arrived: fix the alias first when it differs from the handle. */
  function AfterGet(c: Ctl, port: string): Ctl {
    if c.seenAlias != c.spec.handle then c.(pc := Setting(Start(Alias, port, c.spec.handle)))
    else RequestAdmin(c)
  }

  /** The reply of a Set call arrived. */
  function AfterSet(c: Ctl, call: Call): Ctl {
    if call.phase != Done(0) then Fail(c)
    else if call.kind.Alias? then RequestAdmin(c)
    else c.(status := c.status.(admin := ToApi(call.value), oper := ToApi(call.oper), state := "Ready"),
            pc := NeighConnect)
  }

  /** What GetInterfaceNeighbor makes of an LLDP entry: an error, an incomplete entry, or a neighbour. */
  function ReadNeighbor(appl: Store, port: string): Option<Option<Neighbor>> {
    var key := "LLDP_ENTRY_TABLE:" + port;
    var mac, sys := Lookup(appl, key, "lldp_rem_chassis_id"), Lookup(appl, key, "lldp_rem_sys_name");
    var desc := Lookup(appl, key, "lldp_rem_port_desc");
    var handle := if desc == "" then Some(Lookup(appl, key, "lldp_rem_port_id")) else NativeToAbstract(desc);
    if handle.None? then None
    else if mac == "" || sys == "" then Some(None)
    else Some(Some(Neighbor(mac, sys, handle.value)))
  }

  /** One exchange of the reconcile; the reads of a getter, the writes of a setter, the object's patches. */
  function CtlStep(w: World, r: Reply): World {
    var c := w.ctl;
    match c.pc
    case Idle => if r.Ok? then w.(ctl := Ctl(w.spec, w.status, w.status, Finalizer, "down", "down", "")) else w
    case Finalizer =>
      if w.finalized then w.(ctl := Gate(c))
      else w.(finalized := !r.Err?, ctl := c.(pc := Idle))
    case NewClient => w.(ctl := if r.Ok? && ReadPort(c.spec).Some? then c.(pc := GetConnect) else Fail(c))
    case GetConnect => w.(ctl := if r.Ok? then c.(pc := GetExists) else Fail(c))
    case GetExists =>
      w.(ctl := if r.Ok? && ReadPort(c.spec).Some? && PortKey(ReadPort(c.spec).value) in w.dev.config
                then c.(pc := GetState) else Fail(c))
    case GetState =>
      w.(ctl := c.(seenAdmin := if r.Ok? && ReadPort(c.spec).Some? then AdminOf(w.dev.state, ReadPort(c.spec).value)
                   else "down", pc := GetApplConnect))
    case GetApplConnect => w.(ctl := if r.Ok? then c.(pc := GetAppl) else Fail(c))
    case GetAppl =>
      w.(ctl := c.(seenOper := if r.Ok? && ReadPort(c.spec).Some? then Oper(w.dev.appl, ReadPort(c.spec).value)
                   else "down", pc := GetLink))
    case GetLink => w.(ctl := if r.Ok? then c.(pc := GetAlias) else Fail(c))
    case GetAlias =>
      w.(ctl := if r.Ok? && ReadPort(c.spec).Some? && HasField(w.dev.config, PortKey(ReadPort(c.spec).value), "alias")
                then c.(seenAlias := Lookup(w.dev.config, PortKey(ReadPort(c.spec).value), "alias"), pc := GetReturn)
                else Fail(c))
    case GetReturn => w.(ctl := if r.Ok? && ReadPort(c.spec).Some? then AfterGet(c, ReadPort(c.spec).value)
                         else Fail(c))
    case Setting(call) =>
      if call.phase.Done? then w.(ctl := if r.Ok? then AfterSet(c, call) else Fail(c))
      else w.(dev := Step(w.dev, call, r).0, ctl := c.(pc := Setting(Step(w.dev, call, r).1)))
    case NeighConnect => w.(ctl := if r.Ok? then c.(pc := NeighExists) else Fail(c))
    case NeighExists =>
      w.(ctl := if !r.Ok? || WritePort(c.spec).None? then Fail(c)
                else if "LLDP_ENTRY_TABLE:" + WritePort(c.spec).value in w.dev.appl then c.(pc := NeighRead)
                else c.(pc := NeighReturn(None)))
    case NeighRead =>
      var n := if r.Ok? && WritePort(c.spec).Some? then ReadNeighbor(w.dev.appl, WritePort(c.spec).value) else None;
      w.(ctl := if n.Some? then c.(pc := NeighReturn(n.value)) else Fail(c))
    case NeighReturn(found) =>
      w.(ctl := if !r.Ok? then Fail(c)
                else c.(status := c.status.(neighbor := if found.Some? then found.value else NO_NEIGHBOR),
                        pc := Patch(false)))
    case Patch(_) => w.(status := if r.Err? then w.status else c.status, ctl := c.(pc := Idle))
  }

  // ---------- everything that can happen ----------

  datatype Event =
    | UserEdit(admin: string)
    | Controller(reply: Reply)
    | ListBegin
    | ListPort(stateOk: bool, restOk: bool)
    | ApplySpec(ok: bool)
    | DeviceSync

  /** The device catches up: STATE_DB takes the admin status CONFIG_DB holds. */
  function Sync(dev: Device, port: string): Device {
    if HasField(dev.config, PortKey(port), "admin_status")
    then dev.(state := Put(dev.state, StateKey(port), "admin_status",
                           Lookup(dev.config, PortKey(port), "admin_status")))
    else dev
  }

  /** The Switch controller lists the port under its CONFIG_DB key. A failed STATE_DB read counts as `down`;
      any other failed read fails the whole list. */
  function List(w: World, stateOk: bool, restOk: bool): Lister {
    if restOk && PortKey(w.spec.native) in w.dev.config && NativeToAbstract(w.spec.native).Some?
    then Holding(if stateOk then AdminOf(w.dev.state, w.spec.native) else "down")
    else Resting
  }

  function Next(w: World, e: Event): World {
    match e
    case UserEdit(admin) => w.(spec := w.spec.(admin := admin))
    case Controller(r) => CtlStep(w, r)
    case ListBegin => if w.lister.Resting? then w.(lister := Listing) else w
    case ListPort(stateOk, restOk) => if w.lister.Listing? then w.(lister := List(w, stateOk, restOk)) else w
    case ApplySpec(ok) =>
      if !w.lister.Holding? then w
      else if ok && NativeToAbstract(w.spec.native).Some?
      then w.(spec := Spec(NativeToAbstract(w.spec.native).value, w.spec.native, true, ToApi(w.lister.admin)),
              lister := Resting)
      else w.(lister := Resting)
    case DeviceSync => w.(dev := Sync(w.dev, w.spec.native))
  }

  function Run(w: World, es: seq<Event>): World {
    if es == [] then w else Next(Run(w, es[..|es| - 1]), es[|es| - 1])
  }

  lemma RunSnoc(w: World, es: seq<Event>, e: Event)
    ensures Run(w, es + [e]) == Next(Run(w, es), e)
  {
    assert (es + [e])[..|es|] == es;
  }

  lemma {:induction false} RunConcat(w: World, a: seq<Event>, b: seq<Event>)
    ensures Run(w, a + b) == Run(Run(w, a), b)
    decreases |b|
  {
    if b == [] {
      assert a + b == a;
    } else {
      RunConcat(w, a, b[..|b| - 1]);
      assert (a + b)[..|a + b| - 1] == a + b[..|b| - 1];
    }
  }

  // ---------- what Ready means ----------

  /** The port the handle denotes carries the handle as its alias. */
  predicate AliasRight(dev: Device, spec: Spec) {
    ReadPort(spec).Some? && Has(dev.config, PortKey(ReadPort(spec).value), "alias", spec.handle)
  }

  /** The desired admin status stands in the running and in the saved config of the port the native name denotes. */
  predicate Applied(dev: Device, spec: Spec) {
    && WritePort(spec).Some? && ToDevice(spec.admin).Some?
    && Has(dev.config, PortKey(WritePort(spec).value), "admin_status", ToDevice(spec.admin).value)
    && Has(dev.saved, PortKey(WritePort(spec).value), "admin_status", ToDevice(spec.admin).value)
  }

  /** Alias, running config, saved config and recorded status all match the spec the reconcile works on. */
  predicate Achieved(dev: Device, c: Ctl) {
    AliasRight(dev, c.spec) && Applied(dev, c.spec) && c.status.admin == c.spec.admin && c.status.state == "Ready"
  }

  /** A Set call belongs to the reconcile's spec. */
  predicate CallFits(dev: Device, c: Ctl, call: Call) {
    && CallInv(dev, call)
    && (call.kind.Alias? ==> ReadPort(c.spec) == Some(call.port) && call.value == c.spec.handle)
    && (call.kind.Admin? ==> WritePort(c.spec) == Some(call.port) && ToDevice(c.spec.admin) == Some(call.value))
    && (call.kind.Admin? ==> AliasRight(dev, c.spec))
  }

  /** What holds at each point of a reconcile, however other steps interleave. */
  predicate CtlInv(dev: Device, c: Ctl) {
    match c.pc
    case Finalizer => c.status == c.original
    case GetReturn => ReadPort(c.spec).Some? && Has(dev.config, PortKey(ReadPort(c.spec).value), "alias", c.seenAlias)
    case Setting(call) => CallFits(dev, c, call)
    case NeighConnect => Achieved(dev, c)
    case NeighExists => Achieved(dev, c)
    case NeighRead => Achieved(dev, c)
    case NeighReturn(_) => Achieved(dev, c)
    case Patch(err) =>
      && (err ==> c.status.state == "Failed")
      && (c.status.state == "Failed" || (c.status.state == "Pending" && c.original.state == "") || Achieved(dev, c))
    case _ => true
  }

  lemma PutKeepsOther(store: Store, key: string, f: string, v: string, key2: string, f2: string, v2: string)
    requires Has(store, key2, f2, v2) && f2 != f
    ensures Has(Put(store, key, f, v), key2, f2, v2)
  {
  }

  lemma PutSame(store: Store, key: string, f: string, v: string)
    requires Has(store, key, f, v)
    ensures Put(store, key, f, v) == store
  {
    PutIsIdentityIff(store, key, f);
  }

  /** A call for one field leaves the other field as it is. */
  lemma StepKeepsOther(dev: Device, call: Call, r: Reply, key: string, f: string, v: string)
    requires f != FieldName(call.kind) && Has(dev.config, key, f, v)
    ensures Has(Step(dev, call, r).0.config, key, f, v)
  {
    hide Put, Has, Lookup, Oper, HasField, PortKey, FieldName;
    PutKeepsOther(dev.config, PortKey(call.port), FieldName(call.kind), call.value, key, f, v);
    PutKeepsOther(dev.config, PortKey(call.port), FieldName(call.kind), call.prev, key, f, v);
  }

  lemma SettingStepInv(w: World, r: Reply)
    requires w.ctl.pc.Setting? && !w.ctl.pc.call.phase.Done? && CtlInv(w.dev, w.ctl)
    ensures CtlInv(CtlStep(w, r).dev, CtlStep(w, r).ctl)
  {
    hide Has, HasField, PortKey, ReadPort, WritePort, Step, CallInv, ToDevice;
    var c, call := w.ctl, w.ctl.pc.call;
    StepKeepsCallInv(w.dev, call, r);
    StepKeepsRequest(w.dev, call, r);
    if call.kind.Admin? {
      StepKeepsOther(w.dev, call, r, PortKey(ReadPort(c.spec).value), "alias", c.spec.handle);
    }
  }

  lemma SetReturnInv(w: World, r: Reply)
    requires w.ctl.pc.Setting? && w.ctl.pc.call.phase.Done? && CtlInv(w.dev, w.ctl)
    ensures CtlInv(CtlStep(w, r).dev, CtlStep(w, r).ctl)
  {
    hide Has, HasField, PortKey, ReadPort, WritePort, Step;
  }

  lemma ReadStepInv(w: World, r: Reply)
    requires w.ctl.pc in {Idle, Finalizer, NewClient, GetConnect, GetExists, GetState, GetApplConnect, GetAppl, GetLink,
                          GetAlias}
    requires CtlInv(w.dev, w.ctl)
    ensures CtlInv(CtlStep(w, r).dev, CtlStep(w, r).ctl)
  {
    hide PortKey, ReadPort, WritePort, ReadNeighbor, Oper, AdminOf, ToDevice, ToApi, RequestAdmin, Step, CallFits,
      Achieved;
  }

  lemma ReturnStepInv(w: World, r: Reply)
    requires w.ctl.pc.GetReturn? && CtlInv(w.dev, w.ctl)
    ensures CtlInv(CtlStep(w, r).dev, CtlStep(w, r).ctl)
  {
    hide PortKey, ReadPort, WritePort, ReadNeighbor, Oper, AdminOf, ToDevice, ToApi, Step, Achieved;
  }

  lemma NeighborStepInv(w: World, r: Reply)
    requires w.ctl.pc in {NeighConnect, NeighExists, NeighRead} || w.ctl.pc.NeighReturn? || w.ctl.pc.Patch?
    requires CtlInv(w.dev, w.ctl)
    ensures CtlInv(CtlStep(w, r).dev, CtlStep(w, r).ctl)
  {
    hide PortKey, ReadPort, WritePort, ReadNeighbor, Oper, AdminOf, ToDevice, ToApi, RequestAdmin, Step, CallFits,
      AliasRight, Applied;
  }

  lemma OtherStepInv(w: World, r: Reply)
    requires !w.ctl.pc.Setting? && CtlInv(w.dev, w.ctl)
    ensures CtlInv(CtlStep(w, r).dev, CtlStep(w, r).ctl)
  {
    hide CtlStep, CtlInv;
    if w.ctl.pc.GetReturn? {
      ReturnStepInv(w, r);
    } else if w.ctl.pc in {NeighConnect, NeighExists, NeighRead} || w.ctl.pc.NeighReturn? || w.ctl.pc.Patch? {
      NeighborStepInv(w, r);
    } else {
      ReadStepInv(w, r);
    }
  }

  /** Whatever happens next, the controller's invariant survives: nobody else writes the configuration. */
  lemma NextKeepsCtlInv(w: World, e: Event)
    requires CtlInv(w.dev, w.ctl)
    ensures CtlInv(Next(w, e).dev, Next(w, e).ctl)
  {
    hide CtlStep;
    if e.Controller? {
      if w.ctl.pc.Setting? && w.ctl.pc.call.phase.Done? {
        SetReturnInv(w, e.reply);
      } else if w.ctl.pc.Setting? {
        SettingStepInv(w, e.reply);
      } else {
        OtherStepInv(w, e.reply);
      }
    } else {
      CtlInvReadsConfig(w.dev, Next(w, e).dev, w.ctl);
    }
  }

  lemma CtlInvReadsConfig(dev: Device, dev': Device, c: Ctl)
    requires CtlInv(dev, c) && dev'.config == dev.config && dev'.saved == dev.saved
    ensures CtlInv(dev', c)
  {
    hide Has, PortKey, ReadPort, WritePort, ToDevice;
  }

  /** Over every run from a world where no reconcile is in progress, with any interleaving and any failures. */
  lemma {:induction false} CtlInvOverRuns(w: World, es: seq<Event>)
    requires w.ctl.pc.Idle?
    ensures CtlInv(Run(w, es).dev, Run(w, es).ctl)
  {
    if es != [] {
      CtlInvOverRuns(w, es[..|es| - 1]);
      NextKeepsCtlInv(Run(w, es[..|es| - 1]), es[|es| - 1]);
    }
  }

  /** What a finished reconcile means, in every run: an error return is Failed; past the Pending step it is Ready or
      Failed; and Ready means that the recorded admin state is the spec's, Up or Down, and that this value stands in the
      running and the saved config of the port the native name denotes. */
  lemma ReadyMeansApplied(w: World, es: seq<Event>)
    requires w.ctl.pc.Idle? && Run(w, es).ctl.pc.Patch?
    ensures var w' := Run(w, es);
            var c := w'.ctl;
            && (c.pc.err ==> c.status.state == "Failed")
            && (c.original.state != "" ==> c.status.state == "Ready" || c.status.state == "Failed")
            && (c.status.state == "Ready" ==>
                  && (c.spec.admin == "Up" || c.spec.admin == "Down")
                  && c.status.admin == c.spec.admin
                  && WritePort(c.spec).Some?
                  && (var port, value := WritePort(c.spec).value, if c.spec.admin == "Up" then "up" else "down";
                      && Has(w'.dev.config, "PORT|" + port, "admin_status", value)
                      && Has(w'.dev.saved, "PORT|" + port, "admin_status", value)))
  {
    CtlInvOverRuns(w, es);
  }

  /** A neighbour that is not found, or whose LLDP entry is incomplete, keeps Ready and clears the recorded one. */
  lemma MissingNeighborKeepsReady(w: World, es: seq<Event>)
    requires w.ctl.pc.Idle? && Run(w, es).ctl.pc == NeighReturn(None)
    ensures var c := Run(w, es + [Controller(Ok)]).ctl;
            c.pc == Patch(false) && c.status.state == "Ready" && c.status.neighbor == NO_NEIGHBOR
  {
    CtlInvOverRuns(w, es);
    RunSnoc(w, es, Controller(Ok));
  }
}
