/** `SwitchInterfaceReconciler.reconcile` as the source writes it — a local copy of the status updated in sequence,
    early returns, a deferred patch — proved to follow the step machine of module Reconcile, with any number of steps
    by everyone else before each of its exchanges. */
module InterfaceController {
  import opened Text
  import opened AgentSet
  import opened InterfaceNames
  import opened Reconcile
  import opened Recorded

  predicate ByOthers(es: seq<Event>) {
    forall i :: 0 <= i < |es| ==> !es[i].Controller?
  }

  /** Nobody else reads or writes the controller's own state. */
  lemma {:induction false} OthersIgnoreCtl(w: World, es: seq<Event>, c: Ctl)
    requires ByOthers(es)
    ensures Run(w.(ctl := c), es) == Run(w, es).(ctl := c)
  {
    hide CtlStep, Sync, NativeToAbstract;
    if es != [] {
      OthersIgnoreCtl(w, es[..|es| - 1], c);
      assert !es[|es| - 1].Controller?;
    }
  }

  lemma OwnStep(w: World, es: seq<Event>, r: Reply)
    ensures Run(w, es + [Controller(r)]) == CtlStep(Run(w, es), r)
  {
    hide CtlStep;
    RunSnoc(w, es, Controller(r));
  }

  const BLANK := Ctl(Spec("", "", false, ""), Status("", "", "", NO_NEIGHBOR), Status("", "", "", NO_NEIGHBOR), Idle,
                     "down", "down", "")

  /** What the agent reports of an interface. */
  datatype Reading = Reading(admin: string, oper: string, alias: string)

  /** The object as the API server holds it, the device, and the Switch controller; all of them shared. */
  class InterfaceReconciler {
    var spec: Spec
    var status: Status
    var finalized: bool
    var dev: Device
    var lister: Lister

    constructor (spec: Spec, dev: Device)
      ensures this.spec == spec && this.dev == dev && status == BLANK.status && !finalized && lister == Resting
    {
      this.spec, this.dev, status, finalized, lister := spec, dev, BLANK.status, false, Resting;
    }

    ghost function View(c: Ctl): World reads this {
      World(spec, status, finalized, dev, c, lister)
    }

    /** Everyone else takes any number of steps; then the reply of the controller's next exchange arrives. */
    method Exchange(ghost w0: World, ghost es0: seq<Event>, ghost c: Ctl) returns (r: Reply, ghost es: seq<Event>)
      requires View(c) == Run(w0, es0)
      modifies this
      ensures View(c) == Run(w0, es) && Run(w0, es + [Controller(r)]) == CtlStep(View(c), r)
    {
      hide Run, CtlStep;
      var others: seq<Event> := *;
      es := es0;
      if ByOthers(others) {
        OthersIgnoreCtl(World(spec, status, finalized, dev, BLANK, lister), others, c);
        var w := Run(World(spec, status, finalized, dev, BLANK, lister), others);
        spec, status, finalized, dev, lister := w.spec, w.status, w.finalized, w.dev, w.lister;
        RunConcat(w0, es0, others);
        es := es0 + others;
      }
      r := *;
      OwnStep(w0, es, r);
    }

    /** A Set call at the agent; `None` when the call itself or its reply is lost, or the agent reports an error. */
    method Set(kind: Kind, port: string, value: string, ghost w0: World, ghost es0: seq<Event>, ghost c0: Ctl)
      returns (oper: Option<string>, ghost es: seq<Event>, ghost c: Ctl, ghost call0: Call)
      requires View(c0) == Run(w0, es0) && c0.pc == Setting(Start(kind, port, value))
      modifies this
      ensures View(c) == Run(w0, es)
      ensures oper.None? ==> c == Fail(c0)
      ensures oper.Some? ==>
                call0.kind == kind && call0.value == value && call0.oper == oper.value && call0.phase == Done(0)
      ensures oper.Some? ==> c == AfterSet(c0.(pc := Setting(call0)), call0)
    {
      hide Run, Step, RequestAdmin;
      var call := Start(kind, port, value);
      var r;
      c, es := c0, es0;
      while !call.phase.Done?
        invariant View(c) == Run(w0, es) && c == c0.(pc := Setting(call))
        invariant call.kind == kind && call.value == value
        decreases PhaseRank(call.phase)
      {
        r, es := Exchange(w0, es, c);
        StepDescends(dev, call, r);
        StepKeepsRequest(dev, call, r);
        c, es := CtlStep(View(c), r).ctl, es + [Controller(r)];
        var (dev', call') := Step(dev, call, r);
        dev, call := dev', call';
      }
      call0 := call;
      r, es := Exchange(w0, es, c);
      c, es := CtlStep(View(c), r).ctl, es + [Controller(r)];
      oper := if r.Ok? && call.phase == Done(0) then Some(call.oper) else None;
    }

    /** `GetInterfaceByAbstractName` down to the agent's reads; a failed STATE_DB or APPL_DB read counts as down. */
    method GetInterface(port: string, ghost w0: World, ghost es0: seq<Event>, ghost c0: Ctl)
      returns (got: Option<Reading>, ghost es: seq<Event>, ghost c: Ctl)
      requires View(c0) == Run(w0, es0) && c0.pc == GetConnect && ReadPort(c0.spec) == Some(port)
      modifies this
      ensures View(c) == Run(w0, es)
      ensures got.Some? ==>
                c == c0.(pc := GetReturn, seenAdmin := got.value.admin, seenOper := got.value.oper,
                         seenAlias := got.value.alias)
      ensures got.None? ==> c.pc == Patch(true) && c.status == c0.status.(state := "Failed") && c.spec == c0.spec
    {
      hide Run, ReadPort, WritePort, PortKey, Lookup, HasField, AdminOf, Oper;
      var r;
      r, es := Exchange(w0, es0, c0);
      c, es := CtlStep(View(c0), r).ctl, es + [Controller(r)];
      if !r.Ok? {
        return None, es, c;
      }
      r, es := Exchange(w0, es, c);
      c, es := CtlStep(View(c), r).ctl, es + [Controller(r)];
      if !r.Ok? || PortKey(port) !in dev.config {
        return None, es, c;
      }
      r, es := Exchange(w0, es, c);
      c, es := CtlStep(View(c), r).ctl, es + [Controller(r)];
      got, es, c := GetRest(port, if r.Ok? then AdminOf(dev.state, port) else "down", w0, es, c);
    }

    method GetRest(port: string, admin: string, ghost w0: World, ghost es0: seq<Event>, ghost c0: Ctl)
      returns (got: Option<Reading>, ghost es: seq<Event>, ghost c: Ctl)
      requires View(c0) == Run(w0, es0) && c0.pc == GetApplConnect && c0.seenAdmin == admin
      requires ReadPort(c0.spec) == Some(port)
      modifies this
      ensures View(c) == Run(w0, es)
      ensures got.Some? ==>
                got.value.admin == admin && c == c0.(pc := GetReturn, seenOper := got.value.oper,
                                                     seenAlias := got.value.alias)
      ensures got.None? ==> c.pc == Patch(true) && c.status == c0.status.(state := "Failed") && c.spec == c0.spec
    {
      hide Run, ReadPort, WritePort, PortKey, Lookup, HasField, AdminOf, Oper;
      var r;
      r, es := Exchange(w0, es0, c0);
      c, es := CtlStep(View(c0), r).ctl, es + [Controller(r)];
      if !r.Ok? {
        return None, es, c;
      }
      r, es := Exchange(w0, es, c);
      c, es := CtlStep(View(c), r).ctl, es + [Controller(r)];
      var oper := if r.Ok? then Oper(dev.appl, port) else "down";
      r, es := Exchange(w0, es, c);
      c, es := CtlStep(View(c), r).ctl, es + [Controller(r)];
      if !r.Ok? {
        return None, es, c;
      }
      r, es := Exchange(w0, es, c);
      c, es := CtlStep(View(c), r).ctl, es + [Controller(r)];
      if !r.Ok? || !HasField(dev.config, PortKey(port), "alias") {
        return None, es, c;
      }
      got := Some(Reading(admin, oper, Lookup(dev.config, PortKey(port), "alias")));
    }

    /** `GetInterfaceNeighbor`: an error, NOT_FOUND, or the neighbour. */
    method GetNeighbor(native: string, ghost w0: World, ghost es0: seq<Event>, ghost c0: Ctl)
      returns (got: Option<Option<Neighbor>>, ghost es: seq<Event>, ghost c: Ctl)
      requires View(c0) == Run(w0, es0) && c0.pc == NeighConnect && c0.spec.native == native
      modifies this
      ensures View(c) == Run(w0, es)
      ensures got.Some? ==> c == c0.(pc := NeighReturn(got.value))
      ensures got.None? ==> c == Fail(c0)
    {
      hide Run, ReadPort, ResolvePort, ReadNeighbor;
      var r;
      r, es := Exchange(w0, es0, c0);
      c, es := CtlStep(View(c0), r).ctl, es + [Controller(r)];
      if !r.Ok? {
        return None, es, c;
      }
      r, es := Exchange(w0, es, c);
      c, es := CtlStep(View(c), r).ctl, es + [Controller(r)];
      var port := ResolvePort(native);
      if !r.Ok? || port.None? {
        return None, es, c;
      }
      if "LLDP_ENTRY_TABLE:" + port.value !in dev.appl {
        return Some(None), es, c;
      }
      r, es := Exchange(w0, es, c);
      c, es := CtlStep(View(c), r).ctl, es + [Controller(r)];
      got := if r.Ok? then ReadNeighbor(dev.appl, port.value) else None;
    }

    /** From the fetched object to the status to be patched: the body between the finalizer and the deferred patch. */
    method Body(sp: Spec, i0: Status, ghost w0: World, ghost es0: seq<Event>, ghost x: Ctl)
      returns (i: Status, err: bool, ghost es: seq<Event>, ghost c: Ctl)
      requires x.spec == sp && x.status == i0 && View(Gate(x)) == Run(w0, es0)
      modifies this
      ensures View(c) == Run(w0, es) && c.pc == Patch(err) && c.status == i && c.spec == sp
    {
      hide Run, CtlStep, AfterSet;
      i, es, c := i0, es0, Gate(x);
      if i.state == "" {
        return i.(state := "Pending"), false, es, c;
      }
      if !sp.hasRef {
        return i.(state := "Failed"), false, es, c;
      }
      var port, got;
      port, es, c := NewClient(sp, w0, es, c);
      if port.None? {
        return i.(state := "Failed"), true, es, c;
      }
      got, es, c := GetInterface(port.value, w0, es, c);
      if got.None? {
        return i.(state := "Failed"), true, es, c;
      }
      i, err, es, c := Push(sp, i, port.value, got.value, w0, es, c);
    }

    method NewClient(sp: Spec, ghost w0: World, ghost es0: seq<Event>, ghost c0: Ctl)
      returns (port: Option<string>, ghost es: seq<Event>, ghost c: Ctl)
      requires View(c0) == Run(w0, es0) && c0.pc == Pc.NewClient && c0.spec == sp
      modifies this
      ensures View(c) == Run(w0, es)
      ensures port.Some? ==> c == c0.(pc := GetConnect) && ReadPort(sp) == port
      ensures port.None? ==> c == Fail(c0)
    {
      hide Run, AbstractToNative;
      var r;
      r, es := Exchange(w0, es0, c0);
      c, es := CtlStep(View(c0), r).ctl, es + [Controller(r)];
      port := if r.Ok? then AbstractToNative(sp.handle) else None;
    }

    /** The interface was read: fix the alias if it is not the handle, then go on to the admin status. */
    method Push(sp: Spec, i0: Status, port: string, iface: Reading, ghost w0: World, ghost es0: seq<Event>,
                ghost c0: Ctl)
      returns (i: Status, err: bool, ghost es: seq<Event>, ghost c: Ctl)
      requires View(c0) == Run(w0, es0) && c0.pc == GetReturn && c0.spec == sp && c0.status == i0
      requires ReadPort(sp) == Some(port)
      requires iface == Reading(c0.seenAdmin, c0.seenOper, c0.seenAlias)
      modifies this
      ensures View(c) == Run(w0, es) && c.pc == Patch(err) && c.status == i && c.spec == sp
    {
      hide Run, ReadPort, RequestAdmin, Step;
      var r;
      i := i0;
      r, es := Exchange(w0, es0, c0);
      c, es := CtlStep(View(c0), r).ctl, es + [Controller(r)];
      if !r.Ok? {
        return i.(state := "Failed"), true, es, c;
      }
      ghost var y := c0;
      if iface.alias != sp.handle {
        var done;
        ghost var call;
        ghost var before := c;
        done, es, c, call := Set(Alias, port, sp.handle, w0, es, c);
        if done.None? {
          return i.(state := "Failed"), true, es, c;
        }
        y := before.(pc := Setting(call));
      }
      i, err, es, c := PushAdmin(sp, i, iface, w0, es, y);
    }

    /** Record what was read, request the admin status, record what the agent answers. */
    method PushAdmin(sp: Spec, i0: Status, iface: Reading, ghost w0: World, ghost es0: seq<Event>, ghost y: Ctl)
      returns (i: Status, err: bool, ghost es: seq<Event>, ghost c: Ctl)
      requires View(RequestAdmin(y)) == Run(w0, es0) && y.spec == sp && y.status == i0
      requires iface == Reading(y.seenAdmin, y.seenOper, y.seenAlias)
      modifies this
      ensures View(c) == Run(w0, es) && c.pc == Patch(err) && c.status == i && c.spec == sp
    {
      hide Run, ResolvePort, ToApi, ToDevice;
      c, es := RequestAdmin(y), es0;
      i := i0.(oper := ToApi(iface.oper), admin := ToApi(iface.admin));
      var desired, target := ToDevice(sp.admin), ResolvePort(sp.native);
      if desired.None? || target.None? {
        return i.(state := "Failed"), true, es, c;
      }
      var oper;
      ghost var call;
      oper, es, c, call := Set(Admin, target.value, desired.value, w0, es, c);
      if oper.None? {
        return i.(state := "Failed"), true, es, c;
      }
      i := i.(admin := ToApi(desired.value), oper := ToApi(oper.value), state := "Ready");
      i, err, es, c := PushNeighbor(sp, i, w0, es, c);
    }

    /** Record the neighbour, or clear it when there is none. */
    method PushNeighbor(sp: Spec, i0: Status, ghost w0: World, ghost es0: seq<Event>, ghost c0: Ctl)
      returns (i: Status, err: bool, ghost es: seq<Event>, ghost c: Ctl)
      requires View(c0) == Run(w0, es0) && c0.pc == NeighConnect && c0.spec == sp && c0.status == i0
      modifies this
      ensures View(c) == Run(w0, es) && c.pc == Patch(err) && c.status == i && c.spec == sp
    {
      hide Run, Step;
      i := i0;
      var neighbor;
      neighbor, es, c := GetNeighbor(sp.native, w0, es0, c0);
      if neighbor.None? {
        return i.(state := "Failed"), true, es, c;
      }
      var r;
      r, es := Exchange(w0, es, c);
      c, es := CtlStep(View(c), r).ctl, es + [Controller(r)];
      if !r.Ok? {
        return i.(state := "Failed"), true, es, c;
      }
      i := i.(neighbor := if neighbor.value.Some? then neighbor.value.value else NO_NEIGHBOR);
      err := false;
    }

    /** `reconcile`, with everyone else stepping in between: the shared state ends where the step machine leads, so
        everything proved of its runs holds here. Past the finalizer, an error return has recorded Failed, and a
        recorded Ready means that the fetched spec stands in the running and the saved config of its port. */
    method Reconcile(ghost c0: Ctl) returns (err: bool, i: Option<Status>, ghost es: seq<Event>, ghost c: Ctl)
      requires c0.pc.Idle?
      modifies this
      ensures View(c) == Run(old(View(c0)), es) && c.pc.Idle?
      ensures i.Some? && err ==> i.value.state == "Failed"
      ensures i.Some? ==> c.status == i.value
      ensures i.Some? && i.value.state == "Ready" ==> Applied(dev, c.spec) && i.value.admin == c.spec.admin
      ensures i.Some? && i.value.state == "Ready" ==> OperShown(dev.appl, c) && NeighborShown(dev.appl, c)
    {
      hide Run, Gate, Applied, AliasRight, Reports, LinkUp, WritePort;
      ghost var w0 := View(c0);
      RunNothing(w0);
      var r;
      i := None;
      r, es := Exchange(w0, [], c0);
      c, es := CtlStep(View(c0), r).ctl, es + [Controller(r)];
      if !r.Ok? {
        return true, i, es, c;
      }
      var sp, st := spec, status;
      r, es := Exchange(w0, es, c);
      ghost var x := c;
      c, es := CtlStep(View(c), r).ctl, es + [Controller(r)];
      if !finalized {
        finalized := !r.Err?;
        return !r.Ok?, i, es, c;
      }
      var after;
      after, err, es, c := Body(sp, st, w0, es, x);
      i := Some(after);
      r, es := Exchange(w0, es, c);
      PatchFacts(w0, es);
      c, es := CtlStep(View(c), r).ctl, es + [Controller(r)];
      if !r.Err? {
        status := after;
      }
    }
  }

  lemma RunNothing(w: World)
    ensures Run(w, []) == w
  {
  }

  lemma PatchFacts(w: World, es: seq<Event>)
    requires w.ctl.pc.Idle? && Run(w, es).ctl.pc.Patch?
    ensures var c := Run(w, es).ctl;
            && (c.pc.err ==> c.status.state == "Failed")
            && (c.status.state == "Ready" ==> Applied(Run(w, es).dev, c.spec) && c.status.admin == c.spec.admin)
            && (c.status.state == "Ready" ==>
                  OperShown(Run(w, es).dev.appl, c) && NeighborShown(Run(w, es).dev.appl, c))
  {
    hide Run, Applied, AliasRight, Reports, LinkUp;
    CtlInvOverRuns(w, es);
    ShowsOverRuns(w, es);
  }
}
