/** The Switch controller's reconcile of one Switch: finalizer, readiness, facts, interface objects, ports. */
module SwitchLifecycle {
  import opened Text
  import opened InterfaceNames
  import Reconcile

  datatype SwitchStatus = SwitchStatus(state: string, mac: string, firmware: string, sku: string, ports: seq<string>)
  datatype DeviceInfo = DeviceInfo(mac: string, firmware: string, sku: string)
  datatype Iface = Iface(name: string, native: string, admin: string)
  datatype InterfaceSpec = InterfaceSpec(handle: string, native: string, switchRef: string, admin: string)

  /** What the API server holds: the Switch's finalizer and status, and the SwitchInterface objects by name. */
  datatype Held = Held(finalizer: bool, status: SwitchStatus, objects: map<string, InterfaceSpec>)

  /** The reply to GetDeviceInfo. The client passes on an agent's error status as a device without any facts. */
  datatype InfoReply = Unreachable | AgentError | Facts(info: DeviceInfo)

  const NO_FACTS := DeviceInfo("", "", "")

  /** What the controller reads from a reply. */
  function Reported(r: InfoReply): DeviceInfo {
    if r.Facts? then r.info else NO_FACTS
  }

  /** How the exchanges of one reconcile turn out: `None` is an error of the call, while an agent's error status
      arrives as
      an empty list; `applies` is how many applies succeed before one fails. */
  datatype Exchange = Exchange(
    finalizerPatched: bool, client: bool, info: InfoReply, interfaces: Option<seq<Iface>>, applies: nat,
    ports: Option<seq<string>>, patched: bool)

  /** `AgentDeviceStatusToAPIAdminState`. */
  function AdminState(status: string): Option<string> {
    if status == "up" then Some("Up") else if status == "down" then Some("Down") else None
  }

  predicate Good(ifs: seq<Iface>, applies: nat, i: nat)
    requires i < |ifs|
  {
    i < applies && AdminState(ifs[i].admin).Some?
  }

  predicate AllGood(ifs: seq<Iface>, applies: nat) {
    forall i :: 0 <= i < |ifs| ==> Good(ifs, applies, i)
  }

  function SpecOf(sw: string, iface: Iface): InterfaceSpec {
    InterfaceSpec(iface.name, iface.native, sw, if AdminState(iface.admin).Some? then AdminState(iface.admin).value
                  else "")
  }

  /** The object carries the entry's names, the switch, and the admin state that stands for the reported status, which
      the other controller turns back into that status. */
  predicate Publishes(spec: InterfaceSpec, sw: string, iface: Iface) {
    && spec.handle == iface.name && spec.native == iface.native && spec.switchRef == sw
    && (spec.admin == "Up" <==> iface.admin == "up")
    && (spec.admin == "Down" <==> iface.admin == "down")
    && Reconcile.ToDevice(spec.admin) == Some(iface.admin)
  }

  lemma SpecPublishes(sw: string, iface: Iface)
    requires AdminState(iface.admin).Some?
    ensures Publishes(SpecOf(sw, iface), sw, iface)
  {
  }

  /** The objects once these interfaces have been applied, in order. */
  function Applied(objects: map<string, InterfaceSpec>, sw: string, ifs: seq<Iface>): map<string, InterfaceSpec> {
    if ifs == [] then objects
    else
      var last := ifs[|ifs| - 1];
      Applied(objects, sw, ifs[..|ifs| - 1])[ObjectName(sw, last.name) := SpecOf(sw, last)]
  }

  /** The number of interfaces applied before the loop ends or fails. */
  function Done(ifs: seq<Iface>, applies: nat, from: nat): (n: nat)
    requires from <= |ifs|
    ensures from <= n <= |ifs| && (forall i :: from <= i < n ==> Good(ifs, applies, i))
    ensures (n < |ifs| ==> !Good(ifs, applies, n))
    decreases |ifs| - from
  {
    if from < |ifs| && Good(ifs, applies, from) then Done(ifs, applies, from + 1) else from
  }

  /** The exchanges that reach the agent's interface list. */
  predicate Lists(x: Exchange) {
    x.client && !x.info.Unreachable? && x.interfaces.Some?
  }

  /** The exchanges that process a non-empty port list. */
  predicate ListsPorts(x: Exchange) {
    Lists(x) && AllGood(x.interfaces.value, x.applies) && x.ports.Some? && x.ports.value != []
  }

  function StatusAfter(s: SwitchStatus, x: Exchange): SwitchStatus {
    if s.state != "Ready" then s.(state := "Ready")
    else if !x.client || x.info.Unreachable? then s
    else
      var facts := Reported(x.info);
      s.(mac := facts.mac, firmware := facts.firmware, sku := facts.sku,
         ports := if ListsPorts(x) then x.ports.value else s.ports)
  }

  /** One reconcile, as a function of what the API server held. */
  function After(sw: string, h: Held, x: Exchange): Held {
    if !h.finalizer then h.(finalizer := x.finalizerPatched)
    else
      Held(true,
           if x.patched then StatusAfter(h.status, x) else h.status,
           if h.status.state == "Ready" && Lists(x)
           then Applied(h.objects, sw, x.interfaces.value[..Done(x.interfaces.value, x.applies, 0)]) else h.objects)
  }

  // ---------- the controller ----------

  /** A Switch and the interface objects it owns, as held by the API server. */
  class SwitchObject {
    const name: string
    var finalizer: bool
    var status: SwitchStatus
    var objects: map<string, InterfaceSpec>

    constructor (name: string)
      ensures this.name == name && View() == Held(false, SwitchStatus("", "", "", "", []), map[])
    {
      this.name := name;
      finalizer := false;
      status := SwitchStatus("", "", "", "", []);
      objects := map[];
    }

    function View(): Held reads this {
      Held(finalizer, status, objects)
    }

    /** The deferred status patch; a failure is only logged. */
    method PatchStatus(s: SwitchStatus, ok: bool)
      modifies this`status
      ensures status == if ok then s else old(status)
    {
      if ok {
        status := s;
      }
    }

    /** `EnsureInterface`: force-apply the object of one interface. */
    method EnsureInterface(iface: Iface, applyOk: bool) returns (ok: bool)
      modifies this`objects
      ensures ok <==> applyOk && (iface.admin == "up" || iface.admin == "down")
      ensures objects == if ok then old(objects)[ObjectName(name, iface.name) := SpecOf(name, iface)] else old(objects)
      ensures ok ==>
                var key := ObjectName(name, iface.name);
                key in objects && Publishes(objects[key], name, iface)
    {
      var admin := AdminState(iface.admin);
      ok := admin.Some? && applyOk;
      if ok {
        objects := objects[ObjectName(name, iface.name) := InterfaceSpec(iface.name, iface.native, name, admin.value)];
      }
    }

    /** The loop over the listed interfaces: it ends at the first error. */
    method EnsureInterfaces(ifs: seq<Iface>, applies: nat) returns (ok: bool)
      modifies this`objects
      ensures ok <==> AllGood(ifs, applies)
      ensures objects == Applied(old(objects), name, ifs[..Done(ifs, applies, 0)])
    {
      for i := 0 to |ifs|
        invariant Done(ifs, applies, 0) == Done(ifs, applies, i)
        invariant forall j :: 0 <= j < i ==> Good(ifs, applies, j)
        invariant objects == Applied(old(objects), name, ifs[..i])
      {
        ok := EnsureInterface(ifs[i], i < applies);
        if !ok {
          return;
        }
        assert ifs[..i + 1][..i] == ifs[..i];
      }
      ok := true;
    }

    /** `reconcile`. */
    method Reconcile(x: Exchange) returns (err: bool)
      modifies this
      ensures View() == After(name, old(View()), x)
      ensures err <==> (if !old(finalizer) then !x.finalizerPatched
                        else old(status).state == "Ready" && Lists(x) && !AllGood(x.interfaces.value, x.applies))
    {
      if !finalizer {
        finalizer := x.finalizerPatched;
        return !finalizer;
      }
      var s := status;
      if s.state != "Ready" {
        PatchStatus(s.(state := "Ready"), x.patched);
        return false;
      }
      if !x.client || x.info.Unreachable? {
        PatchStatus(s, x.patched);
        return false;
      }
      var device := Reported(x.info);
      s := s.(mac := device.mac, firmware := device.firmware, sku := device.sku);
      if x.interfaces.None? {
        PatchStatus(s, x.patched);
        return false;
      }
      var ensured := EnsureInterfaces(x.interfaces.value, x.applies);
      if !ensured || x.ports.None? {
        PatchStatus(s, x.patched);
        return !ensured;
      }
      var list := x.ports.value;
      if |list| > 0 {
        s := s.(ports := []);
      }
      ghost var kept := s.ports;
      for i := 0 to |list|
        invariant s == s.(ports := kept + list[..i])
        invariant s.(ports := [])
                  == old(status).(mac := device.mac, firmware := device.firmware, sku := device.sku, ports := [])
      {
        s := s.(ports := s.ports + [list[i]]);
      }
      s := s.(state := "Ready");
      PatchStatus(s, x.patched);
      return false;
    }
  }

  // ---------- whole runs ----------

  /** What is held after `n` reconciles. */
  function Run(sw: string, h: Held, xs: seq<Exchange>, n: nat): Held
    requires n <= |xs|
  {
    if n == 0 then h else After(sw, Run(sw, h, xs, n - 1), xs[n - 1])
  }

  /** The finalizer is there exactly when it was, or some finalizer patch has worked. */
  lemma {:induction false} FinalizerIff(sw: string, h: Held, xs: seq<Exchange>, n: nat)
    requires n <= |xs|
    ensures Run(sw, h, xs, n).finalizer <==> h.finalizer || exists i :: 0 <= i < n && xs[i].finalizerPatched
  {
    if n > 0 {
      FinalizerIff(sw, h, xs, n - 1);
    }
  }

  /** Over every run, whatever the agent does: a Switch is Ready exactly when it was, or some reconcile ran with the
      finalizer in place and its status patch went through. So Ready is never left. */
  lemma {:induction false} ReadyIff(sw: string, h: Held, xs: seq<Exchange>, n: nat)
    requires n <= |xs|
    ensures Run(sw, h, xs, n).status.state == "Ready" <==>
            h.status.state == "Ready" || exists i :: 0 <= i < n && Run(sw, h, xs, i).finalizer && xs[i].patched
  {
    hide Applied, Done, ListsPorts;
    if n > 0 {
      ReadyIff(sw, h, xs, n - 1);
    }
  }

  predicate PatchesWork(xs: seq<Exchange>) {
    forall i :: 0 <= i < |xs| ==> xs[i].finalizerPatched && xs[i].patched
  }

  /** With working patches every Switch is persisted as Ready by its second reconcile and stays so. */
  lemma ReadyFromSecondReconcile(sw: string, h: Held, xs: seq<Exchange>, n: nat)
    requires PatchesWork(xs) && 2 <= n <= |xs|
    ensures Run(sw, h, xs, n).finalizer && Run(sw, h, xs, n).status.state == "Ready"
  {
    FinalizerIff(sw, h, xs, n);
    FinalizerIff(sw, h, xs, 1);
    ReadyIff(sw, h, xs, n);
    assert xs[0].finalizerPatched;
    assert Run(sw, h, xs, 1).finalizer && xs[1].patched;
  }

  /** Reconcile `i` of the run records a port list: it starts Ready, processes a non-empty list, and its patch works. */
  predicate Records(sw: string, h: Held, xs: seq<Exchange>, i: int)
    requires 0 <= i < |xs|
  {
    Run(sw, h, xs, i).finalizer && Run(sw, h, xs, i).status.state == "Ready" && ListsPorts(xs[i]) && xs[i].patched
  }

  /** Over every run the recorded ports are exactly the names of the last list recorded, never an accumulation. */
  lemma {:induction false} PortsAreLastRecorded(sw: string, h: Held, xs: seq<Exchange>, n: nat, i: nat)
    requires i < n <= |xs| && Records(sw, h, xs, i)
    requires forall j :: i < j < n ==> !Records(sw, h, xs, j)
    ensures Run(sw, h, xs, n).status.ports == xs[i].ports.value
  {
    if n > i + 1 {
      PortsAreLastRecorded(sw, h, xs, n - 1, i);
      assert !Records(sw, h, xs, n - 1);
    }
  }

  lemma {:induction false} PortsUntouched(sw: string, h: Held, xs: seq<Exchange>, n: nat)
    requires n <= |xs| && forall j :: 0 <= j < n ==> !Records(sw, h, xs, j)
    ensures Run(sw, h, xs, n).status.ports == h.status.ports
  {
    if n > 0 {
      PortsUntouched(sw, h, xs, n - 1);
      assert !Records(sw, h, xs, n - 1);
    }
  }

  /** With working patches, from the third reconcile on, every non-empty port list that is processed is the one kept. */
  lemma EveryListRecorded(sw: string, h: Held, xs: seq<Exchange>, i: nat)
    requires PatchesWork(xs) && 2 <= i < |xs|
    ensures Records(sw, h, xs, i) <==> ListsPorts(xs[i])
    ensures ListsPorts(xs[i]) ==> Run(sw, h, xs, i + 1).status.ports == xs[i].ports.value
  {
    ReadyFromSecondReconcile(sw, h, xs, i);
  }

  // ---------- the recorded facts ----------

  function FactsOf(s: SwitchStatus): DeviceInfo {
    DeviceInfo(s.mac, s.firmware, s.sku)
  }

  /** Reconcile `i` of the run records device facts: it starts Ready, reaches the agent, and its patch works. */
  predicate RecordsFacts(sw: string, h: Held, xs: seq<Exchange>, i: int)
    requires 0 <= i < |xs|
  {
    && Run(sw, h, xs, i).finalizer && Run(sw, h, xs, i).status.state == "Ready"
    && xs[i].client && !xs[i].info.Unreachable? && xs[i].patched
  }

  /** Over every run MAC, firmware and SKU are what the last recording reconcile was told; so they are lost exactly when
      that one met an agent's error status, or a device that reports none. */
  lemma {:induction false} FactsAreLastReported(sw: string, h: Held, xs: seq<Exchange>, n: nat, i: nat)
    requires i < n <= |xs| && RecordsFacts(sw, h, xs, i)
    requires forall j :: i < j < n ==> !RecordsFacts(sw, h, xs, j)
    ensures FactsOf(Run(sw, h, xs, n).status) == Reported(xs[i].info)
    ensures FactsOf(Run(sw, h, xs, n).status) == DeviceInfo("", "", "")
            <==> xs[i].info.AgentError? || xs[i].info == Facts(DeviceInfo("", "", ""))
  {
    hide Applied, Done, ListsPorts;
    if n > i + 1 {
      FactsAreLastReported(sw, h, xs, n - 1, i);
      assert !RecordsFacts(sw, h, xs, n - 1);
    }
  }

  lemma {:induction false} FactsUntouched(sw: string, h: Held, xs: seq<Exchange>, n: nat)
    requires n <= |xs| && forall j :: 0 <= j < n ==> !RecordsFacts(sw, h, xs, j)
    ensures FactsOf(Run(sw, h, xs, n).status) == FactsOf(h.status)
  {
    hide Applied, Done, ListsPorts;
    if n > 0 {
      FactsUntouched(sw, h, xs, n - 1);
      assert !RecordsFacts(sw, h, xs, n - 1);
    }
  }

  // ---------- one object for each port ----------

  /** The agent's list: each entry's name is derived from its native name, whatever its spelling. */
  predicate Discovered(ifs: seq<Iface>) {
    forall i :: 0 <= i < |ifs| ==> NativeToAbstract(ifs[i].native) == Some(ifs[i].name)
  }

  predicate SamePort(a: Iface, b: Iface) {
    NativeNumber(a.native) == NativeNumber(b.native)
  }

  /** Every entry for the port number of entry `i` stands at or before `j`. */
  predicate LastOfPort(ifs: seq<Iface>, i: nat, j: nat) {
    i <= j < |ifs| && SamePort(ifs[i], ifs[j]) && forall l :: j < l < |ifs| ==> !SamePort(ifs[i], ifs[l])
  }

  lemma PortNumber(native: string, name: string)
    requires NativeToAbstract(native) == Some(name)
    ensures NativeNumber(native).Some? && IsInt64(NativeNumber(native).value)
    ensures name == AbstractNameOf(NativeNumber(native).value)
  {
    hide ScanInt, AbstractNameOf;
  }

  /** Two entries of a list share an object exactly when they are of the same port number. */
  lemma SameObjectIff(sw: string, a: Iface, b: Iface)
    requires NativeToAbstract(a.native) == Some(a.name) && NativeToAbstract(b.native) == Some(b.name)
    ensures ObjectName(sw, a.name) == ObjectName(sw, b.name) <==> SamePort(a, b)
  {
    hide ObjectName, AbstractNameOf, NativeToAbstract, NativeNumber, ToLower;
    PortNumber(a.native, a.name);
    PortNumber(b.native, b.name);
    ObjectNamesCollideIff(sw, NativeNumber(a.native).value, sw, NativeNumber(b.native).value);
  }

  lemma {:induction false} AppliedAt(objects: map<string, InterfaceSpec>, sw: string, ifs: seq<Iface>, i: nat)
    returns (j: nat)
    requires Discovered(ifs) && i < |ifs|
    ensures LastOfPort(ifs, i, j)
    ensures var key := ObjectName(sw, ifs[i].name);
            key in Applied(objects, sw, ifs) && Applied(objects, sw, ifs)[key] == SpecOf(sw, ifs[j])
  {
    hide ObjectName, NativeToAbstract, NativeNumber, SpecOf, SamePort;
    var n := |ifs| - 1;
    SameObjectIff(sw, ifs[i], ifs[n]);
    SameAsItself(ifs[i]);
    if SamePort(ifs[i], ifs[n]) {
      j := n;
    } else {
      j := AppliedAt(objects, sw, ifs[..n], i);
      assert forall l :: j < l < n ==> ifs[..n][l] == ifs[l];
    }
  }

  lemma SameAsItself(a: Iface)
    ensures SamePort(a, a)
  {
  }

  lemma {:induction false} AppliedFrame(objects: map<string, InterfaceSpec>, sw: string, ifs: seq<Iface>, key: string)
    requires forall i :: 0 <= i < |ifs| ==> key != ObjectName(sw, ifs[i].name)
    ensures key in Applied(objects, sw, ifs) <==> key in objects
    ensures key in objects ==> Applied(objects, sw, ifs)[key] == objects[key]
  {
    hide ObjectName, SpecOf;
    if ifs != [] {
      AppliedFrame(objects, sw, ifs[..|ifs| - 1], key);
    }
  }

  /** A reconcile that gets through its interface list. */
  predicate Completes(h: Held, x: Exchange) {
    h.finalizer && h.status.state == "Ready" && Lists(x) && AllGood(x.interfaces.value, x.applies)
  }

  lemma CompletedObjects(sw: string, h: Held, x: Exchange)
    requires Completes(h, x)
    ensures After(sw, h, x).objects == Applied(h.objects, sw, x.interfaces.value)
  {
    hide Applied;
    assert x.interfaces.value[..Done(x.interfaces.value, x.applies, 0)] == x.interfaces.value;
  }

  /** A completed list leaves every listed port with an object. Of several spellings of one port number (Ethernet4 and
      Ethernet04) the last listed wins, so with distinct keys the object is an entry's own if and only if no later
      entry is
      of the same number. The object's handle and native name denote the same port if and only if its key was
      canonical. */
  lemma EveryPortHasItsObject(sw: string, h: Held, x: Exchange, i: nat) returns (j: nat)
    requires Completes(h, x) && Discovered(x.interfaces.value) && i < |x.interfaces.value|
    ensures LastOfPort(x.interfaces.value, i, j)
    ensures var objects, ifs := After(sw, h, x).objects, x.interfaces.value;
            var key := ObjectName(sw, ifs[i].name);
            && key in objects && objects[key] == SpecOf(sw, ifs[j]) && Publishes(objects[key], sw, ifs[j])
            && ((forall l :: i < l < |ifs| ==> ifs[l].native != ifs[i].native) ==>
                  (objects[key] == SpecOf(sw, ifs[i]) <==> forall l :: i < l < |ifs| ==> !SamePort(ifs[i], ifs[l])))
            && (AbstractToNative(objects[key].handle) == ResolvePort(objects[key].native) <==> Canonical(ifs[j].native))
  {
    hide ObjectName, Canonical, NativeToAbstract, NativeNumber, AbstractToNative, ResolvePort, SamePort, After, Applied;
    var ifs := x.interfaces.value;
    CompletedObjects(sw, h, x);
    j := AppliedAt(h.objects, sw, ifs, i);
    ReadAndWriteSamePortIff(ifs[j].native);
    assert Good(ifs, x.applies, j);
    SpecPublishes(sw, ifs[j]);
  }

  /** The objects of other switches' ports are untouched by every reconcile, completed or not. */
  lemma OtherSwitchesUntouched(sw: string, h: Held, x: Exchange, other: string, m: int)
    requires x.interfaces.Some? ==> Discovered(x.interfaces.value)
    requires ToLower(other) != ToLower(sw) && IsInt64(m)
    ensures var key := ObjectName(other, AbstractNameOf(m));
            && (key in After(sw, h, x).objects <==> key in h.objects)
            && (key in h.objects ==> After(sw, h, x).objects[key] == h.objects[key])
  {
    hide ObjectName, NativeToAbstract, NativeNumber, AbstractNameOf, ToLower, Applied;
    if h.finalizer && h.status.state == "Ready" && Lists(x) {
      var ifs := x.interfaces.value[..Done(x.interfaces.value, x.applies, 0)];
      var key := ObjectName(other, AbstractNameOf(m));
      forall j | 0 <= j < |ifs| ensures key != ObjectName(sw, ifs[j].name) {
        PortNumber(ifs[j].native, ifs[j].name);
        ObjectNamesCollideIff(other, m, sw, NativeNumber(ifs[j].native).value);
      }
      AppliedFrame(h.objects, sw, ifs, key);
    }
  }
}
