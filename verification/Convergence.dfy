/** How an error-free reconcile ends, whatever interleaves with it; and how the two controllers can chase each other
    for ever without a single error. */
module Convergence {
  import opened Text
  import opened Redis
  import opened AgentSet
  import opened InterfaceNames
  import R = Reconcile
  import opened Reconcile
  import opened Agreement
  import opened Recorded

  // ---------- the neighbour ----------

  function LldpKey(port: string): string {
    "LLDP_ENTRY_TABLE:" + port
  }

  /** GetInterfaceNeighbor returns a neighbour or NOT_FOUND. */
  predicate NeighborReadable(appl: Store, port: string) {
    LldpKey(port) in appl ==> ReadNeighbor(appl, port).Some?
  }

  /** It fails exactly on an LLDP entry whose port description is neither empty nor an Ethernet name. */
  lemma NeighborUnreadableIff(appl: Store, port: string)
    ensures var desc := Lookup(appl, LldpKey(port), "lldp_rem_port_desc");
            !NeighborReadable(appl, port) <==> desc != "" && NativeToAbstract(desc).None?
  {
    hide NativeToAbstract;
  }

  // ---------- a reconcile without errors ----------

  /** The port exists, the spec is complete and the object is past its finalizer. */
  predicate Workable(w: World, spec: Spec) {
    && w.finalized && Named(spec) && spec.hasRef && ToDevice(spec.admin).Some?
    && HasField(w.dev.config, PortKey(spec.native), "alias")
  }

  function EndState(readable: bool): string {
    if readable then "Ready" else "Failed"
  }

  /** The recorded operational state of an error-free reconcile. */
  function LinkState(appl: Store, port: string): string {
    if LinkUp(appl, port) then "Up" else "Down"
  }

  /** Once read, the operational status is that of the port. */
  predicate LinkRead(appl: Store, port: string, pc: Pc, oper: string) {
    match pc
    case Setting(call) =>
      call.kind.Admin? && call.phase in {ReadAlias, Done(0)} ==>
        call.oper == if LinkUp(appl, port) then "up" else "down"
    case _ => Pushed(pc) ==> oper == LinkState(appl, port)
  }

  predicate Pushed(pc: Pc) {
    pc in {NeighConnect, NeighExists, NeighRead} || pc.NeighReturn? || pc.Patch?
  }

  /** A reconcile of a workable port, past Pending, that has met no error but an unreadable neighbour. */
  predicate Smooth(w: World) {
    var c := w.ctl;
    var readable := NeighborReadable(w.dev.appl, c.spec.native);
    && Workable(w, c.spec) && CtlInv(w.dev, c) && c.original.state != ""
    && (c.pc.Setting? ==> MaySucceed(c.pc.call.phase))
    && LinkRead(w.dev.appl, c.spec.native, c.pc, c.status.oper)
    && (c.pc.NeighRead? ==> LldpKey(c.spec.native) in w.dev.appl)
    && (c.pc.NeighReturn? ==> readable)
    && (c.pc.Patch? ==> Applied(w.dev, c.spec) && c.pc == Patch(!readable) && c.status.state == EndState(readable))
  }

  lemma PutKeepsField(store: Store, key: string, f: string, v: string, key2: string, f2: string)
    requires HasField(store, key2, f2)
    ensures HasField(Put(store, key, f, v), key2, f2)
  {
  }

  lemma OperIsLink(appl: Store, port: string)
    ensures Oper(appl, port) == if LinkUp(appl, port) then "up" else "down"
  {
  }

  /** An answered exchange of a Set call on a port with an alias moves it toward success. */
  lemma OkStepDescends(dev: Device, call: Call)
    requires MaySucceed(call.phase) && !call.phase.Done?
    requires HasField(dev.config, PortKey(call.port), "alias")
    ensures var (dev', call') := Step(dev, call, Ok);
            && PhaseRank(call'.phase) < PhaseRank(call.phase) && MaySucceed(call'.phase)
            && dev'.appl == dev.appl
            && (LinkRead(dev.appl, call.port, Setting(call), "") ==> LinkRead(dev.appl, call.port, Setting(call'), ""))
            && HasField(dev'.config, PortKey(call.port), "alias")
  {
    hide Put, Lookup, Oper, PortKey, FieldName, LinkUp;
    OperIsLink(dev.appl, call.port);
    PutKeepsField(dev.config, PortKey(call.port), FieldName(call.kind), call.value, PortKey(call.port), "alias");
  }

  lemma SmoothSetting(w: World)
    requires Smooth(w) && w.ctl.pc.Setting? && !w.ctl.pc.call.phase.Done?
    ensures Smooth(CtlStep(w, Ok)) && Rank(CtlStep(w, Ok).ctl.pc) < Rank(w.ctl.pc)
  {
    hide Step, HasField, PortKey, NeighborReadable, ToDevice, Named, CtlInv, PhaseRank, MaySucceed, LinkUp;
    var c, call := w.ctl, w.ctl.pc.call;
    SettingStepInv(w, Ok);
    StepKeepsRequest(w.dev, call, Ok);
    SettingPort(w);
    CtlStepFrame(w, Ok);
    OkStepDescends(w.dev, call);
  }

  /** Both Set calls of a reconcile of a named port are on that port, and once written its entry exists. */
  lemma SettingPort(w: World)
    requires Smooth(w) && w.ctl.pc.Setting?
    ensures w.ctl.pc.call.port == w.ctl.spec.native
    ensures PortKey(w.ctl.pc.call.port) in w.dev.config
  {
    hide PortKey, NeighborReadable, CallInv, Has, ReadPort, WritePort, NativeToAbstract, ToDevice;
  }

  lemma SmoothFacts(w: World)
    requires Smooth(w)
    ensures w.ctl.pc.Finalizer? ==> w.ctl.status == w.ctl.original
    ensures PortKey(w.ctl.spec.native) in w.dev.config
    ensures w.ctl.pc in {NeighConnect, NeighExists, NeighRead} || w.ctl.pc.NeighReturn? ==>
              w.ctl.status.state == "Ready" && Applied(w.dev, w.ctl.spec)
  {
    hide PortKey, Named, NeighborReadable, ToDevice;
  }

  lemma SmoothGetting(w: World)
    requires Smooth(w) && !w.ctl.pc.GetReturn? && (w.ctl.pc.Finalizer? || Reading(w.ctl.pc))
    ensures Smooth(CtlStep(w, Ok)) && Rank(CtlStep(w, Ok).ctl.pc) < Rank(w.ctl.pc)
  {
    hide Lookup, HasField, Oper, PortKey, NativeToAbstract, ReadPort, WritePort, AdminOf, NeighborReadable, CtlInv,
      ToDevice;
    OtherStepInv(w, Ok);
    SmoothFacts(w);
  }

  lemma SmoothReturn(w: World)
    requires Smooth(w) && (w.ctl.pc.GetReturn? || (w.ctl.pc.Setting? && w.ctl.pc.call.phase.Done?))
    ensures Smooth(CtlStep(w, Ok)) && Rank(CtlStep(w, Ok).ctl.pc) < Rank(w.ctl.pc)
  {
    hide HasField, PortKey, NativeToAbstract, ReadPort, WritePort, NeighborReadable, CtlInv, ToDevice, Step, LinkUp;
    if w.ctl.pc.Setting? {
      SetReturnInv(w, Ok);
    } else {
      OtherStepInv(w, Ok);
    }
  }

  lemma SmoothNeighborRead(w: World)
    requires Smooth(w) && w.ctl.pc.NeighRead?
    ensures Smooth(CtlStep(w, Ok)) && Rank(CtlStep(w, Ok).ctl.pc) < Rank(w.ctl.pc)
  {
    hide HasField, PortKey, NativeToAbstract, AbstractToNative, ResolvePort, CtlInv, ToDevice, ReadNeighbor, Applied,
      LinkUp;
    OtherStepInv(w, Ok);
    SmoothFacts(w);
  }

  lemma SmoothNeighbor(w: World)
    requires Smooth(w) && (w.ctl.pc in {NeighConnect, NeighExists} || w.ctl.pc.NeighReturn?)
    ensures Smooth(CtlStep(w, Ok)) && Rank(CtlStep(w, Ok).ctl.pc) < Rank(w.ctl.pc)
  {
    hide HasField, PortKey, NativeToAbstract, AbstractToNative, ResolvePort, CtlInv, ToDevice, ReadNeighbor, Applied,
      LinkUp;
    OtherStepInv(w, Ok);
    SmoothFacts(w);
  }

  lemma StillRunning(w: World)
    requires Smooth(w) && !w.ctl.pc.Idle? && !w.ctl.pc.Patch?
    ensures !CtlStep(w, Ok).ctl.pc.Idle?
  {
    hide Lookup, Oper, PortKey, NativeToAbstract, ReadPort, WritePort, AdminOf, Step, ReadNeighbor, CtlInv, Named,
      ToDevice,
      ToApi, NeighborReadable;
  }

  /** An answered exchange brings a smooth reconcile nearer to its end. */
  lemma SmoothStep(w: World)
    requires Smooth(w) && !w.ctl.pc.Idle? && !w.ctl.pc.Patch?
    ensures Smooth(CtlStep(w, Ok)) && Rank(CtlStep(w, Ok).ctl.pc) < Rank(w.ctl.pc) && !CtlStep(w, Ok).ctl.pc.Idle?
  {
    hide CtlStep, Smooth;
    StillRunning(w);
    if w.ctl.pc.Setting? && !w.ctl.pc.call.phase.Done? {
      SmoothSetting(w);
    } else if w.ctl.pc.GetReturn? || w.ctl.pc.Setting? {
      SmoothReturn(w);
    } else if w.ctl.pc.NeighRead? {
      SmoothNeighborRead(w);
    } else if w.ctl.pc in {NeighConnect, NeighExists} || w.ctl.pc.NeighReturn? {
      SmoothNeighbor(w);
    } else {
      SmoothGetting(w);
    }
  }

  /** Nobody else makes it less smooth: they write neither CONFIG_DB nor APPL_DB. */
  lemma SmoothKept(w: World, e: Event)
    requires Smooth(w) && !e.Controller?
    ensures Smooth(Next(w, e)) && Next(w, e).ctl == w.ctl && Next(w, e).dev.appl == w.dev.appl
  {
    hide CtlInv, Named, PortKey, StateKey, ReadNeighbor, NativeToAbstract, CtlStep;
    CtlInvReadsConfig(w.dev, Next(w, e).dev, w.ctl);
  }

  // ---------- it ends ----------

  function Exchanges(es: seq<Event>): nat {
    if es == [] then 0 else (if es[0].Controller? then 1 else 0) + Exchanges(es[1..])
  }

  /** Whatever anyone else does meanwhile, no exchange of the reconcile meets an error. */
  predicate ErrorFree(es: seq<Event>) {
    forall i :: 0 <= i < |es| ==> es[i].Controller? ==> es[i].reply.Ok?
  }

  /** The reconcile runs through the first `n` events and is then at its patch, Ready exactly when the neighbour is
      readable. */
  ghost predicate EndsAfter(w: World, es: seq<Event>, n: nat)
    requires n <= |es|
  {
    var w' := R.Run(w, es[..n]);
    && w'.ctl.pc.Patch? && w'.dev.appl == w.dev.appl
    && (forall i :: 0 <= i <= n ==> Underway(w, R.Run(w, es[..i])))
  }

  predicate Underway(w: World, w': World) {
    Smooth(w') && !w'.ctl.pc.Idle? && w'.ctl.spec == w.ctl.spec
  }

  /** From any point of a smooth reconcile, whatever interleaves: as many answered exchanges as its rank lead to its
      end. */
  lemma {:induction false} SmoothRunEnds(w: World, es: seq<Event>) returns (n: nat)
    requires Smooth(w) && !w.ctl.pc.Idle? && ErrorFree(es) && Exchanges(es) >= Rank(w.ctl.pc)
    ensures n <= |es| && EndsAfter(w, es, n)
    decreases |es|
  {
    hide CtlStep, Smooth, R.Run;
    NothingDone(w);
    assert es[..0] == [];
    if w.ctl.pc.Patch? {
      n := 0;
    } else {
      var e, rest := es[0], es[1..];
      var w1 := Next(w, e);
      if e.Controller? {
        SmoothStep(w);
        CtlStepFrame(w, Ok);
      } else {
        SmoothKept(w, e);
      }
      var m := SmoothRunEnds(w1, rest);
      n := 1 + m;
      EndsLater(w, es, m);
    }
  }

  lemma EndsLater(w: World, es: seq<Event>, m: nat)
    requires es != [] && m <= |es[1..]| && EndsAfter(Next(w, es[0]), es[1..], m)
    requires Smooth(w) && !w.ctl.pc.Idle?
    requires Next(w, es[0]).ctl.spec == w.ctl.spec && Next(w, es[0]).dev.appl == w.dev.appl
    ensures EndsAfter(w, es, 1 + m)
  {
    hide Next, Smooth, R.Run;
    var w1, rest := Next(w, es[0]), es[1..];
    NothingDone(w);
    RunOne(w, es[0]);
    forall i | 0 <= i <= 1 + m
      ensures R.Run(w, es[..i]) == if i == 0 then w else R.Run(w1, rest[..i - 1])
    {
      if i == 0 {
        assert es[..0] == [];
      } else {
        assert es[..i] == [es[0]] + rest[..i - 1];
        R.RunConcat(w, [es[0]], rest[..i - 1]);
      }
    }
  }

  /** The exchanges of a whole reconcile. */
  const WHOLE: nat := 60

  lemma FetchIsSmooth(w: World)
    requires w.ctl.pc.Idle? && w.status.state != "" && Workable(w, w.spec)
    ensures var w1 := CtlStep(w, Ok);
            && Smooth(w1) && w1.ctl.pc.Finalizer? && w1.spec == w.spec && w1.ctl.spec == w.spec && w1.lister == w.lister
            && w1.dev == w.dev
  {
    hide NeighborReadable, Named, HasField, PortKey, ToDevice;
  }

  /** An error-free reconcile of an existing, well-named port, past Pending, from any spec of Up or Down, any device
      value and with anything interleaved, gets to its patch with the spec applied. It ends Ready if and only if the
      neighbour is readable, and Failed with an error otherwise. If Ready, then once the device has caught up there is
      agreement if and only if the last value written into the spec meanwhile, and any value the Switch controller
      holds, is the fetched one. */
  lemma ErrorFreeReconcileEndsIff(w: World, es: seq<Event>) returns (n: nat)
    requires w.ctl.pc.Idle? && w.status.state != "" && Workable(w, w.spec)
    requires es != [] && es[0] == Controller(Ok) && ErrorFree(es) && Exchanges(es) >= WHOLE
    ensures 0 < n <= |es|
    ensures var w', readable := R.Run(w, es[..n]), NeighborReadable(w.dev.appl, w.spec.native);
            && w'.ctl.pc == Patch(!readable)
            && w'.ctl.status.state == EndState(readable) && Applied(w'.dev, w.spec)
            && w'.ctl.status.oper == LinkState(w.dev.appl, w.spec.native)
            && (readable ==>
                  (Agreed(R.Run(w, es[..n] + [DeviceSync])) <==>
                   (LastWritten(w, es[..n]) == w.spec.admin
                    && (w'.lister.Holding? ==> ToApi(w'.lister.admin) == w.spec.admin))))
  {
    hide Smooth, CtlStep, Workable, Agreed, R.Run, LastWritten, NeighborReadable, Paired;
    var w1 := CtlStep(w, Ok);
    FetchIsSmooth(w);
    var m := SmoothRunEnds(w1, es[1..]);
    n := 1 + m;
    RunFrom(w, es, m);
    SmoothEnd(R.Run(w1, es[1..][..m]));
    if NeighborReadable(w.dev.appl, w.spec.native) {
      PairedAtRest(w);
      ReconcileEndsAgreedIff(w, es[..n]);
    }
  }

  lemma RunFrom(w: World, es: seq<Event>, m: nat)
    requires w.ctl.pc.Idle? && es != [] && es[0] == Controller(Ok) && m <= |es[1..]|
    requires EndsAfter(CtlStep(w, Ok), es[1..], m)
    ensures R.Run(w, es[..1 + m]) == R.Run(CtlStep(w, Ok), es[1..][..m])
    ensures OneReconcile(w, es[..1 + m])
  {
    hide CtlStep, Smooth, R.Run;
    var w1, rest := CtlStep(w, Ok), es[1..];
    RunOne(w, es[0]);
    var head := es[..1 + m];
    assert head[0] == es[0] && head[..1 + m] == head;
    forall i | 0 < i <= |head|
      ensures R.Run(w, head[..i]) == R.Run(w1, rest[..i - 1]) && !R.Run(w, head[..i]).ctl.pc.Idle?
    {
      assert head[..i] == [es[0]] + rest[..i - 1];
      R.RunConcat(w, [es[0]], rest[..i - 1]);
      assert Underway(w1, R.Run(w1, rest[..i - 1]));
    }
  }

  lemma SmoothEnd(w: World)
    requires Smooth(w) && w.ctl.pc.Patch?
    ensures var readable := NeighborReadable(w.dev.appl, w.ctl.spec.native);
            && w.ctl.pc == Patch(!readable) && w.ctl.status.state == EndState(readable) && Applied(w.dev, w.ctl.spec)
            && w.ctl.status.oper == LinkState(w.dev.appl, w.ctl.spec.native)
  {
    hide CtlInv, Workable, NeighborReadable;
  }

  lemma PairedAtRest(w: World)
    requires w.ctl.pc.Idle? && Workable(w, w.spec)
    ensures Paired(w)
  {
    hide Named;
  }

  // ---------- alone ----------

  function OkSteps(n: nat): seq<Event> {
    seq(n, i => Controller(Ok))
  }

  lemma {:induction false} OkStepsCount(n: nat)
    ensures Exchanges(OkSteps(n)) == n && ErrorFree(OkSteps(n))
  {
    if n > 0 {
      assert OkSteps(n)[1..] == OkSteps(n - 1);
      OkStepsCount(n - 1);
    }
  }

  lemma {:induction false} AloneFrame(w: World, n: nat)
    ensures var w' := R.Run(w, OkSteps(n));
            && w'.spec == w.spec && w'.lister == w.lister && w'.dev.state == w.dev.state && w'.dev.appl == w.dev.appl
            && LastWritten(w, OkSteps(n)) == w.spec.admin
  {
    hide CtlStep;
    if n > 0 {
      assert OkSteps(n)[..n - 1] == OkSteps(n - 1);
      AloneFrame(w, n - 1);
      CtlStepFrame(R.Run(w, OkSteps(n - 1)), Ok);
    }
  }

  /** Undisturbed, an error-free reconcile of a port with a readable neighbour ends Ready and reaches agreement, from
      any spec of Up or Down and any device value. */
  lemma ErrorFreeReconcileConverges(w: World) returns (n: nat)
    requires w.ctl.pc.Idle? && w.status.state != "" && Workable(w, w.spec)
    requires NeighborReadable(w.dev.appl, w.spec.native)
    requires w.lister.Resting?
    ensures R.Run(w, OkSteps(n)).ctl.pc == Patch(false) && R.Run(w, OkSteps(n)).ctl.status.state == "Ready"
    ensures Agreed(R.Run(w, OkSteps(n) + [DeviceSync]))
  {
    hide Workable, Agreed, R.Run, NeighborReadable, LastWritten;
    OkStepsCount(WHOLE);
    n := ErrorFreeReconcileEndsIff(w, OkSteps(WHOLE));
    assert OkSteps(WHOLE)[..n] == OkSteps(n);
    AloneFrame(w, n);
  }

  /** A neighbour that describes its port as `Uplink` turns the reconcile of a port that is otherwise in order to
      Failed, although the admin status was applied. */
  lemma UplinkMakesReconcileFail(w: World) returns (n: nat)
    requires w.ctl.pc.Idle? && w.status.state != "" && Workable(w, w.spec)
    requires Has(w.dev.appl, LldpKey(w.spec.native), "lldp_rem_port_desc", "Uplink")
    ensures var w' := R.Run(w, OkSteps(n));
            w'.ctl.pc == Patch(true) && w'.ctl.status.state == "Failed" && Applied(w'.dev, w.spec)
  {
    hide Workable, Agreed, R.Run, NeighborReadable, LastWritten, NativeToAbstract;
    NeighborUnreadableIff(w.dev.appl, w.spec.native);
    UplinkIsNoEthernet();
    OkStepsCount(WHOLE);
    n := ErrorFreeReconcileEndsIff(w, OkSteps(WHOLE));
    assert OkSteps(WHOLE)[..n] == OkSteps(n);
  }

  lemma UplinkIsNoEthernet()
    ensures NativeToAbstract("Uplink").None?
  {
    assert "Uplink"[0] != "Ethernet"[0];
  }

  // ---------- two writers chasing each other ----------

  function Opposite(status: string): string {
    if status == "up" then "down" else "up"
  }

  /** At rest, spec and device on opposite values, the device caught up. */
  predicate Opposed(w: World) {
    && w.ctl.pc.Idle? && w.lister.Resting? && w.status.state != ""
    && Workable(w, w.spec) && NeighborReadable(w.dev.appl, w.spec.native)
    && Has(w.dev.config, PortKey(w.spec.native), "admin_status", Opposite(ToDevice(w.spec.admin).value))
    && Has(w.dev.state, StateKey(w.spec.native), "admin_status", Opposite(ToDevice(w.spec.admin).value))
  }

  /** Events without an error and without a user. */
  predicate Regular(e: Event) {
    e in {Controller(Ok), ListBegin, ListPort(true, true), ApplySpec(true), DeviceSync}
  }

  /** The Switch controller lists the port; the SwitchInterface controller fetches the spec; only then is the list
      applied. */
  const CROSSING := [ListBegin, ListPort(true, true), Controller(Ok), ApplySpec(true)]

  function Crossed(w: World, n: nat): World
    requires n <= 4
  {
    if n == 0 then w else Next(Crossed(w, n - 1), CROSSING[n - 1])
  }

  lemma {:induction false} CrossedRun(w: World, n: nat)
    requires n <= 4
    ensures R.Run(w, CROSSING[..n]) == Crossed(w, n)
  {
    hide Next;
    if n > 0 {
      CrossedRun(w, n - 1);
      assert CROSSING[..n][..n - 1] == CROSSING[..n - 1];
    }
  }

  lemma CrossedIsSmooth(w: World)
    requires Opposed(w)
    ensures var w4 := Crossed(w, 4);
            && Smooth(w4) && w4.ctl.pc.Finalizer? && w4.ctl.spec == w.spec && w4.lister.Resting?
            && w4.spec == w.spec.(admin := ToApi(Opposite(ToDevice(w.spec.admin).value))) && w4.dev == w.dev
    ensures forall i :: 0 <= i < 4 ==> Crossed(w, i).spec == w.spec && Crossed(w, i).dev == w.dev
  {
    hide PortKey, StateKey, ReadPort, WritePort, NativeToAbstract, ReadNeighbor;
    var w1 := Next(w, CROSSING[0]);
    var w2 := Next(w1, CROSSING[1]);
    var w3 := Next(w2, CROSSING[2]);
    assert Crossed(w, 1) == w1;
    assert Crossed(w, 2) == w2;
    assert Crossed(w, 3) == w3;
  }

  /** The reconcile applies what it fetched: now the spec is the old device value and the device has the old spec. */
  lemma CrossedEndIsOpposed(w: World, w5: World)
    requires Smooth(w5) && w5.ctl.pc == Patch(false) && w5.lister.Resting? && w5.ctl.spec == w.spec
    requires ToDevice(w.spec.admin).Some?
    requires w5.spec == w.spec.(admin := ToApi(Opposite(ToDevice(w.spec.admin).value)))
    ensures Opposed(Next(Next(w5, Controller(Ok)), DeviceSync))
    ensures !ValuesAgree(Next(w5, Controller(Ok)))
  {
    hide PortKey, StateKey, AbstractToNative, ResolvePort, NativeToAbstract, ReadNeighbor, Oper;
  }

  lemma OpposedDisagrees(w: World)
    requires Opposed(w)
    ensures ToDevice(w.spec.admin).Some? && ToApi(Opposite(ToDevice(w.spec.admin).value)) != w.spec.admin
    ensures !ValuesAgree(w)
  {
    hide PortKey, StateKey, Named, NeighborReadable;
  }

  /** While an error-free reconcile of another value is under way there is no agreement. */
  lemma StaleReconcileDisagrees(w: World)
    requires Smooth(w) && !w.ctl.pc.Idle? && w.ctl.spec == w.spec.(admin := w.ctl.spec.admin)
    requires w.ctl.spec.admin != w.spec.admin
    ensures !Agreed(w)
  {
    hide PortKey, StateKey, NativeToAbstract, AbstractToNative, ResolvePort, NeighborReadable;
  }

  // ---------- counting ----------

  ghost predicate NeverAgrees(w: World, es: seq<Event>) {
    forall i :: 0 <= i <= |es| ==> !Agreed(R.Run(w, es[..i]))
  }

  lemma NeverAgreesConcat(w: World, a: seq<Event>, b: seq<Event>)
    requires NeverAgrees(w, a) && NeverAgrees(R.Run(w, a), b)
    ensures NeverAgrees(w, a + b)
  {
    hide Agreed, R.Run;
    forall i | 0 <= i <= |a + b| ensures !Agreed(R.Run(w, (a + b)[..i])) {
      if i <= |a| {
        assert (a + b)[..i] == a[..i];
      } else {
        assert (a + b)[..i] == a + b[..i - |a|];
        R.RunConcat(w, a, b[..i - |a|]);
      }
    }
  }

  /** How often the admin state of the spec changes during a run. */
  function SpecChanges(w: World, es: seq<Event>): nat {
    if es == [] then 0
    else
      var init := es[..|es| - 1];
      SpecChanges(w, init) + if R.Run(w, es).spec.admin != R.Run(w, init).spec.admin then 1 else 0
  }

  lemma {:induction false} SpecChangesConcat(w: World, a: seq<Event>, b: seq<Event>)
    ensures SpecChanges(w, a + b) == SpecChanges(w, a) + SpecChanges(R.Run(w, a), b)
    decreases |b|
  {
    hide R.Run;
    if b == [] {
      assert a + b == a;
    } else {
      var init := b[..|b| - 1];
      assert (a + b)[..|a + b| - 1] == a + init;
      SpecChangesConcat(w, a, init);
      R.RunConcat(w, a, b);
      R.RunConcat(w, a, init);
    }
  }

  lemma {:induction false} NoSpecChange(w: World, es: seq<Event>)
    requires forall i :: 0 <= i <= |es| ==> R.Run(w, es[..i]).spec == w.spec
    ensures SpecChanges(w, es) == 0
  {
    hide R.Run;
    if es != [] {
      var init := es[..|es| - 1];
      assert es[..|es|] == es;
      assert forall i :: 0 <= i <= |init| ==> init[..i] == es[..i];
      NoSpecChange(w, init);
    }
  }

  // ---------- one round, and all rounds ----------

  /** Before the reconcile moves: the values are opposed, then the reconcile is stale. */
  lemma CrossingDisagrees(w: World)
    requires Opposed(w)
    ensures NeverAgrees(w, CROSSING) && SpecChanges(w, CROSSING) == 1
  {
    hide Opposed, Smooth, Next, Agreed, R.Run, ValuesAgree;
    CrossedIsSmooth(w);
    OpposedDisagrees(w);
    forall i | 0 <= i <= 4 ensures !Agreed(R.Run(w, CROSSING[..i])) {
      CrossedRun(w, i);
      if i == 4 {
        StaleReconcileDisagrees(Crossed(w, 4));
      } else {
        SameDisagreement(w, Crossed(w, i));
      }
    }
    CrossedRun(w, 3);
    CrossedRun(w, 4);
    assert CROSSING[..4] == CROSSING;
    forall i | 0 <= i <= 3 ensures R.Run(w, CROSSING[..3][..i]).spec == w.spec {
      CrossedRun(w, i);
      assert CROSSING[..3][..i] == CROSSING[..i];
    }
    NoSpecChange(w, CROSSING[..3]);
  }

  lemma SameDisagreement(w: World, w': World)
    requires !ValuesAgree(w) && w'.spec == w.spec && w'.dev == w.dev
    ensures !Agreed(w')
  {
    hide AgreeOnDevice;
  }

  /** The reconcile goes on alone from there to its patch. */
  lemma StaleAloneDisagrees(w: World, n: nat)
    requires Smooth(w) && n <= WHOLE && EndsAfter(w, OkSteps(WHOLE), n)
    requires w.ctl.spec == w.spec.(admin := w.ctl.spec.admin) && w.ctl.spec.admin != w.spec.admin
    ensures NeverAgrees(w, OkSteps(n)) && SpecChanges(w, OkSteps(n)) == 0
  {
    hide Smooth, Agreed, R.Run, LastWritten;
    forall i | 0 <= i <= n
      ensures !Agreed(R.Run(w, OkSteps(n)[..i])) && R.Run(w, OkSteps(n)[..i]).spec == w.spec
    {
      assert OkSteps(n)[..i] == OkSteps(i) && OkSteps(WHOLE)[..i] == OkSteps(i);
      AloneFrame(w, i);
      StaleReconcileDisagrees(R.Run(w, OkSteps(i)));
    }
    NoSpecChange(w, OkSteps(n));
  }

  /** The patch and the device step. */
  lemma TailDisagrees(w: World, w5: World)
    requires Smooth(w5) && w5.ctl.pc == Patch(false) && w5.lister.Resting? && w5.ctl.spec == w.spec
    requires ToDevice(w.spec.admin).Some?
    requires w5.spec == w.spec.(admin := ToApi(Opposite(ToDevice(w.spec.admin).value))) && w5.spec.admin != w.spec.admin
    ensures var tail := [Controller(Ok), DeviceSync];
            && NeverAgrees(w5, tail) && SpecChanges(w5, tail) == 0
            && Opposed(R.Run(w5, tail)) && R.Run(w5, tail).spec == w5.spec
  {
    hide Smooth, Agreed, R.Run, Opposed, CtlStep, Sync, ToDevice, ToApi, Opposite;
    var tail := [Controller(Ok), DeviceSync];
    var w6 := Next(w5, Controller(Ok));
    var w7 := Next(w6, DeviceSync);
    NothingDone(w5);
    RunOne(w5, Controller(Ok));
    R.RunSnoc(w5, [Controller(Ok)], DeviceSync);
    assert [Controller(Ok)] + [DeviceSync] == tail;
    assert tail[..0] == [] && tail[..1] == [Controller(Ok)] && tail[..2] == tail;
    CtlStepFrame(w5, Ok);
    CrossedEndIsOpposed(w, w5);
    StaleReconcileDisagrees(w5);
    OpposedDisagrees(w7);
    SameDisagreement(w6, w6);
    SameDisagreement(w7, w7);
    NoSpecChange(w5, tail);
  }

  /** A reconcile that overlaps a list swaps spec and device: one change of the spec, no agreement at any moment. */
  lemma CrossedReconcile(w: World) returns (es: seq<Event>)
    requires Opposed(w)
    ensures forall i :: 0 <= i < |es| ==> Regular(es[i])
    ensures Opposed(R.Run(w, es)) && NeverAgrees(w, es) && SpecChanges(w, es) == 1
    ensures R.Run(w, es).spec == w.spec.(admin := ToApi(Opposite(ToDevice(w.spec.admin).value)))
  {
    hide Opposed, Smooth, Next, Agreed, R.Run, NeverAgrees, SpecChanges, Crossed, ToDevice, ToApi, Opposite,
      LastWritten;
    CrossedIsSmooth(w);
    OpposedDisagrees(w);
    CrossingDisagrees(w);
    CrossedRun(w, 4);
    assert CROSSING[..4] == CROSSING;
    var w4 := Crossed(w, 4);
    OkStepsCount(WHOLE);
    var n := SmoothRunEnds(w4, OkSteps(WHOLE));
    assert OkSteps(WHOLE)[..n] == OkSteps(n);
    StaleAloneDisagrees(w4, n);
    var w5 := R.Run(w4, OkSteps(n));
    AloneFrame(w4, n);
    SmoothEnd(w5);
    ReadableStays(w, w5);
    TailDisagrees(w, w5);
    var tail := [Controller(Ok), DeviceSync];
    es := CROSSING + OkSteps(n) + tail;
    R.RunConcat(w, CROSSING, OkSteps(n));
    R.RunConcat(w, CROSSING + OkSteps(n), tail);
    NeverAgreesConcat(w, CROSSING, OkSteps(n));
    NeverAgreesConcat(w, CROSSING + OkSteps(n), tail);
    SpecChangesConcat(w, CROSSING, OkSteps(n));
    SpecChangesConcat(w, CROSSING + OkSteps(n), tail);
  }

  lemma ReadableStays(w: World, w': World)
    requires Opposed(w) && w'.dev.appl == w.dev.appl
    ensures NeighborReadable(w'.dev.appl, w.spec.native)
  {
    hide Workable, NeighborReadable, Has;
  }

  /** Without a user edit and without a single error, spec and device can swap their values any number of times and
      never agree in between: a reconcile that overlaps a list exchanges the two values instead of aligning them. */
  lemma {:induction false} ControllersCanChaseForever(w: World, rounds: nat) returns (es: seq<Event>)
    requires Opposed(w)
    ensures forall i :: 0 <= i < |es| ==> Regular(es[i])
    ensures forall i :: 0 <= i <= |es| ==> !Agreed(R.Run(w, es[..i]))
    ensures SpecChanges(w, es) == rounds && Opposed(R.Run(w, es))
    decreases rounds
  {
    hide Opposed, Agreed, R.Run, SpecChanges, Regular;
    if rounds == 0 {
      es := [];
      OpposedDisagrees(w);
      SameDisagreement(w, w);
      NothingDone(w);
      NoChangeAtAll(w);
    } else {
      var first := CrossedReconcile(w);
      var rest := ControllersCanChaseForever(R.Run(w, first), rounds - 1);
      R.RunConcat(w, first, rest);
      es := first + rest;
      NeverAgreesConcat(w, first, rest);
      SpecChangesConcat(w, first, rest);
    }
  }

  lemma NoChangeAtAll(w: World)
    ensures SpecChanges(w, []) == 0
  {
  }

  // ---------- such worlds exist, for every port ----------

  /** A world at rest for port `n`, as `EnsureInterface` published it, with the given spec and device values. */
  function PortAtRest(n: int, admin: string, status: string): World {
    var native, handle := NativeName(n), AbstractNameOf(n);
    var config := map[PortKey(native) := map["alias" := handle, "admin_status" := status]];
    var spec := Spec(handle, native, true, admin);
    World(spec, Status("Ready", admin, "Down", NO_NEIGHBOR), true,
          Device(config, config, map[StateKey(native) := map["admin_status" := status]], map[]),
          Ctl(spec, Status("", "", "", NO_NEIGHBOR), Status("", "", "", NO_NEIGHBOR), Idle, "down", "down", ""),
          Resting)
  }

  lemma NamedAtRest(n: int, admin: string)
    requires IsInt64(n)
    ensures Named(Spec(AbstractNameOf(n), NativeName(n), true, admin))
  {
    hide NativeToAbstract, AbstractToNative, ResolvePort, AbstractNameOf, NativeName;
    NativeRoundTrip(n);
    assert Canonical(NativeName(n));
    PublishedNamesIff(NativeName(n), true, admin);
  }

  /** Every 64-bit port number has an agreed world for Up and for Down, and an opposed one for each. */
  lemma EveryPortCanAgreeOrOppose(n: int, up: bool)
    requires IsInt64(n)
    ensures Agreed(PortAtRest(n, if up then "Up" else "Down", if up then "up" else "down"))
    ensures Opposed(PortAtRest(n, if up then "Up" else "Down", if up then "down" else "up"))
  {
    hide Named, NativeName, AbstractNameOf, PortKey, StateKey, NativeToAbstract, ReadPort, WritePort;
    NamedAtRest(n, if up then "Up" else "Down");
  }
}
