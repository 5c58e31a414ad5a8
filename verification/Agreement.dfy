/** When spec, CONFIG_DB and STATE_DB of a port agree, which events keep it so, and which worlds can lose it. */
module Agreement {
  import opened Text
  import opened AgentSet
  import opened InterfaceNames
  import R = Reconcile
  import opened Reconcile

  /** Handle and native name denote the same port, as `EnsureInterface` publishes them. */
  predicate Named(spec: Spec) {
    && NativeToAbstract(spec.native) == Some(spec.handle)
    && ReadPort(spec) == Some(spec.native) && WritePort(spec) == Some(spec.native)
  }

  /** Published names are of that kind exactly when the CONFIG_DB key was canonical. */
  lemma PublishedNamesIff(native: string, hasRef: bool, admin: string)
    requires NativeToAbstract(native).Some?
    ensures Named(Spec(NativeToAbstract(native).value, native, hasRef, admin)) <==> Canonical(native)
  {
    ReadAndWriteSamePortIff(native);
  }

  /** The four values agree: spec, CONFIG_DB and STATE_DB on the admin status, and the alias on the handle. */
  predicate AgreeOnDevice(dev: Device, spec: Spec) {
    && ToDevice(spec.admin).Some?
    && Has(dev.config, PortKey(spec.native), "admin_status", ToDevice(spec.admin).value)
    && Has(dev.config, PortKey(spec.native), "alias", spec.handle)
    && Has(dev.state, StateKey(spec.native), "admin_status", ToDevice(spec.admin).value)
  }

  predicate ValuesAgree(w: World) {
    AgreeOnDevice(w.dev, w.spec)
  }

  /** The keys and fields of the four values. */
  lemma ValuesAgreeIff(w: World)
    ensures ValuesAgree(w) <==>
            (&& (w.spec.admin == "Up" || w.spec.admin == "Down")
             && (var value := if w.spec.admin == "Up" then "up" else "down";
                 && Has(w.dev.config, "PORT|" + w.spec.native, "admin_status", value)
                 && Has(w.dev.config, "PORT|" + w.spec.native, "alias", w.spec.handle)
                 && Has(w.dev.state, "PORT_TABLE|" + w.spec.native, "admin_status", value)))
  {
  }

  /** A published object whose reconcile, if one is running, is of that object, perhaps with another admin state. */
  predicate Paired(w: World) {
    && Named(w.spec) && w.spec.hasRef && CtlInv(w.dev, w.ctl)
    && (!w.ctl.pc.Idle? ==> w.ctl.spec == w.spec.(admin := w.ctl.spec.admin))
  }

  // ---------- what is in flight ----------

  /** The running reconcile would push another admin state than the spec has now. */
  predicate Stale(c: Ctl, spec: Spec) {
    ToDevice(c.spec.admin).Some? && c.spec.admin != spec.admin
  }

  /** The agreed value of the field a Set call is about. */
  function AgreedValue(spec: Spec, kind: Kind): string {
    if kind.Alias? then spec.handle else if ToDevice(spec.admin).Some? then ToDevice(spec.admin).value else ""
  }

  /** The call may still roll back to the value it kept. */
  predicate MayUndo(p: Phase) {
    p in {Write, Save, UndoSave, Exists, Connect2, Check, UndoCheck}
  }

  predicate MaySucceed(p: Phase) {
    p !in {UndoSave, UndoCheck} && (p.Done? ==> p.code == 0)
  }

  /** Neither the write nor a rollback of the call changes the field from `v`. */
  predicate CallSafe(call: Call, v: string) {
    && (call.phase in {Connect, Read, Write} ==> call.value == v)
    && (MayUndo(call.phase) ==> call.prev == v)
  }

  /** Nothing the running reconcile can still do ends agreement. */
  predicate InFlightHarmless(w: World) {
    var c := w.ctl;
    match c.pc
    case Finalizer => w.finalized && c.status.state != "" ==> !Stale(c, w.spec)
    case Setting(call) =>
      && CallSafe(call, AgreedValue(w.spec, call.kind))
      && (call.kind.Alias? && MaySucceed(call.phase) ==> !Stale(c, w.spec))
    case _ => Reading(c.pc) ==> !Stale(c, w.spec)
  }

  predicate Reading(pc: Pc) {
    pc in {NewClient, GetConnect, GetExists, GetState, GetApplConnect, GetAppl, GetLink, GetAlias, GetReturn}
  }

  /** The four values agree, and neither the running reconcile nor a list in the Switch controller's hands can end
      that. */
  predicate Agreed(w: World) {
    && Paired(w) && ValuesAgree(w) && InFlightHarmless(w)
    && (w.lister.Holding? ==> ToApi(w.lister.admin) == w.spec.admin)
  }

  /** The only events that end agreement: an edit to another value, and a list whose STATE_DB read of an
      up port fails and is taken for `down`. */
  predicate Disturbs(w: World, e: Event) {
    || (e.UserEdit? && e.admin != w.spec.admin)
    || (e.ListPort? && w.lister.Listing? && !e.stateOk && e.restOk && w.spec.admin == "Up")
  }

  // ---------- pairing holds in every run ----------

  lemma StepFrame(dev: Device, call: Call, r: Reply)
    ensures Step(dev, call, r).0.state == dev.state && Step(dev, call, r).0.appl == dev.appl
  {
    hide Put, Lookup, Oper, HasField, PortKey, FieldName;
  }

  /** A controller step changes neither the spec nor the Switch controller nor the databases the device owns. */
  lemma CtlStepFrame(w: World, r: Reply)
    ensures var w' := CtlStep(w, r);
            && w'.spec == w.spec && w'.lister == w.lister && w'.dev.state == w.dev.state && w'.dev.appl == w.dev.appl
            && (w.finalized ==> w'.finalized)
            && (!w'.ctl.pc.Idle? ==> w'.ctl.spec == if w.ctl.pc.Idle? then w.spec else w.ctl.spec)
  {
    hide Step, Lookup, Oper, HasField, PortKey, FieldName, ReadPort, WritePort, ReadNeighbor, AdminOf, ToDevice, ToApi;
    if w.ctl.pc.Setting? {
      StepFrame(w.dev, w.ctl.pc.call, r);
    }
  }

  /** No event at all breaks the pairing, so every world reached from a published object at rest is paired. */
  lemma PairedKept(w: World, e: Event)
    requires Paired(w)
    ensures Paired(Next(w, e))
  {
    hide CtlStep, CtlInv, NativeToAbstract, AbstractToNative, ResolvePort, Sync, List;
    NextKeepsCtlInv(w, e);
    if e.Controller? {
      CtlStepFrame(w, e.reply);
    }
  }

  lemma {:induction false} PairedOverRuns(w: World, es: seq<Event>)
    requires Paired(w)
    ensures Paired(R.Run(w, es))
  {
    hide Paired, Next;
    if es != [] {
      PairedOverRuns(w, es[..|es| - 1]);
      PairedKept(R.Run(w, es[..|es| - 1]), es[|es| - 1]);
    }
  }

  // ---------- exchanges of the reconcile ----------

  lemma SafeCallStep(dev: Device, call: Call, r: Reply, v: string)
    requires Has(dev.config, PortKey(call.port), FieldName(call.kind), v) && CallSafe(call, v) && CallInv(dev, call)
    ensures Step(dev, call, r).0.config == dev.config && Step(dev, call, r).0.state == dev.state
    ensures CallSafe(Step(dev, call, r).1, v)
  {
    hide Put, Oper, PortKey, FieldName;
    PutSame(dev.config, PortKey(call.port), FieldName(call.kind), v);
  }

  /** A running Set call is on the agreed port and its field holds the agreed value. */
  lemma SettingFacts(w: World)
    requires Paired(w) && ValuesAgree(w) && w.ctl.pc.Setting?
    ensures var call := w.ctl.pc.call;
            && call.port == w.spec.native && CallInv(w.dev, call)
            && Has(w.dev.config, PortKey(call.port), FieldName(call.kind), AgreedValue(w.spec, call.kind))
            && (call.kind.Alias? ==> call.value == w.spec.handle)
            && (call.kind.Admin? ==> ToDevice(w.ctl.spec.admin) == Some(call.value))
  {
    hide PortKey, StateKey, CallInv, NativeToAbstract, AbstractToNative, ResolvePort, ToDevice, HasField;
  }

  lemma SameValues(dev: Device, dev': Device, spec: Spec)
    requires AgreeOnDevice(dev, spec) && dev'.config == dev.config && dev'.state == dev.state
    ensures AgreeOnDevice(dev', spec)
  {
  }

  lemma SettingStepAgrees(w: World, r: Reply)
    requires Agreed(w) && w.ctl.pc.Setting? && !w.ctl.pc.call.phase.Done?
    ensures Agreed(CtlStep(w, r))
  {
    hide Paired, AgreeOnDevice, Step, CallSafe, AgreedValue, PortKey, FieldName, Has, ToApi, ToDevice;
    var call := w.ctl.pc.call;
    PairedKept(w, Controller(r));
    SettingFacts(w);
    SafeCallStep(w.dev, call, r, AgreedValue(w.spec, call.kind));
    SameValues(w.dev, CtlStep(w, r).dev, w.spec);
    StepKeepsRequest(w.dev, call, r);
    SuccessStays(w.dev, call, r);
  }

  lemma SuccessStays(dev: Device, call: Call, r: Reply)
    requires !call.phase.Done?
    ensures MaySucceed(Step(dev, call, r).1.phase) ==> MaySucceed(call.phase)
  {
    hide Put, Lookup, Oper, HasField, PortKey, FieldName;
  }

  lemma SetReturnAgrees(w: World, r: Reply)
    requires Agreed(w) && w.ctl.pc.Setting? && w.ctl.pc.call.phase.Done?
    ensures Agreed(CtlStep(w, r))
  {
    hide Paired, AgreeOnDevice, CallInv, PortKey, FieldName, Has, ResolvePort, ToApi, Step;
    PairedKept(w, Controller(r));
    SettingFacts(w);
    PushFacts(w);
  }

  /** Requesting the admin status of a reconcile that is not stale requests the agreed one. */
  lemma PushFacts(w: World)
    requires Paired(w) && ValuesAgree(w)
    ensures ToDevice(w.spec.admin).Some?
    ensures !w.ctl.pc.Idle? && !Stale(w.ctl, w.spec) && ToDevice(w.ctl.spec.admin).Some? ==>
              w.ctl.spec.admin == w.spec.admin
    ensures w.ctl.pc.GetReturn? ==> w.ctl.seenAlias == w.ctl.spec.handle
  {
    hide PortKey, StateKey, NativeToAbstract, AbstractToNative, ResolvePort;
  }

  lemma GetReturnAgrees(w: World, r: Reply)
    requires Agreed(w) && w.ctl.pc.GetReturn?
    ensures Agreed(CtlStep(w, r))
  {
    hide Paired, AgreeOnDevice, CallInv, PortKey, FieldName, Has, AbstractToNative, ResolvePort, ToApi, Step;
    PairedKept(w, Controller(r));
    PushFacts(w);
  }

  lemma ReadingStepAgrees(w: World, r: Reply)
    requires Agreed(w) && !w.ctl.pc.GetReturn? && (w.ctl.pc.Finalizer? || Reading(w.ctl.pc))
    ensures Agreed(CtlStep(w, r))
  {
    hide Paired, AgreeOnDevice, PortKey, ReadPort, WritePort, Oper, AdminOf, Step, Lookup, HasField, ToDevice, ToApi,
      RequestAdmin;
    PairedKept(w, Controller(r));
  }

  lemma OtherStepAgrees(w: World, r: Reply)
    requires Agreed(w) && !w.ctl.pc.Setting? && !w.ctl.pc.Finalizer? && !Reading(w.ctl.pc)
    ensures Agreed(CtlStep(w, r))
  {
    hide Paired, AgreeOnDevice, PortKey, ReadPort, WritePort, ReadNeighbor, ToDevice, ToApi, RequestAdmin, Step;
    PairedKept(w, Controller(r));
  }

  lemma ControllerStepAgrees(w: World, r: Reply)
    requires Agreed(w)
    ensures Agreed(CtlStep(w, r))
  {
    hide Agreed, CtlStep;
    if w.ctl.pc.Setting? && !w.ctl.pc.call.phase.Done? {
      SettingStepAgrees(w, r);
    } else if w.ctl.pc.Setting? {
      SetReturnAgrees(w, r);
    } else if w.ctl.pc.GetReturn? {
      GetReturnAgrees(w, r);
    } else if w.ctl.pc.Finalizer? || Reading(w.ctl.pc) {
      ReadingStepAgrees(w, r);
    } else {
      OtherStepAgrees(w, r);
    }
  }

  // ---------- everyone else ----------

  lemma ListerStepAgrees(w: World, e: Event)
    requires Agreed(w) && (e.ListBegin? || e.ListPort? || e.ApplySpec?)
    ensures Agreed(Next(w, e)) <==> !Disturbs(w, e)
  {
    hide CtlInv, InFlightHarmless, PortKey, StateKey, AbstractToNative, ResolvePort, NativeToAbstract;
    assert AdminOf(w.dev.state, w.spec.native) == ToDevice(w.spec.admin).value;
    assert ToApi(ToDevice(w.spec.admin).value) == w.spec.admin;
    SameInFlight(w, Next(w, e));
  }

  /** What is in flight depends on spec, finalizer and reconcile only. */
  lemma SameInFlight(w: World, w': World)
    requires w'.spec == w.spec && w'.finalized == w.finalized && w'.ctl == w.ctl
    ensures InFlightHarmless(w) == InFlightHarmless(w')
  {
  }

  lemma EditAgreesIff(w: World, admin: string)
    requires Agreed(w)
    ensures Agreed(Next(w, UserEdit(admin))) <==> admin == w.spec.admin
  {
    hide CtlInv, InFlightHarmless, PortKey, StateKey, NativeToAbstract, AbstractToNative, ResolvePort;
    if admin == w.spec.admin {
      assert Next(w, UserEdit(admin)) == w;
    }
  }

  lemma DeviceStepAgrees(w: World)
    requires Agreed(w)
    ensures Agreed(Next(w, DeviceSync))
  {
    hide PortKey, StateKey, Named, Put, CtlInv, InFlightHarmless;
    PutSame(w.dev.state, StateKey(w.spec.native), "admin_status", ToDevice(w.spec.admin).value);
    assert Next(w, DeviceSync) == w;
  }

  /** Agreement survives an event exactly when the event is not one of the two that disturb it: every exchange of a
      reconcile, with every failure and rollback, every step of the Switch controller and of the device keeps it. */
  lemma AgreementKeptIff(w: World, e: Event)
    requires Agreed(w)
    ensures Agreed(Next(w, e)) <==> !Disturbs(w, e)
  {
    hide Agreed, CtlStep;
    match e
    case UserEdit(admin) => EditAgreesIff(w, admin);
    case Controller(r) => ControllerStepAgrees(w, r);
    case DeviceSync => DeviceStepAgrees(w);
    case _ => ListerStepAgrees(w, e);
  }

  ghost predicate Undisturbed(w: World, es: seq<Event>) {
    forall i :: 0 <= i < |es| ==> !Disturbs(R.Run(w, es[..i]), es[i])
  }

  /** Over every undisturbed run, of any length and interleaving, agreement holds. */
  lemma {:induction false} AgreementOverRuns(w: World, es: seq<Event>)
    requires Agreed(w) && Undisturbed(w, es)
    ensures Agreed(R.Run(w, es))
  {
    hide Agreed, Next, Disturbs;
    if es != [] {
      var init := es[..|es| - 1];
      assert forall i :: 0 <= i < |init| ==> es[..i] == init[..i] && es[i] == init[i];
      AgreementOverRuns(w, init);
      AgreementKeptIff(R.Run(w, init), es[|es| - 1]);
    }
  }

  /** One failed STATE_DB read while listing an agreed up port makes the Switch controller set its spec to Down:
      no user asked for it, and no call reported an error. */
  lemma FailedStateReadTurnsSpecDown(w: World)
    requires Agreed(w) && w.spec.admin == "Up" && w.lister.Resting?
    ensures R.Run(w, [ListBegin, ListPort(false, true), ApplySpec(true)]).spec == w.spec.(admin := "Down")
  {
    hide PortKey, StateKey, ReadPort, WritePort, NativeToAbstract, CtlStep, CtlInv, InFlightHarmless;
    var es := [ListBegin, ListPort(false, true), ApplySpec(true)];
    var w1 := Next(w, es[0]);
    var w2 := Next(w1, es[1]);
    var w3 := Next(w2, es[2]);
    R.RunSnoc(w, [], es[0]);
    R.RunSnoc(w, [es[0]], es[1]);
    R.RunSnoc(w, [es[0], es[1]], es[2]);
    assert [] + [es[0]] == [es[0]] && [es[0]] + [es[1]] == [es[0], es[1]] && [es[0], es[1]] + [es[2]] == es;
    assert R.Run(w, es) == w3;
  }

  // ---------- agreement is exactly what undisturbed runs cannot lose ----------

  /** Bounds the exchanges left to a reconcile. */
  function Rank(pc: Pc): nat {
    match pc
    case Idle => 0 case Patch(_) => 1
    case NeighReturn(_) => 2 case NeighRead => 3 case NeighExists => 4 case NeighConnect => 5
    case Setting(call) => (if call.kind.Admin? then 10 else 30) + PhaseRank(call.phase)
    case GetReturn => 50 case GetAlias => 51 case GetLink => 52 case GetAppl => 53 case GetApplConnect => 54
    case GetState => 55 case GetExists => 56 case GetConnect => 57 case NewClient => 58 case Finalizer => 59
  }

  /** The values still agree, but the running reconcile can end that. */
  predicate Endangered(w: World) {
    Paired(w) && ValuesAgree(w) && !InFlightHarmless(w)
  }

  /** The reply that brings the loss nearer: a failed save or check where a rollback does harm, else success. */
  function HarmfulReply(w: World): Reply {
    if w.ctl.pc.Setting? && w.ctl.pc.call.phase in {Save, Check}
       && w.ctl.pc.call.prev != AgreedValue(w.spec, w.ctl.pc.call.kind) then Err else Ok
  }

  lemma UnsafeCallStep(dev: Device, call: Call, v: string)
    requires Has(dev.config, PortKey(call.port), FieldName(call.kind), v) && !CallSafe(call, v)
    ensures var r := if call.phase in {Save, Check} && call.prev != v then Err else Ok;
            var (dev', call') := Step(dev, call, r);
            || !Has(dev'.config, PortKey(call.port), FieldName(call.kind), v)
            || (dev'.config == dev.config && dev'.state == dev.state && !CallSafe(call', v)
                && PhaseRank(call'.phase) < PhaseRank(call.phase))
  {
    hide Oper, PortKey, FieldName, Put;
    PutSame(dev.config, PortKey(call.port), FieldName(call.kind), v);
  }

  lemma AgreedField(dev: Device, spec: Spec, kind: Kind)
    requires AgreeOnDevice(dev, spec)
    ensures Has(dev.config, PortKey(spec.native), FieldName(kind), AgreedValue(spec, kind))
  {
  }

  lemma UnsafeCallEndangers(w: World)
    requires Endangered(w) && w.ctl.pc.Setting? && !CallSafe(w.ctl.pc.call, AgreedValue(w.spec, w.ctl.pc.call.kind))
    ensures var w' := CtlStep(w, HarmfulReply(w));
            !ValuesAgree(w') || (Endangered(w') && Rank(w'.ctl.pc) < Rank(w.ctl.pc))
  {
    hide Paired, AgreeOnDevice, Step, CallSafe, AgreedValue, PortKey, FieldName, Has, PhaseRank, Stale;
    var call, r := w.ctl.pc.call, HarmfulReply(w);
    UnfinishedCall(call, AgreedValue(w.spec, call.kind));
    PairedKept(w, Controller(r));
    SettingFacts(w);
    UnsafeCallStep(w.dev, call, AgreedValue(w.spec, call.kind));
    StepKeepsRequest(w.dev, call, r);
    var w' := CtlStep(w, r);
    if ValuesAgree(w') {
      AgreedField(w'.dev, w'.spec, call.kind);
    }
  }

  lemma UnfinishedCall(call: Call, v: string)
    requires !CallSafe(call, v)
    ensures !call.phase.Done?
  {
  }

  /** A stale reconcile that sets the alias first goes on to push its admin state. */
  lemma AliasCallStep(dev: Device, call: Call, v: string)
    requires Has(dev.config, PortKey(call.port), "alias", v) && CallSafe(call, v) && CallInv(dev, call)
    requires call.kind.Alias? && MaySucceed(call.phase) && !call.phase.Done?
    ensures var (dev', call') := Step(dev, call, Ok);
            MaySucceed(call'.phase) && PhaseRank(call'.phase) < PhaseRank(call.phase)
  {
    hide Oper, Put, PortKey;
  }

  lemma StaleAliasEndangers(w: World)
    requires Endangered(w) && w.ctl.pc.Setting? && CallSafe(w.ctl.pc.call, AgreedValue(w.spec, w.ctl.pc.call.kind))
    requires !w.ctl.pc.call.phase.Done?
    ensures HarmfulReply(w).Ok?
    ensures var w' := CtlStep(w, Ok); Endangered(w') && Rank(w'.ctl.pc) < Rank(w.ctl.pc)
  {
    hide Paired, AgreeOnDevice, Step, PortKey, Has, PhaseRank, Stale, ToDevice;
    var call := w.ctl.pc.call;
    PairedKept(w, Controller(Ok));
    SettingFacts(w);
    SafeCallStep(w.dev, call, Ok, AgreedValue(w.spec, call.kind));
    AliasCallStep(w.dev, call, AgreedValue(w.spec, call.kind));
    StepKeepsRequest(w.dev, call, Ok);
    SameValues(w.dev, CtlStep(w, Ok).dev, w.spec);
    assert CtlStep(w, Ok).ctl.spec == w.ctl.spec && CtlStep(w, Ok).spec == w.spec;
    StaleSame(w.ctl, CtlStep(w, Ok).ctl, w.spec);
  }

  lemma StaleSame(c: Ctl, c': Ctl, spec: Spec)
    requires c'.spec == c.spec
    ensures Stale(c, spec) == Stale(c', spec)
  {
  }

  lemma StaleReturnEndangers(w: World)
    requires Endangered(w) && (w.ctl.pc.GetReturn? || (w.ctl.pc.Setting? && w.ctl.pc.call.phase.Done?))
    ensures HarmfulReply(w).Ok?
    ensures var w' := CtlStep(w, Ok); Endangered(w') && Rank(w'.ctl.pc) < Rank(w.ctl.pc)
  {
    hide AgreeOnDevice, CtlInv, PortKey, FieldName, Has, AbstractToNative, NativeToAbstract, ResolvePort, ToApi, Step;
    PairedKept(w, Controller(Ok));
    PushFacts(w);
    StaleValues(w.ctl, w.spec);
  }

  lemma StaleValues(c: Ctl, spec: Spec)
    requires ToDevice(spec.admin).Some?
    ensures Stale(c, spec) ==> ToDevice(c.spec.admin) != ToDevice(spec.admin)
  {
  }

  lemma PortThere(w: World)
    requires Paired(w) && ValuesAgree(w)
    ensures PortKey(w.spec.native) in w.dev.config && HasField(w.dev.config, PortKey(w.spec.native), "alias")
    ensures !w.ctl.pc.Idle? ==> ReadPort(w.ctl.spec) == Some(w.spec.native) && w.ctl.spec.hasRef
  {
    hide PortKey, StateKey, CtlInv, NativeToAbstract, ResolvePort;
  }

  lemma StaleReadEndangers(w: World)
    requires Endangered(w) && !w.ctl.pc.Setting? && !w.ctl.pc.GetReturn?
    ensures HarmfulReply(w).Ok?
    ensures var w' := CtlStep(w, Ok); Endangered(w') && Rank(w'.ctl.pc) < Rank(w.ctl.pc)
  {
    hide Paired, AgreeOnDevice, PortKey, ReadPort, WritePort, HasField, Oper, AdminOf, Lookup, ToDevice, Step,
      RequestAdmin;
    PairedKept(w, Controller(Ok));
    PortThere(w);
  }

  lemma HarmStep(w: World)
    requires Endangered(w)
    ensures var w' := CtlStep(w, HarmfulReply(w));
            !ValuesAgree(w') || (Endangered(w') && Rank(w'.ctl.pc) < Rank(w.ctl.pc))
  {
    hide Endangered, CtlStep, HarmfulReply, CallSafe, AgreedValue, Rank, ValuesAgree;
    if w.ctl.pc.Setting? && !CallSafe(w.ctl.pc.call, AgreedValue(w.spec, w.ctl.pc.call.kind)) {
      UnsafeCallEndangers(w);
    } else if w.ctl.pc.Setting? && !w.ctl.pc.call.phase.Done? {
      StaleAliasEndangers(w);
    } else if w.ctl.pc.GetReturn? || w.ctl.pc.Setting? {
      StaleReturnEndangers(w);
    } else {
      StaleReadEndangers(w);
    }
  }

  /** A run of exchanges of the reconcile alone that ends agreement. */
  lemma {:induction false} LosingRun(w: World) returns (es: seq<Event>)
    requires Endangered(w)
    ensures Undisturbed(w, es) && !ValuesAgree(R.Run(w, es))
    ensures forall i :: 0 <= i < |es| ==> es[i].Controller?
    decreases Rank(w.ctl.pc)
  {
    hide Endangered, CtlStep, HarmfulReply, ValuesAgree, Rank, R.Run;
    HarmStep(w);
    var e := Controller(HarmfulReply(w));
    RunOne(w, e);
    es := [e];
    if ValuesAgree(R.Run(w, es)) {
      var rest := LosingRun(CtlStep(w, HarmfulReply(w)));
      es := [e] + rest;
      R.RunConcat(w, [e], rest);
    }
  }

  lemma RunOne(w: World, e: Event)
    ensures R.Run(w, [e]) == Next(w, e)
  {
    hide Next;
    assert [e][..0] == [];
    assert R.Run(w, [e][..0]) == w;
  }

  lemma StaleListLoses(w: World)
    requires Paired(w) && ValuesAgree(w) && w.lister.Holding? && ToApi(w.lister.admin) != w.spec.admin
    ensures Undisturbed(w, [ApplySpec(true)]) && !ValuesAgree(R.Run(w, [ApplySpec(true)]))
  {
    hide CtlStep, CtlInv, PortKey, StateKey, AbstractToNative, ResolvePort, NativeToAbstract, R.Run;
    RunOne(w, ApplySpec(true));
  }

  /** `Agreed` is exactly the set of worlds from which no undisturbed run, of any length, loses agreement of the
      values. */
  lemma AgreementIsExact(w: World)
    requires Paired(w)
    ensures Agreed(w) <==> forall es :: Undisturbed(w, es) ==> ValuesAgree(R.Run(w, es))
  {
    hide Paired, ValuesAgree, InFlightHarmless, Undisturbed, R.Run;
    if Agreed(w) {
      forall es | Undisturbed(w, es) ensures ValuesAgree(R.Run(w, es)) {
        AgreementOverRuns(w, es);
      }
    } else if forall es :: Undisturbed(w, es) ==> ValuesAgree(R.Run(w, es)) {
      NothingDone(w);
      if w.lister.Holding? && ToApi(w.lister.admin) != w.spec.admin {
        StaleListLoses(w);
      } else {
        var es := LosingRun(w);
      }
      assert false;
    }
  }

  lemma NothingDone(w: World)
    ensures Undisturbed(w, []) && R.Run(w, []) == w
  {
  }

  // ---------- a finished reconcile ----------

  /** STATE_DB has caught up with CONFIG_DB. */
  predicate CaughtUp(dev: Device, port: string) {
    && HasField(dev.config, PortKey(port), "admin_status")
    && Has(dev.state, StateKey(port), "admin_status", Lookup(dev.config, PortKey(port), "admin_status"))
  }

  /** Whatever happened before: a world whose reconcile has finished Ready agrees exactly when the spec is still the one
      reconciled, the device has caught up, and the Switch controller holds no other value. */
  lemma ReadyAgreesIff(w: World)
    requires Paired(w) && w.ctl.pc.Patch? && w.ctl.status.state == "Ready"
    ensures Agreed(w) <==> (&& w.ctl.spec == w.spec
                            && CaughtUp(w.dev, w.spec.native)
                            && (w.lister.Holding? ==> ToApi(w.lister.admin) == w.spec.admin))
  {
    hide PortKey, StateKey, NativeToAbstract, AbstractToNative, ResolvePort;
  }

  /** The admin state an event writes into the spec. */
  function SpecWrite(w: World, e: Event): Option<string> {
    if e.UserEdit? then Some(e.admin)
    else if e.ApplySpec? && e.ok && w.lister.Holding? then Some(ToApi(w.lister.admin))
    else None
  }

  /** The last value written into the spec during a run, by users or lists; the initial one if there was none. */
  function LastWritten(w: World, es: seq<Event>): string {
    if es == [] then w.spec.admin
    else
      var init := es[..|es| - 1];
      var value := SpecWrite(R.Run(w, init), es[|es| - 1]);
      if value.Some? then value.value else LastWritten(w, init)
  }

  lemma {:induction false} SpecIsLastWritten(w: World, es: seq<Event>)
    requires Paired(w)
    ensures R.Run(w, es).spec == w.spec.(admin := LastWritten(w, es))
  {
    hide Paired, CtlStep, Sync, List;
    if es != [] {
      var init := es[..|es| - 1];
      SpecIsLastWritten(w, init);
      PairedOverRuns(w, init);
      NameOfPaired(R.Run(w, init));
      if es[|es| - 1].Controller? {
        CtlStepFrame(R.Run(w, init), es[|es| - 1].reply);
      }
    }
  }

  lemma NameOfPaired(w: World)
    requires Paired(w)
    ensures NativeToAbstract(w.spec.native) == Some(w.spec.handle) && w.spec.hasRef
  {
    hide NativeToAbstract, ReadPort, WritePort, CtlInv;
  }

  /** A single reconcile: it fetches first and has not finished or started anew since. */
  ghost predicate OneReconcile(w: World, es: seq<Event>) {
    && w.ctl.pc.Idle? && es != [] && es[0] == Controller(Ok)
    && forall n :: 0 < n <= |es| ==> !R.Run(w, es[..n]).ctl.pc.Idle?
  }

  lemma {:induction false} FetchedSpecStays(w: World, es: seq<Event>)
    requires OneReconcile(w, es)
    ensures R.Run(w, es).ctl.spec == w.spec
  {
    hide CtlStep, Sync, List, NativeToAbstract;
    var init, e := es[..|es| - 1], es[|es| - 1];
    assert es[..|es|] == es;
    if init == [] {
      CtlStepFrame(w, Ok);
    } else {
      assert forall n :: 0 < n <= |init| ==> init[..n] == es[..n];
      assert init[..|init|] == init;
      FetchedSpecStays(w, init);
      if e.Controller? {
        CtlStepFrame(R.Run(w, init), e.reply);
      }
    }
  }

  /** A reconcile interleaved with anything — lists, edits, device steps, errors and rollbacks — that ended Ready
      leaves agreement, once the device has caught up, exactly when the last value written into the spec since its
      fetch, and any value the Switch controller still holds, is the fetched one. */
  lemma ReconcileEndsAgreedIff(w: World, es: seq<Event>)
    requires Paired(w) && OneReconcile(w, es)
    requires R.Run(w, es).ctl.pc.Patch? && R.Run(w, es).ctl.status.state == "Ready"
    ensures var held := R.Run(w, es).lister;
            Agreed(R.Run(w, es + [DeviceSync])) <==>
            (LastWritten(w, es) == w.spec.admin && (held.Holding? ==> ToApi(held.admin) == w.spec.admin))
  {
    hide Paired, Agreed, OneReconcile, R.Run, LastWritten;
    var w', w'' := R.Run(w, es), R.Run(w, es + [DeviceSync]);
    PairedOverRuns(w, es);
    PairedOverRuns(w, es + [DeviceSync]);
    R.RunSnoc(w, es, DeviceSync);
    SpecIsLastWritten(w, es);
    FetchedSpecStays(w, es);
    ReadyHasStatus(w');
    SyncCatchesUp(w');
    ReadyAgreesIff(w'');
  }

  lemma ReadyHasStatus(w: World)
    requires Paired(w) && w.ctl.pc.Patch? && w.ctl.status.state == "Ready"
    ensures HasField(w.dev.config, PortKey(w.spec.native), "admin_status")
  {
    hide PortKey, NativeToAbstract, AbstractToNative, ResolvePort;
  }

  lemma SyncCatchesUp(w: World)
    requires HasField(w.dev.config, PortKey(w.spec.native), "admin_status")
    ensures var w' := Next(w, DeviceSync);
            CaughtUp(w'.dev, w.spec.native) && w' == w.(dev := w'.dev)
  {
    hide PortKey, StateKey;
  }
}
