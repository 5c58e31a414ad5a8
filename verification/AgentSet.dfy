/** The agent's two Set calls on a port — write CONFIG_DB, save, verify, read back, with rollback on some failures —
    as a step machine over the replies of Redis and D-Bus, and as the methods that follow it. */
module AgentSet {
  import opened Redis

  /** A reply: success, an error without effect, or an error after the command took effect. */
  datatype Reply = Ok | Err | ErrApplied

  /** The databases of a switch; `saved` is the persisted `config_db.json`. */
  datatype Device = Device(config: Store, saved: Store, state: Store, appl: Store)

  const BAD_REQUEST: nat := 101
  const NOT_FOUND: nat := 201
  const HSET_FAIL: nat := 203
  const KEY_CHECK_FAIL: nat := 205

  datatype Kind = Alias | Admin

  function FieldName(kind: Kind): string {
    if kind.Alias? then "alias" else "admin_status"
  }

  function PortKey(port: string): string {
    "PORT|" + port
  }

  datatype Phase =
    | Connect | Read | Write | Save | UndoSave | Exists | Connect2 | Check | UndoCheck
    | Connect3 | ReadAppl | ReadAlias
    | Done(code: nat)

  /** A call in progress; `prev` is the value kept for rollback. */
  datatype Call = Call(kind: Kind, port: string, value: string, prev: string, oper: string, phase: Phase)

  function Start(kind: Kind, port: string, value: string): Call {
    Call(kind, port, value, "", "down", Connect)
  }

  /** A field of a hash; Go's map lookup yields the empty text when it is absent. */
  function Lookup(store: Store, key: string, field: string): string {
    if field in FieldsAt(store, key) then FieldsAt(store, key)[field] else ""
  }

  predicate HasField(store: Store, key: string, field: string) {
    key in store && field in store[key]
  }

  predicate Has(store: Store, key: string, field: string, value: string) {
    HasField(store, key, field) && store[key][field] == value
  }

  function Put(store: Store, key: string, field: string, value: string): (r: Store)
    ensures Has(r, key, field, value)
  {
    Apply(store, HSet(key, map[field := value]))
  }

  function Oper(appl: Store, port: string): string {
    if Lookup(appl, "PORT_TABLE:" + port, "oper_status") == "up" then "up" else "down"
  }

  /** One exchange of the call with Redis or D-Bus. The one-second wait before `Connect2` is where other steps
      interleave. */
  function Step(dev: Device, c: Call, r: Reply): (Device, Call) {
    match c.phase
    case Connect => (dev, c.(phase := if r.Ok? then Read else Done(BAD_REQUEST)))
    case Read =>
      if r.Ok? then (dev, c.(prev := Lookup(dev.config, PortKey(c.port), FieldName(c.kind)), phase := Write))
      else (dev, c.(phase := Done(KEY_CHECK_FAIL)))
    case Write =>
      var dev' := if r.Err? then dev else dev.(config := Put(dev.config, PortKey(c.port), FieldName(c.kind), c.value));
      (dev', c.(phase := if r.Ok? then Save else Done(HSET_FAIL)))
    case Save =>
      var dev' := if r.Err? then dev else dev.(saved := dev.config);
      (dev', c.(phase := if r.Ok? then Exists else UndoSave))
    case UndoSave =>
      var dev' := if r.Err? then dev else dev.(config := Put(dev.config, PortKey(c.port), FieldName(c.kind), c.prev));
      (dev', c.(phase := Done(if c.kind.Alias? && !r.Ok? then HSET_FAIL else BAD_REQUEST)))
    case Exists =>
      (dev, c.(phase := if !r.Ok? then Done(KEY_CHECK_FAIL) else if PortKey(c.port) in dev.config then Connect2
               else Done(NOT_FOUND)))
    case Connect2 => (dev, c.(phase := if r.Ok? then Check else Done(BAD_REQUEST)))
    case Check =>
      if !r.Ok? then (dev, c.(phase := UndoCheck))
      else if c.kind.Admin? then (dev, c.(phase := Connect3))
      else (dev, c.(oper := Oper(dev.appl, c.port), phase := Done(0)))
    case UndoCheck =>
      var dev' := if r.Err? then dev else dev.(config := Put(dev.config, PortKey(c.port), FieldName(c.kind), c.prev));
      (dev', c.(phase := Done(if r.Ok? then KEY_CHECK_FAIL else HSET_FAIL)))
    case Connect3 => (dev, c.(phase := if r.Ok? then ReadAppl else Done(BAD_REQUEST)))
    case ReadAppl => (dev, c.(oper := if r.Ok? then Oper(dev.appl, c.port) else "down", phase := ReadAlias))
    case ReadAlias =>
      (dev, c.(phase := if r.Ok? && HasField(dev.config, PortKey(c.port), "alias") then Done(0)
               else Done(KEY_CHECK_FAIL)))
    case Done(_) => (dev, c)
  }

  /** An undisturbed call under the given replies. */
  function Exec(dev: Device, c: Call, rs: seq<Reply>): (Device, Call) {
    if rs == [] then (dev, c)
    else
      var (dev', c') := Exec(dev, c, rs[..|rs| - 1]);
      Step(dev', c', rs[|rs| - 1])
  }

  lemma ExecSnoc(dev: Device, c: Call, rs: seq<Reply>, r: Reply)
    ensures Exec(dev, c, rs + [r]) == Step(Exec(dev, c, rs).0, Exec(dev, c, rs).1, r)
  {
    assert (rs + [r])[..|rs|] == rs;
  }

  lemma ExecNothing(dev: Device, c: Call)
    ensures Exec(dev, c, []) == (dev, c)
  {
  }

  /** Bounds the exchanges left to a call. */
  function PhaseRank(p: Phase): nat {
    match p
    case Connect => 12 case Read => 11 case Write => 10 case Save => 9 case UndoSave => 8 case Exists => 7
    case Connect2 => 6 case Check => 5 case UndoCheck => 4 case Connect3 => 3 case ReadAppl => 2 case ReadAlias => 1
    case Done(_) => 0
  }

  lemma StepDescends(dev: Device, call: Call, r: Reply)
    requires !call.phase.Done?
    ensures PhaseRank(Step(dev, call, r).1.phase) < PhaseRank(call.phase)
  {
    hide Put, Lookup, Oper, HasField, PortKey, FieldName;
  }

  // ---------- what every step keeps, whatever happens between the steps ----------

  /** Phases reached only after the value was written, and after it was saved. */
  predicate Written(p: Phase) {
    p.Save? || WrittenAndSaved(p)
  }

  predicate WrittenAndSaved(p: Phase) {
    p in {Exists, Connect2, Check, Connect3, ReadAppl, ReadAlias, Done(0)}
  }

  predicate CallInv(dev: Device, c: Call) {
    && (Written(c.phase) ==> Has(dev.config, PortKey(c.port), FieldName(c.kind), c.value))
    && (WrittenAndSaved(c.phase) ==> Has(dev.saved, PortKey(c.port), FieldName(c.kind), c.value))
  }

  lemma StepKeepsCallInv(dev: Device, c: Call, r: Reply)
    requires CallInv(dev, c)
    ensures CallInv(Step(dev, c, r).0, Step(dev, c, r).1)
  {
    hide Put, Lookup, Oper, HasField, PortKey, FieldName, Has;
  }

  // ---------- write, save, rollback: every failure pattern of an undisturbed call ----------

  /** Config and saved config, relative to the device at the start of the call: `put` and `undone` are the starting
      config with the requested and with the kept value. */
  predicate Shape(dev0: Device, put: Store, undone: Store, kept: string, dev: Device, c: Call) {
    match c.phase
    case Connect => dev == dev0
    case Read => dev == dev0
    case Write => dev == dev0 && c.prev == kept
    case Save => dev == dev0.(config := put) && c.prev == kept
    case UndoSave => (dev == dev0.(config := put) || dev == dev0.(config := put, saved := put)) && c.prev == kept
    case Done(code) =>
      if code == 0 then dev == dev0.(config := put, saved := put)
      else
        && dev.state == dev0.state && dev.appl == dev0.appl
        && (dev.config == dev0.config || dev.config == put || dev.config == undone)
        && (dev.saved == dev0.saved || dev.saved == put)
    case _ => dev == dev0.(config := put, saved := put) && c.prev == kept
  }

  predicate Progress(dev0: Device, dev: Device, c: Call) {
    var key, f := PortKey(c.port), FieldName(c.kind);
    var kept := Lookup(dev0.config, key, f);
    Shape(dev0, Put(dev0.config, key, f, c.value), Put(dev0.config, key, f, kept), kept, dev, c)
  }

  lemma PutTwice(store: Store, key: string, f: string, v1: string, v2: string)
    ensures Put(Put(store, key, f, v1), key, f, v2) == Put(store, key, f, v2)
  {
    var fields := FieldsAt(store, key);
    assert fields + map[f := v1] + map[f := v2] == fields + map[f := v2];
  }

  lemma StepProgressWriting(dev0: Device, dev: Device, c: Call, r: Reply)
    requires Progress(dev0, dev, c) && c.phase in {Connect, Read, Write, Save}
    ensures Progress(dev0, Step(dev, c, r).0, Step(dev, c, r).1)
  {
    hide Put, Lookup, Oper, HasField, PortKey, FieldName, FieldsAt, Has;
  }

  lemma StepProgressUndo(dev0: Device, dev: Device, c: Call, r: Reply)
    requires Progress(dev0, dev, c) && c.phase in {UndoSave, UndoCheck}
    ensures Progress(dev0, Step(dev, c, r).0, Step(dev, c, r).1)
  {
    hide Put, Lookup, Oper, HasField, PortKey, FieldName, FieldsAt, Has;
    PutTwice(dev0.config, PortKey(c.port), FieldName(c.kind), c.value,
             Lookup(dev0.config, PortKey(c.port), FieldName(c.kind)));
  }

  lemma StepProgressReading(dev0: Device, dev: Device, c: Call, r: Reply)
    requires Progress(dev0, dev, c) && c.phase !in {Connect, Read, Write, Save, UndoSave, UndoCheck}
    ensures Progress(dev0, Step(dev, c, r).0, Step(dev, c, r).1)
  {
    hide Put, Lookup, Oper, HasField, PortKey, FieldName, FieldsAt, Has;
  }

  lemma StepProgress(dev0: Device, dev: Device, c: Call, r: Reply)
    requires Progress(dev0, dev, c)
    ensures Progress(dev0, Step(dev, c, r).0, Step(dev, c, r).1)
  {
    hide Progress, Step;
    if c.phase in {Connect, Read, Write, Save} {
      StepProgressWriting(dev0, dev, c, r);
    } else if c.phase in {UndoSave, UndoCheck} {
      StepProgressUndo(dev0, dev, c, r);
    } else {
      StepProgressReading(dev0, dev, c, r);
    }
  }

  lemma StepKeepsRequest(dev: Device, c: Call, r: Reply)
    ensures var c' := Step(dev, c, r).1; c'.kind == c.kind && c'.port == c.port && c'.value == c.value
  {
    hide Put, Lookup, Oper, HasField, PortKey, FieldName;
  }

  /** Whatever the replies: only one field of one PORT key of the running config can have changed — to the requested or
      to the earlier value —; the saved config is the old one or the running config with the request, and success means
      that both hold the request. */
  lemma {:induction false} SetUnderEveryFailure(dev: Device, kind: Kind, port: string, value: string, rs: seq<Reply>)
    ensures Progress(dev, Exec(dev, Start(kind, port, value), rs).0, Exec(dev, Start(kind, port, value), rs).1)
    ensures var c := Exec(dev, Start(kind, port, value), rs).1; c.kind == kind && c.port == port && c.value == value
  {
    if rs == [] {
      ExecNothing(dev, Start(kind, port, value));
    } else {
      hide Progress, Step;
      SetUnderEveryFailure(dev, kind, port, value, rs[..|rs| - 1]);
      var (dev', c') := Exec(dev, Start(kind, port, value), rs[..|rs| - 1]);
      StepProgress(dev, dev', c', rs[|rs| - 1]);
      StepKeepsRequest(dev', c', rs[|rs| - 1]);
    }
  }

  lemma SuccessMeansBoth(dev0: Device, dev: Device, c: Call)
    requires Progress(dev0, dev, c)
    ensures c.phase == Done(0) ==>
              Has(dev.config, PortKey(c.port), FieldName(c.kind), c.value)
                && Has(dev.saved, PortKey(c.port), FieldName(c.kind), c.value)
  {
    hide Put, Lookup, PortKey, FieldName, Has;
  }

  lemma PutIsIdentityIff(store: Store, key: string, f: string)
    ensures Put(store, key, f, Lookup(store, key, f)) == store <==> HasField(store, key, f)
  {
    if HasField(store, key, f) {
      assert FieldsAt(store, key) + map[f := Lookup(store, key, f)] == FieldsAt(store, key);
    }
  }

  /** A failed save followed by a rollback that takes effect restores CONFIG_DB exactly when the port already had the
      field; otherwise the rollback leaves an empty value, and for an unknown port a new PORT entry, behind. */
  lemma FailedSaveRestoresIff(dev: Device, kind: Kind, port: string, value: string, save: Reply, undo: Reply)
    requires !save.Ok? && !undo.Err?
    ensures var (dev', c') := Exec(dev, Start(kind, port, value), [Ok, Ok, Ok, save, undo]);
            && c'.phase.Done? && c'.phase.code != 0
            && (dev'.config == dev.config <==> HasField(dev.config, PortKey(c'.port), FieldName(kind)))
  {
    hide Put, Lookup, Oper, HasField, PortKey, FieldName, Exec;
    var c0 := Start(kind, port, value);
    ExecNothing(dev, c0);
    var (d1, c1) := Step(dev, c0, Ok);
    var (d2, c2) := Step(d1, c1, Ok);
    var (d3, c3) := Step(d2, c2, Ok);
    var (d4, c4) := Step(d3, c3, save);
    var (d5, c5) := Step(d4, c4, undo);
    ExecSnoc(dev, c0, [], Ok);
    ExecSnoc(dev, c0, [Ok], Ok);
    ExecSnoc(dev, c0, [Ok, Ok], Ok);
    ExecSnoc(dev, c0, [Ok, Ok, Ok], save);
    ExecSnoc(dev, c0, [Ok, Ok, Ok, save], undo);
    assert [] + [Ok] == [Ok] && [Ok] + [Ok] == [Ok, Ok] && [Ok, Ok] + [Ok] == [Ok, Ok, Ok];
    assert [Ok, Ok, Ok] + [save] == [Ok, Ok, Ok, save] && [Ok, Ok, Ok, save] + [undo] == [Ok, Ok, Ok, save, undo];
    assert Exec(dev, c0, [Ok, Ok, Ok, save, undo]) == (d5, c5);
    PutTwice(dev.config, PortKey(c0.port), FieldName(kind), value,
             Lookup(dev.config, PortKey(c0.port), FieldName(kind)));
    PutIsIdentityIff(dev.config, PortKey(c0.port), FieldName(kind));
  }

  /** The device and the call after the first `n` replies were all Ok. */
  function AllOk(n: nat): seq<Reply> {
    seq(n, i => Ok)
  }

  lemma AllOkSnoc(dev: Device, c: Call, n: nat)
    ensures Exec(dev, c, AllOk(n + 1)) == Step(Exec(dev, c, AllOk(n)).0, Exec(dev, c, AllOk(n)).1, Ok)
  {
    hide Step;
    assert AllOk(n + 1) == AllOk(n) + [Ok];
    ExecSnoc(dev, c, AllOk(n), Ok);
  }

  /** Up to the check in the second database everything went well: the request stands in running and saved config. */
  lemma UpToCheck(dev: Device, kind: Kind, port: string, value: string)
    ensures var (dev', c') := Exec(dev, Start(kind, port, value), AllOk(6));
            var put := Put(dev.config, PortKey(port), FieldName(kind), value);
            && dev' == dev.(config := put, saved := put)
            && c' == Start(kind, port, value).(phase := Check,
                                               prev := Lookup(dev.config, PortKey(port), FieldName(kind)))
  {
    hide Lookup, Oper, PortKey, FieldName, Exec;
    var c0 := Start(kind, port, value);
    assert AllOk(0) == [];
    ExecNothing(dev, c0);
    AllOkSnoc(dev, c0, 0);
    AllOkSnoc(dev, c0, 1);
    AllOkSnoc(dev, c0, 2);
    AllOkSnoc(dev, c0, 3);
    AllOkSnoc(dev, c0, 4);
    AllOkSnoc(dev, c0, 5);
  }

  lemma PutSameIff(store: Store, key: string, f: string, v1: string, v2: string)
    ensures Put(store, key, f, v1) == Put(store, key, f, v2) <==> v1 == v2
  {
    if v1 != v2 {
      assert Put(store, key, f, v1)[key][f] == v1;
    }
  }

  /** A failed read-back is rolled back but not saved again: the saved config keeps the request, the running config is
      restored exactly when the port had the field, and they differ unless the earlier value was the requested one. */
  lemma FailedReadBackIsNotSaved(dev: Device, kind: Kind, port: string, value: string, check: Reply, undo: Reply)
    requires !check.Ok? && !undo.Err?
    ensures var (dev', c') := Exec(dev, Start(kind, port, value), AllOk(6) + [check] + [undo]);
            var key, f := PortKey(port), FieldName(kind);
            && c'.phase.Done? && c'.phase.code != 0
            && dev'.saved == Put(dev.config, key, f, value)
            && (dev'.config == dev.config <==> HasField(dev.config, key, f))
            && (dev'.config == dev'.saved <==> Lookup(dev.config, key, f) == value)
  {
    hide Put, Lookup, Oper, HasField, PortKey, FieldName, Exec;
    var c0 := Start(kind, port, value);
    var key, f := PortKey(port), FieldName(kind);
    UpToCheck(dev, kind, port, value);
    ExecSnoc(dev, c0, AllOk(6), check);
    ExecSnoc(dev, c0, AllOk(6) + [check], undo);
    PutTwice(dev.config, key, f, value, Lookup(dev.config, key, f));
    PutIsIdentityIff(dev.config, key, f);
    PutSameIff(dev.config, key, f, Lookup(dev.config, key, f), value);
  }

  lemma ExistsAfterWrite(dev0: Device, dev: Device, c: Call)
    requires Progress(dev0, dev, c) && c.phase == Exists
    ensures PortKey(c.port) in dev.config
  {
  }

  /** The existence check comes after the write that creates the entry: an undisturbed call never reports NOT_FOUND,
      not even for a port that does not exist. */
  lemma {:induction false} NeverNotFound(dev: Device, kind: Kind, port: string, value: string, rs: seq<Reply>)
    ensures Exec(dev, Start(kind, port, value), rs).1.phase != Done(NOT_FOUND)
  {
    hide Put, Lookup, Oper, HasField, PortKey, FieldName, Progress, Shape;
    if rs != [] {
      var init := rs[..|rs| - 1];
      NeverNotFound(dev, kind, port, value, init);
      SetUnderEveryFailure(dev, kind, port, value, init);
      var (dev', c') := Exec(dev, Start(kind, port, value), init);
      if c'.phase == Exists {
        ExistsAfterWrite(dev, dev', c');
      }
    }
  }

  // ---------- the methods ----------

  class SonicAgent {
    var dev: Device

    constructor (dev: Device)
      ensures this.dev == dev
    {
      this.dev := dev;
    }

    /** The reply of Redis or D-Bus to the next request. */
    method Request() returns (r: Reply)
    {
      r := *;
    }

    method WriteField(c: Call, value: string) returns (r: Reply)
      modifies this
      ensures dev
              == if r.Err? then old(dev) else old(dev).(config := Put(old(dev).config, PortKey(c.port),
                                                                      FieldName(c.kind), value))
    {
      r := Request();
      if !r.Err? {
        dev := dev.(config := Put(dev.config, PortKey(c.port), FieldName(c.kind), value));
      }
    }

    method SaveConfig() returns (r: Reply)
      modifies this
      ensures dev == if r.Err? then old(dev) else old(dev).(saved := old(dev).config)
    {
      r := Request();
      if !r.Err? {
        dev := dev.(saved := dev.config);
      }
    }

    /** The part both Set calls share, up to the existence check: connect, keep the old value, write, save or roll back.
        The phase tells where it stopped. */
    method WriteAndSave(kind: Kind, port: string, value: string) returns (c: Call, ghost rs: seq<Reply>)
      modifies this
      ensures (dev, c) == Exec(old(dev), Start(kind, port, value), rs)
      ensures c.phase.Done? || c.phase == Connect2
    {
      c, rs := Start(kind, port, value), [];
      ghost var d0, c0 := dev, c;
      hide Put, Lookup, Oper, HasField, PortKey, FieldName, Exec;
      ExecNothing(d0, c0);
      var r := Request();
      ExecSnoc(d0, c0, rs, r);
      rs := rs + [r];
      if !r.Ok? {
        c := c.(phase := Done(BAD_REQUEST));
        return;
      }
      c := c.(phase := Read);
      r := Request();
      ExecSnoc(d0, c0, rs, r);
      rs := rs + [r];
      if !r.Ok? {
        c := c.(phase := Done(KEY_CHECK_FAIL));
        return;
      }
      c := c.(prev := Lookup(dev.config, PortKey(c.port), FieldName(kind)), phase := Write);
      r := WriteField(c, value);
      ExecSnoc(d0, c0, rs, r);
      rs := rs + [r];
      if !r.Ok? {
        c := c.(phase := Done(HSET_FAIL));
        return;
      }
      c := c.(phase := Save);
      c, rs := SaveOrUndo(d0, c0, c, rs);
    }

    method SaveOrUndo(ghost d0: Device, ghost c0: Call, before: Call, ghost rs0: seq<Reply>)
      returns (c: Call, ghost rs: seq<Reply>)
      requires (dev, before) == Exec(d0, c0, rs0) && before.phase == Save
      modifies this
      ensures (dev, c) == Exec(d0, c0, rs)
      ensures c.phase.Done? || c.phase == Connect2
    {
      hide Put, Lookup, Oper, HasField, PortKey, FieldName, Exec;
      var r := SaveConfig();
      ExecSnoc(d0, c0, rs0, r);
      rs := rs0 + [r];
      if !r.Ok? {
        c := before.(phase := UndoSave);
        r := WriteField(c, c.prev);
        ExecSnoc(d0, c0, rs, r);
        rs := rs + [r];
        c := c.(phase := Done(if c.kind.Alias? && !r.Ok? then HSET_FAIL else BAD_REQUEST));
        return;
      }
      c := before.(phase := Exists);
      r := Request();
      ExecSnoc(d0, c0, rs, r);
      rs := rs + [r];
      if !r.Ok? {
        c := c.(phase := Done(KEY_CHECK_FAIL));
      } else if PortKey(c.port) !in dev.config {
        c := c.(phase := Done(NOT_FOUND));
      } else {
        c := c.(phase := Connect2);
      }
    }

    /** Connects to the second database and reads it; a failed read rolls the field back (without saving again). */
    method ReadBack(ghost d0: Device, ghost c0: Call, before: Call, ghost rs0: seq<Reply>)
      returns (c: Call, ghost rs: seq<Reply>)
      requires (dev, before) == Exec(d0, c0, rs0) && before.phase == Connect2
      modifies this
      ensures (dev, c) == Exec(d0, c0, rs) && c.kind == before.kind
      ensures c.phase.Done? || (c.kind.Admin? && c.phase == Connect3)
    {
      hide Put, Lookup, Oper, HasField, PortKey, FieldName, Exec;
      var r := Request();
      ExecSnoc(d0, c0, rs0, r);
      rs := rs0 + [r];
      if !r.Ok? {
        c := before.(phase := Done(BAD_REQUEST));
        return;
      }
      c := before.(phase := Check);
      r := Request();
      ExecSnoc(d0, c0, rs, r);
      rs := rs + [r];
      if !r.Ok? {
        c := c.(phase := UndoCheck);
        r := WriteField(c, c.prev);
        ExecSnoc(d0, c0, rs, r);
        rs := rs + [r];
        c := c.(phase := Done(if r.Ok? then KEY_CHECK_FAIL else HSET_FAIL));
      } else if c.kind.Admin? {
        c := c.(phase := Connect3);
      } else {
        c := c.(oper := Oper(dev.appl, c.port), phase := Done(0));
      }
    }

    method SetInterfaceAliasName(port: string, alias: string) returns (code: nat, ghost rs: seq<Reply>)
      modifies this
      ensures Exec(old(dev), Start(Alias, port, alias), rs).0 == dev
      ensures Exec(old(dev), Start(Alias, port, alias), rs).1.phase == Done(code)
      ensures code == 0 ==>
                Has(dev.config, "PORT|" + port, "alias", alias) && Has(dev.saved, "PORT|" + port, "alias", alias)
    {
      hide Exec, Has, HasField, Progress;
      ghost var d0, c0 := dev, Start(Alias, port, alias);
      var c;
      c, rs := WriteAndSave(Alias, port, alias);
      SetUnderEveryFailure(d0, Alias, port, alias, rs);
      if !c.phase.Done? {
        c, rs := ReadBack(d0, c0, c, rs);
        SetUnderEveryFailure(d0, Alias, port, alias, rs);
      }
      SuccessMeansBoth(d0, dev, c);
      code := c.phase.code;
    }

    method SetInterfaceAdminStatus(port: string, status: string) returns (code: nat, oper: string, ghost rs: seq<Reply>)
      modifies this
      ensures Exec(old(dev), Start(Admin, port, status), rs).0 == dev
      ensures Exec(old(dev), Start(Admin, port, status), rs).1.phase == Done(code)
      ensures Exec(old(dev), Start(Admin, port, status), rs).1.oper == oper
      ensures code == 0 ==>
                Has(dev.config, "PORT|" + port, "admin_status", status)
                  && Has(dev.saved, "PORT|" + port, "admin_status", status)
    {
      hide Exec, Has, HasField, Progress;
      ghost var d0, c0 := dev, Start(Admin, port, status);
      var c;
      c, rs := WriteAndSave(Admin, port, status);
      SetUnderEveryFailure(d0, Admin, port, status, rs);
      if !c.phase.Done? {
        c, rs := ReadBack(d0, c0, c, rs);
        SetUnderEveryFailure(d0, Admin, port, status, rs);
      }
      if !c.phase.Done? {
        c, rs := ReadOperAndAlias(d0, c0, c, rs);
        SetUnderEveryFailure(d0, Admin, port, status, rs);
      }
      SuccessMeansBoth(d0, dev, c);
      code, oper := c.phase.code, c.oper;
    }

    method ReadOperAndAlias(ghost d0: Device, ghost c0: Call, before: Call, ghost rs0: seq<Reply>)
      returns (c: Call, ghost rs: seq<Reply>)
      requires (dev, before) == Exec(d0, c0, rs0) && before.phase == Connect3
      modifies this
      ensures (dev, c) == Exec(d0, c0, rs) && c.phase.Done?
    {
      hide Put, Lookup, Oper, HasField, PortKey, FieldName, Exec;
      var r := Request();
      ExecSnoc(d0, c0, rs0, r);
      rs := rs0 + [r];
      if !r.Ok? {
        c := before.(phase := Done(BAD_REQUEST));
        return;
      }
      c := before.(phase := ReadAppl);
      r := Request();
      ExecSnoc(d0, c0, rs, r);
      rs := rs + [r];
      c := c.(oper := if r.Ok? then Oper(dev.appl, c.port) else "down", phase := ReadAlias);
      r := Request();
      ExecSnoc(d0, c0, rs, r);
      rs := rs + [r];
      c := c.(phase := if r.Ok? && HasField(dev.config, PortKey(c.port), "alias") then Done(0)
              else Done(KEY_CHECK_FAIL));
    }
  }
}
