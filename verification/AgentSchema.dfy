/** The agent's Set calls against the schema of CONFIG_DB: the only way an undisturbed call breaks the schema is a
    rollback, because it writes the empty text where there was no field. */
module AgentSchema {
  import opened Redis
  import opened AgentSet
  import opened ConfigSchema

  /** The position of the first reply that is not Ok. */
  function FirstBad(rs: seq<Reply>): (k: nat)
    ensures k <= |rs| && (k < |rs| ==> !rs[k].Ok?) && forall i :: 0 <= i < k ==> rs[i].Ok?
  {
    if rs == [] then 0
    else
      var n := |rs| - 1;
      var k := FirstBad(rs[..n]);
      if k < n then k else if rs[n].Ok? then n + 1 else n
  }

  /** A rollback takes effect: the save (the fourth exchange) or the read-back (the seventh) failed, and the write of
      the kept value did not. */
  predicate RollsBack(rs: seq<Reply>) {
    || (FirstBad(rs) == 3 && |rs| >= 5 && !rs[4].Err?)
    || (FirstBad(rs) == 6 && |rs| >= 8 && !rs[7].Err?)
  }

  /** The write (the third exchange) takes effect. */
  predicate Writes(rs: seq<Reply>) {
    FirstBad(rs) >= 2 && |rs| >= 3 && !rs[2].Err?
  }

  /** The replies that finish a call, or at least its writes. */
  predicate Settled(rs: seq<Reply>) {
    var k := FirstBad(rs);
    if k == 3 then |rs| >= 5 else if k == 6 then |rs| >= 8 else k >= 7 || k < |rs|
  }

  /** What a call has made of the config by the time it stands at a phase. */
  predicate Trail(config0: Store, put: Store, undone: Store, config: Store, p: Phase, rs: seq<Reply>) {
    var n, k := |rs|, FirstBad(rs);
    match p
    case Connect => n == 0 && config == config0
    case Read => n == k == 1 && config == config0
    case Write => n == k == 2 && config == config0
    case Save => n == k == 3 && config == put
    case UndoSave => n == 4 && k == 3 && config == put
    case Exists => n == k == 4 && config == put
    case Connect2 => n == k == 5 && config == put
    case Check => n == k == 6 && config == put
    case UndoCheck => n == 7 && k == 6 && config == put
    case Done(_) => Settled(rs) && config == if RollsBack(rs) then undone else if Writes(rs) then put else config0
    case _ => k >= 7 && config == put
  }

  lemma FirstBadSnoc(rs: seq<Reply>, r: Reply)
    ensures FirstBad(rs + [r]) == if FirstBad(rs) < |rs| then FirstBad(rs) else if r.Ok? then |rs| + 1 else |rs|
  {
    assert (rs + [r])[..|rs|] == rs;
  }

  /** The call on `dev0`, with the config it writes and the one a rollback writes. */
  predicate CallTrail(dev0: Device, dev: Device, c: Call, rs: seq<Reply>) {
    var key, f := PortKey(c.port), FieldName(c.kind);
    var kept := Lookup(dev0.config, key, f);
    && (MayRestore(c.phase) ==> c.prev == kept)
    && Trail(dev0.config, Put(dev0.config, key, f, c.value), Put(dev0.config, key, f, kept), dev.config, c.phase, rs)
  }

  predicate MayRestore(p: Phase) {
    !p.Connect? && !p.Read? && !p.Done?
  }

  /** Once the writes are finished, later replies change nothing. */
  lemma SettledStays(rs: seq<Reply>, r: Reply)
    requires Settled(rs)
    ensures Settled(rs + [r]) && RollsBack(rs + [r]) == RollsBack(rs) && Writes(rs + [r]) == Writes(rs)
  {
    hide FirstBad;
    FirstBadSnoc(rs, r);
  }

  lemma TrailWriting(dev0: Device, dev: Device, c: Call, rs: seq<Reply>, r: Reply)
    requires CallTrail(dev0, dev, c, rs) && c.phase in {Connect, Read, Write, Save}
    ensures CallTrail(dev0, Step(dev, c, r).0, Step(dev, c, r).1, rs + [r])
  {
    hide FirstBad, Put, Lookup, PortKey, FieldName;
    FirstBadSnoc(rs, r);
  }

  lemma TrailUndoing(dev0: Device, dev: Device, c: Call, rs: seq<Reply>, r: Reply)
    requires CallTrail(dev0, dev, c, rs) && c.phase in {UndoSave, UndoCheck}
    ensures CallTrail(dev0, Step(dev, c, r).0, Step(dev, c, r).1, rs + [r])
  {
    hide FirstBad, Put, Lookup, PortKey, FieldName;
    FirstBadSnoc(rs, r);
    var key, f := PortKey(c.port), FieldName(c.kind);
    PutTwice(dev0.config, key, f, c.value, Lookup(dev0.config, key, f));
  }

  lemma TrailChecking(dev0: Device, dev: Device, c: Call, rs: seq<Reply>, r: Reply)
    requires CallTrail(dev0, dev, c, rs) && c.phase in {Exists, Connect2, Check}
    ensures CallTrail(dev0, Step(dev, c, r).0, Step(dev, c, r).1, rs + [r])
  {
    hide FirstBad, Put, Lookup, PortKey, FieldName, Oper;
    FirstBadSnoc(rs, r);
    assert PortKey(c.port) in Put(dev0.config, PortKey(c.port), FieldName(c.kind), c.value);
  }

  lemma TrailEnding(dev0: Device, dev: Device, c: Call, rs: seq<Reply>, r: Reply)
    requires CallTrail(dev0, dev, c, rs) && (c.phase in {Connect3, ReadAppl, ReadAlias} || c.phase.Done?)
    ensures CallTrail(dev0, Step(dev, c, r).0, Step(dev, c, r).1, rs + [r])
  {
    hide FirstBad, Put, Lookup, PortKey, FieldName, Oper, HasField;
    FirstBadSnoc(rs, r);
    if c.phase.Done? {
      SettledStays(rs, r);
    }
  }

  lemma TrailStep(dev0: Device, dev: Device, c: Call, rs: seq<Reply>, r: Reply)
    requires CallTrail(dev0, dev, c, rs)
    ensures CallTrail(dev0, Step(dev, c, r).0, Step(dev, c, r).1, rs + [r])
  {
    hide CallTrail, Step;
    if c.phase in {Connect, Read, Write, Save} {
      TrailWriting(dev0, dev, c, rs, r);
    } else if c.phase in {UndoSave, UndoCheck} {
      TrailUndoing(dev0, dev, c, rs, r);
    } else if c.phase in {Exists, Connect2, Check} {
      TrailChecking(dev0, dev, c, rs, r);
    } else {
      TrailEnding(dev0, dev, c, rs, r);
    }
  }

  lemma {:induction false} TrailOfCall(dev: Device, kind: Kind, port: string, value: string, rs: seq<Reply>)
    ensures var (dev', c') := Exec(dev, Start(kind, port, value), rs);
            c'.kind == kind && c'.port == port && c'.value == value && CallTrail(dev, dev', c', rs)
  {
    hide Step, CallTrail;
    if rs == [] {
      TrailStart(dev, kind, port, value);
    } else {
      var init, last := rs[..|rs| - 1], rs[|rs| - 1];
      TrailOfCall(dev, kind, port, value, init);
      var (dev', c') := Exec(dev, Start(kind, port, value), init);
      TrailStep(dev, dev', c', init, last);
      StepKeepsRequest(dev', c', last);
      assert init + [last] == rs;
    }
  }

  lemma TrailStart(dev: Device, kind: Kind, port: string, value: string)
    ensures Exec(dev, Start(kind, port, value), []) == (dev, Start(kind, port, value))
    ensures CallTrail(dev, dev, Start(kind, port, value), [])
  {
  }

  /** The config a call leaves is decided by three questions about the replies. */
  lemma ConfigAfterCall(dev: Device, kind: Kind, port: string, value: string, rs: seq<Reply>)
    ensures var key, f := PortKey(port), FieldName(kind);
            Exec(dev, Start(kind, port, value), rs).0.config
            == if RollsBack(rs) then Put(dev.config, key, f, Lookup(dev.config, key, f))
               else if Writes(rs) then Put(dev.config, key, f, value)
               else dev.config
  {
    hide Exec, Step, Put, PortKey, FieldName, Lookup, FirstBad;
    TrailOfCall(dev, kind, port, value, rs);
  }

  // ---------- what is reported ----------

  /** The code of a finished call: 101 for a failed connection or save, 203 for a failed write or rollback, 205 for a
      failed read or check, 0 for success. Each failing exchange has its own. */
  predicate CodeIs(kind: Kind, rs: seq<Reply>, code: nat) {
    var n, k := |rs|, FirstBad(rs);
    if k == 0 || k == 5 then n > k && code == 101
    else if k == 1 || k == 4 then n > k && code == 205
    else if k == 2 then n > k && code == 203
    else if k == 3 then n >= 5 && code == if kind.Alias? && !rs[4].Ok? then 203 else 101
    else if k == 6 then n >= 8 && code == if rs[7].Ok? then 205 else 203
    else if kind.Alias? then code == 0
    else if k == 7 then n > k && code == 101
    else n >= 10 && if rs[9].Ok? then code == 0 || code == 205 else code == 205
  }

  /** Where a call stands after its replies. */
  predicate StandsAt(kind: Kind, p: Phase, rs: seq<Reply>) {
    var n, k := |rs|, FirstBad(rs);
    match p
    case Connect => n == 0
    case Read => n == k == 1
    case Write => n == k == 2
    case Save => n == k == 3
    case UndoSave => n == 4 && k == 3
    case Exists => n == k == 4
    case Connect2 => n == k == 5
    case Check => n == k == 6
    case UndoCheck => n == 7 && k == 6
    case Connect3 => kind.Admin? && n == k == 7
    case ReadAppl => kind.Admin? && n == k == 8
    case ReadAlias => kind.Admin? && n == 9 && k >= 8
    case Done(code) => CodeIs(kind, rs, code)
  }

  lemma CodeStays(kind: Kind, rs: seq<Reply>, code: nat, r: Reply)
    requires CodeIs(kind, rs, code)
    ensures CodeIs(kind, rs + [r], code)
  {
    hide FirstBad;
    FirstBadSnoc(rs, r);
  }

  lemma StandsAtStep(dev: Device, c: Call, rs: seq<Reply>, r: Reply)
    requires StandsAt(c.kind, c.phase, rs) && (c.phase.Exists? ==> PortKey(c.port) in dev.config)
    ensures StandsAt(c.kind, Step(dev, c, r).1.phase, rs + [r])
  {
    hide FirstBad, Put, Lookup, Oper, PortKey, FieldName, HasField;
    FirstBadSnoc(rs, r);
    if c.phase.Done? {
      CodeStays(c.kind, rs, c.phase.code, r);
    }
  }

  /** For every reply sequence: the failing exchange decides the code a call reports. */
  lemma {:induction false} CodeAfterCall(dev: Device, kind: Kind, port: string, value: string, rs: seq<Reply>)
    ensures var c := Exec(dev, Start(kind, port, value), rs).1;
            StandsAt(kind, c.phase, rs) && (c.phase.Done? ==> CodeIs(kind, rs, c.phase.code))
  {
    hide Step, CodeIs, FirstBad, Put, Progress;
    if rs == [] {
      TrailStart(dev, kind, port, value);
    } else {
      var init, last := rs[..|rs| - 1], rs[|rs| - 1];
      CodeAfterCall(dev, kind, port, value, init);
      SetUnderEveryFailure(dev, kind, port, value, init);
      var (dev', c') := Exec(dev, Start(kind, port, value), init);
      if c'.phase.Exists? {
        ExistsAfterWrite(dev, dev', c');
      }
      StandsAtStep(dev', c', init, last);
      StepKeepsRequest(dev', c', last);
      assert init + [last] == rs;
    }
  }

  /** A request as the reconciler makes it: an admin status of up or down, an alias that is not empty. */
  predicate Sensible(kind: Kind, value: string) {
    if kind.Alias? then value != "" else value == "up" || value == "down"
  }

  lemma PutKeepsSchemaIff(config: Store, kind: Kind, port: string, value: string, parse: Parsers)
    requires SchemaOk(config, parse)
    ensures SchemaOk(Put(config, PortKey(port), FieldName(kind), value), parse) <==> Sensible(kind, value)
  {
    hide SchemaOk, Apply, CommandOk;
    var c := HSet(PortKey(port), map[FieldName(kind) := value]);
    if Sensible(kind, value) {
      SensibleCommand(kind, port, value, parse);
      CommandKeepsSchema(config, c, parse);
    } else if SchemaOk(Apply(config, c), parse) {
      InsensibleBreaks(config, kind, port, value, parse);
    }
  }

  lemma SensibleCommand(kind: Kind, port: string, value: string, parse: Parsers)
    requires Sensible(kind, value)
    ensures CommandOk(HSet(PortKey(port), map[FieldName(kind) := value]), parse)
  {
    var key := PortKey(port);
    assert key[0] == 'P';
    assert FieldName(kind) in map[FieldName(kind) := value];
  }

  lemma InsensibleBreaks(config: Store, kind: Kind, port: string, value: string, parse: Parsers)
    requires !Sensible(kind, value)
    ensures !SchemaOk(Apply(config, HSet(PortKey(port), map[FieldName(kind) := value])), parse)
  {
    var key, f := PortKey(port), FieldName(kind);
    var now := Apply(config, HSet(key, map[f := value]));
    assert f in map[f := value];
    assert now[key][f] == value;
    assert !FieldOk(key, f, now[key][f], parse);
  }

  /** What a field held before is sensible, or there was no field. */
  lemma KeptIsSensibleIff(config: Store, kind: Kind, port: string, parse: Parsers)
    requires SchemaOk(config, parse)
    ensures Sensible(kind, Lookup(config, PortKey(port), FieldName(kind)))
            <==> HasField(config, PortKey(port), FieldName(kind))
  {
    PutIsIdentityIff(config, PortKey(port), FieldName(kind));
    PutKeepsSchemaIff(config, kind, port, Lookup(config, PortKey(port), FieldName(kind)), parse);
  }

  /** An undisturbed Set call keeps the schema of the running config if and only if no rollback of an absent field takes
      effect and no value outside the schema stays written; the agent itself checks neither. */
  lemma SetKeepsSchemaIff(dev: Device, kind: Kind, port: string, value: string, rs: seq<Reply>, parse: Parsers)
    requires SchemaOk(dev.config, parse)
    ensures SchemaOk(Exec(dev, Start(kind, port, value), rs).0.config, parse)
            <==> if RollsBack(rs) then HasField(dev.config, PortKey(port), FieldName(kind))
                 else Writes(rs) ==> Sensible(kind, value)
  {
    hide SchemaOk, Exec, Step, Put, PortKey, FieldName, Lookup, HasField, Sensible, FirstBad, RollsBack, Writes;
    ConfigAfterCall(dev, kind, port, value, rs);
    PutKeepsSchemaIff(dev.config, kind, port, value, parse);
    PutKeepsSchemaIff(dev.config, kind, port, Lookup(dev.config, PortKey(port), FieldName(kind)), parse);
    KeptIsSensibleIff(dev.config, kind, port, parse);
  }
}
