/** The schema of CONFIG_DB that every accessor write keeps: each write validates its arguments and then issues one
    command; over any sequence of writes, failed ones included, the values stay within their allowed sets. */
module ConfigSchema {
  import opened Text
  import opened Redis
  import AddressSync
  import VlanSync

  /** The writing operations of the VLAN, interface and port accessors. */
  datatype Write =
    | EnsureVLAN(vlan: string)
    | EnsureVLANInterface(vlan: string, vrf: string)
    | DeleteVLAN(vlan: string)
    | DeleteVLANInterface(vlan: string)
    | SetVLANDescription(vlan: string, description: string)
    | EnsureVLANMember(vlan: string, port: string, mode: string)
    | RemoveVLANMember(vlan: string, port: string)
    | EnsureDHCPRelay(vlan: string, servers: seq<string>)
    | DeleteDHCPRelay(vlan: string)
    | SetAdminStatus(name: string, status: string)
    | EnsureLoopback(name: string)
    | DeleteLoopback(name: string)
    | AddIPAddress(name: string, prefix: string)
    | RemoveIPAddress(name: string, prefix: string)
    | SetMTU(port: string, mtu: int)
    | SetFEC(port: string, fec: string)
    | SetSpeed(port: string, mbps: int)
    | SetPortAlias(port: string, alias: string)

  /** `netip.ParseAddr` and `netip.ParsePrefix` accept a text. */
  datatype Parsers = Parsers(addr: string -> bool, prefix: string -> bool)

  function AdminKey(name: string): Option<string> {
    if "Loopback" <= name then Some("LOOPBACK_INTERFACE|" + name)
    else if "Vlan" <= name then Some("VLAN|" + name)
    else if "Ethernet" <= name then Some("PORT|" + name)
    else if "PortChannel" <= name then Some("PORTCHANNEL|" + name)
    else None
  }

  function WhenVlan(vlan: string, c: Command): Option<Command> {
    if VlanSync.ValidVlanName(vlan) then Some(c) else None
  }

  function WhenPort(port: string, ok: bool, field: string, value: string): Option<Command> {
    if VlanSync.ValidPortName(port) && ok then Some(HSet("PORT|" + port, map[field := value])) else None
  }

  /** The command a write issues, or `None` when its validation fails. */
  function Issue(w: Write, parse: Parsers): Option<Command> {
    match w
    case EnsureVLAN(v) => WhenVlan(v, HSet("VLAN|" + v, map["vlanid" := if |v| >= 4 then v[4..] else ""]))
    case EnsureVLANInterface(v, vrf) =>
      WhenVlan(v, HSet("VLAN_INTERFACE|" + v, if vrf == "" then map["NULL" := "NULL"]
                       else map["NULL" := "NULL", "vrf_name" := vrf]))
    case DeleteVLAN(v) => WhenVlan(v, Del("VLAN|" + v))
    case DeleteVLANInterface(v) => WhenVlan(v, Del("VLAN_INTERFACE|" + v))
    case SetVLANDescription(v, d) => WhenVlan(v, HSet("VLAN|" + v, map["description" := d]))
    case EnsureVLANMember(v, p, m) =>
      if VlanSync.ValidVlanName(v) && VlanSync.ValidPortName(p) && VlanSync.ValidTagging(m)
      then Some(HSet("VLAN_MEMBER|" + v + "|" + p, map["tagging_mode" := m])) else None
    case RemoveVLANMember(v, p) =>
      if VlanSync.ValidVlanName(v) && VlanSync.ValidPortName(p) then Some(Del("VLAN_MEMBER|" + v + "|" + p)) else None
    case EnsureDHCPRelay(v, servers) =>
      if servers != [] && (forall i :: 0 <= i < |servers| ==> parse.addr(servers[i]))
      then WhenVlan(v, HSet("VLAN|" + v, map["dhcp_servers@" := Join(servers, ',')])) else None
    case DeleteDHCPRelay(v) => WhenVlan(v, HDel("VLAN|" + v, "dhcp_servers@"))
    case SetAdminStatus(name, s) =>
      if (s == "up" || s == "down") && AdminKey(name).Some?
        then Some(HSet(AdminKey(name).value, map["admin_status" := s])) else None
    case EnsureLoopback(l) => if "Loopback" <= l then Some(HSet("LOOPBACK_INTERFACE|" + l, map["NULL" := "NULL"]))
      else None
    case DeleteLoopback(l) => if "Loopback" <= l then Some(Del("LOOPBACK_INTERFACE|" + l)) else None
    case AddIPAddress(name, p) =>
      if AddressSync.IpTable(name).Some? && parse.prefix(p)
      then Some(HSet(AddressSync.IpTable(name).value + "|" + name + "|" + p, AddressSync.MARKER)) else None
    case RemoveIPAddress(name, p) =>
      if AddressSync.IpTable(name).Some? && parse.prefix(p)
        then Some(Del(AddressSync.IpTable(name).value + "|" + name + "|" + p)) else None
    case SetMTU(p, mtu) => WhenPort(p, 68 <= mtu <= 9216, "mtu", Itoa(mtu))
    case SetFEC(p, fec) => WhenPort(p, fec in {"rs", "fc", "none"}, "fec", fec)
    case SetSpeed(p, mbps) => WhenPort(p, mbps > 0, "speed", Itoa(mbps))
    case SetPortAlias(p, alias) => WhenPort(p, alias != "", "alias", alias)
  }

  // ---------- the schema ----------

  /** A value that decodes as a 64-bit number within bounds. */
  predicate NumberIn(value: string, lo: int, hi: int) {
    Atoi(value).Some? && lo <= Atoi(value).value <= hi
  }

  ghost predicate ServerList(value: string, parse: Parsers) {
    exists servers: seq<string> :: servers != [] && (forall i :: 0 <= i < |servers| ==> parse.addr(servers[i]))
      && value == Join(servers, ',')
  }

  /** A member key has exactly a valid VLAN and a valid port. */
  ghost predicate MemberKey(key: string) {
    exists v, p :: VlanSync.ValidVlanName(v) && VlanSync.ValidPortName(p) && '|' !in p
      && key == VlanSync.MemberFamily(p).Key(v)
  }

  ghost predicate VlanFieldOk(key: string, field: string, value: string, parse: Parsers) {
    && (field == "vlanid" ==> key == "VLAN|Vlan" + value && NumberIn(value, 1, 4094))
    && (field == "dhcp_servers@" ==> ServerList(value, parse))
  }

  predicate PortFieldOk(field: string, value: string) {
    && (field == "mtu" ==> NumberIn(value, 68, 9216))
    && (field == "speed" ==> NumberIn(value, 1, MAX_INT64))
    && (field == "fec" ==> value in {"rs", "fc", "none"})
    && (field == "alias" ==> value != "")
  }

  ghost predicate FieldOk(key: string, field: string, value: string, parse: Parsers) {
    && ("VLAN|" <= key ==> VlanFieldOk(key, field, value, parse))
    && ("PORT|" <= key ==> PortFieldOk(field, value))
    && ("VLAN_MEMBER|" <= key ==> MemberKey(key) && (field == "tagging_mode" ==> VlanSync.ValidTagging(value)))
    && (field == "admin_status" ==> value == "up" || value == "down")
  }

  ghost predicate SchemaOk(store: Store, parse: Parsers) {
    && NoEmptyHash(store)
    && forall k, f :: k in store && f in store[k] ==> FieldOk(k, f, store[k][f], parse)
  }

  ghost predicate CommandOk(c: Command, parse: Parsers) {
    c.HSet? ==> c.fields != map[] && forall f :: f in c.fields ==> FieldOk(c.key, f, c.fields[f], parse)
  }

  /** Names as the accessors assume them: no separator inside a port name; and a speed within Go's `int`. */
  predicate PlainNames(w: Write) {
    && (w.EnsureVLANMember? ==> '|' !in w.port)
    && (w.SetSpeed? ==> IsInt64(w.mbps))
  }

  // ---------- every write issues a command that meets it ----------

  lemma VlanTableKey(vlan: string)
    ensures var key := "VLAN|" + vlan; "VLAN|" <= key && !("PORT|" <= key) && !("VLAN_MEMBER|" <= key)
  {
    var key := "VLAN|" + vlan;
    assert key[0] == 'V' && key[4] == '|';
  }

  lemma VlanWriteOk(w: Write, parse: Parsers)
    requires w.EnsureVLAN? || w.SetVLANDescription? || w.EnsureDHCPRelay?
    requires Issue(w, parse).Some?
    ensures CommandOk(Issue(w, parse).value, parse)
  {
    hide PortFieldOk, MemberKey, VlanSync.ValidPortName, VlanSync.ValidTagging, Itoa, Join, AdminKey;
    var c := Issue(w, parse).value;
    VlanTableKey(w.vlan);
    if w.EnsureVLAN? {
      assert c.fields["vlanid"] == w.vlan[4..];
      assert "VLAN|Vlan" + w.vlan[4..] == "VLAN|" + w.vlan;
    } else if w.SetVLANDescription? {
      assert c.fields["description"] == w.description;
    } else {
      assert c.fields["dhcp_servers@"] == Join(w.servers, ',');
    }
  }

  lemma PortNumberOk(w: Write, parse: Parsers)
    requires w.SetMTU? || w.SetSpeed?
    requires PlainNames(w) && Issue(w, parse).Some?
    ensures CommandOk(Issue(w, parse).value, parse)
  {
    hide Itoa, Atoi;
    var c := Issue(w, parse).value;
    assert c.key[0] == 'P';
    if w.SetMTU? {
      AtoiOfItoa(w.mtu);
      assert c.fields["mtu"] == Itoa(w.mtu);
    } else {
      AtoiOfItoa(w.mbps);
      assert c.fields["speed"] == Itoa(w.mbps);
    }
  }

  lemma PortTextOk(w: Write, parse: Parsers)
    requires w.SetFEC? || w.SetPortAlias?
    requires PlainNames(w) && Issue(w, parse).Some?
    ensures CommandOk(Issue(w, parse).value, parse)
  {
    hide Itoa, Atoi;
    var c := Issue(w, parse).value;
    assert c.key[0] == 'P';
    if w.SetFEC? {
      assert c.fields["fec"] == w.fec;
    } else {
      assert c.fields["alias"] == w.alias;
    }
  }

  lemma MemberWriteOk(w: Write, parse: Parsers)
    requires w.EnsureVLANMember? && PlainNames(w) && Issue(w, parse).Some?
    ensures CommandOk(Issue(w, parse).value, parse)
  {
    var c := Issue(w, parse).value;
    assert c.fields["tagging_mode"] == w.mode;
    assert !("VLAN|" <= c.key) && !("PORT|" <= c.key) by {
      assert c.key[0] == 'V' && c.key[4] == '_';
    }
    assert c.key == VlanSync.MemberFamily(w.port).Key(w.vlan);
  }

  lemma OtherWriteOk(w: Write, parse: Parsers)
    requires w.EnsureVLANInterface? || w.EnsureLoopback? || w.AddIPAddress?
    requires Issue(w, parse).Some?
    ensures CommandOk(Issue(w, parse).value, parse)
  {
    hide VlanFieldOk, PortFieldOk, MemberKey, VlanSync.ValidVlanName, VlanSync.ValidPortName, VlanSync.ValidTagging,
      Itoa, Join;
    var c := Issue(w, parse).value;
    OtherKey(w, parse);
    assert "NULL" in c.fields;
  }

  /** These writes go to tables of their own. */
  lemma OtherKey(w: Write, parse: Parsers)
    requires w.EnsureVLANInterface? || w.EnsureLoopback? || w.AddIPAddress?
    requires Issue(w, parse).Some?
    ensures var key := Issue(w, parse).value.key; !("VLAN|" <= key) && !("PORT|" <= key) && !("VLAN_MEMBER|" <= key)
  {
    var key := Issue(w, parse).value.key;
    assert |key| > 5;
    if key[0] == 'P' {
      assert key[4] == 'C';
    } else if key[0] == 'V' {
      assert key[4] == '_' && key[5] == 'I';
    }
  }

  lemma AdminWriteOk(w: Write, parse: Parsers)
    requires w.SetAdminStatus? && Issue(w, parse).Some?
    ensures CommandOk(Issue(w, parse).value, parse)
  {
    var c := Issue(w, parse).value;
    assert c.fields["admin_status"] == w.status;
    assert !("VLAN_MEMBER|" <= c.key) by {
      if c.key[0] == 'V' {
        assert c.key[4] == '|';
      }
    }
  }

  lemma WriteOk(w: Write, parse: Parsers)
    requires PlainNames(w) && Issue(w, parse).Some?
    ensures CommandOk(Issue(w, parse).value, parse)
  {
    match w
    case EnsureVLAN(_) => VlanWriteOk(w, parse);
    case SetVLANDescription(_, _) => VlanWriteOk(w, parse);
    case EnsureDHCPRelay(_, _) => VlanWriteOk(w, parse);
    case SetMTU(_, _) => PortNumberOk(w, parse);
    case SetFEC(_, _) => PortTextOk(w, parse);
    case SetSpeed(_, _) => PortNumberOk(w, parse);
    case SetPortAlias(_, _) => PortTextOk(w, parse);
    case EnsureVLANMember(_, _, _) => MemberWriteOk(w, parse);
    case EnsureVLANInterface(_, _) => OtherWriteOk(w, parse);
    case EnsureLoopback(_) => OtherWriteOk(w, parse);
    case AddIPAddress(_, _) => OtherWriteOk(w, parse);
    case SetAdminStatus(_, _) => AdminWriteOk(w, parse);
    case _ =>
  }

  // ---------- the writes of the two syncs ----------

  /** Memberships and addresses are written to and removed from the same keys as the syncs use. */
  lemma MemberAndAddressWrites(vlan: string, port: string, mode: string, name: string, prefix: string, parse: Parsers)
    ensures VlanSync.GoodMember(vlan, port, mode) ==>
              Issue(EnsureVLANMember(vlan, port, mode), parse)
              == Some(HSet(VlanSync.MemberKey(vlan, port), map["tagging_mode" := mode]))
    ensures VlanSync.ValidVlanName(vlan) && "Ethernet" <= port ==>
              Issue(RemoveVLANMember(vlan, port), parse) == Some(Del(VlanSync.MemberKey(vlan, port)))
    ensures !VlanSync.GoodMember(vlan, port, mode) ==> Issue(EnsureVLANMember(vlan, port, mode), parse).None?
    ensures !(VlanSync.ValidVlanName(vlan) && "Ethernet" <= port) ==> Issue(RemoveVLANMember(vlan, port), parse).None?
    ensures parse.prefix(prefix) && "Ethernet" <= name ==>
              && Issue(AddIPAddress(name, prefix), parse)
                 == Some(HSet(AddressSync.AddressKey("INTERFACE", name, prefix), map["NULL" := "NULL"]))
              && Issue(RemoveIPAddress(name, prefix), parse)
                 == Some(Del(AddressSync.AddressKey("INTERFACE", name, prefix)))
    ensures AddressSync.Unknown(name) || !parse.prefix(prefix) ==>
              Issue(AddIPAddress(name, prefix), parse).None? && Issue(RemoveIPAddress(name, prefix), parse).None?
  {
    AddressSync.IpTableIs(name);
  }

  // ---------- whole runs ----------

  lemma CommandKeepsSchema(store: Store, c: Command, parse: Parsers)
    requires SchemaOk(store, parse) && CommandOk(c, parse)
    ensures SchemaOk(Apply(store, c), parse)
  {
    hide FieldOk;
    if c.HSet? {
      var f :| f in c.fields;
      assert f in Apply(store, c)[c.key];
    }
  }

  /** A run of accessor writes; a write whose validation fails, or whose command was lost, has no effect. */
  function RunWrites(store: Store, ws: seq<(Write, bool)>, parse: Parsers): Store {
    if ws == [] then store
    else
      var before := RunWrites(store, ws[..|ws| - 1], parse);
      var (w, effective) := ws[|ws| - 1];
      var c := Issue(w, parse);
      if c.Some? && effective then Apply(before, c.value) else before
  }

  /** What the schema says, table by table and field by field. */
  ghost predicate WithinRules(store: Store, parse: Parsers) {
    && (forall v, f :: "VLAN|" + v in store && f in store["VLAN|" + v] ==> VlanRule(v, f, store["VLAN|" + v][f], parse))
    && (forall p, f :: "PORT|" + p in store && f in store["PORT|" + p] ==> PortRule(f, store["PORT|" + p][f]))
    && (forall k :: k in store && "tagging_mode" in store[k] && "VLAN_MEMBER|" <= k ==>
          store[k]["tagging_mode"] == "tagged" || store[k]["tagging_mode"] == "untagged")
    && (forall k :: k in store && "admin_status" in store[k] ==>
          store[k]["admin_status"] == "up" || store[k]["admin_status"] == "down")
  }

  ghost predicate VlanRule(vlan: string, field: string, value: string, parse: Parsers) {
    && (field == "vlanid" ==> vlan == "Vlan" + value && Atoi(value).Some? && 1 <= Atoi(value).value <= 4094)
    && (field == "dhcp_servers@" ==> ServerList(value, parse))
  }

  predicate PortRule(field: string, value: string) {
    && (field == "mtu" ==> Atoi(value).Some? && 68 <= Atoi(value).value <= 9216)
    && (field == "speed" ==> Atoi(value).Some? && 0 < Atoi(value).value)
    && (field == "fec" ==> value == "rs" || value == "fc" || value == "none")
    && (field == "alias" ==> value != "")
  }

  lemma PortFieldMeansRule(port: string, field: string, value: string, parse: Parsers)
    requires FieldOk("PORT|" + port, field, value, parse)
    ensures PortRule(field, value)
  {
  }

  lemma VlanFieldMeansRule(vlan: string, field: string, value: string, parse: Parsers)
    requires FieldOk("VLAN|" + vlan, field, value, parse)
    ensures VlanRule(vlan, field, value, parse)
  {
    hide ServerList;
    if field == "vlanid" {
      var a, b := "VLAN|" + vlan, "VLAN|Vlan" + value;
      assert a[5..] == vlan && b[5..] == "Vlan" + value;
    }
  }

  lemma SchemaMeansRules(store: Store, parse: Parsers)
    requires SchemaOk(store, parse)
    ensures WithinRules(store, parse)
  {
    hide PortRule, VlanRule, PortFieldOk, VlanFieldOk, MemberKey;
    forall v, f | "VLAN|" + v in store && f in store["VLAN|" + v]
      ensures VlanRule(v, f, store["VLAN|" + v][f], parse)
    {
      VlanFieldMeansRule(v, f, store["VLAN|" + v][f], parse);
    }
    forall p, f | "PORT|" + p in store && f in store["PORT|" + p]
      ensures PortRule(f, store["PORT|" + p][f])
    {
      PortFieldMeansRule(p, f, store["PORT|" + p][f], parse);
    }
    forall k | k in store && "admin_status" in store[k]
      ensures store[k]["admin_status"] == "up" || store[k]["admin_status"] == "down"
    {
      assert FieldOk(k, "admin_status", store[k]["admin_status"], parse);
    }
    forall k | k in store && "tagging_mode" in store[k] && "VLAN_MEMBER|" <= k
      ensures store[k]["tagging_mode"] == "tagged" || store[k]["tagging_mode"] == "untagged"
    {
      assert FieldOk(k, "tagging_mode", store[k]["tagging_mode"], parse);
    }
  }

  lemma {:induction false} RunsKeepSchema(ws: seq<(Write, bool)>, parse: Parsers)
    requires forall i :: 0 <= i < |ws| ==> PlainNames(ws[i].0)
    ensures SchemaOk(RunWrites(map[], ws, parse), parse)
  {
    if ws != [] {
      RunsKeepSchema(ws[..|ws| - 1], parse);
      var w := ws[|ws| - 1].0;
      if Issue(w, parse).Some? {
        WriteOk(w, parse);
        CommandKeepsSchema(RunWrites(map[], ws[..|ws| - 1], parse), Issue(w, parse).value, parse);
      }
    }
  }

  /** From the empty database, whatever writes are made and whichever of them fail: vlanid is the suffix of its key and
      within 1 to 4094, mtu within 68 to 9216, speed positive, fec, tagging mode and admin status within their sets,
      alias not empty, and every relay list the join of addresses. */
  lemma SchemaOverAllRuns(ws: seq<(Write, bool)>, parse: Parsers)
    requires forall i :: 0 <= i < |ws| ==> PlainNames(ws[i].0)
    ensures SchemaOk(RunWrites(map[], ws, parse), parse) && WithinRules(RunWrites(map[], ws, parse), parse)
  {
    hide SchemaOk, WithinRules, RunWrites, PlainNames;
    RunsKeepSchema(ws, parse);
    SchemaMeansRules(RunWrites(map[], ws, parse), parse);
  }

  /** The relay list of a VLAN splits back into the servers given exactly when no server text contains a comma
      (an IPv6 zone may). */
  lemma RelayRoundTripIff(vlan: string, servers: seq<string>, parse: Parsers)
    requires Issue(EnsureDHCPRelay(vlan, servers), parse).Some?
    ensures var c := Issue(EnsureDHCPRelay(vlan, servers), parse).value;
            && c.HSet? && "dhcp_servers@" in c.fields
            && (Split(c.fields["dhcp_servers@"], ',') == servers <==> FreeOf(servers, ','))
  {
    SplitInvertsJoinIff(servers, ',');
  }

  /** A store that meets the schema has only three-part member keys, so `SyncPortVLANs` applies to it. */
  lemma SchemaMakesSyncApplicable(store: Store, port: string, parse: Parsers)
    requires SchemaOk(store, parse) && '|' !in port
    ensures VlanSync.ThreePart(store, port)
  {
    var fam := VlanSync.MemberFamily(port);
    forall k | k in store && fam.Holds(k)
      ensures '|' !in fam.Name(k)
    {
      var f :| f in store[k];
      assert FieldOk(k, f, store[k][f], parse);
      assert "VLAN_MEMBER|" <= k;
      var v, p :| VlanSync.ValidVlanName(v) && VlanSync.ValidPortName(p) && '|' !in p
          && k == VlanSync.MemberFamily(p).Key(v);
      ValidVlanPlain(v);
      fam.NameKey(k);
      assert k == "VLAN_MEMBER|" + v + ['|'] + p && k == "VLAN_MEMBER|" + fam.Name(k) + ['|'] + port;
      LastPartUnique("VLAN_MEMBER|" + v, p, "VLAN_MEMBER|" + fam.Name(k), port, '|');
      assert v == ("VLAN_MEMBER|" + v)[12..] && fam.Name(k) == ("VLAN_MEMBER|" + fam.Name(k))[12..];
    }
  }

  lemma ValidVlanPlain(v: string)
    requires VlanSync.ValidVlanName(v)
    ensures '|' !in v
  {
    var (sign, body) := ScanSign(v[4..]);
    assert forall i :: 4 <= i < |v| ==> v[i] == v[4..][i - 4];
  }
}
