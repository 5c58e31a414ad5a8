/** The writing methods of the VLAN, interface and port accessors: each validates in the source's order, then issues one
    command. Each says which key and field it changes, to what, under which arguments, and that it keeps the schema,
    whether or not its command succeeds. */
module ConfigAccessor {
  import opened Text
  import opened Redis
  import opened ConfigSchema
  import AddressSync
  import VlanSync

  /** The call did what `w` stands for: nothing but an error when validation fails; otherwise its one command, which a
      successful call certainly carried out. */
  twostate predicate Performed(db: Client, w: Write, parse: Parsers, ok: bool)
    reads db
  {
    match Issue(w, parse)
    case None => !ok && db.log == old(db.log) && db.store == old(db.store)
    case Some(c) => Wrote(db, c) && (ok ==> db.log == old(db.log) + [c] && db.store == Apply(old(db.store), c))
  }

  /** From one store to the other the command of `w` took effect, or nothing did. */
  predicate Effect(before: Store, after: Store, w: Write, parse: Parsers) {
    after == before || (Issue(w, parse).Some? && after == Apply(before, Issue(w, parse).value))
  }

  /** A performed write keeps the schema. */
  lemma PerformedKeepsSchema(before: Store, after: Store, w: Write, parse: Parsers)
    requires Effect(before, after, w, parse) && PlainNames(w) && SchemaOk(before, parse)
    ensures SchemaOk(after, parse)
  {
    hide SchemaOk, CommandOk, Apply, Issue, PlainNames;
    if Issue(w, parse).Some? {
      WriteOk(w, parse);
      CommandKeepsSchema(before, Issue(w, parse).value, parse);
    }
  }

  twostate predicate KeepsSchema(db: Client, parse: Parsers)
    reads db
  {
    old(SchemaOk(db.store, parse)) ==> SchemaOk(db.store, parse)
  }

  // ---------- what a call changes ----------

  predicate OnlyKey(before: Store, after: Store, key: string) {
    after - {key} == before - {key}
  }

  /** Only that field of that key differs. */
  predicate OnlyField(before: Store, after: Store, key: string, field: string) {
    OnlyKey(before, after, key) && FieldsAt(after, key) - {field} == FieldsAt(before, key) - {field}
  }

  predicate FieldIs(store: Store, key: string, field: string, value: string) {
    field in FieldsAt(store, key) && FieldsAt(store, key)[field] == value
  }

  /** Arguments that are not valid change nothing and are reported without asking Redis; valid ones fail only on an
      error reply. */
  twostate predicate Decides(db: Client, valid: bool, ok: bool)
    reads db
  {
    if valid then db.faulted == (old(db.faulted) || !ok)
    else !ok && db.log == old(db.log) && db.store == old(db.store) && db.faulted == old(db.faulted)
  }

  /** Arguments that are not valid change nothing and are reported. Otherwise only that field of that key can change, it
      becomes `value` or stays as it was, and on success it is `value`. */
  twostate predicate SetsField(db: Client, key: string, field: string, value: string, valid: bool, ok: bool)
    reads db
  {
    && Decides(db, valid, ok)
    && OnlyField(old(db.store), db.store, key, field)
    && (db.store == old(db.store) || FieldIs(db.store, key, field, value))
    && (ok ==> FieldIs(db.store, key, field, value))
  }

  twostate predicate SetsAdmin(db: Client, key: string, status: string, ok: bool)
    reads db
  {
    SetsField(db, key, "admin_status", status, status == "up" || status == "down", ok)
  }

  /** The same for removing a whole entry. */
  twostate predicate RemovesKey(db: Client, key: string, valid: bool, ok: bool)
    reads db
  {
    && Decides(db, valid, ok)
    && OnlyKey(old(db.store), db.store, key)
    && (db.store == old(db.store) || key !in db.store)
    && (ok ==> key !in db.store)
  }

  lemma WroteField(store: Store, key: string, field: string, value: string)
    ensures var after := Apply(store, HSet(key, map[field := value]));
            OnlyField(store, after, key, field) && FieldIs(after, key, field, value)
  {
    var fields: Fields := map[field := value];
    assert field in fields;
    var before := FieldsAt(store, key);
    assert (before + fields) - {field} == before - {field};
    assert store[key := before + fields] - {key} == store - {key};
  }

  lemma WroteEntry(store: Store, key: string, fields: Fields)
    requires fields != map[]
    ensures var after := Apply(store, HSet(key, fields));
            OnlyKey(store, after, key) && forall f :: f in fields ==> FieldIs(after, key, f, fields[f])
  {
    var all := FieldsAt(store, key) + fields;
    assert store[key := all] - {key} == store - {key};
  }

  lemma RemovedField(store: Store, key: string, field: string)
    ensures var after := Apply(store, HDel(key, field));
            OnlyField(store, after, key, field) && field !in FieldsAt(after, key)
  {
    var left := FieldsAt(store, key) - {field};
    assert left - {field} == left;
    assert (store - {key}) - {key} == store - {key} && store[key := left] - {key} == store - {key};
  }

  lemma RemovedKey(store: Store, key: string)
    ensures OnlyKey(store, Apply(store, Del(key)), key) && key !in Apply(store, Del(key))
  {
    assert (store - {key}) - {key} == store - {key};
  }

  /** A name is of at most one kind. */
  lemma KindsApart(name: string)
    ensures "Loopback" <= name ==> !("Vlan" <= name) && !("Ethernet" <= name) && !("PortChannel" <= name)
    ensures "Vlan" <= name ==> !("Ethernet" <= name) && !("PortChannel" <= name)
    ensures "Ethernet" <= name ==> !("PortChannel" <= name)
  {
    if name != "" {
      assert "Loopback"[0] == 'L' && "Vlan"[0] == 'V' && "Ethernet"[0] == 'E' && "PortChannel"[0] == 'P';
    }
  }

  class Accessor {
    const db: Client
    const parse: Parsers

    constructor (db: Client, parse: Parsers)
      ensures this.db == db && this.parse == parse
    {
      this.db, this.parse := db, parse;
    }

    method SetMTU(port: string, mtu: int) returns (ok: bool)
      modifies db
      ensures Performed(db, Write.SetMTU(port, mtu), parse, ok)
      ensures SetsField(db, "PORT|" + port, "mtu", Itoa(mtu), "Ethernet" <= port && 68 <= mtu <= 9216, ok)
      ensures KeepsSchema(db, parse)
    {
      hide SchemaOk, Itoa, Apply;
      if !VlanSync.ValidPortName(port) {
        return false;
      }
      if mtu < 68 || mtu > 9216 {
        return false;
      }
      var key := "PORT|" + port;
      ok := db.Write(HSet(key, map["mtu" := Itoa(mtu)]));
      WroteField(old(db.store), key, "mtu", Itoa(mtu));
      if old(SchemaOk(db.store, parse)) {
        PerformedKeepsSchema(old(db.store), db.store, Write.SetMTU(port, mtu), parse);
      }
    }

    method SetFEC(port: string, fec: string) returns (ok: bool)
      modifies db
      ensures Performed(db, Write.SetFEC(port, fec), parse, ok)
      ensures SetsField(db, "PORT|" + port, "fec", fec, "Ethernet" <= port && fec in {"rs", "fc", "none"}, ok)
      ensures KeepsSchema(db, parse)
    {
      hide SchemaOk, Itoa, Apply;
      if !VlanSync.ValidPortName(port) {
        return false;
      }
      if fec != "rs" && fec != "fc" && fec != "none" {
        return false;
      }
      var key := "PORT|" + port;
      ok := db.Write(HSet(key, map["fec" := fec]));
      WroteField(old(db.store), key, "fec", fec);
      if old(SchemaOk(db.store, parse)) {
        PerformedKeepsSchema(old(db.store), db.store, Write.SetFEC(port, fec), parse);
      }
    }

    method SetSpeed(port: string, mbps: int) returns (ok: bool)
      modifies db
      ensures Performed(db, Write.SetSpeed(port, mbps), parse, ok)
      ensures SetsField(db, "PORT|" + port, "speed", Itoa(mbps), "Ethernet" <= port && mbps > 0, ok)
      ensures IsInt64(mbps) ==> KeepsSchema(db, parse)
    {
      hide SchemaOk, Itoa, Apply;
      if !VlanSync.ValidPortName(port) {
        return false;
      }
      if mbps <= 0 {
        return false;
      }
      var key := "PORT|" + port;
      ok := db.Write(HSet(key, map["speed" := Itoa(mbps)]));
      WroteField(old(db.store), key, "speed", Itoa(mbps));
      if IsInt64(mbps) && old(SchemaOk(db.store, parse)) {
        PerformedKeepsSchema(old(db.store), db.store, Write.SetSpeed(port, mbps), parse);
      }
    }

    method SetPortAlias(port: string, alias: string) returns (ok: bool)
      modifies db
      ensures Performed(db, Write.SetPortAlias(port, alias), parse, ok)
      ensures SetsField(db, "PORT|" + port, "alias", alias, "Ethernet" <= port && alias != "", ok)
      ensures KeepsSchema(db, parse)
    {
      hide SchemaOk, Itoa, Apply;
      if !VlanSync.ValidPortName(port) {
        return false;
      }
      if alias == "" {
        return false;
      }
      var key := "PORT|" + port;
      ok := db.Write(HSet(key, map["alias" := alias]));
      WroteField(old(db.store), key, "alias", alias);
      if old(SchemaOk(db.store, parse)) {
        PerformedKeepsSchema(old(db.store), db.store, Write.SetPortAlias(port, alias), parse);
      }
    }

    method SetAdminStatus(name: string, status: string) returns (ok: bool)
      modifies db
      ensures Performed(db, Write.SetAdminStatus(name, status), parse, ok)
      ensures "Loopback" <= name ==> SetsAdmin(db, "LOOPBACK_INTERFACE|" + name, status, ok)
      ensures "Vlan" <= name ==> SetsAdmin(db, "VLAN|" + name, status, ok)
      ensures "Ethernet" <= name ==> SetsAdmin(db, "PORT|" + name, status, ok)
      ensures "PortChannel" <= name ==> SetsAdmin(db, "PORTCHANNEL|" + name, status, ok)
      ensures AddressSync.Unknown(name) ==> Decides(db, false, ok)
      ensures KeepsSchema(db, parse)
    {
      hide SchemaOk, Itoa, Apply;
      KindsApart(name);
      if status != "up" && status != "down" {
        return false;
      }
      var key;
      if "Loopback" <= name {
        key := "LOOPBACK_INTERFACE|" + name;
      } else if "Vlan" <= name {
        key := "VLAN|" + name;
      } else if "Ethernet" <= name {
        key := "PORT|" + name;
      } else if "PortChannel" <= name {
        key := "PORTCHANNEL|" + name;
      } else {
        return false;
      }
      ok := db.Write(HSet(key, map["admin_status" := status]));
      WroteField(old(db.store), key, "admin_status", status);
      if old(SchemaOk(db.store, parse)) {
        PerformedKeepsSchema(old(db.store), db.store, Write.SetAdminStatus(name, status), parse);
      }
    }

    method EnsureVLAN(vlan: string) returns (ok: bool)
      modifies db
      ensures Performed(db, Write.EnsureVLAN(vlan), parse, ok)
      ensures Decides(db, VlanSync.ValidVlanName(vlan), ok)
      ensures VlanSync.ValidVlanName(vlan) ==> SetsField(db, "VLAN|" + vlan, "vlanid", vlan[4..], true, ok)
      ensures KeepsSchema(db, parse)
    {
      hide SchemaOk, Itoa, Apply;
      if !VlanSync.ValidVlanName(vlan) {
        return false;
      }
      var id := vlan[|"Vlan"|..];
      ok := db.Write(HSet("VLAN|" + vlan, map["vlanid" := id]));
      WroteField(old(db.store), "VLAN|" + vlan, "vlanid", id);
      if old(SchemaOk(db.store, parse)) {
        PerformedKeepsSchema(old(db.store), db.store, Write.EnsureVLAN(vlan), parse);
      }
    }

    method EnsureVLANInterface(vlan: string, vrf: string) returns (ok: bool)
      modifies db
      ensures Performed(db, Write.EnsureVLANInterface(vlan, vrf), parse, ok)
      ensures Decides(db, VlanSync.ValidVlanName(vlan), ok)
      ensures OnlyKey(old(db.store), db.store, "VLAN_INTERFACE|" + vlan)
      ensures ok ==> FieldIs(db.store, "VLAN_INTERFACE|" + vlan, "NULL", "NULL")
      ensures ok && vrf != "" ==> FieldIs(db.store, "VLAN_INTERFACE|" + vlan, "vrf_name", vrf)
      ensures KeepsSchema(db, parse)
    {
      hide SchemaOk, Itoa, Apply;
      if !VlanSync.ValidVlanName(vlan) {
        return false;
      }
      var fields: Fields := map["NULL" := "NULL"];
      if vrf != "" {
        fields := fields["vrf_name" := vrf];
      }
      assert "NULL" in fields && fields["NULL"] == "NULL";
      assert vrf != "" ==> "vrf_name" in fields && fields["vrf_name"] == vrf;
      ok := db.Write(HSet("VLAN_INTERFACE|" + vlan, fields));
      WroteEntry(old(db.store), "VLAN_INTERFACE|" + vlan, fields);
      if old(SchemaOk(db.store, parse)) {
        PerformedKeepsSchema(old(db.store), db.store, Write.EnsureVLANInterface(vlan, vrf), parse);
      }
    }

    method DeleteVLAN(vlan: string) returns (ok: bool)
      modifies db
      ensures Performed(db, Write.DeleteVLAN(vlan), parse, ok)
      ensures RemovesKey(db, "VLAN|" + vlan, VlanSync.ValidVlanName(vlan), ok)
      ensures KeepsSchema(db, parse)
    {
      hide SchemaOk, Itoa, Apply;
      if !VlanSync.ValidVlanName(vlan) {
        return false;
      }
      ok := db.Write(Del("VLAN|" + vlan));
      RemovedKey(old(db.store), "VLAN|" + vlan);
      if old(SchemaOk(db.store, parse)) {
        PerformedKeepsSchema(old(db.store), db.store, Write.DeleteVLAN(vlan), parse);
      }
    }

    method DeleteVLANInterface(vlan: string) returns (ok: bool)
      modifies db
      ensures Performed(db, Write.DeleteVLANInterface(vlan), parse, ok)
      ensures RemovesKey(db, "VLAN_INTERFACE|" + vlan, VlanSync.ValidVlanName(vlan), ok)
      ensures KeepsSchema(db, parse)
    {
      hide SchemaOk, Itoa, Apply;
      if !VlanSync.ValidVlanName(vlan) {
        return false;
      }
      ok := db.Write(Del("VLAN_INTERFACE|" + vlan));
      RemovedKey(old(db.store), "VLAN_INTERFACE|" + vlan);
      if old(SchemaOk(db.store, parse)) {
        PerformedKeepsSchema(old(db.store), db.store, Write.DeleteVLANInterface(vlan), parse);
      }
    }

    method SetVLANDescription(vlan: string, description: string) returns (ok: bool)
      modifies db
      ensures Performed(db, Write.SetVLANDescription(vlan, description), parse, ok)
      ensures SetsField(db, "VLAN|" + vlan, "description", description, VlanSync.ValidVlanName(vlan), ok)
      ensures KeepsSchema(db, parse)
    {
      hide SchemaOk, Itoa, Apply;
      if !VlanSync.ValidVlanName(vlan) {
        return false;
      }
      var key := "VLAN|" + vlan;
      ok := db.Write(HSet(key, map["description" := description]));
      WroteField(old(db.store), key, "description", description);
      if old(SchemaOk(db.store, parse)) {
        PerformedKeepsSchema(old(db.store), db.store, Write.SetVLANDescription(vlan, description), parse);
      }
    }

    predicate AllParse(servers: seq<string>) {
      forall i :: 0 <= i < |servers| ==> parse.addr(servers[i])
    }

    method EnsureDHCPRelay(vlan: string, servers: seq<string>) returns (ok: bool)
      modifies db
      ensures Performed(db, Write.EnsureDHCPRelay(vlan, servers), parse, ok)
      ensures SetsField(db, "VLAN|" + vlan, "dhcp_servers@", Join(servers, ','), VlanSync.ValidVlanName(vlan)
                        && servers != [] && AllParse(servers), ok)
      ensures KeepsSchema(db, parse)
    {
      hide SchemaOk, Itoa, Apply;
      if !VlanSync.ValidVlanName(vlan) {
        return false;
      }
      if |servers| == 0 {
        return false;
      }
      for i := 0 to |servers|
        invariant db.log == old(db.log) && db.store == old(db.store) && db.faulted == old(db.faulted)
        invariant forall j :: 0 <= j < i ==> parse.addr(servers[j])
      {
        if !parse.addr(servers[i]) {
          return false;
        }
      }
      var key := "VLAN|" + vlan;
      ok := db.Write(HSet(key, map["dhcp_servers@" := Join(servers, ',')]));
      WroteField(old(db.store), key, "dhcp_servers@", Join(servers, ','));
      if old(SchemaOk(db.store, parse)) {
        PerformedKeepsSchema(old(db.store), db.store, Write.EnsureDHCPRelay(vlan, servers), parse);
      }
    }

    method DeleteDHCPRelay(vlan: string) returns (ok: bool)
      modifies db
      ensures Performed(db, Write.DeleteDHCPRelay(vlan), parse, ok)
      ensures Decides(db, VlanSync.ValidVlanName(vlan), ok)
      ensures OnlyField(old(db.store), db.store, "VLAN|" + vlan, "dhcp_servers@")
      ensures ok ==> "dhcp_servers@" !in FieldsAt(db.store, "VLAN|" + vlan)
      ensures KeepsSchema(db, parse)
    {
      hide SchemaOk, Itoa, Apply;
      if !VlanSync.ValidVlanName(vlan) {
        return false;
      }
      ok := db.Write(HDel("VLAN|" + vlan, "dhcp_servers@"));
      RemovedField(old(db.store), "VLAN|" + vlan, "dhcp_servers@");
      if old(SchemaOk(db.store, parse)) {
        PerformedKeepsSchema(old(db.store), db.store, Write.DeleteDHCPRelay(vlan), parse);
      }
    }

    method EnsureLoopback(name: string) returns (ok: bool)
      modifies db
      ensures Performed(db, Write.EnsureLoopback(name), parse, ok)
      ensures SetsField(db, "LOOPBACK_INTERFACE|" + name, "NULL", "NULL", "Loopback" <= name, ok)
      ensures KeepsSchema(db, parse)
    {
      hide SchemaOk, Itoa, Apply;
      if !("Loopback" <= name) {
        return false;
      }
      var key := "LOOPBACK_INTERFACE|" + name;
      ok := db.Write(HSet(key, map["NULL" := "NULL"]));
      WroteField(old(db.store), key, "NULL", "NULL");
      if old(SchemaOk(db.store, parse)) {
        PerformedKeepsSchema(old(db.store), db.store, Write.EnsureLoopback(name), parse);
      }
    }

    method DeleteLoopback(name: string) returns (ok: bool)
      modifies db
      ensures Performed(db, Write.DeleteLoopback(name), parse, ok)
      ensures RemovesKey(db, "LOOPBACK_INTERFACE|" + name, "Loopback" <= name, ok)
      ensures KeepsSchema(db, parse)
    {
      hide SchemaOk, Itoa, Apply;
      if !("Loopback" <= name) {
        return false;
      }
      ok := db.Write(Del("LOOPBACK_INTERFACE|" + name));
      RemovedKey(old(db.store), "LOOPBACK_INTERFACE|" + name);
      if old(SchemaOk(db.store, parse)) {
        PerformedKeepsSchema(old(db.store), db.store, Write.DeleteLoopback(name), parse);
      }
    }
  }
}
