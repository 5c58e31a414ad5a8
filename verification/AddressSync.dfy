/** IP address entries of an interface in CONFIG_DB: listing, adding, removing, and `SyncIPAddresses`. */
module AddressSync {
  import opened Text
  import opened Redis
  import opened EntrySync

  /** The table holding an interface's addresses, by the prefix of its name. */
  function IpTable(name: string): Option<string> {
    if "Loopback" <= name then Some("LOOPBACK_INTERFACE")
    else if "Vlan" <= name then Some("VLAN_INTERFACE")
    else if "Ethernet" <= name then Some("INTERFACE")
    else if "PortChannel" <= name then Some("PORTCHANNEL_INTERFACE")
    else None
  }

  /** The keys `TABLE|name|prefix` of one interface. */
  function IpFamily(name: string): Family
    requires IpTable(name).Some?
  {
    Family(IpTable(name).value + "|" + name + "|", "")
  }

  const MARKER: Fields := map["NULL" := "NULL"]

  /** Exactly the desired prefixes shall be listed; the missing ones are written as marker entries. */
  function IpGoal(store: Store, fam: Family, desired: seq<string>): Goal {
    Goal(map p | p in ToSet(desired) :: map[], map p | p in ToSet(desired) - Entries(store, fam) :: MARKER)
  }

  function Marks(fam: Family, names: seq<string>): seq<Command> {
    seq(|names|, i requires 0 <= i < |names| => HSet(fam.Key(names[i]), MARKER))
  }

  /** The writes of a sync that saw `current`: removals, then additions. */
  function IpPlan(fam: Family, current: seq<string>, desired: seq<string>): seq<Command> {
    Dels(fam, Without(current, ToSet(desired))) + Marks(fam, Without(desired, ToSet(current)))
  }

  lemma IpTablePlain(name: string)
    requires IpTable(name).Some?
    ensures PlainText(IpTable(name).value)
  {
    TablesPlain();
  }

  lemma TablesPlain()
    ensures PlainText("LOOPBACK_INTERFACE")
    ensures PlainText("VLAN_INTERFACE")
    ensures PlainText("INTERFACE")
    ensures PlainText("PORTCHANNEL_INTERFACE")
  {
  }

  /** The SCAN pattern matches exactly the interface's own entries: not those of an interface whose name
      extends this one, not the bare interface entry, not another table. */
  lemma PatternIsFamily(name: string, k: string)
    requires IpTable(name).Some? && GlobFree(name)
    ensures StarPattern(IpFamily(name).pre + "*")
    ensures GlobMatch(IpFamily(name).pre + "*", k) <==> IpFamily(name).Holds(k)
  {
    var pre := IpFamily(name).pre;
    IpTablePlain(name);
    GlobPrefixSuffix(pre, "", k);
    assert pre + "*" + "" == pre + "*";
  }

  lemma KeyParts(table: string, name: string, k: string) returns (rest: string)
    requires Family(table + "|" + name + "|", "").Holds(k)
    ensures k == table + ['|'] + (name + ['|'] + rest)
  {
    rest := k[|table| + 1 + |name| + 1..];
    assert k == (table + "|" + name + "|") + rest;
  }

  /** Two interfaces never share an address entry: neither Ethernet1 and Ethernet10, nor different tables. */
  lemma {:induction false} FamiliesDisjoint(name1: string, name2: string, k: string)
    requires IpTable(name1).Some? && IpTable(name2).Some?
    requires '|' !in name1 && '|' !in name2
    requires IpFamily(name1).Holds(k) && IpFamily(name2).Holds(k)
    ensures name1 == name2
  {
    hide IpTable;
    var t1, t2 := IpTable(name1).value, IpTable(name2).value;
    IpTablePlain(name1);
    IpTablePlain(name2);
    var r1 := KeyParts(t1, name1, k);
    var r2 := KeyParts(t2, name2, k);
    FirstPartUnique(t1, name1 + ['|'] + r1, t2, name2 + ['|'] + r2, '|');
    FirstPartUnique(name1, r1, name2, r2, '|');
  }

  lemma IpGoalValid(store: Store, fam: Family, desired: seq<string>)
    ensures IpGoal(store, fam, desired).Valid()
    ensures IpGoal(store, fam, desired).want.Keys - Entries(store, fam) <= IpGoal(store, fam, desired).fill.Keys
  {
    assert "NULL" in MARKER;
    var none: Fields := map[];
    assert none.Items == {};
  }

  lemma IpPlanSanctioned(store: Store, fam: Family, current: seq<string>, desired: seq<string>)
    requires ToSet(current) == Entries(store, fam)
    ensures IpGoal(store, fam, desired).Valid()
    ensures AllSanctioned(IpPlan(fam, current, desired), fam, IpGoal(store, fam, desired))
    ensures IpGoal(store, fam, desired).want.Keys - Entries(store, fam) <= IpGoal(store, fam, desired).fill.Keys
  {
    var goal := IpGoal(store, fam, desired);
    IpGoalValid(store, fam, desired);
    var plan := IpPlan(fam, current, desired);
    var gone, added := Without(current, ToSet(desired)), Without(desired, ToSet(current));
    forall i | 0 <= i < |plan|
      ensures Sanctioned(plan[i], fam, goal)
    {
      if i < |gone| {
        assert gone[i] in gone;
        fam.KeyName(gone[i]);
      } else {
        assert added[i - |gone|] in added;
        fam.KeyName(added[i - |gone|]);
      }
    }
  }

  lemma IpPlanTouches(store: Store, fam: Family, current: seq<string>, desired: seq<string>)
    requires ToSet(current) == Entries(store, fam)
    ensures var plan, goal := IpPlan(fam, current, desired), IpGoal(store, fam, desired);
            && (forall k :: k in store && fam.Holds(k) && fam.Name(k) !in goal.want ==> k in Dropped(plan))
            && (forall k :: fam.Holds(k) && fam.Name(k) in goal.fill ==> k in Filled(plan))
  {
    var goal := IpGoal(store, fam, desired);
    var plan := IpPlan(fam, current, desired);
    var gone, added := Without(current, ToSet(desired)), Without(desired, ToSet(current));
    forall k | k in store && fam.Holds(k) && fam.Name(k) !in goal.want
      ensures k in Dropped(plan)
    {
      assert fam.Name(k) in Entries(store, fam);
      assert fam.Name(k) in gone;
      var i :| 0 <= i < |gone| && gone[i] == fam.Name(k);
      fam.NameKey(k);
      assert plan[i] == Del(k);
      TouchedMember(plan, i);
    }
    forall k | fam.Holds(k) && fam.Name(k) in goal.fill
      ensures k in Filled(plan)
    {
      assert fam.Name(k) in added;
      var i :| 0 <= i < |added| && added[i] == fam.Name(k);
      fam.NameKey(k);
      assert plan[|gone| + i] == HSet(k, MARKER);
      TouchedMember(plan, |gone| + i);
    }
  }

  /** The whole plan is the set assignment. */
  lemma IpPlanAssigns(store: Store, fam: Family, current: seq<string>, desired: seq<string>)
    requires ToSet(current) == Entries(store, fam)
    ensures IpGoal(store, fam, desired).want.Keys - Entries(store, fam) <= IpGoal(store, fam, desired).fill.Keys
    ensures Run(store, IpPlan(fam, current, desired)) == Assigned(store, fam, IpGoal(store, fam, desired))
    ensures Entries(Run(store, IpPlan(fam, current, desired)), fam) == ToSet(desired)
  {
    hide Run, Apply, Assigned, AllSanctioned, IpPlan, Goal.Valid, Dropped, Filled;
    var goal := IpGoal(store, fam, desired);
    var plan := IpPlan(fam, current, desired);
    IpPlanSanctioned(store, fam, current, desired);
    IpPlanTouches(store, fam, current, desired);
    CompleteRunAssigns(store, plan, fam, goal);
    forall x | x in goal.want && x !in goal.fill
      ensures Satisfied(store, fam, goal, x)
    {
      EntriesMember(store, fam, x);
    }
    AssignedMeetsGoal(store, fam, goal);
  }

  /** What a sync that took effect as far as `cs` guarantees: at every single write no flapping and no growth of the
      difference; on success the set assignment; and no write at all when the prefixes already match. */
  ghost predicate IpSyncOutcome(store: Store, fam: Family, desired: seq<string>, cs: seq<Command>, ok: bool) {
    var goal := IpGoal(store, fam, desired);
    var now := Run(store, cs);
    && Steady(store, cs, fam, goal)
    && goal.want.Keys - Entries(store, fam) <= goal.fill.Keys
    && (ok ==> now == Assigned(store, fam, goal) && Entries(now, fam) == ToSet(desired))
    && (Entries(store, fam) == ToSet(desired) ==> cs == [])
  }

  /** Any cut-off of the plan has that outcome, for every listing SCAN may have produced. */
  lemma IpPlanOutcome(store: Store, fam: Family, current: seq<string>, desired: seq<string>, cs: seq<Command>, ok: bool)
    requires ToSet(current) == Entries(store, fam)
    requires cs <= IpPlan(fam, current, desired)
    requires ok ==> cs == IpPlan(fam, current, desired)
    ensures IpSyncOutcome(store, fam, desired, cs, ok)
  {
    var goal := IpGoal(store, fam, desired);
    IpPlanSanctioned(store, fam, current, desired);
    IpPlanAssigns(store, fam, current, desired);
    assert AllSanctioned(cs, fam, goal);
    SanctionedRunIsSteady(store, cs, fam, goal);
    if Entries(store, fam) == ToSet(desired) {
      assert ToSet(current) <= ToSet(desired) && ToSet(desired) <= ToSet(current);
    }
  }

  lemma IpNothingDone(store: Store, fam: Family, desired: seq<string>)
    ensures IpSyncOutcome(store, fam, desired, [], false)
  {
    IpGoalValid(store, fam, desired);
    SanctionedRunIsSteady(store, [], fam, IpGoal(store, fam, desired));
  }

  // ---------- where the entries are ----------

  /** The key of an address in a table. */
  function AddressKey(table: string, name: string, prefix: string): string {
    table + "|" + name + "|" + prefix
  }

  /** No key changed except those of the interface in that table. */
  ghost predicate OnlyThere(before: Store, after: Store, table: string, name: string) {
    forall k :: !(table + "|" + name + "|" <= k) ==>
      (k in after <==> k in before) && (k in after ==> after[k] == before[k])
  }

  predicate Marked(store: Store, key: string) {
    key in store && "NULL" in store[key] && store[key]["NULL"] == "NULL"
  }

  /** What a call is for: these prefixes and no others, without these, or these as well. */
  datatype Change = Assign(desired: set<string>) | Remove(gone: set<string>) | Add(added: set<string>) {
    predicate Expects(was: bool, prefix: string) {
      match this
      case Assign(desired) => prefix in desired
      case Remove(gone) => was && prefix !in gone
      case Add(added) => was || prefix in added
    }
  }

  /** Exactly the expected keys are present; those that were not there before are markers. */
  ghost predicate Holding(before: Store, after: Store, table: string, name: string, change: Change) {
    forall p :: HoldsAt(before, after, AddressKey(table, name, p), p, change)
  }

  predicate HoldsAt(before: Store, after: Store, key: string, prefix: string, change: Change) {
    && (key in after <==> change.Expects(key in before, prefix))
    && (key in after && key !in before ==> Marked(after, key))
  }

  /** The outcome of a call located in a table: only there, and on success exactly what is expected. */
  ghost predicate Located(before: Store, after: Store, table: string, name: string, change: Change, ok: bool) {
    OnlyThere(before, after, table, name) && (ok ==> Holding(before, after, table, name, change))
  }

  /** The table is that of the kind of interface; a name of no known kind is refused and changes nothing. */
  ghost predicate AtItsTable(before: Store, after: Store, name: string, change: Change, ok: bool) {
    && ("Loopback" <= name ==> Located(before, after, "LOOPBACK_INTERFACE", name, change, ok))
    && ("Vlan" <= name ==> Located(before, after, "VLAN_INTERFACE", name, change, ok))
    && ("Ethernet" <= name ==> Located(before, after, "INTERFACE", name, change, ok))
    && ("PortChannel" <= name ==> Located(before, after, "PORTCHANNEL_INTERFACE", name, change, ok))
    && (Unknown(name) ==> !ok && after == before)
  }

  /** The prefixes listed are those of the table. */
  ghost predicate ListsTable(store: Store, table: string, name: string, addrs: seq<string>) {
    forall p :: p in addrs <==> AddressKey(table, name, p) in store
  }

  ghost predicate ListsItsTable(store: Store, name: string, addrs: Option<seq<string>>) {
    && (addrs.Some? && "Loopback" <= name ==> ListsTable(store, "LOOPBACK_INTERFACE", name, addrs.value))
    && (addrs.Some? && "Vlan" <= name ==> ListsTable(store, "VLAN_INTERFACE", name, addrs.value))
    && (addrs.Some? && "Ethernet" <= name ==> ListsTable(store, "INTERFACE", name, addrs.value))
    && (addrs.Some? && "PortChannel" <= name ==> ListsTable(store, "PORTCHANNEL_INTERFACE", name, addrs.value))
    && (Unknown(name) ==> addrs.None?)
  }

  predicate Unknown(name: string) {
    !("Loopback" <= name) && !("Vlan" <= name) && !("Ethernet" <= name) && !("PortChannel" <= name)
  }

  lemma IpTableIs(name: string)
    ensures "Loopback" <= name ==> IpTable(name) == Some("LOOPBACK_INTERFACE")
    ensures "Vlan" <= name ==> IpTable(name) == Some("VLAN_INTERFACE")
    ensures "Ethernet" <= name ==> IpTable(name) == Some("INTERFACE")
    ensures "PortChannel" <= name ==> IpTable(name) == Some("PORTCHANNEL_INTERFACE")
    ensures IpTable(name).None? <==> Unknown(name)
  {
    if name != "" {
      assert "Loopback"[0] == 'L' && "Vlan"[0] == 'V' && "Ethernet"[0] == 'E' && "PortChannel"[0] == 'P';
    }
  }

  lemma KeyInFamily(name: string, p: string)
    requires IpTable(name).Some?
    ensures IpFamily(name).Key(p) == AddressKey(IpTable(name).value, name, p)
    ensures IpFamily(name).Holds(AddressKey(IpTable(name).value, name, p))
    ensures IpFamily(name).Name(AddressKey(IpTable(name).value, name, p)) == p
  {
    hide IpTable;
    assert IpFamily(name).Key(p) == AddressKey(IpTable(name).value, name, p);
    IpFamily(name).KeyName(p);
  }

  /** A prefix is listed exactly when its key is in the table. */
  lemma EntryIsKey(store: Store, name: string, p: string)
    requires IpTable(name).Some?
    ensures p in Entries(store, IpFamily(name)) <==> AddressKey(IpTable(name).value, name, p) in store
  {
    hide IpTable;
    KeyInFamily(name, p);
    EntriesMember(store, IpFamily(name), p);
  }

  lemma SteadyOnlyThere(store: Store, name: string, goal: Goal, cs: seq<Command>)
    requires IpTable(name).Some? && Steady(store, cs, IpFamily(name), goal)
    ensures OnlyThere(store, Run(store, cs), IpTable(name).value, name)
  {
    hide IpTable, Run, Pending, Entries;
    assert cs[..|cs|] == cs;
    assert NoFlap(store, Run(store, cs), IpFamily(name), goal);
  }

  lemma AssignedHolds(store: Store, name: string, desired: seq<string>, p: string)
    requires IpTable(name).Some?
    requires var goal := IpGoal(store, IpFamily(name), desired);
             goal.want.Keys - Entries(store, IpFamily(name)) <= goal.fill.Keys
    ensures var after := Assigned(store, IpFamily(name), IpGoal(store, IpFamily(name), desired));
            var key := AddressKey(IpTable(name).value, name, p);
            && (key in after <==> p in ToSet(desired))
            && (p in ToSet(desired) && key !in store ==> Marked(after, key))
  {
    hide IpTable, Assigned, AddressKey, Entries;
    IpGoalValid(store, IpFamily(name), desired);
    EntryIsKey(store, name, p);
    KeyInFamily(name, p);
    AssignedAt(store, IpFamily(name), IpGoal(store, IpFamily(name), desired), AddressKey(IpTable(name).value, name, p));
    assert "NULL" in MARKER;
  }

  lemma LocatedIsAtItsTable(before: Store, after: Store, name: string, change: Change, ok: bool)
    requires IpTable(name).None? ==> !ok && after == before
    requires IpTable(name).Some? ==> Located(before, after, IpTable(name).value, name, change, ok)
    ensures AtItsTable(before, after, name, change, ok)
  {
    hide IpTable, Located;
    IpTableIs(name);
  }

  /** A sync, located. */
  lemma SyncLocated(store: Store, name: string, desired: seq<string>, cs: seq<Command>, ok: bool)
    requires IpTable(name).Some? && IpSyncOutcome(store, IpFamily(name), desired, cs, ok)
    ensures Located(store, Run(store, cs), IpTable(name).value, name, Assign(ToSet(desired)), ok)
  {
    hide IpTable, Run, Steady, Assigned, IpGoal, AddressKey, IpFamily, Entries, Marked;
    SteadyOnlyThere(store, name, IpGoal(store, IpFamily(name), desired), cs);
    if ok {
      var table, change := IpTable(name).value, Assign(ToSet(desired));
      forall p ensures HoldsAt(store, Run(store, cs), AddressKey(table, name, p), p, change) {
        AssignedHolds(store, name, desired, p);
      }
    }
  }

  lemma SameKeyIff(table: string, name: string, p: string, q: string)
    ensures AddressKey(table, name, q) == AddressKey(table, name, p) <==> q == p
    ensures table + "|" + name + "|" <= AddressKey(table, name, p)
  {
    var pre := table + "|" + name + "|";
    assert q == AddressKey(table, name, q)[|pre|..] && p == AddressKey(table, name, p)[|pre|..];
  }

  lemma NothingLocated(store: Store, table: string, name: string)
    ensures Located(store, store, table, name, Remove({}), true) && Located(store, store, table, name, Add({}), true)
  {
  }

  lemma DelLocated(store: Store, mid: Store, table: string, name: string, gone: set<string>, p: string)
    requires Located(store, mid, table, name, Remove(gone), true)
    ensures Located(store, Apply(mid, Del(AddressKey(table, name, p))), table, name, Remove(gone + {p}), true)
  {
    hide AddressKey, Marked;
    var after := Apply(mid, Del(AddressKey(table, name, p)));
    SameKeyIff(table, name, p, p);
    forall q ensures HoldsAt(store, after, AddressKey(table, name, q), q, Remove(gone + {p})) {
      SameKeyIff(table, name, p, q);
      assert HoldsAt(store, mid, AddressKey(table, name, q), q, Remove(gone));
      KeptMark(mid, after, AddressKey(table, name, q));
    }
  }

  lemma KeptMark(mid: Store, after: Store, key: string)
    requires key in mid && key in after ==> after[key] == mid[key]
    ensures key in after && key in mid && Marked(mid, key) ==> Marked(after, key)
  {
  }

  lemma MarkLocated(store: Store, mid: Store, table: string, name: string, added: set<string>, p: string)
    requires Located(store, mid, table, name, Add(added), true)
    ensures Located(store, Apply(mid, HSet(AddressKey(table, name, p), MARKER)), table, name, Add(added + {p}), true)
  {
    hide AddressKey, Marked;
    var after := Apply(mid, HSet(AddressKey(table, name, p), MARKER));
    assert "NULL" in MARKER;
    SameKeyIff(table, name, p, p);
    forall q ensures HoldsAt(store, after, AddressKey(table, name, q), q, Add(added + {p})) {
      SameKeyIff(table, name, p, q);
      assert HoldsAt(store, mid, AddressKey(table, name, q), q, Add(added));
      if q == p {
        NewMark(mid, AddressKey(table, name, p));
      } else {
        KeptMark(mid, after, AddressKey(table, name, q));
      }
    }
  }

  lemma NewMark(mid: Store, key: string)
    ensures Marked(Apply(mid, HSet(key, MARKER)), key)
  {
    assert "NULL" in MARKER;
  }

  /** A run of removals, cut off after `n`, located. */
  lemma {:induction false} DelsLocated(store: Store, name: string, gone: seq<string>, n: nat)
    requires IpTable(name).Some? && n <= |gone|
    ensures var after := Run(store, Dels(IpFamily(name), gone)[..n]);
            Located(store, after, IpTable(name).value, name, Remove(ToSet(gone[..n])), true)
  {
    hide IpTable, Located, Apply, AddressKey, IpFamily;
    var plan := Dels(IpFamily(name), gone);
    if n == 0 {
      assert plan[..0] == [] && ToSet(gone[..0]) == {};
      RunNone(store);
      NothingLocated(store, IpTable(name).value, name);
    } else {
      DelsLocated(store, name, gone, n - 1);
      assert plan[..n] == plan[..n - 1] + [plan[n - 1]];
      RunSnoc(store, plan[..n - 1], plan[n - 1]);
      KeyInFamily(name, gone[n - 1]);
      DelLocated(store, Run(store, plan[..n - 1]), IpTable(name).value, name, ToSet(gone[..n - 1]), gone[n - 1]);
      assert ToSet(gone[..n]) == ToSet(gone[..n - 1]) + {gone[n - 1]};
    }
  }

  /** A run of additions, cut off after `n`, located. */
  lemma {:induction false} MarksLocated(store: Store, name: string, added: seq<string>, n: nat)
    requires IpTable(name).Some? && n <= |added|
    ensures var after := Run(store, Marks(IpFamily(name), added)[..n]);
            Located(store, after, IpTable(name).value, name, Add(ToSet(added[..n])), true)
  {
    hide IpTable, Located, Apply, AddressKey, IpFamily;
    var plan := Marks(IpFamily(name), added);
    if n == 0 {
      assert plan[..0] == [] && ToSet(added[..0]) == {};
      RunNone(store);
      NothingLocated(store, IpTable(name).value, name);
    } else {
      MarksLocated(store, name, added, n - 1);
      assert plan[..n] == plan[..n - 1] + [plan[n - 1]];
      RunSnoc(store, plan[..n - 1], plan[n - 1]);
      KeyInFamily(name, added[n - 1]);
      MarkLocated(store, Run(store, plan[..n - 1]), IpTable(name).value, name, ToSet(added[..n - 1]), added[n - 1]);
      assert ToSet(added[..n]) == ToSet(added[..n - 1]) + {added[n - 1]};
    }
  }

  lemma NothingAtItsTable(store: Store, name: string, change: Change)
    ensures AtItsTable(store, store, name, change, false)
  {
  }

  /** The first `n` removals or additions were carried out; on success that is all of them. */
  lemma RemovedAtItsTable(store: Store, name: string, gone: seq<string>, done: seq<Command>, ok: bool)
    requires IpTable(name).Some? && done <= Dels(IpFamily(name), gone) && (ok ==> done == Dels(IpFamily(name), gone))
    ensures AtItsTable(store, Run(store, done), name, Remove(ToSet(gone)), ok)
  {
    hide IpTable, IpFamily, AtItsTable, Run, Holding, OnlyThere;
    DelsLocated(store, name, gone, |done|);
    assert Dels(IpFamily(name), gone)[..|done|] == done;
    assert gone[..|gone|] == gone;
    LocatedIsAtItsTable(store, Run(store, done), name, Remove(ToSet(gone)), ok);
  }

  lemma AddedAtItsTable(store: Store, name: string, added: seq<string>, done: seq<Command>, ok: bool)
    requires IpTable(name).Some? && done <= Marks(IpFamily(name), added)
    requires ok ==> done == Marks(IpFamily(name), added)
    ensures AtItsTable(store, Run(store, done), name, Add(ToSet(added)), ok)
  {
    hide IpTable, IpFamily, AtItsTable, Run, Holding, OnlyThere;
    MarksLocated(store, name, added, |done|);
    assert Marks(IpFamily(name), added)[..|done|] == done;
    assert added[..|added|] == added;
    LocatedIsAtItsTable(store, Run(store, done), name, Add(ToSet(added)), ok);
  }

  lemma SyncedAtItsTable(store: Store, name: string, desired: seq<string>, cs: seq<Command>, ok: bool)
    requires IpTable(name).None? ==> !ok && cs == []
    requires IpTable(name).Some? ==> IpSyncOutcome(store, IpFamily(name), desired, cs, ok)
    ensures AtItsTable(store, Run(store, cs), name, Assign(ToSet(desired)), ok)
  {
    hide IpTable, IpFamily, AtItsTable, Run, IpSyncOutcome, Located;
    RunNone(store);
    if IpTable(name).Some? {
      SyncLocated(store, name, desired, cs, ok);
    }
    LocatedIsAtItsTable(store, Run(store, cs), name, Assign(ToSet(desired)), ok);
  }

  lemma ListedAtItsTable(store: Store, name: string, addrs: Option<seq<string>>)
    requires IpTable(name).None? ==> addrs.None?
    requires addrs.Some? ==> ToSet(addrs.value) == Entries(store, IpFamily(name))
    ensures ListsItsTable(store, name, addrs)
  {
    hide IpTable, Entries, AddressKey;
    IpTableIs(name);
    if addrs.Some? {
      forall p ensures p in addrs.value <==> AddressKey(IpTable(name).value, name, p) in store {
        EntryIsKey(store, name, p);
        assert p in addrs.value <==> p in ToSet(addrs.value);
      }
    }
  }

  /** The accessor, with the prefix parser it calls. */
  class AddressAccessor {
    const db: Client
    const parsesPrefix: string -> bool

    constructor (db: Client, parsesPrefix: string -> bool)
      ensures this.db == db && this.parsesPrefix == parsesPrefix
    {
      this.db, this.parsesPrefix := db, parsesPrefix;
    }

    predicate AllParse(ps: set<string>) {
      forall p :: p in ps ==> parsesPrefix(p)
    }

    method ListIPAddresses(name: string) returns (addrs: Option<seq<string>>)
      requires GlobFree(name)
      modifies db`faulted
      ensures IpTable(name).None? ==> addrs.None? && db.faulted == old(db.faulted)
      ensures IpTable(name).Some? ==> db.faulted == (old(db.faulted) || addrs.None?)
      ensures addrs.Some? ==> ToSet(addrs.value) == Entries(db.store, IpFamily(name))
      ensures ListsItsTable(db.store, name, addrs)
    {
      IpTableIs(name);
      if IpTable(name).None? {
        return None;
      }
      var fam := IpFamily(name);
      PatternIsFamily(name, "");
      var keys := db.ScanKeys(fam.pre + "*");
      if keys.None? {
        return None;
      }
      forall k
        ensures k in keys.value <==> k in db.store && fam.Holds(k)
      {
        PatternIsFamily(name, k);
      }
      var out: seq<string> := [];
      for i := 0 to |keys.value|
        invariant |out| == i
        invariant forall j :: 0 <= j < i ==> fam.Holds(keys.value[j]) && out[j] == fam.Name(keys.value[j])
      {
        var k := keys.value[i];
        assert k in keys.value;
        out := out + [k[|fam.pre|..]];
      }
      forall x
        ensures x in out <==> x in Entries(db.store, fam)
      {
        if x in Entries(db.store, fam) {
          EntriesMember(db.store, fam, x);
          fam.KeyName(x);
          var j :| 0 <= j < |keys.value| && keys.value[j] == fam.Key(x);
          assert out[j] == x;
        }
        if x in out {
          var j :| 0 <= j < |out| && out[j] == x;
          assert keys.value[j] in keys.value;
        }
      }
      addrs := Some(out);
      ListedAtItsTable(db.store, name, addrs);
    }

    /** Validates and deletes one prefix after the other; an error stops it where it stands. */
    method RemoveIPAddresses(name: string, prefixes: seq<string>) returns (ok: bool)
      modifies db
      ensures IpTable(name).None? ==> !ok && db.log == old(db.log) && db.store == old(db.store)
      ensures IpTable(name).Some? ==> Issued(db, Dels(IpFamily(name), prefixes))
      ensures ok ==> db.log == old(db.log) + Dels(IpFamily(name), prefixes)
      ensures IpTable(name).Some? && !db.faulted ==> (ok <==> AllParse(ToSet(prefixes)))
      ensures old(db.faulted) ==> db.faulted
      ensures ok ==> db.faulted == old(db.faulted)
      ensures AtItsTable(old(db.store), db.store, name, Remove(ToSet(prefixes)), ok)
    {
      hide Apply, Run, IpTable, AtItsTable, AddressKey;
      NothingAtItsTable(db.store, name, Remove(ToSet(prefixes)));
      if IpTable(name).None? {
        return false;
      }
      RunNone(old(db.store));
      ghost var plan := Dels(IpFamily(name), prefixes);
      for i := 0 to |prefixes|
        invariant db.log == old(db.log) + plan[..i]
        invariant db.store == Run(old(db.store), plan[..i])
        invariant db.faulted == old(db.faulted)
        invariant forall j :: 0 <= j < i ==> parsesPrefix(prefixes[j])
      {
        if !parsesPrefix(prefixes[i]) {
          assert db.log[|old(db.log)|..] == plan[..i];
          RemovedAtItsTable(old(db.store), name, prefixes, plan[..i], false);
          return false;
        }
        RunSnoc(old(db.store), plan[..i], plan[i]);
        assert plan[..i] + [plan[i]] == plan[..i + 1];
        ok := db.Write(Del(IpFamily(name).Key(prefixes[i])));
        if !ok {
          assert db.log[|old(db.log)|..] == plan[..i] || db.log[|old(db.log)|..] == plan[..i + 1];
          RemovedAtItsTable(old(db.store), name, prefixes, db.log[|old(db.log)|..], false);
          return false;
        }
      }
      assert plan[..|prefixes|] == plan;
      assert db.log[|old(db.log)|..] == plan;
      RemovedAtItsTable(old(db.store), name, prefixes, plan, true);
      ok := true;
    }

    method AddIPAddresses(name: string, prefixes: seq<string>) returns (ok: bool)
      modifies db
      ensures IpTable(name).None? ==> !ok && db.log == old(db.log) && db.store == old(db.store)
      ensures IpTable(name).Some? ==> Issued(db, Marks(IpFamily(name), prefixes))
      ensures ok ==> db.log == old(db.log) + Marks(IpFamily(name), prefixes)
      ensures IpTable(name).Some? && !db.faulted ==> (ok <==> AllParse(ToSet(prefixes)))
      ensures old(db.faulted) ==> db.faulted
      ensures AtItsTable(old(db.store), db.store, name, Add(ToSet(prefixes)), ok)
    {
      hide Apply, Run, IpTable, AtItsTable, AddressKey;
      NothingAtItsTable(db.store, name, Add(ToSet(prefixes)));
      if IpTable(name).None? {
        return false;
      }
      ghost var plan := Marks(IpFamily(name), prefixes);
      RunNone(old(db.store));
      for i := 0 to |prefixes|
        invariant db.log == old(db.log) + plan[..i]
        invariant db.store == Run(old(db.store), plan[..i])
        invariant db.faulted == old(db.faulted)
        invariant forall j :: 0 <= j < i ==> parsesPrefix(prefixes[j])
      {
        if !parsesPrefix(prefixes[i]) {
          assert db.log[|old(db.log)|..] == plan[..i];
          AddedAtItsTable(old(db.store), name, prefixes, plan[..i], false);
          return false;
        }
        RunSnoc(old(db.store), plan[..i], plan[i]);
        assert plan[..i] + [plan[i]] == plan[..i + 1];
        ok := db.Write(HSet(IpFamily(name).Key(prefixes[i]), MARKER));
        if !ok {
          assert db.log[|old(db.log)|..] == plan[..i] || db.log[|old(db.log)|..] == plan[..i + 1];
          AddedAtItsTable(old(db.store), name, prefixes, db.log[|old(db.log)|..], false);
          return false;
        }
      }
      assert plan[..|prefixes|] == plan;
      assert db.log[|old(db.log)|..] == plan;
      AddedAtItsTable(old(db.store), name, prefixes, plan, true);
      ok := true;
    }

    /** The removal half of a sync: the listed prefixes that are not desired. */
    method RemoveStale(name: string, current: seq<string>, desired: seq<string>) returns (ok: bool)
      requires IpTable(name).Some?
      modifies db
      ensures Issued(db, Dels(IpFamily(name), Without(current, ToSet(desired))))
      ensures ok ==> db.log == old(db.log) + Dels(IpFamily(name), Without(current, ToSet(desired)))
      ensures !db.faulted ==> (ok <==> AllParse(ToSet(Without(current, ToSet(desired)))))
      ensures old(db.faulted) ==> db.faulted
    {
      var desiredSet := Collect(desired);
      var toRemove := Difference(current, desiredSet);
      ok := true;
      if |toRemove| > 0 {
        ok := RemoveIPAddresses(name, toRemove);
      }
    }

    /** The addition half: the desired prefixes that were not listed. */
    method AddMissing(name: string, current: seq<string>, desired: seq<string>) returns (ok: bool)
      requires IpTable(name).Some?
      modifies db
      ensures Issued(db, Marks(IpFamily(name), Without(desired, ToSet(current))))
      ensures ok ==> db.log == old(db.log) + Marks(IpFamily(name), Without(desired, ToSet(current)))
      ensures !db.faulted ==> (ok <==> AllParse(ToSet(Without(desired, ToSet(current)))))
      ensures old(db.faulted) ==> db.faulted
    {
      var currentSet := Collect(current);
      var toAdd := Difference(desired, currentSet);
      ok := true;
      if |toAdd| > 0 {
        ok := AddIPAddresses(name, toAdd);
      }
    }

    /** Set assignment under partial failure; `cs` are the writes that took effect. Without an error reply it succeeds
        exactly when all stale and all missing prefixes parse. */
    method SyncIPAddresses(name: string, desired: seq<string>) returns (ok: bool, ghost cs: seq<Command>)
      requires GlobFree(name)
      modifies db
      ensures db.log == old(db.log) + cs && db.store == Run(old(db.store), cs)
      ensures IpTable(name).None? ==> !ok && cs == []
      ensures IpTable(name).Some? ==> IpSyncOutcome(old(db.store), IpFamily(name), desired, cs, ok)
      ensures IpTable(name).Some? && !db.faulted ==>
                var have, want := Entries(old(db.store), IpFamily(name)), ToSet(desired);
                (ok <==> AllParse((have - want) + (want - have)))
      ensures AtItsTable(old(db.store), db.store, name, Assign(ToSet(desired)), ok)
    {
      hide AtItsTable, ListsItsTable;
      var listed := ListIPAddresses(name);
      if listed.None? {
        if IpTable(name).Some? {
          IpNothingDone(db.store, IpFamily(name), desired);
        }
        RunNone(db.store);
        SyncedAtItsTable(db.store, name, desired, [], false);
        return false, [];
      }
      var current := listed.value;
      ghost var s, fam := old(db.store), IpFamily(name);
      ghost var first := Dels(fam, Without(current, ToSet(desired)));
      ghost var second := Marks(fam, Without(desired, ToSet(current)));
      StaleMember(s, fam, current, desired);
      ok := RemoveStale(name, current, desired);
      ghost var dels := db.log[|old(db.log)|..];
      cs := dels;
      if !ok {
        IpPlanOutcome(s, fam, current, desired, cs, false);
        SyncedAtItsTable(s, name, desired, cs, false);
        return;
      }
      ghost var mid := db.log;
      ok := AddMissing(name, current, desired);
      ghost var adds := db.log[|mid|..];
      cs := dels + adds;
      LogConcat(old(db.log), dels, adds, db.log, first, second);
      RunConcat(s, dels, adds);
      IpPlanOutcome(s, fam, current, desired, cs, ok);
      SyncedAtItsTable(s, name, desired, cs, ok);
    }

    method Collect(xs: seq<string>) returns (r: set<string>)
      ensures r == ToSet(xs)
    {
      r := {};
      for i := 0 to |xs|
        invariant r == ToSet(xs[..i])
      {
        r := r + {xs[i]};
      }
      assert xs[..|xs|] == xs;
    }

    method Difference(xs: seq<string>, other: set<string>) returns (r: seq<string>)
      ensures r == Without(xs, other)
    {
      r := [];
      for i := 0 to |xs|
        invariant r == Without(xs[..i], other)
      {
        assert xs[..i + 1][..i] == xs[..i];
        if xs[i] !in other {
          r := r + [xs[i]];
        }
      }
      assert xs[..|xs|] == xs;
    }
  }

  lemma StaleMember(store: Store, fam: Family, current: seq<string>, desired: seq<string>)
    requires ToSet(current) == Entries(store, fam)
    ensures ToSet(Without(current, ToSet(desired))) == Entries(store, fam) - ToSet(desired)
    ensures ToSet(Without(desired, ToSet(current))) == ToSet(desired) - Entries(store, fam)
  {
    assert forall p :: p in current <==> p in ToSet(current);
    assert forall p :: p in desired <==> p in ToSet(desired);
  }
}
