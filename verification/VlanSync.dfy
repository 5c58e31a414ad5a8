/** VLAN membership of a port in CONFIG_DB: the validators, `EnsureVLANMember`, `RemoveVLANMember`,
    `ListPortVLANs` and `SyncPortVLANs`. */
module VlanSync {
  import opened Text
  import opened Redis
  import opened EntrySync

  predicate ValidPortName(name: string) {
    "Ethernet" <= name
  }

  predicate ValidVlanName(name: string) {
    "Vlan" <= name && (var id := Atoi(name[4..]); id.Some? && 1 <= id.value <= 4094)
  }

  predicate ValidTagging(mode: string) {
    mode == "tagged" || mode == "untagged"
  }

  /** The keys `VLAN_MEMBER|vlan|port` of one port. */
  function MemberFamily(port: string): Family {
    Family("VLAN_MEMBER|", "|" + port)
  }

  function Tagging(mode: string): Fields {
    map["tagging_mode" := mode]
  }

  /** The desired memberships, each written whether or not it exists. */
  function MemberGoal(desired: map<string, string>): Goal {
    var fields := map v | v in desired :: Tagging(desired[v]);
    Goal(fields, fields)
  }

  predicate ValidMemberships(desired: map<string, string>) {
    forall v :: v in desired ==> ValidVlanName(v) && ValidTagging(desired[v])
  }

  /** The names of the memberships to remove are valid. */
  predicate StaleValid(have: set<string>, desired: map<string, string>) {
    forall v :: v in have && v !in desired ==> ValidVlanName(v)
  }

  /** Every key SCAN finds for the port is of the three-part form the accessor writes. */
  predicate ThreePart(store: Store, port: string) {
    forall k :: k in store && MemberFamily(port).Holds(k) ==> '|' !in MemberFamily(port).Name(k)
  }

  function ModeOf(desired: map<string, string>, v: string): string {
    if v in desired then desired[v] else ""
  }

  function Sets(fam: Family, order: seq<string>, desired: map<string, string>): seq<Command> {
    seq(|order|, i requires 0 <= i < |order| => HSet(fam.Key(order[i]), Tagging(ModeOf(desired, order[i]))))
  }

  function VlanPlan(fam: Family, current: seq<string>, order: seq<string>, desired: map<string, string>): seq<Command> {
    Dels(fam, Without(current, desired.Keys)) + Sets(fam, order, desired)
  }

  lemma SetsSnoc(fam: Family, order: seq<string>, desired: map<string, string>, v: string)
    ensures Sets(fam, order + [v], desired)
            == Sets(fam, order, desired) + [HSet(fam.Key(v), Tagging(ModeOf(desired, v)))]
    ensures ToSet(order + [v]) == ToSet(order) + {v}
  {
  }

  lemma MemberPrefixPlain()
    ensures GlobFree("VLAN_MEMBER|") && PlainText("VLAN_MEMBER")
  {
  }

  lemma PatternIsMemberFamily(port: string, k: string)
    requires GlobFree(port)
    ensures StarPattern("VLAN_MEMBER|*|" + port)
    ensures GlobMatch("VLAN_MEMBER|*|" + port, k) <==> MemberFamily(port).Holds(k)
  {
    MemberPrefixPlain();
    GlobPrefixSuffix("VLAN_MEMBER|", "|" + port, k);
    assert "VLAN_MEMBER|*|" + port == "VLAN_MEMBER|" + "*" + ("|" + port);
  }

  /** `strings.SplitN(key, "|", 3)[1]` is the VLAN of a three-part key. */
  lemma SecondPart(port: string, k: string)
    requires MemberFamily(port).Holds(k) && '|' !in MemberFamily(port).Name(k)
    ensures var parts := SplitN(k, '|', 3); |parts| == 3 && parts[1] == MemberFamily(port).Name(k)
  {
    hide IndexOf;
    var v := MemberFamily(port).Name(k);
    var rest := v + ['|'] + port;
    MemberFamily(port).NameKey(k);
    assert k == "VLAN_MEMBER" + ['|'] + rest;
    MemberPrefixPlain();
    IndexOfFirst("VLAN_MEMBER", '|', rest);
    assert k[12..] == rest;
    IndexOfFirst(v, '|', port);
    assert rest[..|v|] == v && rest[|v| + 1..] == port;
    assert k[..11] == "VLAN_MEMBER";
    assert SplitN(port, '|', 1) == [port];
    assert SplitN(rest, '|', 2) == [v] + [port];
    assert SplitN(k, '|', 3) == ["VLAN_MEMBER"] + SplitN(rest, '|', 2);
  }

  lemma MemberGoalValid(desired: map<string, string>)
    ensures MemberGoal(desired).Valid()
    ensures MemberGoal(desired).want.Keys == desired.Keys && MemberGoal(desired).fill.Keys == desired.Keys
  {
    forall v | v in desired
      ensures Tagging(desired[v]) != map[]
    {
      assert "tagging_mode" in Tagging(desired[v]);
    }
  }

  /** What a sync that took effect as far as `cs` guarantees. */
  ghost predicate VlanSyncOutcome(store: Store, fam: Family, desired: map<string, string>, cs: seq<Command>, ok: bool) {
    var goal := MemberGoal(desired);
    var now := Run(store, cs);
    && Steady(store, cs, fam, goal)
    && goal.want.Keys - Entries(store, fam) <= goal.fill.Keys
    && (ok ==>
          && now == Assigned(store, fam, goal)
          && Entries(now, fam) == desired.Keys
          && forall v :: v in desired ==> HasTagging(now, fam.Key(v), desired[v]))
  }

  predicate HasTagging(store: Store, key: string, mode: string) {
    key in store && "tagging_mode" in store[key] && store[key]["tagging_mode"] == mode
  }

  lemma VlanPlanSanctioned(store: Store, fam: Family, current: seq<string>, order: seq<string>, desired: map<string,
                           string>)
    requires ToSet(order) <= desired.Keys
    ensures AllSanctioned(VlanPlan(fam, current, order, desired), fam, MemberGoal(desired))
  {
    var plan := VlanPlan(fam, current, order, desired);
    var gone := Without(current, desired.Keys);
    forall i | 0 <= i < |plan|
      ensures Sanctioned(plan[i], fam, MemberGoal(desired))
    {
      if i < |gone| {
        assert gone[i] in gone;
        fam.KeyName(gone[i]);
      } else {
        assert order[i - |gone|] in ToSet(order);
        fam.KeyName(order[i - |gone|]);
      }
    }
  }

  /** Any cut-off of any plan — for every listing SCAN may produce and every iteration order of the Go map —
      has the outcome. */
  lemma VlanPlanOutcome(store: Store, fam: Family, current: seq<string>, order: seq<string>, desired: map<string,
                        string>,
                        cs: seq<Command>, ok: bool)
    requires ToSet(current) == Entries(store, fam)
    requires ToSet(order) <= desired.Keys
    requires cs <= VlanPlan(fam, current, order, desired)
    requires ok ==> cs == VlanPlan(fam, current, order, desired) && ToSet(order) == desired.Keys
    ensures VlanSyncOutcome(store, fam, desired, cs, ok)
  {
    var goal := MemberGoal(desired);
    MemberGoalValid(desired);
    VlanPlanSanctioned(store, fam, current, order, desired);
    assert AllSanctioned(cs, fam, goal);
    SanctionedRunIsSteady(store, cs, fam, goal);
    if ok {
      VlanPlanTouches(store, fam, current, order, desired);
      CompleteRunAssigns(store, cs, fam, goal);
      AssignedMeetsGoal(store, fam, goal);
      forall v | v in desired
        ensures HasTagging(Run(store, cs), fam.Key(v), desired[v])
      {
        fam.KeyName(v);
        AssignedAt(store, fam, goal, fam.Key(v));
      }
    }
  }

  lemma VlanPlanTouches(store: Store, fam: Family, current: seq<string>, order: seq<string>, desired: map<string,
                        string>)
    requires ToSet(current) == Entries(store, fam)
    requires ToSet(order) <= desired.Keys
    requires ToSet(order) == desired.Keys
    ensures var plan := VlanPlan(fam, current, order, desired);
            && (forall k :: k in store && fam.Holds(k) && fam.Name(k) !in desired ==> k in Dropped(plan))
            && (forall k :: fam.Holds(k) && fam.Name(k) in desired ==> k in Filled(plan))
  {
    var plan := VlanPlan(fam, current, order, desired);
    var gone := Without(current, desired.Keys);
    forall k | k in store && fam.Holds(k) && fam.Name(k) !in desired
      ensures k in Dropped(plan)
    {
      assert fam.Name(k) in Entries(store, fam);
      assert fam.Name(k) in gone;
      var i :| 0 <= i < |gone| && gone[i] == fam.Name(k);
      fam.NameKey(k);
      assert plan[i] == Del(k);
      TouchedMember(plan, i);
    }
    forall k | fam.Holds(k) && fam.Name(k) in desired
      ensures k in Filled(plan)
    {
      assert fam.Name(k) in ToSet(order);
      var i :| 0 <= i < |order| && order[i] == fam.Name(k);
      fam.NameKey(k);
      assert plan[|gone| + i] == HSet(k, Tagging(desired[fam.Name(k)]));
      TouchedMember(plan, |gone| + i);
    }
  }

  // ---------- requests and entries, spelled out ----------

  /** VLAN 1 to VLAN 4094 are the numbers whose names are accepted. */
  lemma VlanNameOfNumberIff(n: int)
    requires IsInt64(n)
    ensures ValidVlanName("Vlan" + Itoa(n)) <==> 1 <= n <= 4094
  {
    hide Itoa, Atoi;
    AtoiOfItoa(n);
    assert ("Vlan" + Itoa(n))[4..] == Itoa(n);
  }

  predicate GoodMember(vlan: string, port: string, mode: string) {
    ValidVlanName(vlan) && "Ethernet" <= port && (mode == "tagged" || mode == "untagged")
  }

  predicate GoodRequest(port: string, desired: map<string, string>) {
    "Ethernet" <= port && forall v :: v in desired ==> GoodMember(v, port, desired[v])
  }

  lemma GoodRequestIs(port: string, desired: map<string, string>)
    ensures GoodRequest(port, desired) <==> ValidPortName(port) && ValidMemberships(desired)
  {
    hide ValidVlanName;
  }

  function MemberKey(vlan: string, port: string): string {
    "VLAN_MEMBER|" + vlan + "|" + port
  }

  /** Only keys `VLAN_MEMBER|…|port` changed; on success they are exactly those of the desired VLANs, in their modes. */
  ghost predicate MembersAre(before: Store, after: Store, port: string, desired: map<string, string>, ok: bool) {
    && (forall k :: !IsMember(k, port) ==> (k in after <==> k in before) && (k in after ==> after[k] == before[k]))
    && (ok ==> forall v :: MemberKey(v, port) in after <==> v in desired)
    && (ok ==> forall v :: v in desired ==> HasTagging(after, MemberKey(v, port), desired[v]))
  }

  ghost predicate IsMember(k: string, port: string) {
    exists v :: k == MemberKey(v, port)
  }

  lemma MemberKeyIs(port: string, v: string)
    ensures MemberFamily(port).Key(v) == MemberKey(v, port)
  {
  }

  lemma IsMemberIff(k: string, port: string)
    ensures MemberFamily(port).Holds(k) <==> IsMember(k, port)
  {
    var fam := MemberFamily(port);
    if fam.Holds(k) {
      fam.NameKey(k);
      MemberKeyIs(port, fam.Name(k));
      assert k == MemberKey(fam.Name(k), port);
    }
    if IsMember(k, port) {
      var v :| k == MemberKey(v, port);
      MemberKeyIs(port, v);
      fam.KeyName(v);
    }
  }

  lemma OutcomeLocated(store: Store, port: string, desired: map<string, string>, cs: seq<Command>, ok: bool)
    requires VlanSyncOutcome(store, MemberFamily(port), desired, cs, ok)
    ensures MembersAre(store, Run(store, cs), port, desired, ok)
  {
    hide Run, Pending, MemberFamily, Assigned, IsMember, MemberKey, HasTagging, MemberGoal;
    var fam, after := MemberFamily(port), Run(store, cs);
    assert cs[..|cs|] == cs;
    assert NoFlap(store, after, fam, MemberGoal(desired));
    forall k | !IsMember(k, port) ensures !fam.Holds(k) {
      IsMemberIff(k, port);
    }
    forall v
      ensures ok ==> (MemberKey(v, port) in after <==> v in desired)
      ensures ok && v in desired ==> HasTagging(after, MemberKey(v, port), desired[v])
    {
      MemberKeyIs(port, v);
      EntriesMember(after, fam, v);
    }
  }

  class VlanAccessor {
    const db: Client

    constructor (db: Client)
      ensures this.db == db
    {
      this.db := db;
    }

    method EnsureVLANMember(vlan: string, port: string, mode: string) returns (ok: bool)
      modifies db
      ensures Wrote(db, HSet(MemberFamily(port).Key(vlan), Tagging(mode)))
      ensures Wrote(db, HSet("VLAN_MEMBER|" + vlan + "|" + port, map["tagging_mode" := mode]))
      ensures !GoodMember(vlan, port, mode) ==> !ok && db.log == old(db.log) && db.faulted == old(db.faulted)
      ensures GoodMember(vlan, port, mode) ==> db.faulted == (old(db.faulted) || !ok)
      ensures ok ==>
                db.log == old(db.log) + [HSet(MemberFamily(port).Key(vlan), Tagging(mode))]
                  && db.store == Apply(old(db.store), HSet(MemberFamily(port).Key(vlan), Tagging(mode)))
    {
      if !ValidVlanName(vlan) || !ValidPortName(port) || !ValidTagging(mode) {
        return false;
      }
      var key := "VLAN_MEMBER|" + vlan + "|" + port;
      assert key == MemberFamily(port).Key(vlan);
      ok := db.Write(HSet(key, Tagging(mode)));
    }

    method RemoveVLANMember(vlan: string, port: string) returns (ok: bool)
      modifies db
      ensures Wrote(db, Del(MemberFamily(port).Key(vlan)))
      ensures Wrote(db, Del("VLAN_MEMBER|" + vlan + "|" + port))
      ensures !(ValidVlanName(vlan) && "Ethernet" <= port) ==>
                !ok && db.log == old(db.log) && db.faulted == old(db.faulted)
      ensures ValidVlanName(vlan) && "Ethernet" <= port ==> db.faulted == (old(db.faulted) || !ok)
      ensures ok ==>
                db.log == old(db.log) + [Del(MemberFamily(port).Key(vlan))]
                  && db.store == Apply(old(db.store), Del(MemberFamily(port).Key(vlan)))
    {
      if !ValidVlanName(vlan) || !ValidPortName(port) {
        return false;
      }
      var key := "VLAN_MEMBER|" + vlan + "|" + port;
      assert key == MemberFamily(port).Key(vlan);
      ok := db.Write(Del(key));
    }

    method ListPortVLANs(port: string) returns (vlans: Option<seq<string>>)
      requires GlobFree(port) && ThreePart(db.store, port)
      modifies db`faulted
      ensures !ValidPortName(port) ==> vlans.None? && db.faulted == old(db.faulted)
      ensures ValidPortName(port) ==> db.faulted == (old(db.faulted) || vlans.None?)
      ensures vlans.Some? ==> ToSet(vlans.value) == Entries(db.store, MemberFamily(port))
    {
      hide ValidPortName, SplitN, GlobFree;
      if !ValidPortName(port) {
        return None;
      }
      var fam := MemberFamily(port);
      PatternIsMemberFamily(port, "");
      var keys := db.ScanKeys("VLAN_MEMBER|*|" + port);
      if keys.None? {
        return None;
      }
      forall k
        ensures k in keys.value <==> k in db.store && fam.Holds(k)
      {
        PatternIsMemberFamily(port, k);
      }
      var out: seq<string> := [];
      for i := 0 to |keys.value|
        invariant |out| == i && db.faulted == old(db.faulted)
        invariant forall j :: 0 <= j < i ==> fam.Holds(keys.value[j]) && out[j] == fam.Name(keys.value[j])
      {
        assert keys.value[i] in keys.value;
        SecondPart(port, keys.value[i]);
        var parts := SplitN(keys.value[i], '|', 3);
        if |parts| == 3 {
          out := out + [parts[1]];
        }
      }
      ListedNames(db.store, fam, keys.value, out);
      vlans := Some(out);
    }

    /** The removal loop of a sync over the listed VLANs. */
    method RemoveStale(port: string, current: seq<string>, desired: map<string, string>) returns (ok: bool)
      requires ValidPortName(port)
      modifies db
      ensures Issued(db, Dels(MemberFamily(port), Without(current, desired.Keys)))
      ensures ok ==> db.log == old(db.log) + Dels(MemberFamily(port), Without(current, desired.Keys))
      ensures !db.faulted ==> (ok <==> forall v :: v in current && v !in desired ==> ValidVlanName(v))
      ensures old(db.faulted) ==> db.faulted
    {
      hide ValidVlanName, MemberFamily, Without, Dels, StaleDels, Run, Apply;
      ghost var fam, keep := MemberFamily(port), desired.Keys;
      StaleEnds(fam, current, keep);
      RunNone(db.store);
      for i := 0 to |current|
        invariant db.log == old(db.log) + StaleDels(fam, current, keep, i)
        invariant db.store == Run(old(db.store), StaleDels(fam, current, keep, i))
        invariant db.faulted == old(db.faulted)
        invariant forall j :: 0 <= j < i && current[j] !in desired ==> ValidVlanName(current[j])
      {
        StaleStep(fam, current, keep, i);
        assert StaleDels(fam, current, keep, i) + [] == StaleDels(fam, current, keep, i);
        if current[i] !in desired {
          ok := RemoveVLANMember(current[i], port);
          RunSnoc(old(db.store), StaleDels(fam, current, keep, i), Del(fam.Key(current[i])));
          if !ok {
            PartialLog(old(db.log), db.log, StaleDels(fam, current, keep, i), Del(fam.Key(current[i])));
            StalePrefix(fam, current, keep, i);
            StalePrefix(fam, current, keep, i + 1);
            return false;
          }
        }
      }
      ok := true;
    }

    /** The write loop of a sync: the Go map is visited in an arbitrary order, returned as `order`. */
    method EnsureAll(port: string, desired: map<string, string>) returns (ok: bool, ghost order: seq<string>)
      requires ValidPortName(port) && ValidMemberships(desired)
      modifies db
      ensures ToSet(order) <= desired.Keys
      ensures Issued(db, Sets(MemberFamily(port), order, desired))
      ensures ok ==> db.log == old(db.log) + Sets(MemberFamily(port), order, desired) && ToSet(order) == desired.Keys
      ensures db.faulted == (old(db.faulted) || !ok)
    {
      hide ValidVlanName, ValidPortName, MemberFamily, Sets, GoodMember, Run, Apply, ValidMemberships;
      GoodRequestIs(port, desired);
      RunNone(db.store);
      ghost var fam := MemberFamily(port);
      var left := desired.Keys;
      order := [];
      NoSets(fam, desired);
      while left != {}
        invariant left <= desired.Keys && ToSet(order) == desired.Keys - left
        invariant db.log == old(db.log) + Sets(fam, order, desired)
        invariant db.store == Run(old(db.store), Sets(fam, order, desired))
        invariant db.faulted == old(db.faulted)
        decreases left
      {
        var v :| v in left;
        ok := EnsureVLANMember(v, port, desired[v]);
        ghost var c := HSet(fam.Key(v), Tagging(desired[v]));
        SetsSnoc(fam, order, desired, v);
        RunSnoc(old(db.store), Sets(fam, order, desired), c);
        if !ok {
          PartialLog(old(db.log), db.log, Sets(fam, order, desired), c);
          order := order + [v];
          return false, order;
        }
        order, left := order + [v], left - {v};
      }
      ok := true;
    }

    /** Map assignment under partial failure; `cs` are the writes that took effect. A port or a membership that fails
        validation issues no write. Without an error reply it succeeds exactly when port, memberships and the names of
        the stale VLANs are valid. */
    method SyncPortVLANs(port: string, desired: map<string, string>) returns (ok: bool, ghost cs: seq<Command>)
      requires GlobFree(port) && ThreePart(db.store, port)
      modifies db
      ensures db.log == old(db.log) + cs && db.store == Run(old(db.store), cs)
      ensures VlanSyncOutcome(old(db.store), MemberFamily(port), desired, cs, ok)
      ensures MembersAre(old(db.store), db.store, port, desired, ok)
      ensures !GoodRequest(port, desired) ==> !ok && cs == []
      ensures !db.faulted ==>
                (ok <==> GoodRequest(port, desired) && StaleValid(Entries(old(db.store), MemberFamily(port)), desired))
    {
      hide Run, Apply, VlanSyncOutcome, ThreePart, GlobFree, MemberFamily, ValidVlanName, ValidPortName,
        ValidMemberships, Dels, Without, Sets,
        MembersAre, GoodRequest;
      ghost var s, fam := db.store, MemberFamily(port);
      VlanPlanOutcomeNone(s, fam, desired);
      RunNone(s);
      OutcomeLocated(s, port, desired, [], false);
      GoodRequestIs(port, desired);
      cs := [];
      if !ValidPortName(port) {
        return false, [];
      }
      var valid := ValidateAll(desired);
      if !valid {
        return false, [];
      }
      var listed := ListPortVLANs(port);
      if listed.None? {
        return false, [];
      }
      var current := listed.value;
      assert forall v :: v in current <==> v in Entries(s, fam) by {
        assert forall v :: v in current <==> v in ToSet(current);
      }
      ghost var first := Dels(fam, Without(current, desired.Keys));
      ok := RemoveStale(port, current, desired);
      ghost var dels := db.log[|old(db.log)|..];
      cs := dels;
      if !ok {
        VlanPlanOutcome(s, fam, current, [], desired, cs, false);
        OutcomeLocated(s, port, desired, cs, false);
        return;
      }
      ghost var mid := db.log;
      ghost var order;
      ok, order := EnsureAll(port, desired);
      ghost var sets := db.log[|mid|..];
      cs := dels + sets;
      LogConcat(old(db.log), dels, sets, db.log, first, Sets(fam, order, desired));
      RunConcat(s, dels, sets);
      VlanPlanOutcome(s, fam, current, order, desired, cs, ok);
      OutcomeLocated(s, port, desired, cs, ok);
    }

    /** The validation loop over the desired map, in an arbitrary order. */
    method ValidateAll(desired: map<string, string>) returns (ok: bool)
      ensures ok <==> ValidMemberships(desired)
    {
      var left := desired.Keys;
      while left != {}
        invariant left <= desired.Keys
        invariant forall v :: v in desired && v !in left ==> ValidVlanName(v) && ValidTagging(desired[v])
        decreases left
      {
        var v :| v in left;
        if !ValidVlanName(v) || !ValidTagging(desired[v]) {
          return false;
        }
        left := left - {v};
      }
      ok := true;
    }
  }

  lemma VlanPlanOutcomeNone(store: Store, fam: Family, desired: map<string, string>)
    ensures VlanSyncOutcome(store, fam, desired, [], false)
  {
    MemberGoalValid(desired);
    SanctionedRunIsSteady(store, [], fam, MemberGoal(desired));
  }

  /** The removals among the first `i` listed names. */
  function StaleDels(fam: Family, current: seq<string>, keep: set<string>, i: nat): seq<Command>
    requires i <= |current|
  {
    Dels(fam, Without(current[..i], keep))
  }

  lemma StaleEnds(fam: Family, current: seq<string>, keep: set<string>)
    ensures StaleDels(fam, current, keep, 0) == []
    ensures StaleDels(fam, current, keep, |current|) == Dels(fam, Without(current, keep))
  {
    assert current[..|current|] == current;
  }

  lemma NoSets(fam: Family, desired: map<string, string>)
    ensures Sets(fam, [], desired) == []
  {
  }

  lemma StaleStep(fam: Family, current: seq<string>, keep: set<string>, i: nat)
    requires i < |current|
    ensures StaleDels(fam, current, keep, i + 1)
            == StaleDels(fam, current, keep, i) + (if current[i] in keep then [] else [Del(fam.Key(current[i]))])
  {
    assert current[..i + 1][..i] == current[..i];
  }

  lemma {:induction false} StalePrefix(fam: Family, current: seq<string>, keep: set<string>, i: nat)
    requires i <= |current|
    ensures StaleDels(fam, current, keep, i) <= Dels(fam, Without(current, keep))
    decreases |current| - i
  {
    hide Dels, Without;
    if i == |current| {
      assert current[..i] == current;
    } else {
      StalePrefix(fam, current, keep, i + 1);
      StaleStep(fam, current, keep, i);
    }
  }

  lemma PartialLog(before: seq<Command>, after: seq<Command>, done: seq<Command>, c: Command)
    requires after == before + done || after == before + done + [c]
    ensures before <= after && (after[|before|..] == done || after[|before|..] == done + [c])
  {
  }

  lemma ListedNames(store: Store, fam: Family, keys: seq<string>, out: seq<string>)
    requires forall k :: k in keys <==> k in store && fam.Holds(k)
    requires |out| == |keys| && forall j :: 0 <= j < |keys| ==> fam.Holds(keys[j]) && out[j] == fam.Name(keys[j])
    ensures ToSet(out) == Entries(store, fam)
  {
    forall x
      ensures x in out <==> x in Entries(store, fam)
    {
      if x in Entries(store, fam) {
        EntriesMember(store, fam, x);
        fam.KeyName(x);
        var j :| 0 <= j < |keys| && keys[j] == fam.Key(x);
        assert out[j] == x;
      }
      if x in out {
        var j :| 0 <= j < |out| && out[j] == x;
        assert keys[j] in keys;
      }
    }
  }
}
