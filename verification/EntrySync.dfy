/** What the two Sync operations of the accessor have in common: a family of CONFIG_DB keys
    `pre + name + post`, a goal for it, and the single commands a sync may issue.
    A run of such commands, cut off anywhere, has a closed form, from which the absence of
    flapping, the frame and the final assignment follow. */
module EntrySync {
  import opened Redis

  /** A family of keys `pre + name + post`, one entry a name. */
  datatype Family = Family(pre: string, post: string) {
    function Key(name: string): string {
      pre + name + post
    }

    predicate Holds(k: string) {
      |pre| + |post| <= |k| && pre <= k && k[|k| - |post|..] == post
    }

    function Name(k: string): string
      requires Holds(k)
    {
      k[|pre|..|k| - |post|]
    }

    lemma KeyName(name: string)
      ensures Holds(Key(name)) && Name(Key(name)) == name
    {
    }

    lemma NameKey(k: string)
      requires Holds(k)
      ensures Key(Name(k)) == k
    {
    }
  }

  /** `want`: the entries that shall exist, with the fields each must contain.
      `fill`: the entries a sync writes, with the fields it writes. */
  datatype Goal = Goal(want: map<string, Fields>, fill: map<string, Fields>) {
    predicate Valid() {
      forall x :: x in fill ==> x in want && fill[x] != map[] && want[x].Items <= fill[x].Items
    }
  }

  /** Names of the entries present. */
  function Entries(store: Store, fam: Family): set<string> {
    set k | k in store && fam.Holds(k) :: fam.Name(k)
  }

  lemma EntriesMember(store: Store, fam: Family, x: string)
    ensures x in Entries(store, fam) <==> fam.Key(x) in store
  {
    fam.KeyName(x);
    if x in Entries(store, fam) {
      var k :| k in store && fam.Holds(k) && fam.Name(k) == x;
      fam.NameKey(k);
    }
  }

  predicate Satisfied(store: Store, fam: Family, goal: Goal, x: string) {
    x in goal.want && fam.Key(x) in store && goal.want[x].Items <= store[fam.Key(x)].Items
  }

  /** The names on which the store still differs from the goal. */
  function Pending(store: Store, fam: Family, goal: Goal): set<string> {
    set x | x in Entries(store, fam) + goal.want.Keys && !Satisfied(store, fam, goal, x)
  }

  /** The single writes a sync may issue: delete an entry that is not wanted, or fill one that is. */
  predicate Sanctioned(c: Command, fam: Family, goal: Goal) {
    match c
    case Del(key) => fam.Holds(key) && fam.Name(key) !in goal.want
    case HSet(key, fields) => fam.Holds(key) && fam.Name(key) in goal.fill && goal.fill[fam.Name(key)] == fields
    case HDel(_, _) => false
  }

  predicate AllSanctioned(cs: seq<Command>, fam: Family, goal: Goal) {
    forall i :: 0 <= i < |cs| ==> Sanctioned(cs[i], fam, goal)
  }

  /** The keys a run of commands deletes. */
  function Dropped(cs: seq<Command>): set<string> {
    if cs == [] then {}
    else Dropped(cs[..|cs| - 1]) + (if cs[|cs| - 1].Del? then {cs[|cs| - 1].key} else {})
  }

  /** The keys a run of commands writes, with the fields last written. */
  function Filled(cs: seq<Command>): map<string, Fields> {
    if cs == [] then map[]
    else
      var init, c := Filled(cs[..|cs| - 1]), cs[|cs| - 1];
      if c.HSet? then init[c.key := c.fields] else init
  }

  lemma {:induction false} TouchedMember(cs: seq<Command>, i: nat)
    requires i < |cs|
    ensures cs[i].Del? ==> cs[i].key in Dropped(cs)
    ensures cs[i].HSet? ==> cs[i].key in Filled(cs)
  {
    if i < |cs| - 1 {
      TouchedMember(cs[..|cs| - 1], i);
    }
  }

  lemma {:induction false} TouchedSanctioned(cs: seq<Command>, fam: Family, goal: Goal)
    requires goal.Valid() && AllSanctioned(cs, fam, goal)
    ensures forall k :: k in Filled(cs) ==>
              fam.Holds(k) && fam.Name(k) in goal.fill && Filled(cs)[k] == goal.fill[fam.Name(k)]
    ensures forall k :: k in Dropped(cs) ==> fam.Holds(k) && fam.Name(k) !in goal.want
  {
    if cs != [] {
      TouchedSanctioned(cs[..|cs| - 1], fam, goal);
      assert Sanctioned(cs[|cs| - 1], fam, goal);
    }
  }

  /** The store with the keys of `dropped` gone and those of `filled` filled. */
  function Partial(store: Store, dropped: set<string>, filled: map<string, Fields>): Store {
    map k | k in (store.Keys + filled.Keys) - dropped ::
      if k in filled then FieldsAt(store, k) + filled[k] else store[k]
  }

  lemma PartialDel(store: Store, dropped: set<string>, filled: map<string, Fields>, key: string)
    ensures Apply(Partial(store, dropped, filled), Del(key)) == Partial(store, dropped + {key}, filled)
  {
  }

  lemma PartialAt(store: Store, dropped: set<string>, filled: map<string, Fields>, k: string)
    ensures k in Partial(store, dropped, filled) <==> (k in store || k in filled) && k !in dropped
    ensures k in Partial(store, dropped, filled) ==>
              Partial(store, dropped, filled)[k] == if k in filled then FieldsAt(store, k) + filled[k] else store[k]
  {
  }

  lemma ApplyHSet(store: Store, key: string, fields: Fields)
    requires fields != map[]
    ensures Apply(store, HSet(key, fields)) == store[key := FieldsAt(store, key) + fields]
  {
  }

  lemma PartialHSet(store: Store, dropped: set<string>, filled: map<string, Fields>, key: string, fields: Fields)
    requires fields != map[] && key !in dropped
    requires key in filled ==> filled[key] == fields
    ensures Apply(Partial(store, dropped, filled), HSet(key, fields)) == Partial(store, dropped, filled[key := fields])
  {
    hide Apply, Partial;
    var now, next := Partial(store, dropped, filled), Partial(store, dropped, filled[key := fields]);
    ApplyHSet(now, key, fields);
    PartialAt(store, dropped, filled, key);
    assert FieldsAt(store, key) + fields + fields == FieldsAt(store, key) + fields;
    forall k
      ensures k in next <==> k in now || k == key
      ensures k in next ==> next[k] == if k == key then FieldsAt(now, key) + fields else now[k]
    {
      PartialAt(store, dropped, filled, k);
      PartialAt(store, dropped, filled[key := fields], k);
    }
  }

  /** Any run of sanctioned commands, in any order and with repetitions, only depends on which keys it touched. */
  lemma {:induction false} RunIsPartial(store: Store, cs: seq<Command>, fam: Family, goal: Goal)
    requires goal.Valid() && AllSanctioned(cs, fam, goal)
    ensures Run(store, cs) == Partial(store, Dropped(cs), Filled(cs))
  {
    if cs != [] {
      var init, c := cs[..|cs| - 1], cs[|cs| - 1];
      RunIsPartial(store, init, fam, goal);
      TouchedSanctioned(init, fam, goal);
      assert Sanctioned(c, fam, goal);
      if c.Del? {
        PartialDel(store, Dropped(init), Filled(init), c.key);
      } else {
        PartialHSet(store, Dropped(init), Filled(init), c.key, c.fields);
        assert Dropped(cs) == Dropped(init);
      }
    }
  }

  // ---------- no flapping ----------

  predicate SameAt(before: Store, now: Store, key: string) {
    key in before && key in now && now[key] == before[key]
  }

  /** Keys outside the family are untouched; wanted entries are never dropped; nothing appears that was neither
      present nor wanted; entries the sync does not fill keep their fields. */
  ghost predicate NoFlap(before: Store, now: Store, fam: Family, goal: Goal) {
    && (forall k :: !fam.Holds(k) ==> (k in now <==> k in before) && (k in now ==> now[k] == before[k]))
    && Entries(before, fam) * goal.want.Keys <= Entries(now, fam)
    && Entries(now, fam) <= Entries(before, fam) + goal.want.Keys
    && (forall x :: x in Entries(now, fam) && x !in goal.fill ==> SameAt(before, now, fam.Key(x)))
  }

  /** At every intermediate step: no flapping, and the difference from the goal never grows. */
  ghost predicate Steady(store: Store, cs: seq<Command>, fam: Family, goal: Goal) {
    && (forall n :: 0 <= n <= |cs| ==> NoFlap(store, Run(store, cs[..n]), fam, goal))
    && (forall n :: 0 <= n < |cs| ==>
          Pending(Run(store, cs[..n + 1]), fam, goal) <= Pending(Run(store, cs[..n]), fam, goal))
  }

  lemma NoFlapOfRun(store: Store, cs: seq<Command>, fam: Family, goal: Goal)
    requires goal.Valid() && AllSanctioned(cs, fam, goal)
    requires goal.want.Keys - Entries(store, fam) <= goal.fill.Keys
    ensures NoFlap(store, Run(store, cs), fam, goal)
  {
    RunIsPartial(store, cs, fam, goal);
    TouchedSanctioned(cs, fam, goal);
    var now := Run(store, cs);
    forall x
      ensures x in Entries(store, fam) && x in goal.want ==> x in Entries(now, fam)
      ensures x in Entries(now, fam) ==> x in Entries(store, fam) || x in goal.want
      ensures x in Entries(now, fam) && x !in goal.fill ==> SameAt(store, now, fam.Key(x))
    {
      EntriesMember(store, fam, x);
      EntriesMember(now, fam, x);
      fam.KeyName(x);
    }
  }

  lemma PendingShrinks(store: Store, c: Command, fam: Family, goal: Goal)
    requires goal.Valid() && Sanctioned(c, fam, goal)
    ensures Pending(Apply(store, c), fam, goal) <= Pending(store, fam, goal)
  {
    var now := Apply(store, c);
    forall x
      ensures Satisfied(store, fam, goal, x) ==> Satisfied(now, fam, goal, x)
      ensures x in Entries(now, fam) ==> x in Entries(store, fam) || x in goal.want
    {
      EntriesMember(store, fam, x);
      EntriesMember(now, fam, x);
      fam.KeyName(x);
      fam.NameKey(c.key);
      if c.HSet? && fam.Key(x) == c.key {
        FilledSatisfies(store, c, fam, goal, x);
      }
    }
  }

  lemma FilledSatisfies(store: Store, c: Command, fam: Family, goal: Goal, x: string)
    requires goal.Valid() && Sanctioned(c, fam, goal) && c.HSet? && c.key == fam.Key(x)
    ensures Satisfied(Apply(store, c), fam, goal, x)
  {
    fam.KeyName(x);
    var now := Apply(store, c);
    forall f | f in goal.want[x].Items
      ensures f in now[c.key].Items
    {
      assert f in goal.fill[x].Items;
    }
  }

  /** Every cut-off run of sanctioned commands is steady. */
  lemma SanctionedRunIsSteady(store: Store, cs: seq<Command>, fam: Family, goal: Goal)
    requires goal.Valid() && AllSanctioned(cs, fam, goal)
    requires goal.want.Keys - Entries(store, fam) <= goal.fill.Keys
    ensures Steady(store, cs, fam, goal)
  {
    forall n | 0 <= n <= |cs|
      ensures NoFlap(store, Run(store, cs[..n]), fam, goal)
    {
      NoFlapOfRun(store, cs[..n], fam, goal);
    }
    forall n | 0 <= n < |cs|
      ensures Pending(Run(store, cs[..n + 1]), fam, goal) <= Pending(Run(store, cs[..n]), fam, goal)
    {
      assert cs[..n + 1] == cs[..n] + [cs[n]];
      RunSnoc(store, cs[..n], cs[n]);
      PendingShrinks(Run(store, cs[..n]), cs[n], fam, goal);
    }
  }

  // ---------- the completed sync ----------

  /** Plain assignment: the family's entries become exactly the wanted ones, filled entries get their fields,
      the others keep theirs, and no other key changes. */
  ghost function Assigned(store: Store, fam: Family, goal: Goal): Store
    requires goal.want.Keys - Entries(store, fam) <= goal.fill.Keys
  {
    map k | k in store.Keys + (set x | x in goal.fill :: fam.Key(x)) && (fam.Holds(k) ==> fam.Name(k) in goal.want) ::
      if fam.Holds(k) && fam.Name(k) in goal.fill then FieldsAt(store, k) + goal.fill[fam.Name(k)]
      else if k in store then store[k] else map[]
  }

  /** A run that dropped every unwanted entry and filled every one to fill is the assignment,
      whatever the order and however often a command was repeated. */
  lemma CompleteRunAssigns(store: Store, cs: seq<Command>, fam: Family, goal: Goal)
    requires goal.Valid() && AllSanctioned(cs, fam, goal)
    requires goal.want.Keys - Entries(store, fam) <= goal.fill.Keys
    requires forall k :: k in store && fam.Holds(k) && fam.Name(k) !in goal.want ==> k in Dropped(cs)
    requires forall k :: fam.Holds(k) && fam.Name(k) in goal.fill ==> k in Filled(cs)
    ensures Run(store, cs) == Assigned(store, fam, goal)
  {
    hide Run, Assigned, Entries, AllSanctioned, Dropped, Filled, Goal.Valid;
    RunIsPartial(store, cs, fam, goal);
    TouchedSanctioned(cs, fam, goal);
    var now, target := Partial(store, Dropped(cs), Filled(cs)), Assigned(store, fam, goal);
    forall k
      ensures (k in now <==> k in target) && (k in now ==> now[k] == target[k])
    {
      CompleteAt(store, Dropped(cs), Filled(cs), fam, goal, k);
    }
  }

  lemma CompleteAt(store: Store, dropped: set<string>, filled: map<string, Fields>, fam: Family, goal: Goal, k: string)
    requires goal.Valid() && goal.want.Keys - Entries(store, fam) <= goal.fill.Keys
    requires k in filled <==> fam.Holds(k) && fam.Name(k) in goal.fill
    requires k in filled ==> filled[k] == goal.fill[fam.Name(k)]
    requires k in dropped ==> fam.Holds(k) && fam.Name(k) !in goal.want
    requires k in store && fam.Holds(k) && fam.Name(k) !in goal.want ==> k in dropped
    ensures var now, target := Partial(store, dropped, filled), Assigned(store, fam, goal);
            (k in now <==> k in target) && (k in now ==> now[k] == target[k])
  {
    AssignedAt(store, fam, goal, k);
    if fam.Holds(k) {
      fam.NameKey(k);
      EntriesMember(store, fam, fam.Name(k));
    }
  }

  /** `Assigned` key by key. */
  lemma AssignedAt(store: Store, fam: Family, goal: Goal, k: string)
    requires goal.Valid() && goal.want.Keys - Entries(store, fam) <= goal.fill.Keys
    ensures var target := Assigned(store, fam, goal);
            && (!fam.Holds(k) ==> (k in target <==> k in store) && (k in target ==> target[k] == store[k]))
            && (fam.Holds(k) ==>
                  && (k in target <==> fam.Name(k) in goal.want)
                  && (fam.Name(k) in goal.fill ==> target[k] == FieldsAt(store, k) + goal.fill[fam.Name(k)])
                  && (fam.Name(k) in goal.want && fam.Name(k) !in goal.fill ==> k in store && target[k] == store[k]))
  {
    if fam.Holds(k) {
      fam.NameKey(k);
      EntriesMember(store, fam, fam.Name(k));
      assert fam.Name(k) in goal.fill ==> fam.Key(fam.Name(k)) in (set x | x in goal.fill :: fam.Key(x));
    } else {
      NotAKey(fam, goal, k);
    }
  }

  lemma NotAKey(fam: Family, goal: Goal, k: string)
    requires !fam.Holds(k)
    ensures k !in (set x | x in goal.fill :: fam.Key(x))
  {
    forall x | x in goal.fill
      ensures fam.Key(x) != k
    {
      fam.KeyName(x);
    }
  }

  /** After the assignment nothing is pending. */
  lemma AssignedMeetsGoal(store: Store, fam: Family, goal: Goal)
    requires goal.Valid()
    requires goal.want.Keys - Entries(store, fam) <= goal.fill.Keys
    requires forall x :: x in goal.want && x !in goal.fill ==> Satisfied(store, fam, goal, x)
    ensures Entries(Assigned(store, fam, goal), fam) == goal.want.Keys
    ensures Pending(Assigned(store, fam, goal), fam, goal) == {}
  {
    var now := Assigned(store, fam, goal);
    forall x
      ensures x in Entries(now, fam) <==> x in goal.want
      ensures x in goal.want ==> Satisfied(now, fam, goal, x)
    {
      EntriesMember(now, fam, x);
      fam.KeyName(x);
      AssignedAt(store, fam, goal, fam.Key(x));
      if x in goal.fill {
        forall f | f in goal.want[x].Items
          ensures f in now[fam.Key(x)].Items
        {
          assert f in goal.fill[x].Items;
        }
      }
    }
  }

  // ---------- retries ----------

  /** A sequence of attempts, each cut off anywhere; each attempt may have its own fill. */
  function RunAll(store: Store, attempts: seq<seq<Command>>): Store {
    if attempts == [] then store else Run(RunAll(store, attempts[..|attempts| - 1]), attempts[|attempts| - 1])
  }

  ghost predicate Attempt(store: Store, cs: seq<Command>, fam: Family, want: map<string, Fields>) {
    exists fill :: Goal(want, fill).Valid() && AllSanctioned(cs, fam, Goal(want, fill))
                   && want.Keys - Entries(store, fam) <= fill.Keys
  }

  ghost predicate AllAttempts(store: Store, attempts: seq<seq<Command>>, fam: Family, want: map<string, Fields>) {
    forall i :: 0 <= i < |attempts| ==> Attempt(RunAll(store, attempts[..i]), attempts[i], fam, want)
  }

  /** However many attempts fail half-way, retrying makes monotone progress: the difference from the goal only
      shrinks, wanted entries are never lost, and no key outside the family is touched. */
  lemma {:induction false} RetriesOnlyProgress(store: Store, attempts: seq<seq<Command>>, fam: Family,
                                               want: map<string, Fields>)
    requires AllAttempts(store, attempts, fam, want)
    ensures var now := RunAll(store, attempts);
            && Pending(now, fam, Goal(want, map[])) <= Pending(store, fam, Goal(want, map[]))
            && Entries(store, fam) * want.Keys <= Entries(now, fam)
            && Entries(now, fam) <= Entries(store, fam) + want.Keys
            && (forall k :: !fam.Holds(k) ==> (k in now <==> k in store) && (k in now ==> now[k] == store[k]))
  {
    if attempts != [] {
      var init, cs := attempts[..|attempts| - 1], attempts[|attempts| - 1];
      assert forall i :: 0 <= i < |init| ==> attempts[..i] == init[..i] && attempts[i] == init[i];
      RetriesOnlyProgress(store, init, fam, want);
      var mid := RunAll(store, init);
      assert Attempt(mid, cs, fam, want);
      var fill :| Goal(want, fill).Valid() && AllSanctioned(cs, fam, Goal(want, fill))
                  && want.Keys - Entries(mid, fam) <= fill.Keys;
      var goal := Goal(want, fill);
      SanctionedRunIsSteady(mid, cs, fam, goal);
      assert cs[..|cs|] == cs;
      assert NoFlap(mid, Run(mid, cs), fam, goal);
      PendingOverRun(mid, cs, fam, goal, |cs|);
      PendingIgnoresFill(mid, fam, goal);
      PendingIgnoresFill(Run(mid, cs), fam, goal);
    }
  }

  lemma PendingIgnoresFill(store: Store, fam: Family, goal: Goal)
    ensures Pending(store, fam, goal) == Pending(store, fam, Goal(goal.want, map[]))
  {
  }

  lemma {:induction false} PendingOverRun(store: Store, cs: seq<Command>, fam: Family, goal: Goal, n: nat)
    requires Steady(store, cs, fam, goal) && n <= |cs|
    ensures Pending(Run(store, cs[..n]), fam, goal) <= Pending(store, fam, goal)
  {
    if n == 0 {
      assert cs[..0] == [];
    } else {
      PendingOverRun(store, cs, fam, goal, n - 1);
      assert Pending(Run(store, cs[..n - 1 + 1]), fam, goal) <= Pending(Run(store, cs[..n - 1]), fam, goal);
    }
  }

  // ---------- plans ----------

  function ToSet(s: seq<string>): set<string> {
    set x | x in s
  }

  function Dels(fam: Family, names: seq<string>): seq<Command> {
    seq(|names|, i requires 0 <= i < |names| => Del(fam.Key(names[i])))
  }

  /** The entries kept out of `xs` by membership in `other`, in order and with repetitions. */
  function Without(xs: seq<string>, other: set<string>): (r: seq<string>)
    ensures forall x :: x in r <==> x in xs && x !in other
    ensures ToSet(xs) <= other ==> r == []
  {
    if xs == [] then []
    else
      var init := Without(xs[..|xs| - 1], other);
      var last := xs[|xs| - 1];
      if last in other then init else init + [last]
  }

  lemma LogConcat(before: seq<Command>, a: seq<Command>, b: seq<Command>, after: seq<Command>, first: seq<Command>,
                  second: seq<Command>)
    requires before + a <= after && b == after[|before + a|..]
    requires a == first && b <= second
    ensures after == before + (a + b) && a + b <= first + second
    ensures b == second ==> a + b == first + second
  {
    assert after == (before + a) + b;
  }
}
