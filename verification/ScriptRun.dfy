/** Every run of the generated script: which commands a shell under `set -e -o pipefail` executes, for every way the
    commands may succeed or fail. */
module ScriptRun {
  import opened Text
  import opened ZtpBuilder
  import opened ShellGrammar
  import opened ZtpScript

  // ---------- what a shell executes ----------

  /** The commands executed, in order, and the final status. */
  datatype Outcome = Outcome(trace: seq<Role>, ok: bool)

  /** A way for the commands to succeed or fail; `true` always succeeds. No command runs twice (`EachCommandOnce`), so
      these functions are all the possible patterns. */
  type Fate = Role -> bool

  predicate Succeeds(fate: Fate, r: Role) {
    r.True? || fate(r)
  }

  /** Sections 2.9.2 to 2.9.4 of the POSIX.1-2017 Shell Command Language, with bash's pipefail. This runs inside an `if`
      condition, where a failure only decides the status. */
  function Eval(c: Cmd<Role>, fate: Fate): Outcome {
    match c
    case Run(r) => Outcome([r], Succeeds(fate, r))
    case Pipe(l, r) =>
      var a, b := Eval(l, fate), Eval(r, fate);
      Outcome(a.trace + b.trace, a.ok && b.ok)
    case And(l, r) =>
      var a := Eval(l, fate);
      if !a.ok then a else var b := Eval(r, fate); Outcome(a.trace + b.trace, b.ok)
    case Or(l, r) =>
      var a := Eval(l, fate);
      if a.ok then a else var b := Eval(r, fate); Outcome(a.trace + b.trace, b.ok)
    case Subshell(body) => Eval(body, fate)
  }

  function EvalTop(t: Top<Role>, fate: Fate): Outcome {
    match t
    case Simple(r) => Outcome([r], Succeeds(fate, r))
    case Guarded(cond, otherwise) =>
      var a := Eval(cond, fate);
      if a.ok then a else Outcome(a.trace + [otherwise], Succeeds(fate, otherwise))
  }

  /** `set -e`: the first top-level failure ends the script. */
  function RunScript(tops: seq<Top<Role>>, fate: Fate): Outcome {
    if tops == [] then Outcome([], true)
    else
      var a := EvalTop(tops[0], fate);
      if !a.ok then a else var b := RunScript(tops[1..], fate); Outcome(a.trace + b.trace, b.ok)
  }

  // ---------- the script ----------

  /** The ONIE commands when asked for, then hostname and save. */
  function PrefixRoles(d: TemplateData): seq<Role> {
    (if d.configureOnie then [OnieDir, OnieMountUnit, OnieServiceUnit, Reload, EnableMount, EnableService] else [])
    + [SetHostname, SaveConfig]
  }

  function Simples(rs: seq<Role>): seq<Top<Role>> {
    seq(|rs|, i requires 0 <= i < |rs| => Simple(rs[i]))
  }

  /** Place the credential: directories, decoded file, owner, mode. */
  function Inject(k: nat): Cmd<Role> {
    And(And(And(And(Run(InstallRoot(k)), Run(InstallDir(k))), Pipe(Run(Print(k)), Run(Decode(k)))), Run(Chown(k))),
        Run(Chmod(k)))
  }

  function Cleanup(k: nat): Cmd<Role> {
    Subshell(Or(Run(Remove(k)), Run(True(k))))
  }

  function Body(c: ContainerData, k: nat): Cmd<Role> {
    var pulled := if c.inject then And(Inject(k), Run(Pull(k))) else Run(Pull(k));
    And(And(pulled, Cleanup(k)), Run(Start(k)))
  }

  function Block(c: ContainerData, k: nat): Top<Role> {
    Guarded(Subshell(Body(c, k)), Echo(k))
  }

  function Blocks(cs: seq<ContainerData>): seq<Top<Role>> {
    seq(|cs|, k requires 0 <= k < |cs| => Block(cs[k], k))
  }

  function Script(d: TemplateData): seq<Top<Role>> {
    Simples(PrefixRoles(d)) + Blocks(d.containers) + [Simple(SyncDisks)]
  }

  /** The commands of one run. */
  function Trace(d: TemplateData, fate: Fate): seq<Role> {
    RunScript(Script(d), fate).trace
  }

  // ---------- vocabulary of the guarantees ----------

  predicate Distinct(s: seq<Role>) {
    forall i, j :: 0 <= i < j < |s| ==> s[i] != s[j]
  }

  /** The container a command belongs to. */
  function Owner(r: Role): Option<nat> {
    if r.OnieDir? || r.OnieMountUnit? || r.OnieServiceUnit? || r.Reload? || r.EnableMount? || r.EnableService?
       || r.SetHostname? || r.SaveConfig? || r.SyncDisks? then None
    else Some(r.k)
  }

  /** The first command of a container's block. */
  predicate Opens(d: TemplateData, r: Role) {
    (r.InstallRoot? || r.Pull?) && r.k < |d.containers| && r == Opening(d.containers[r.k], r.k)
  }

  /** The containers attempted, in order. */
  function Attempts(d: TemplateData, t: seq<Role>): seq<nat> {
    if t == [] then []
    else
      var last := t[|t| - 1];
      Attempts(d, t[..|t| - 1]) + if Opens(d, last) && Owner(last).Some? then [Owner(last).value] else []
  }

  /** The commands of container `k`. */
  function Of(t: seq<Role>, k: nat): seq<Role> {
    if t == [] then []
    else Of(t[..|t| - 1], k) + if Owner(t[|t| - 1]) == Some(k) then [t[|t| - 1]] else []
  }

  /** 0, 1, .. n - 1. */
  function UpTo(n: nat): seq<nat> {
    seq(n, i requires 0 <= i < n => i)
  }

  predicate PrefixSucceeds(d: TemplateData, fate: Fate) {
    forall i :: 0 <= i < |PrefixRoles(d)| ==> fate(PrefixRoles(d)[i])
  }

  /** Everything before a container's `docker run` works (`docker rm` may fail). */
  predicate Prepared(c: ContainerData, k: nat, fate: Fate) {
    (c.inject ==> Injected(k, fate)) && fate(Pull(k))
  }

  /** The credential was placed: directories, decoded file, owner, mode. */
  predicate Injected(k: nat, fate: Fate) {
    && fate(InstallRoot(k)) && fate(InstallDir(k))
    && fate(Print(k)) && fate(Decode(k)) && fate(Chown(k)) && fate(Chmod(k))
  }

  predicate Starts(c: ContainerData, k: nat, fate: Fate) {
    Prepared(c, k, fate) && fate(Start(k))
  }

  /** The container either starts, or its failure message is written. */
  predicate Passes(c: ContainerData, k: nat, fate: Fate) {
    Starts(c, k, fate) || fate(Echo(k))
  }

  /** Every container before `n` either starts or has its failure logged. */
  predicate AllPass(d: TemplateData, n: nat, fate: Fate) {
    forall k :: 0 <= k < n && k < |d.containers| ==> Passes(d.containers[k], k, fate)
  }

  // ---------- traces of commands ----------

  function Roles(c: Cmd<Role>): seq<Role> {
    match c
    case Run(r) => [r]
    case Pipe(l, r) => Roles(l) + Roles(r)
    case And(l, r) => Roles(l) + Roles(r)
    case Or(l, r) => Roles(l) + Roles(r)
    case Subshell(body) => Roles(body)
  }

  /** A run executes commands of the text only, beginning with the first, none twice if none is written twice. */
  lemma {:induction false} EvalWithin(c: Cmd<Role>, fate: Fate)
    ensures Eval(c, fate).trace != [] && Roles(c) != [] && Eval(c, fate).trace[0] == Roles(c)[0]
    ensures forall r :: r in Eval(c, fate).trace ==> r in Roles(c)
    ensures Distinct(Roles(c)) ==> Distinct(Eval(c, fate).trace)
  {
    match c
    case Run(r) =>
    case Subshell(body) => EvalWithin(body, fate);
    case Pipe(l, r) => EvalWithin(l, fate); EvalWithin(r, fate); DistinctJoin(l, r, fate);
    case And(l, r) => EvalWithin(l, fate); EvalWithin(r, fate); DistinctJoin(l, r, fate);
    case Or(l, r) => EvalWithin(l, fate); EvalWithin(r, fate); DistinctJoin(l, r, fate);
  }

  lemma DistinctJoin(l: Cmd<Role>, r: Cmd<Role>, fate: Fate)
    requires forall x :: x in Eval(l, fate).trace ==> x in Roles(l)
    requires forall x :: x in Eval(r, fate).trace ==> x in Roles(r)
    requires Distinct(Roles(l)) ==> Distinct(Eval(l, fate).trace)
    requires Distinct(Roles(r)) ==> Distinct(Eval(r, fate).trace)
    ensures Distinct(Roles(l) + Roles(r)) ==>
              Distinct(Eval(l, fate).trace) && Distinct(Eval(l, fate).trace + Eval(r, fate).trace)
  {
    var rl, rr, s, t := Roles(l), Roles(r), Eval(l, fate).trace, Eval(r, fate).trace;
    if Distinct(rl + rr) {
      DistinctHalves(rl, rr);
      forall x | x in s ensures x !in t {
        assert x in rl;
      }
      DistinctConcat(s, t);
    }
  }

  lemma DistinctHalves(a: seq<Role>, b: seq<Role>)
    requires Distinct(a + b)
    ensures Distinct(a) && Distinct(b)
    ensures forall x :: x in a ==> x !in b
  {
    var ab := a + b;
    forall i, j | 0 <= i < j < |a| ensures a[i] != a[j] {
      assert ab[i] == a[i] && ab[j] == a[j];
    }
    forall i, j | 0 <= i < j < |b| ensures b[i] != b[j] {
      assert ab[|a| + i] == b[i] && ab[|a| + j] == b[j];
    }
    forall x | x in a ensures x !in b {
      var i :| 0 <= i < |a| && a[i] == x;
      assert ab[i] == x;
      assert forall j :: 0 <= j < |b| ==> ab[|a| + j] == b[j];
    }
  }

  lemma DistinctConcat(a: seq<Role>, b: seq<Role>)
    requires Distinct(a) && Distinct(b)
    requires forall x :: x in a ==> x !in b
    ensures Distinct(a + b)
  {
    var ab := a + b;
    forall i, j | 0 <= i < j < |ab| ensures ab[i] != ab[j] {
      assert i < |a| ==> ab[i] in a;
      assert j >= |a| ==> ab[j] in b;
    }
  }

  // ---------- one container ----------

  /** What an injecting container's run looks like when everything before `docker run` works. */
  function FullTrace(c: ContainerData, k: nat, fate: Fate): seq<Role> {
    (if c.inject then [InstallRoot(k), InstallDir(k), Print(k), Decode(k), Chown(k), Chmod(k)] else [])
    + [Pull(k), Remove(k)] + (if fate(Remove(k)) then [] else [True(k)]) + [Start(k)]
  }

  function InjectRoles(k: nat): seq<Role> {
    [InstallRoot(k), InstallDir(k), Print(k), Decode(k), Chown(k), Chmod(k)]
  }

  lemma InjectRun(k: nat, fate: Fate)
    ensures Roles(Inject(k)) == InjectRoles(k)
    ensures var a := Eval(Inject(k), fate);
            && (a.ok <==> Injected(k, fate))
            && (a.ok ==> a.trace == InjectRoles(k))
  {
    var c2 := And(Run(InstallRoot(k)), Run(InstallDir(k)));
    var ok2 := fate(InstallRoot(k)) && fate(InstallDir(k));
    assert Roles(c2) == [InstallRoot(k), InstallDir(k)];
    assert Eval(c2, fate).ok == ok2 && (ok2 ==> Eval(c2, fate).trace == Roles(c2));
    var p := Pipe(Run(Print(k)), Run(Decode(k)));
    assert Roles(p) == [Print(k), Decode(k)];
    assert Eval(p, fate) == Outcome([Print(k), Decode(k)], fate(Print(k)) && fate(Decode(k)));
    var c3 := And(c2, p);
    var ok3 := ok2 && fate(Print(k)) && fate(Decode(k));
    assert Roles(c3) == [InstallRoot(k), InstallDir(k), Print(k), Decode(k)];
    assert Eval(c3, fate).ok == ok3 && (ok3 ==> Eval(c3, fate).trace == Roles(c3));
    var c4 := And(c3, Run(Chown(k)));
    assert Roles(c4) == Roles(c3) + [Chown(k)];
    assert Eval(c4, fate).ok == (ok3 && fate(Chown(k))) && (Eval(c4, fate).ok ==> Eval(c4, fate).trace == Roles(c4));
    assert Inject(k) == And(c4, Run(Chmod(k)));
  }

  function Opening(c: ContainerData, k: nat): Role {
    if c.inject then InstallRoot(k) else Pull(k)
  }

  function BodyRoles(c: ContainerData, k: nat): seq<Role> {
    (if c.inject then InjectRoles(k) else []) + [Pull(k), Remove(k), True(k), Start(k)]
  }

  lemma PulledRun(c: ContainerData, k: nat, fate: Fate)
    ensures var pulled := if c.inject then And(Inject(k), Run(Pull(k))) else Run(Pull(k));
            && Roles(pulled) == (if c.inject then InjectRoles(k) else []) + [Pull(k)]
            && (Eval(pulled, fate).ok <==> Prepared(c, k, fate))
            && (Prepared(c, k, fate) ==> Eval(pulled, fate).trace == Roles(pulled))
  {
    hide Inject;
    InjectRun(k, fate);
  }

  /** A container's block: `docker run` is reached exactly when the preparation worked, and then everything ran in
      order. */
  lemma BodyRun(c: ContainerData, k: nat, fate: Fate)
    ensures Roles(Body(c, k)) == BodyRoles(c, k)
    ensures var a := Eval(Body(c, k), fate);
            && (a.ok <==> Starts(c, k, fate))
            && (Start(k) in a.trace <==> Prepared(c, k, fate))
            && (Prepared(c, k, fate) ==> a.trace == FullTrace(c, k, fate))
  {
    hide Inject, Prepared;
    var pulled := if c.inject then And(Inject(k), Run(Pull(k))) else Run(Pull(k));
    PulledRun(c, k, fate);
    EvalWithin(pulled, fate);
    RemoveRun(k, fate);
    FinishRun(pulled, k, fate);
  }

  /** `(docker rm … || true)` never fails. */
  lemma RemoveRun(k: nat, fate: Fate)
    ensures Roles(Cleanup(k)) == [Remove(k), True(k)]
    ensures Eval(Cleanup(k), fate) == Outcome([Remove(k)] + (if fate(Remove(k)) then [] else [True(k)]), true)
  {
    var c := Or(Run(Remove(k)), Run(True(k)));
    assert Roles(c) == [Remove(k), True(k)];
    assert Eval(Run(Remove(k)), fate).ok == fate(Remove(k));
    assert Eval(Run(True(k)), fate).ok;
    assert Eval(c, fate) == Outcome([Remove(k)] + (if fate(Remove(k)) then [] else [True(k)]), true);
  }

  lemma FinishRun(pulled: Cmd<Role>, k: nat, fate: Fate)
    requires Start(k) !in Eval(pulled, fate).trace
    requires Roles(Cleanup(k)) == [Remove(k), True(k)]
    requires Eval(Cleanup(k), fate) == Outcome([Remove(k)] + (if fate(Remove(k)) then [] else [True(k)]), true)
    ensures var c, p := And(And(pulled, Cleanup(k)), Run(Start(k))), Eval(pulled, fate);
            && Roles(c) == Roles(pulled) + [Remove(k), True(k), Start(k)]
            && (Eval(c, fate).ok <==> p.ok && fate(Start(k)))
            && (Start(k) in Eval(c, fate).trace <==> p.ok)
            && (p.ok ==> Eval(c, fate).trace == p.trace + Eval(Cleanup(k), fate).trace + [Start(k)])
  {
    hide Cleanup;
    var most := And(pulled, Cleanup(k));
    assert Roles(most) == Roles(pulled) + [Remove(k), True(k)];
    assert Eval(most, fate).ok == Eval(pulled, fate).ok;
  }

  lemma {:induction false} AttemptsConcat(d: TemplateData, a: seq<Role>, b: seq<Role>)
    ensures Attempts(d, a + b) == Attempts(d, a) + Attempts(d, b)
    decreases |b|
  {
    if b == [] {
      assert a + b == a;
    } else {
      assert (a + b)[..|a + b| - 1] == a + b[..|b| - 1];
      AttemptsConcat(d, a, b[..|b| - 1]);
    }
  }

  lemma {:induction false} OfConcat(a: seq<Role>, b: seq<Role>, k: nat)
    ensures Of(a + b, k) == Of(a, k) + Of(b, k)
    decreases |b|
  {
    if b == [] {
      assert a + b == a;
    } else {
      assert (a + b)[..|a + b| - 1] == a + b[..|b| - 1];
      OfConcat(a, b[..|b| - 1], k);
    }
  }

  lemma {:induction false} OfOwn(t: seq<Role>, k: nat)
    requires forall r :: r in t ==> Owner(r) == Some(k)
    ensures Of(t, k) == t
  {
    hide Owner;
    if t != [] {
      var init := t[..|t| - 1];
      assert t[|t| - 1] in t;
      assert forall r :: r in init ==> r in t;
      OfOwn(init, k);
      assert t == init + [t[|t| - 1]];
    }
  }

  lemma {:induction false} OfOthers(t: seq<Role>, k: nat)
    requires forall r :: r in t ==> Owner(r) != Some(k)
    ensures Of(t, k) == []
  {
    hide Owner;
    if t != [] {
      var init := t[..|t| - 1];
      assert t[|t| - 1] in t;
      assert forall r :: r in init ==> r in t;
      OfOthers(init, k);
    }
  }

  lemma {:induction false} NoAttempts(d: TemplateData, t: seq<Role>)
    requires forall r :: r in t ==> !Opens(d, r)
    ensures Attempts(d, t) == []
  {
    if t != [] {
      var init := t[..|t| - 1];
      assert t[|t| - 1] in t;
      assert forall r :: r in init ==> r in t;
      NoAttempts(d, init);
    }
  }

  lemma BodyRolesDistinct(c: ContainerData, k: nat)
    ensures Distinct(BodyRoles(c, k)) && Echo(k) !in BodyRoles(c, k)
    ensures BodyRoles(c, k)[0] == Opening(c, k)
    ensures forall r :: r in BodyRoles(c, k) ==> Owner(r) == Some(k)
  {
  }

  /** The commands one block executes. */
  function BlockTrace(d: TemplateData, k: nat, fate: Fate): seq<Role>
    requires k < |d.containers|
  {
    EvalTop(Block(d.containers[k], k), fate).trace
  }

  lemma BlockRun(d: TemplateData, k: nat, fate: Fate)
    requires k < |d.containers|
    ensures var c, t := d.containers[k], BlockTrace(d, k, fate);
            && (EvalTop(Block(c, k), fate).ok <==> Passes(c, k, fate))
            && (forall r :: r in t ==> Owner(r) == Some(k))
            && Distinct(t) && t != [] && t[0] == Opening(c, k)
            && (Echo(k) in t <==> !Starts(c, k, fate))
            && (Start(k) in t <==> Prepared(c, k, fate))
            && (Prepared(c, k, fate) ==> FullTrace(c, k, fate) <= t)
  {
    hide Body, BodyRoles, Prepared, FullTrace, Opening, Owner;
    var c := d.containers[k];
    BodyRun(c, k, fate);
    BodyRolesDistinct(c, k);
    EvalWithin(Body(c, k), fate);
    var t := Eval(Body(c, k), fate).trace;
    assert Eval(Subshell(Body(c, k)), fate) == Eval(Body(c, k), fate);
    DistinctConcat(t, [Echo(k)]);
    EchoOwner(k);
    assert Starts(c, k, fate) ==> BlockTrace(d, k, fate) == t;
    assert !Starts(c, k, fate) ==> BlockTrace(d, k, fate) == t + [Echo(k)];
  }

  lemma EchoOwner(k: nat)
    ensures Owner(Echo(k)) == Some(k)
  {
  }

  /** A block opens its container once. */
  lemma BlockAttempts(d: TemplateData, k: nat, fate: Fate)
    requires k < |d.containers|
    ensures Attempts(d, BlockTrace(d, k, fate)) == [k]
  {
    hide Attempts, BlockTrace, Starts, Prepared, Passes, FullTrace, EvalTop;
    BlockRun(d, k, fate);
    var t := BlockTrace(d, k, fate);
    var rest := t[1..];
    forall r | r in rest ensures !Opens(d, r) {
      OpensOnce(d, k, t, r);
    }
    NoAttempts(d, rest);
    assert t == [t[0]] + rest;
    AttemptsConcat(d, [t[0]], rest);
    SingleAttempt(d, k);
  }

  lemma SingleAttempt(d: TemplateData, k: nat)
    requires k < |d.containers|
    ensures Attempts(d, [Opening(d.containers[k], k)]) == [k]
  {
    assert Attempts(d, []) == [];
    assert [Opening(d.containers[k], k)][..0] == [];
  }

  lemma OpensOnce(d: TemplateData, k: nat, t: seq<Role>, r: Role)
    requires k < |d.containers| && t != [] && Distinct(t) && t[0] == Opening(d.containers[k], k) && r in t[1..]
    requires forall r :: r in t ==> Owner(r) == Some(k)
    ensures !Opens(d, r)
  {
    var i :| 0 <= i < |t[1..]| && t[1..][i] == r;
    assert t[i + 1] == r && r in t && t[0] != t[i + 1];
  }

  // ---------- the whole script ----------

  lemma {:induction false} RunConcat(a: seq<Top<Role>>, b: seq<Top<Role>>, fate: Fate)
    ensures var x, y := RunScript(a, fate), RunScript(b, fate);
            RunScript(a + b, fate) == if x.ok then Outcome(x.trace + y.trace, y.ok) else x
    decreases |a|
  {
    hide EvalTop;
    if a == [] {
      assert a + b == b;
    } else {
      assert (a + b)[0] == a[0] && (a + b)[1..] == a[1..] + b;
      RunConcat(a[1..], b, fate);
      var h, x, y := EvalTop(a[0], fate), RunScript(a[1..], fate), RunScript(b, fate);
      assert h.trace + (x.trace + y.trace) == (h.trace + x.trace) + y.trace;
    }
  }

  lemma RunOne(t: Top<Role>, fate: Fate)
    ensures RunScript([t], fate) == EvalTop(t, fate)
  {
    hide EvalTop;
    assert [t][1..] == [];
    assert RunScript([], fate) == Outcome([], true);
    assert EvalTop(t, fate).trace + [] == EvalTop(t, fate).trace;
  }

  /** Among the first `n` containers, exactly the first `m` get their turn. */
  ghost predicate PassedUpTo(d: TemplateData, m: nat, n: nat, fate: Fate) {
    forall k :: 0 <= k < n ==> (k < m <==> AllPass(d, k, fate))
  }

  /** What is known of the first `n` blocks. */
  ghost predicate BlocksKnown(d: TemplateData, n: nat, fate: Fate, a: Outcome)
    requires n <= |d.containers|
  {
    && (a.ok <==> AllPass(d, n, fate))
    && (forall r :: r in a.trace ==> Owner(r).Some? && Owner(r).value < n)
    && Distinct(a.trace)
    && (exists m: nat :: m <= n && Attempts(d, a.trace) == UpTo(m) && PassedUpTo(d, m, n, fate))
    && (forall k :: 0 <= k < n ==> Of(a.trace, k) == if AllPass(d, k, fate) then BlockTrace(d, k, fate) else [])
  }

  lemma {:induction false} BlocksRun(d: TemplateData, n: nat, fate: Fate)
    requires n <= |d.containers|
    ensures BlocksKnown(d, n, fate, RunScript(Blocks(d.containers)[..n], fate))
  {
    hide EvalTop, Passes, BlockTrace, Owner, Opens, Attempts, Of;
    if n == 0 {
      EmptyRun(d, fate);
    } else {
      var p := n - 1;
      BlocksRun(d, p, fate);
      var before, top := Blocks(d.containers)[..p], Block(d.containers[p], p);
      assert Blocks(d.containers)[..n] == before + [top];
      RunConcat(before, [top], fate);
      RunOne(top, fate);
      if RunScript(before, fate).ok {
        BlocksStep(d, p, fate, RunScript(before, fate));
      } else {
        BlocksStuck(d, p, fate, RunScript(before, fate));
      }
    }
  }

  lemma EmptyRun(d: TemplateData, fate: Fate)
    ensures BlocksKnown(d, 0, fate, RunScript([], fate)) && Blocks(d.containers)[..0] == []
  {
    var a := RunScript([], fate);
    assert Attempts(d, a.trace) == UpTo(0);
  }

  lemma AllPassStep(d: TemplateData, p: nat, fate: Fate)
    requires p < |d.containers|
    ensures AllPass(d, p + 1, fate) <==> AllPass(d, p, fate) && Passes(d.containers[p], p, fate)
  {
    hide Passes;
    if AllPass(d, p + 1, fate) {
      assert Passes(d.containers[p], p, fate);
    }
  }

  lemma BlocksStep(d: TemplateData, p: nat, fate: Fate, a: Outcome)
    requires p < |d.containers| && BlocksKnown(d, p, fate, a) && a.ok
    ensures var b := EvalTop(Block(d.containers[p], p), fate);
            BlocksKnown(d, p + 1, fate, Outcome(a.trace + b.trace, b.ok))
  {
    hide EvalTop, Passes, Prepared, Starts, FullTrace, Opens, Attempts, Of, AllPass;
    var b := EvalTop(Block(d.containers[p], p), fate);
    assert b.trace == BlockTrace(d, p, fate);
    AllPassStep(d, p, fate);
    BlockRun(d, p, fate);
    BlockAttempts(d, p, fate);
    var t := a.trace + b.trace;
    DistinctConcat(a.trace, b.trace);
    AttemptsConcat(d, a.trace, b.trace);
    var m: nat :| m <= p && Attempts(d, a.trace) == UpTo(m) && PassedUpTo(d, m, p, fate);
    AllPassDown(d, p, fate);
    assert p > 0 ==> AllPass(d, p - 1, fate);
    assert m == p;
    assert UpTo(p) + [p] == UpTo(p + 1);
    assert Attempts(d, t) == UpTo(p + 1);
    forall k | 0 <= k < p + 1 ensures AllPass(d, k, fate) && Of(t, k) == BlockTrace(d, k, fate) {
      OfConcat(a.trace, b.trace, k);
      if k < p {
        OfOthers(b.trace, k);
      } else {
        OfOthers(a.trace, k);
        OfOwn(b.trace, k);
      }
    }
  }

  lemma AllPassDown(d: TemplateData, p: nat, fate: Fate)
    requires p <= |d.containers| && AllPass(d, p, fate)
    ensures forall k :: 0 <= k <= p ==> AllPass(d, k, fate)
  {
  }

  lemma BlocksStuck(d: TemplateData, p: nat, fate: Fate, a: Outcome)
    requires p < |d.containers| && BlocksKnown(d, p, fate, a) && !a.ok
    ensures BlocksKnown(d, p + 1, fate, a)
  {
    hide Passes, Prepared, Starts, FullTrace, Opens, Attempts, Of, AllPass, BlockTrace;
    AllPassStep(d, p, fate);
    OfOthers(a.trace, p);
    var m: nat :| m <= p && Attempts(d, a.trace) == UpTo(m) && PassedUpTo(d, m, p, fate);
    assert forall k :: 0 <= k < p + 1 ==> (k < m <==> AllPass(d, k, fate));
  }

  lemma {:induction false} SimplesRun(rs: seq<Role>, fate: Fate)
    requires forall i :: 0 <= i < |rs| ==> !rs[i].True?
    ensures var a := RunScript(Simples(rs), fate);
            && (a.ok <==> forall i :: 0 <= i < |rs| ==> fate(rs[i]))
            && a.trace <= rs && (a.ok ==> a.trace == rs)
  {
    if rs != [] {
      var init, last := rs[..|rs| - 1], rs[|rs| - 1];
      SimplesRun(init, fate);
      assert Simples(rs) == Simples(init) + [Simple(last)];
      RunConcat(Simples(init), [Simple(last)], fate);
      RunOne(Simple(last), fate);
      assert rs == init + [last];
      assert forall i :: 0 <= i < |init| ==> init[i] == rs[i];
    }
  }

  lemma PrefixFacts(d: TemplateData)
    ensures Distinct(PrefixRoles(d))
    ensures forall i :: 0 <= i < |PrefixRoles(d)| ==>
              Owner(PrefixRoles(d)[i]).None? && !PrefixRoles(d)[i].SyncDisks? && !PrefixRoles(d)[i].True?
  {
  }

  lemma OwnerlessFacts(d: TemplateData, t: seq<Role>)
    requires forall r :: r in t ==> Owner(r).None?
    ensures Attempts(d, t) == []
    ensures forall k: nat :: Of(t, k) == []
  {
    forall r | r in t ensures !Opens(d, r) {
      assert Owner(r).None?;
    }
    NoAttempts(d, t);
    forall k: nat ensures Of(t, k) == [] {
      OfOthers(t, k);
    }
  }

  /** Container `k` gets its turn: the strict part worked and everyone before it started or had its failure logged. */
  predicate Reached(d: TemplateData, k: nat, fate: Fate) {
    PrefixSucceeds(d, fate) && AllPass(d, k, fate)
  }

  /** The shape of every run: part of the strict prefix; then, only if all of it worked, the blocks; then `sync`. */
  lemma TraceShape(d: TemplateData, fate: Fate)
    ensures var p, b := RunScript(Simples(PrefixRoles(d)), fate), RunScript(Blocks(d.containers), fate);
            && (p.ok <==> PrefixSucceeds(d, fate))
            && p.trace <= PrefixRoles(d)
            && (p.ok ==> p.trace == PrefixRoles(d))
            && BlocksKnown(d, |d.containers|, fate, b)
            && Trace(d, fate) == p.trace + (if p.ok then b.trace + (if b.ok then [SyncDisks] else []) else [])
  {
    hide PrefixRoles, BlocksKnown, Blocks, Owner;
    var p, b := RunScript(Simples(PrefixRoles(d)), fate), RunScript(Blocks(d.containers), fate);
    PrefixFacts(d);
    SimplesRun(PrefixRoles(d), fate);
    BlocksRun(d, |d.containers|, fate);
    BlocksAll(d);
    RunConcat(Simples(PrefixRoles(d)) + Blocks(d.containers), [Simple(SyncDisks)], fate);
    RunConcat(Simples(PrefixRoles(d)), Blocks(d.containers), fate);
    RunOne(Simple(SyncDisks), fate);
    assert p.trace + (b.trace + [SyncDisks]) == p.trace + b.trace + [SyncDisks];
    assert p.trace + [] == p.trace;
    assert b.trace + [] == b.trace;
  }

  lemma BlocksAll(d: TemplateData)
    ensures |Blocks(d.containers)| == |d.containers| && Blocks(d.containers)[..|d.containers|] == Blocks(d.containers)
  {
  }

  lemma TailShape(d: TemplateData, fate: Fate, b: Outcome)
    requires BlocksKnown(d, |d.containers|, fate, b)
    ensures var u := b.trace + if b.ok then [SyncDisks] else [];
            && Distinct(u) && (SyncDisks in u <==> b.ok)
            && Attempts(d, u) == Attempts(d, b.trace)
            && (forall k: nat :: Of(u, k) == Of(b.trace, k))
            && (forall r :: r in u ==> Owner(r).Some? || r.SyncDisks?)
  {
    hide Of, Attempts, AllPass, BlockTrace, Opens;
    var tail := if b.ok then [SyncDisks] else [];
    var u := b.trace + tail;
    forall r | r in b.trace ensures r != SyncDisks {
      assert Owner(r).Some?;
    }
    DistinctConcat(b.trace, tail);
    OwnerlessFacts(d, tail);
    AttemptsConcat(d, b.trace, tail);
    forall k: nat ensures Of(u, k) == Of(b.trace, k) {
      OfConcat(b.trace, tail, k);
    }
  }

  /** No run executes a command twice. */
  lemma EachCommandOnce(d: TemplateData, fate: Fate)
    ensures Distinct(Trace(d, fate))
    ensures SyncDisks in Trace(d, fate) <==> Reached(d, |d.containers|, fate)
  {
    hide PrefixRoles, Blocks, Of, Attempts, BlockTrace, Opens, AllPass, PrefixSucceeds;
    TraceShape(d, fate);
    PrefixFacts(d);
    var p, b := RunScript(Simples(PrefixRoles(d)), fate), RunScript(Blocks(d.containers), fate);
    TailShape(d, fate, b);
    var u := b.trace + if b.ok then [SyncDisks] else [];
    forall r | r in p.trace ensures Owner(r).None? && r != SyncDisks {
      var i :| 0 <= i < |p.trace| && p.trace[i] == r;
      assert PrefixRoles(d)[i] == r;
    }
    assert Distinct(p.trace) by {
      assert forall i :: 0 <= i < |p.trace| ==> p.trace[i] == PrefixRoles(d)[i];
    }
    DistinctConcat(p.trace, u);
  }

  /** The part of a run that belongs to each container, and the order in which they are attempted. */
  lemma PerContainer(d: TemplateData, fate: Fate)
    ensures exists m: nat :: m <= |d.containers| && Attempts(d, Trace(d, fate)) == UpTo(m)
                             && (forall k :: 0 <= k < |d.containers| ==> (k < m <==> Reached(d, k, fate)))
    ensures forall k :: 0 <= k < |d.containers| ==>
              Of(Trace(d, fate), k) == if Reached(d, k, fate) then BlockTrace(d, k, fate) else []
  {
    hide PrefixRoles, Blocks, Of, Attempts, BlockTrace, Opens, AllPass, PrefixSucceeds, Trace;
    TraceShape(d, fate);
    PrefixFacts(d);
    var p, b := RunScript(Simples(PrefixRoles(d)), fate), RunScript(Blocks(d.containers), fate);
    forall r | r in p.trace ensures Owner(r).None? {
      var i :| 0 <= i < |p.trace| && p.trace[i] == r;
      assert PrefixRoles(d)[i] == r;
    }
    OwnerlessFacts(d, p.trace);
    if p.ok {
      TailShape(d, fate, b);
      var u := b.trace + if b.ok then [SyncDisks] else [];
      AttemptsConcat(d, p.trace, u);
      forall k: nat ensures Of(p.trace + u, k) == Of(u, k) {
        OfConcat(p.trace, u, k);
      }
    } else {
      assert Trace(d, fate) == p.trace;
      assert Attempts(d, p.trace) == UpTo(0);
    }
  }

  // ---------- what the documentation promises ----------

  /** In every run the attempted containers are the first `m` of the spec, once each and in spec order; container `k` is
      attempted exactly when the whole ONIE, hostname and save prefix succeeded and no earlier failure message failed to
      be written. In particular nothing that happens to a container before its `echo` stops another one. */
  lemma AttemptsInSpecOrder(d: TemplateData, fate: Fate)
    ensures var t := Trace(d, fate);
            && |Attempts(d, t)| <= |d.containers|
            && Attempts(d, t) == UpTo(|Attempts(d, t)|)
            && (forall k :: 0 <= k < |d.containers| ==> (k in Attempts(d, t) <==> Reached(d, k, fate)))
  {
    hide Attempts, Trace, Reached, Of, BlockTrace;
    PerContainer(d, fate);
    var m: nat :| m <= |d.containers| && Attempts(d, Trace(d, fate)) == UpTo(m)
                  && (forall k :: 0 <= k < |d.containers| ==> (k < m <==> Reached(d, k, fate)));
    forall k | 0 <= k < |d.containers| ensures k in UpTo(m) <==> k < m {
      if k < m {
        assert UpTo(m)[k] == k;
      }
    }
  }

  /** Best effort: as long as `echo` can write, all containers are attempted if and only if the strict prefix succeeded,
      whatever happens to the containers themselves. */
  lemma AllAttemptedIffPrefixSucceeds(d: TemplateData, fate: Fate)
    requires d.containers != []
    requires forall k :: 0 <= k < |d.containers| ==> fate(Echo(k))
    ensures Attempts(d, Trace(d, fate)) == UpTo(|d.containers|) <==> PrefixSucceeds(d, fate)
    ensures Attempts(d, Trace(d, fate)) == [] <==> !PrefixSucceeds(d, fate)
  {
    hide Attempts, Trace, PrefixSucceeds;
    AttemptsInSpecOrder(d, fate);
    var n := |d.containers|;
    var t := Attempts(d, Trace(d, fate));
    forall k: nat | k < n ensures AllPass(d, k, fate) {
    }
    assert forall k: nat :: k < n ==> (k in t <==> PrefixSucceeds(d, fate));
    assert 0 in t <==> PrefixSucceeds(d, fate);
    assert t != [] ==> UpTo(|t|)[0] == 0;
    if PrefixSucceeds(d, fate) {
      assert n - 1 in UpTo(|t|);
      assert |t| == n;
    } else {
      assert UpTo(n)[0] == 0;
    }
  }

  /** The one way a container can stop another, `set -e` inside the `then` branch: all containers are attempted if and
      only if the prefix succeeded and every container but the last started or had its failure message written. */
  lemma AllAttemptedIff(d: TemplateData, fate: Fate)
    requires d.containers != []
    ensures Attempts(d, Trace(d, fate)) == UpTo(|d.containers|) <==>
            (PrefixSucceeds(d, fate)
             && forall k :: 0 <= k < |d.containers| - 1 ==> Starts(d.containers[k], k, fate) || fate(Echo(k)))
  {
    hide Attempts, Trace, PrefixSucceeds, Starts;
    AttemptsInSpecOrder(d, fate);
    var n := |d.containers|;
    var t := Attempts(d, Trace(d, fate));
    assert n - 1 in t <==> Reached(d, n - 1, fate);
    assert n - 1 in UpTo(|t|) <==> |t| == n by {
      if |t| == n {
        assert UpTo(n)[n - 1] == n - 1;
      }
    }
    assert AllPass(d, n - 1, fate) <==> forall k :: 0 <= k < n - 1 ==>
             Starts(d.containers[k], k, fate) || fate(Echo(k));
  }

  /** Two runs. If a container gets its turn in both and its own commands fare the same, it executes the same commands
      in both, whatever the other containers do. */
  lemma ContainersAreIsolated(d: TemplateData, k: nat, f: Fate, g: Fate)
    requires k < |d.containers| && Reached(d, k, f) && Reached(d, k, g)
    requires forall r :: Owner(r) == Some(k) ==> f(r) == g(r)
    ensures Of(Trace(d, f), k) == Of(Trace(d, g), k) != []
  {
    hide Trace, Of, Reached, Attempts, Prepared, Passes, Starts, FullTrace, Opening;
    PerContainer(d, f);
    PerContainer(d, g);
    BlockRun(d, k, f);
    BodyRun(d.containers[k], k, f);
    BodyRolesDistinct(d.containers[k], k);
    SameFate(Subshell(Body(d.containers[k], k)), f, g);
    EchoOwner(k);
  }

  lemma {:induction false} SameFate(c: Cmd<Role>, f: Fate, g: Fate)
    requires forall r :: r in Roles(c) ==> f(r) == g(r)
    ensures Eval(c, f) == Eval(c, g)
  {
    match c
    case Run(r) => assert r in Roles(c);
    case Subshell(body) => SameFate(body, f, g);
    case Pipe(l, r) => SameFate(l, f, g); SameFate(r, f, g);
    case And(l, r) => SameFate(l, f, g); SameFate(r, f, g);
    case Or(l, r) => SameFate(l, f, g); SameFate(r, f, g);
  }

  lemma {:induction false} OfMember(t: seq<Role>, k: nat, r: Role)
    requires Owner(r) == Some(k)
    ensures r in Of(t, k) <==> r in t
  {
    if t != [] {
      OfMember(t[..|t| - 1], k, r);
      assert t == t[..|t| - 1] + [t[|t| - 1]];
    }
  }

  /** `docker run` of an attempted container happens exactly when its preparation succeeded, and its failure is logged
      exactly when it did not end up started. */
  lemma StartedOrLogged(d: TemplateData, k: nat, fate: Fate)
    requires k < |d.containers|
    ensures var t := Trace(d, fate);
            && (Start(k) in t <==> Reached(d, k, fate) && Prepared(d.containers[k], k, fate))
            && (Echo(k) in t <==> Reached(d, k, fate) && !Starts(d.containers[k], k, fate))
  {
    hide Trace, Of, Reached, Attempts, Prepared, Passes, Starts, FullTrace, Opening, BlockTrace;
    PerContainer(d, fate);
    BlockRun(d, k, fate);
    OfMember(Trace(d, fate), k, Start(k));
    OfMember(Trace(d, fate), k, Echo(k));
  }

  /** In every run an injecting container's `docker run` comes only after its credential was printed, decoded, chowned
      and chmodded, in that order and each with success. */
  lemma CredentialOrder(d: TemplateData, k: nat, fate: Fate) returns (p: nat, a: nat, b: nat, c: nat, e: nat)
    requires k < |d.containers| && d.containers[k].inject && Start(k) in Trace(d, fate)
    ensures fate(Print(k)) && fate(Decode(k)) && fate(Chown(k)) && fate(Chmod(k))
    ensures var t := Trace(d, fate);
            && p < a < b < c < e < |t|
            && t[p] == Print(k) && t[a] == Decode(k) && t[b] == Chown(k) && t[c] == Chmod(k) && t[e] == Start(k)
  {
    hide Trace, Of, Reached, Attempts, FullTrace, BlockTrace, Opening;
    StartedOrLogged(d, k, fate);
    PerContainer(d, fate);
    BlockRun(d, k, fate);
    var t := Trace(d, fate);
    var u := Of(t, k);
    var s := FullInjected(d.containers[k], k, fate);
    assert u[2] == Print(k) && u[3] == Decode(k) && u[4] == Chown(k) && u[5] == Chmod(k) && u[s] == Start(k);
    var i, j, i';
    p, a := OfOrder(t, k, 2, 3);
    i, b := OfOrder(t, k, 3, 4);
    j, c := OfOrder(t, k, 4, 5);
    i', e := OfOrder(t, k, 5, s);
    EachCommandOnce(d, fate);
    DistinctAt(t, a, i);
    DistinctAt(t, b, j);
    DistinctAt(t, c, i');
  }

  lemma DistinctAt(t: seq<Role>, i: nat, j: nat)
    requires Distinct(t) && i < |t| && j < |t| && t[i] == t[j]
    ensures i == j
  {
  }

  lemma FullInjected(c: ContainerData, k: nat, fate: Fate) returns (s: nat)
    requires c.inject
    ensures var f := FullTrace(c, k, fate);
            && 5 < s < |f| && f[s] == Start(k)
            && f[2] == Print(k) && f[3] == Decode(k) && f[4] == Chown(k) && f[5] == Chmod(k)
  {
    s := if fate(Remove(k)) then 8 else 9;
  }

  /** Taking a container's part of a run keeps the order. */
  lemma {:induction false} OfOrder(t: seq<Role>, k: nat, i: nat, j: nat) returns (a: nat, b: nat)
    requires i < j < |Of(t, k)|
    ensures a < b < |t| && t[a] == Of(t, k)[i] && t[b] == Of(t, k)[j]
  {
    var init, last := t[..|t| - 1], t[|t| - 1];
    if j < |Of(init, k)| {
      a, b := OfOrder(init, k, i, j);
    } else {
      b := |t| - 1;
      a := OfIndex(init, k, i);
    }
  }

  lemma {:induction false} OfIndex(t: seq<Role>, k: nat, i: nat) returns (a: nat)
    requires i < |Of(t, k)|
    ensures a < |t| && t[a] == Of(t, k)[i]
  {
    var init := t[..|t| - 1];
    if i < |Of(init, k)| {
      a := OfIndex(init, k, i);
    } else {
      a := |t| - 1;
    }
  }
}
