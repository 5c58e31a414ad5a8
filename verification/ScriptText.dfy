/** The text of the generated script, from the hostname line on, and its meaning: a shell reads it as exactly the
    program whose runs module ScriptRun describes, each command with the words and redirections module ZtpScript
    intends. */
module ScriptText {
  import opened Text
  import opened Shell
  import opened ShellGrammar
  import opened ZtpBuilder
  import opened ZtpScript
  import opened ScriptRun

  // ---------- the template ----------

  /** The line that plays a role. */
  function LineOf(d: TemplateData, role: Role): Line {
    if IsContainerRole(role) && role.k < |d.containers| then ContainerLine(d.containers[role.k], role)
    else if role.SetHostname? || role.SaveConfig? || role.SyncDisks? then HostLine(d, role)
    else Line([], [])
  }

  function Written(d: TemplateData, role: Role): seq<Piece> {
    LinePieces(LineOf(d, role))
  }

  const NEWLINE := [Symbol("\n")]

  function InjectPieces(d: TemplateData, k: nat): seq<Piece> {
    Written(d, InstallRoot(k)) + AND
    + Written(d, InstallDir(k)) + AND
    + Written(d, Print(k)) + PIPE + Written(d, Decode(k)) + AND
    + Written(d, Chown(k)) + AND
    + Written(d, Chmod(k)) + AND
  }

  /** The condition of a container's block, line by line. */
  function BodyPieces(d: TemplateData, k: nat): seq<Piece>
    requires k < |d.containers|
  {
    (if d.containers[k].inject then InjectPieces(d, k) else [])
    + Written(d, Pull(k)) + AND
    + [Symbol("(")] + Written(d, Remove(k)) + OR + Written(d, True(k)) + [Symbol(")")] + AND
    + Written(d, Start(k))
  }

  function BlockPieces(d: TemplateData, k: nat): seq<Piece>
    requires k < |d.containers|
  {
    GUARD + BodyPieces(d, k) + ELSE + Written(d, Echo(k)) + CLOSE
  }

  /** The blocks from container `k` on. */
  function BlocksFrom(d: TemplateData, k: nat): seq<Piece>
    requires k <= |d.containers|
    decreases |d.containers| - k
  {
    if k == |d.containers| then [] else BlockPieces(d, k) + NEWLINE + BlocksFrom(d, k + 1)
  }

  const HEADING := [Symbol("\n"), Note(" containers"), Symbol("\n")]

  function ScriptPieces(d: TemplateData): seq<Piece> {
    Written(d, SetHostname) + NEWLINE
    + Written(d, SaveConfig) + NEWLINE
    + (if d.containers == [] then [] else HEADING + BlocksFrom(d, 0))
    + Written(d, SyncDisks)
  }

  /** The rendered text. */
  function ScriptTextOf(d: TemplateData): string {
    Render(ScriptPieces(d))
  }

  // ---------- the program ----------

  /** The program of that part of the script, in roles. */
  function TailScript(d: TemplateData): seq<Top<Role>> {
    Simples([SetHostname, SaveConfig]) + Blocks(d.containers) + [Simple(SyncDisks)]
  }

  function OnieRoles(d: TemplateData): seq<Role> {
    if d.configureOnie then [OnieDir, OnieMountUnit, OnieServiceUnit, Reload, EnableMount, EnableService] else []
  }

  lemma ScriptIsOnieThenTail(d: TemplateData)
    ensures Script(d) == Simples(OnieRoles(d)) + TailScript(d)
  {
    hide Blocks;
    assert Simples(PrefixRoles(d)) == Simples(OnieRoles(d)) + Simples([SetHostname, SaveConfig]);
  }

  /** Each role replaced by its line. */
  function Lines(d: TemplateData, c: Cmd<Role>): Cmd<Line> {
    match c
    case Run(r) => Run(LineOf(d, r))
    case Pipe(l, r) => Pipe(Lines(d, l), Lines(d, r))
    case And(l, r) => And(Lines(d, l), Lines(d, r))
    case Or(l, r) => Or(Lines(d, l), Lines(d, r))
    case Subshell(body) => Subshell(Lines(d, body))
  }

  function TopLines(d: TemplateData, t: Top<Role>): Top<Line> {
    match t
    case Simple(r) => Simple(LineOf(d, r))
    case Guarded(cond, otherwise) => Guarded(Lines(d, cond), LineOf(d, otherwise))
  }

  /** What a shell makes of the program. */
  function Commands(d: TemplateData, ts: seq<Top<Role>>): seq<Top<Argv>> {
    seq(|ts|, i requires 0 <= i < |ts| => TopMeaning(TopLines(d, ts[i])))
  }

  // ---------- the template writes that program ----------

  lemma InjectPiecesAre(d: TemplateData, k: nat)
    ensures InjectPieces(d, k) == CmdPieces(Lines(d, Inject(k))) + AND
  {
    hide LineOf, LinePieces;
    var c1 := Run(InstallRoot(k));
    var c2 := And(c1, Run(InstallDir(k)));
    assert CmdPieces(Lines(d, c2)) == Written(d, InstallRoot(k)) + AND + Written(d, InstallDir(k));
    var p := Pipe(Run(Print(k)), Run(Decode(k)));
    assert CmdPieces(Lines(d, p)) == Written(d, Print(k)) + PIPE + Written(d, Decode(k));
    var c3 := And(c2, p);
    assert CmdPieces(Lines(d, c3)) == CmdPieces(Lines(d, c2)) + AND + CmdPieces(Lines(d, p));
    var c4 := And(c3, Run(Chown(k)));
    assert CmdPieces(Lines(d, c4)) == CmdPieces(Lines(d, c3)) + AND + Written(d, Chown(k));
    assert Inject(k) == And(c4, Run(Chmod(k)));
    assert CmdPieces(Lines(d, Inject(k))) == CmdPieces(Lines(d, c4)) + AND + Written(d, Chmod(k));
  }

  lemma CleanupPiecesAre(d: TemplateData, k: nat)
    ensures CmdPieces(Lines(d, Cleanup(k)))
            == [Symbol("(")] + Written(d, Remove(k)) + OR + Written(d, True(k)) + [Symbol(")")]
  {
    hide LineOf, LinePieces;
    var c := Or(Run(Remove(k)), Run(True(k)));
    assert CmdPieces(Lines(d, c)) == Written(d, Remove(k)) + OR + Written(d, True(k));
    assert CmdPieces(Lines(d, Cleanup(k))) == [Symbol("(")] + CmdPieces(Lines(d, c)) + [Symbol(")")];
  }

  function Pulled(c: ContainerData, k: nat): Cmd<Role> {
    if c.inject then And(Inject(k), Run(Pull(k))) else Run(Pull(k))
  }

  lemma PulledPiecesAre(d: TemplateData, k: nat)
    requires k < |d.containers|
    ensures CmdPieces(Lines(d, Pulled(d.containers[k], k)))
            == (if d.containers[k].inject then InjectPieces(d, k) else []) + Written(d, Pull(k))
  {
    hide LineOf, LinePieces, InjectPieces, Inject;
    InjectPiecesAre(d, k);
  }

  lemma BodyPiecesAre(d: TemplateData, k: nat)
    requires k < |d.containers|
    ensures CmdPieces(Lines(d, Body(d.containers[k], k))) == BodyPieces(d, k)
  {
    hide LineOf, LinePieces, InjectPieces, Cleanup, Pulled;
    PulledPiecesAre(d, k);
    CleanupPiecesAre(d, k);
    BodyIs(d.containers[k], k);
    var most := And(Pulled(d.containers[k], k), Cleanup(k));
    assert CmdPieces(Lines(d, most)) == CmdPieces(Lines(d, Pulled(d.containers[k], k))) + AND
      + CmdPieces(Lines(d, Cleanup(k)));
    assert CmdPieces(Lines(d, And(most, Run(Start(k))))) == CmdPieces(Lines(d, most)) + AND + Written(d, Start(k));
  }

  lemma BodyIs(c: ContainerData, k: nat)
    ensures Body(c, k) == And(And(Pulled(c, k), Cleanup(k)), Run(Start(k)))
  {
    hide Inject, Cleanup;
  }

  lemma BlockPiecesAre(d: TemplateData, k: nat)
    requires k < |d.containers|
    ensures BlockPieces(d, k) == TopPieces(TopLines(d, Block(d.containers[k], k)))
  {
    hide LineOf, LinePieces, BodyPieces, Body, CmdPieces;
    BodyPiecesAre(d, k);
    var body := Lines(d, Body(d.containers[k], k));
    assert Lines(d, Subshell(Body(d.containers[k], k))) == Subshell(body);
  }

  // ---------- the lines are readable ----------

  /** The container commands the script may contain. */
  predicate Used(d: TemplateData, r: Role) {
    IsContainerRole(r) && r.k < |d.containers| && (r.Chown? ==> d.containers[r.k].inject)
  }

  /** Every line the script uses can be read. */
  ghost predicate LinesValid(d: TemplateData) {
    && (forall r: Role :: Used(d, r) ==> LineOf(d, r).Valid())
    && LineOf(d, SetHostname).Valid() && LineOf(d, SaveConfig).Valid() && LineOf(d, SyncDisks).Valid()
  }

  /** All texts of the Switch are free of NUL, as every string of the API is. */
  predicate CleanSwitch(sw: Switch, kube: Kubeconfig) {
    && NoNul(HostnameOf(sw)) && NoNul(Encoded(sw, kube))
    && (forall k :: 0 <= k < |sw.containers| ==> CleanContainer(sw.containers[k], sw.volumes))
  }

  lemma AcceptedLinesValid(sw: Switch, kube: Kubeconfig)
    requires Valid(sw, kube) && CleanSwitch(sw, kube)
    ensures LinesValid(Built(sw, kube))
  {
    hide PlainWord, NoNul, CleanContainer, ValidContainer, ContainerLine, Data, Digits;
    var d := Built(sw, kube);
    forall r: Role | Used(d, r)
      ensures LineOf(d, r).Valid()
    {
      BuiltAt(sw, kube, r.k);
      InjectOf(sw.containers[r.k], sw.volumes, Encoded(sw, kube));
      ContainerLineValid(sw, kube, r.k, r);
    }
    HostLinesValid(d);
  }

  lemma InjectOf(c: Container, vs: seq<Volume>, encoded: string)
    ensures Data(c, vs, encoded).inject == c.inject
  {
    hide MountTexts, DockerUser, CredentialPath;
  }

  lemma HostLinesValid(d: TemplateData)
    requires NoNul(d.hostname)
    ensures LineOf(d, SetHostname).Valid() && LineOf(d, SaveConfig).Valid() && LineOf(d, SyncDisks).Valid()
  {
    hide PlainWord, NoNul, Digits, ContainerLine;
    PlainLiterals6();
  }

  lemma BlockIsTop(d: TemplateData, k: nat)
    requires LinesValid(d) && k < |d.containers|
    ensures IsTop(TopLines(d, Block(d.containers[k], k)))
  {
    hide Line.Valid, LineOf, Inject, Cleanup;
    var c := d.containers[k];
    if c.inject {
      InjectIsList(d, k);
    }
    CleanupIsCommand(d, k);
    BodyIs(c, k);
    assert LineOf(d, Pull(k)).Valid() && LineOf(d, Start(k)).Valid() && LineOf(d, Echo(k)).Valid();
    RunIsCommand(d, Pull(k));
    RunIsCommand(d, Start(k));
    var pulled := Lines(d, Pulled(c, k));
    assert c.inject ==> pulled == And(Lines(d, Inject(k)), Run(LineOf(d, Pull(k))));
    assert IsList(pulled);
    var most := And(pulled, Lines(d, Cleanup(k)));
    Levels(Lines(d, Cleanup(k)));
    assert IsList(most);
    assert IsList(And(most, Run(LineOf(d, Start(k)))));
    assert Lines(d, Body(c, k)) == And(most, Run(LineOf(d, Start(k))));
  }

  lemma CleanupIsCommand(d: TemplateData, k: nat)
    requires LinesValid(d) && k < |d.containers|
    ensures IsCommand(Lines(d, Cleanup(k)))
  {
    hide Line.Valid, LineOf;
    var a, b := Run(LineOf(d, Remove(k))), Run(LineOf(d, True(k)));
    assert LineOf(d, Remove(k)).Valid() && LineOf(d, True(k)).Valid();
    assert IsCommand(a) && IsCommand(b);
    assert IsPipeline(a) && IsPipeline(b) && IsList(a);
    assert IsList(Or(a, b));
    var c: Cmd<Role> := Or(Run(Remove(k)), Run(True(k)));
    assert Lines(d, c) == Or(a, b);
    assert Lines(d, Cleanup(k)) == Subshell(Lines(d, c));
  }

  lemma RunIsCommand(d: TemplateData, r: Role)
    requires LineOf(d, r).Valid()
    ensures var c: Cmd<Line> := Run(LineOf(d, r)); Lines(d, Run(r)) == c && IsCommand(c) && IsPipeline(c) && IsList(c)
  {
    hide Line.Valid, LineOf;
    var c: Cmd<Line> := Run(LineOf(d, r));
    assert IsCommand(c);
    assert IsPipeline(c);
  }

  lemma InjectIsList(d: TemplateData, k: nat)
    requires LinesValid(d) && k < |d.containers| && d.containers[k].inject
    ensures IsList(Lines(d, Inject(k)))
  {
    hide Line.Valid, LineOf, IsCommand;
    var a, b := Lines(d, Run(InstallRoot(k))), Lines(d, Run(InstallDir(k)));
    var p, q := Lines(d, Run(Print(k))), Lines(d, Run(Decode(k)));
    var e, f := Lines(d, Run(Chown(k))), Lines(d, Run(Chmod(k)));
    RunIsCommand(d, InstallRoot(k));
    RunIsCommand(d, InstallDir(k));
    RunIsCommand(d, Print(k));
    RunIsCommand(d, Decode(k));
    RunIsCommand(d, Chown(k));
    RunIsCommand(d, Chmod(k));
    assert IsList(And(a, b));
    assert IsPipeline(Pipe(p, q));
    assert IsList(And(And(a, b), Pipe(p, q)));
    assert IsList(And(And(And(a, b), Pipe(p, q)), e));
    assert IsList(And(And(And(And(a, b), Pipe(p, q)), e), f));
    InjectLines(d, k);
  }

  lemma InjectLines(d: TemplateData, k: nat)
    ensures var dirs := And(Run(LineOf(d, InstallRoot(k))), Run(LineOf(d, InstallDir(k))));
            var file := Pipe(Run(LineOf(d, Print(k))), Run(LineOf(d, Decode(k))));
            Lines(d, Inject(k)) == And(And(And(dirs, file), Run(LineOf(d, Chown(k)))), Run(LineOf(d, Chmod(k))))
  {
    hide LineOf;
    var c2: Cmd<Role> := And(Run(InstallRoot(k)), Run(InstallDir(k)));
    var p: Cmd<Role> := Pipe(Run(Print(k)), Run(Decode(k)));
    assert Lines(d, c2) == And(Run(LineOf(d, InstallRoot(k))), Run(LineOf(d, InstallDir(k))));
    assert Lines(d, p) == Pipe(Run(LineOf(d, Print(k))), Run(LineOf(d, Decode(k))));
    assert Lines(d, And(c2, p)) == And(Lines(d, c2), Lines(d, p));
    assert Lines(d, And(And(c2, p), Run(Chown(k)))) == And(And(Lines(d, c2), Lines(d, p)), Run(LineOf(d, Chown(k))));
    assert Inject(k) == And(And(And(c2, p), Run(Chown(k))), Run(Chmod(k)));
  }

  // ---------- the text reads back as the program ----------

  function ReadScript(text: string): Option<seq<Top<Argv>>> {
    match Lex(text)
    case None => None
    case Some(ts) => ParseScript(ts)
  }

  function BlockCommands(d: TemplateData, k: nat): seq<Top<Argv>>
    requires k <= |d.containers|
    decreases |d.containers| - k
  {
    if k == |d.containers| then []
    else [TopMeaning(TopLines(d, Block(d.containers[k], k)))] + BlockCommands(d, k + 1)
  }

  lemma NewlineTokens()
    ensures Tokens(NEWLINE) == [Op("\n")] && Tokens(HEADING) == [Op("\n"), Op("\n")]
  {
    hide Tokens;
    TokensOne(Symbol("\n"));
    TokensThree(Symbol("\n"), Note(" containers"), Symbol("\n"));
  }

  lemma SimpleParses(d: TemplateData, r: Role, rest: seq<Token>)
    requires LineOf(d, r).Valid() && EndsItem(rest)
    ensures ParseScript(Tokens(Written(d, r)) + rest)
            == Then(Simple(LineOf(d, r).Meaning()), ParseScript(rest))
  {
    hide Line.Valid, LineOf, LinePieces, Tokens, ParseScript, Line.Meaning;
    ItemParses(Simple(LineOf(d, r)), rest);
  }

  lemma LastParses(d: TemplateData)
    requires LinesValid(d)
    ensures ParseScript(Tokens(Written(d, SyncDisks))) == Some([Simple(LineOf(d, SyncDisks).Meaning())])
  {
    hide Line.Valid, LineOf, Written, Tokens, ParseTop, Line.Meaning;
    SimpleParses(d, SyncDisks, []);
    assert ParseScript([]) == Some([]);
    var last: Top<Argv> := Simple(LineOf(d, SyncDisks).Meaning());
    assert [last] + [] == [last];
    assert Tokens(Written(d, SyncDisks)) + [] == Tokens(Written(d, SyncDisks));
  }

  lemma {:induction false} BlocksParse(d: TemplateData, k: nat)
    requires LinesValid(d) && k <= |d.containers|
    ensures ParseScript(Tokens(BlocksFrom(d, k)) + Tokens(Written(d, SyncDisks)))
            == Some(BlockCommands(d, k) + [Simple(LineOf(d, SyncDisks).Meaning())])
    decreases |d.containers| - k
  {
    hide Line.Valid, LineOf, Written, Tokens, ParseScript, Line.Meaning, BlockPieces, TopPieces, TopMeaning, IsTop,
      TopLines, LinesValid, Block;
    var end := Tokens(Written(d, SyncDisks));
    LastParses(d);
    if k == |d.containers| {
      NothingTokens();
      assert [] + end == end;
      assert BlockCommands(d, k) + [Simple(LineOf(d, SyncDisks).Meaning())] == [Simple(LineOf(d, SyncDisks).Meaning())];
    } else {
      var t := TopLines(d, Block(d.containers[k], k));
      var more := Tokens(BlocksFrom(d, k + 1)) + end;
      BlockPiecesAre(d, k);
      BlockIsTop(d, k);
      NewlineTokens();
      TokensConcat(BlockPieces(d, k) + NEWLINE, BlocksFrom(d, k + 1));
      TokensConcat(BlockPieces(d, k), NEWLINE);
      BlocksParse(d, k + 1);
      NewlineParses(more);
      ItemParses(t, [Op("\n")] + more);
      assert Tokens(BlocksFrom(d, k)) + end == Tokens(TopPieces(t)) + ([Op("\n")] + more);
      assert [TopMeaning(t)] + (BlockCommands(d, k + 1) + [Simple(LineOf(d, SyncDisks).Meaning())])
          == BlockCommands(d, k) + [Simple(LineOf(d, SyncDisks).Meaning())];
    }
  }

  lemma NothingTokens()
    ensures Tokens([]) == []
  {
  }

  /** The part after the strict lines. */
  function Rest(d: TemplateData): seq<Piece> {
    (if d.containers == [] then [] else HEADING + BlocksFrom(d, 0)) + Written(d, SyncDisks)
  }

  lemma RestParses(d: TemplateData)
    requires LinesValid(d)
    ensures ParseScript(Tokens(Rest(d))) == Some(BlockCommands(d, 0) + [Simple(LineOf(d, SyncDisks).Meaning())])
  {
    hide LineOf, Written, Tokens, ParseScript, Line.Meaning, BlockPieces, TopMeaning, TopLines, LinesValid, Block;
    var end := Written(d, SyncDisks);
    BlocksParse(d, 0);
    if d.containers == [] {
      NothingTokens();
      assert Rest(d) == end;
      assert [] + Tokens(end) == Tokens(end);
    } else {
      NewlineTokens();
      var more := Tokens(BlocksFrom(d, 0)) + Tokens(end);
      TokensConcat(HEADING + BlocksFrom(d, 0), end);
      TokensConcat(HEADING, BlocksFrom(d, 0));
      assert Tokens(Rest(d)) == [Op("\n")] + ([Op("\n")] + more);
      NewlineParses([Op("\n")] + more);
      NewlineParses(more);
    }
  }

  lemma {:induction false} BlockCommandsAt(d: TemplateData, k: nat, i: nat)
    requires k + i < |d.containers|
    ensures |BlockCommands(d, k)| == |d.containers| - k
    ensures BlockCommands(d, k)[i] == TopMeaning(TopLines(d, Block(d.containers[k + i], k + i)))
    decreases |d.containers| - k
  {
    hide TopMeaning, TopLines, Block;
    if i > 0 {
      BlockCommandsAt(d, k + 1, i - 1);
    } else if k + 1 < |d.containers| {
      BlockCommandsAt(d, k + 1, 0);
    }
  }

  lemma CommandsAre(d: TemplateData)
    ensures Commands(d, TailScript(d))
            == [Simple(LineOf(d, SetHostname).Meaning()), Simple(LineOf(d, SaveConfig).Meaning())] + BlockCommands(d, 0)
               + [Simple(LineOf(d, SyncDisks).Meaning())]
  {
    hide LineOf, Line.Meaning, Block;
    if d.containers == [] {
      assert BlockCommands(d, 0) == [];
    } else {
      BlockCommandsAt(d, 0, 0);
      forall i | 0 <= i < |d.containers|
        ensures BlockCommands(d, 0)[i] == TopMeaning(TopLines(d, Block(d.containers[i], i)))
      {
        BlockCommandsAt(d, 0, i);
      }
    }
  }

  lemma TailParses(d: TemplateData)
    requires LinesValid(d)
    ensures ParseScript(Tokens(ScriptPieces(d))) == Some(Commands(d, TailScript(d)))
  {
    hide Line.Valid, LineOf, Written, Tokens, ParseScript, Line.Meaning, BlocksFrom, BlockCommands, Rest, Commands,
      TailScript;
    var h, c, rest := Written(d, SetHostname), Written(d, SaveConfig), Rest(d);
    RestParses(d);
    NewlineTokens();
    NewlineParses(Tokens(rest));
    var more := [Op("\n")] + Tokens(rest);
    SimpleParses(d, SaveConfig, more);
    NewlineParses(Tokens(c) + more);
    SimpleParses(d, SetHostname, [Op("\n")] + (Tokens(c) + more));
    ScriptSplit(d);
    TokensConcat(h + NEWLINE + c + NEWLINE, rest);
    TokensConcat(h + NEWLINE + c, NEWLINE);
    TokensConcat(h + NEWLINE, c);
    TokensConcat(h, NEWLINE);
    assert Tokens(ScriptPieces(d)) == Tokens(h) + ([Op("\n")] + (Tokens(c) + more));
    CommandsAre(d);
    var a: Top<Argv>, b: Top<Argv> := Simple(LineOf(d, SetHostname).Meaning()), Simple(LineOf(d, SaveConfig).Meaning());
    var end := BlockCommands(d, 0) + [Simple(LineOf(d, SyncDisks).Meaning())];
    assert [a] + ([b] + end) == [a, b] + BlockCommands(d, 0) + [Simple(LineOf(d, SyncDisks).Meaning())];
  }

  lemma ScriptSplit(d: TemplateData)
    ensures ScriptPieces(d) == Written(d, SetHostname) + NEWLINE + Written(d, SaveConfig) + NEWLINE + Rest(d)
  {
    hide Written, BlocksFrom;
  }

  // ---------- spacing ----------

  /** A text that begins with something solid, or nothing, before a newline. */
  lemma {:induction false} BlocksSpaced(d: TemplateData, k: nat)
    requires LinesValid(d) && k <= |d.containers|
    ensures Solid(BlocksFrom(d, k) + Written(d, SyncDisks))
    decreases |d.containers| - k
  {
    hide Line.Valid, LineOf, LinePieces, BlockPieces, Solid, IsTop, TopPieces, TopLines, Block, LinesValid;
    if k == |d.containers| {
      SyncSolid(d);
      assert [] + Written(d, SyncDisks) == Written(d, SyncDisks);
    } else {
      BlockPiecesAre(d, k);
      BlockIsTop(d, k);
      TopSolid(TopLines(d, Block(d.containers[k], k)));
      BlocksSpaced(d, k + 1);
      NewlineBridge();
      var more := BlocksFrom(d, k + 1) + Written(d, SyncDisks);
      SolidJoin(BlockPieces(d, k), NEWLINE, more);
      assert BlocksFrom(d, k) + Written(d, SyncDisks) == BlockPieces(d, k) + NEWLINE + more;
    }
  }

  lemma SyncSolid(d: TemplateData)
    requires LinesValid(d)
    ensures Solid(Written(d, SyncDisks))
  {
    hide Line.Valid, LineOf, LinePieces, Solid;
    LineSolid(LineOf(d, SyncDisks));
  }

  lemma NewlineBridge()
    ensures Bridge(NEWLINE) && Bridge(NEWLINE + HEADING) && Bridge(HEADING)
  {
    assert forall i :: 0 <= i < |" containers"| ==> " containers"[i] != '\n' && " containers"[i] != '\0';
  }

  lemma ScriptSolid(d: TemplateData)
    requires LinesValid(d)
    ensures Solid(ScriptPieces(d))
  {
    hide Line.Valid, LineOf, LinePieces, BlocksFrom, Solid, Bridge;
    var h, c, end := Written(d, SetHostname), Written(d, SaveConfig), BlocksFrom(d, 0) + Written(d, SyncDisks);
    LineSolid(LineOf(d, SetHostname));
    LineSolid(LineOf(d, SaveConfig));
    NewlineBridge();
    BlocksSpaced(d, 0);
    SolidJoin(h, NEWLINE, c);
    if d.containers == [] {
      NoBlocks(d);
      SolidJoin(h + NEWLINE + c, NEWLINE, end);
      assert ScriptPieces(d) == (h + NEWLINE + c) + NEWLINE + end;
    } else {
      SolidJoin(h + NEWLINE + c, NEWLINE + HEADING, end);
      assert ScriptPieces(d) == (h + NEWLINE + c) + (NEWLINE + HEADING) + end;
    }
  }

  lemma NoBlocks(d: TemplateData)
    requires d.containers == []
    ensures BlocksFrom(d, 0) == []
  {
  }

  /** The generator as a compiler: for every Switch the builder accepts, with arbitrary NUL-free texts, the rendered
      script is read by a shell as exactly the program whose runs are described in module ScriptRun — the same control
      structure, every command with its intended words and redirections. */
  lemma ScriptReadsBack(sw: Switch, kube: Kubeconfig)
    requires Valid(sw, kube) && CleanSwitch(sw, kube)
    ensures var d := Built(sw, kube);
            && ReadScript(ScriptTextOf(d)) == Some(Commands(d, TailScript(d)))
            && Script(d) == Simples(OnieRoles(d)) + TailScript(d)
  {
    hide LinesValid, Lex, Render, Tokens, ParseScript, ScriptPieces, Commands, TailScript, Built, AllReadable, Spaced;
    var d := Built(sw, kube);
    AcceptedLinesValid(sw, kube);
    ScriptSolid(d);
    LexRendered(ScriptPieces(d));
    TailParses(d);
    ScriptIsOnieThenTail(d);
  }

  // ---------- in terms of the Switch ----------

  /** The command a role stands for, in terms of the Switch. */
  function IntendedOf(sw: Switch, kube: Kubeconfig, role: Role): Argv {
    if IsContainerRole(role) && role.k < |sw.containers|
    then Intended(sw.containers[role.k], sw.volumes, Encoded(sw, kube), role)
    else if role.SetHostname? || role.SaveConfig? || role.SyncDisks? then IntendedHost(sw, role)
    else Argv([], [])
  }

  function IntendedCmd(sw: Switch, kube: Kubeconfig, c: Cmd<Role>): Cmd<Argv> {
    match c
    case Run(r) => Run(IntendedOf(sw, kube, r))
    case Pipe(l, r) => Pipe(IntendedCmd(sw, kube, l), IntendedCmd(sw, kube, r))
    case And(l, r) => And(IntendedCmd(sw, kube, l), IntendedCmd(sw, kube, r))
    case Or(l, r) => Or(IntendedCmd(sw, kube, l), IntendedCmd(sw, kube, r))
    case Subshell(body) => Subshell(IntendedCmd(sw, kube, body))
  }

  function IntendedTop(sw: Switch, kube: Kubeconfig, t: Top<Role>): Top<Argv> {
    match t
    case Simple(r) => Simple(IntendedOf(sw, kube, r))
    case Guarded(cond, otherwise) => Guarded(IntendedCmd(sw, kube, cond), IntendedOf(sw, kube, otherwise))
  }

  /** The script the Switch asks for, from the hostname on. */
  function IntendedScript(sw: Switch, kube: Kubeconfig): seq<Top<Argv>> {
    var ts := TailScript(Built(sw, kube));
    seq(|ts|, i requires 0 <= i < |ts| => IntendedTop(sw, kube, ts[i]))
  }

  predicate AllStartProperly(sw: Switch) {
    forall k :: 0 <= k < |sw.containers| ==> StartsProperly(sw.containers[k])
  }

  /** The line of a role means what is intended. */
  predicate MeansIntended(sw: Switch, kube: Kubeconfig, r: Role) {
    LineOf(Built(sw, kube), r).Meaning() == IntendedOf(sw, kube, r)
  }

  predicate RoleOf(r: Role, k: nat) {
    IsContainerRole(r) && r.k == k
  }

  lemma RoleMeansIntendedIff(sw: Switch, kube: Kubeconfig, k: nat, r: Role)
    requires Valid(sw, kube) && k < |sw.containers| && RoleOf(r, k) && (Places(r) ==> sw.containers[k].inject)
    ensures MeansIntended(sw, kube, r) <==> (r.Start? ==> StartsProperly(sw.containers[k]))
  {
    hide Data, Intended, ContainerLine, Line.Meaning, ValidContainer, Encoded, HostLine, IntendedHost, StartsProperly;
    BuiltAt(sw, kube, k);
    if r.Start? {
      StartMeansIntendedIff(sw.containers[k], sw.volumes, Encoded(sw, kube), k);
    } else {
      LineMeansIntended(sw.containers[k], sw.volumes, Encoded(sw, kube), r);
    }
  }

  lemma {:induction false} SameLeaves(sw: Switch, kube: Kubeconfig, c: Cmd<Role>)
    requires forall r :: r in Roles(c) ==> MeansIntended(sw, kube, r)
    ensures Meaning(Lines(Built(sw, kube), c)) == IntendedCmd(sw, kube, c)
  {
    hide LineOf, Line.Meaning, IntendedOf, Built;
    match c
    case Run(r) => assert r in Roles(c);
    case Subshell(body) => SameLeaves(sw, kube, body);
    case Pipe(l, r) => SameLeaves(sw, kube, l); SameLeaves(sw, kube, r);
    case And(l, r) => SameLeaves(sw, kube, l); SameLeaves(sw, kube, r);
    case Or(l, r) => SameLeaves(sw, kube, l); SameLeaves(sw, kube, r);
  }

  lemma BodyRoleUsed(c: ContainerData, k: nat, r: Role)
    requires r in BodyRoles(c, k)
    ensures RoleOf(r, k) && (Places(r) ==> c.inject)
  {
  }

  /** A container's block is as intended exactly when its command starts properly. */
  lemma BlockMeansIntendedIff(sw: Switch, kube: Kubeconfig, k: nat)
    requires Valid(sw, kube) && k < |sw.containers| && k < |Built(sw, kube).containers|
    ensures var t := Block(Built(sw, kube).containers[k], k);
            TopMeaning(TopLines(Built(sw, kube), t)) == IntendedTop(sw, kube, t) <==> StartsProperly(sw.containers[k])
  {
    hide LineOf, Line.Meaning, IntendedOf, Built, Body, Valid, BodyRoles, Inject, Cleanup;
    var d := Built(sw, kube);
    var body := Body(d.containers[k], k);
    InjectAsAsked(sw, kube, k);
    RoleMeansIntendedIff(sw, kube, k, Start(k));
    RoleMeansIntendedIff(sw, kube, k, Echo(k));
    BodyEnd(sw, kube, k);
    if StartsProperly(sw.containers[k]) {
      BodyRun(d.containers[k], k, r => true);
      forall r | r in Roles(body) ensures MeansIntended(sw, kube, r) {
        BodyRoleUsed(d.containers[k], k, r);
        RoleMeansIntendedIff(sw, kube, k, r);
      }
      SameLeaves(sw, kube, body);
    }
  }

  lemma InjectAsAsked(sw: Switch, kube: Kubeconfig, k: nat)
    requires Valid(sw, kube) && k < |sw.containers|
    ensures k < |Built(sw, kube).containers| && Built(sw, kube).containers[k].inject == sw.containers[k].inject
  {
    hide Data, ValidContainer;
    BuiltAt(sw, kube, k);
    InjectOf(sw.containers[k], sw.volumes, Encoded(sw, kube));
  }

  /** A body ends in its `docker run`. */
  lemma BodyEnd(sw: Switch, kube: Kubeconfig, k: nat)
    requires k < |Built(sw, kube).containers|
    ensures var body, d := Body(Built(sw, kube).containers[k], k), Built(sw, kube);
            && Meaning(Lines(d, body)).And? && Meaning(Lines(d, body)).right == Run(LineOf(d, Start(k)).Meaning())
            && IntendedCmd(sw, kube, body).And?
            && IntendedCmd(sw, kube, body).right == Run(IntendedOf(sw, kube, Start(k)))
  {
    hide LineOf, Line.Meaning, IntendedOf, Built, Inject, Cleanup, Pulled;
    BodyIs(Built(sw, kube).containers[k], k);
  }

  lemma HostMeansIntended(sw: Switch, kube: Kubeconfig, r: Role)
    requires r.SetHostname? || r.SaveConfig? || r.SyncDisks?
    ensures MeansIntended(sw, kube, r)
  {
    hide Built, HostLine, IntendedHost, Line.Meaning, ContainerLine, Intended;
    HostLineMeansIntended(sw, kube, r);
  }

  lemma CommandsIntendedIff(sw: Switch, kube: Kubeconfig)
    requires Valid(sw, kube)
    ensures Commands(Built(sw, kube), TailScript(Built(sw, kube))) == IntendedScript(sw, kube) <==> AllStartProperly(sw)
  {
    hide LineOf, Line.Meaning, IntendedOf, Block, TopLines, TopMeaning, IntendedTop, Valid, StartsProperly, Data;
    var d := Built(sw, kube);
    var ts := TailScript(d);
    var n := |sw.containers|;
    assert |d.containers| == n && |ts| == n + 3;
    var a, b := Commands(d, ts), IntendedScript(sw, kube);
    HostTops(sw, kube);
    assert ts[0] == Simple(SetHostname) && ts[1] == Simple(SaveConfig) && ts[n + 2] == Simple(SyncDisks);
    forall k | 0 <= k < n
      ensures a[k + 2] == b[k + 2] <==> StartsProperly(sw.containers[k])
    {
      assert ts[k + 2] == Block(d.containers[k], k);
      BlockMeansIntendedIff(sw, kube, k);
    }
    if AllStartProperly(sw) {
      forall i | 0 <= i < |ts| ensures a[i] == b[i] {
        if 2 <= i < n + 2 {
          assert a[i - 2 + 2] == b[i - 2 + 2] <==> StartsProperly(sw.containers[i - 2]);
        }
      }
    }
    if a == b {
      forall k | 0 <= k < n ensures StartsProperly(sw.containers[k]) {
        assert a[k + 2] == b[k + 2];
      }
    }
  }

  lemma HostTops(sw: Switch, kube: Kubeconfig)
    ensures forall r: Role :: r.SetHostname? || r.SaveConfig? || r.SyncDisks? ==>
              TopMeaning(TopLines(Built(sw, kube), Simple(r))) == IntendedTop(sw, kube, Simple(r))
  {
    hide LineOf, Line.Meaning, IntendedOf, Built;
    forall r: Role | r.SetHostname? || r.SaveConfig? || r.SyncDisks?
      ensures TopMeaning(TopLines(Built(sw, kube), Simple(r))) == IntendedTop(sw, kube, Simple(r))
    {
      HostMeansIntended(sw, kube, r);
    }
  }

  /** The generator against what the Switch asks for: for every accepted Switch with arbitrary NUL-free texts, a shell
      reads the rendered script as the intended one — hostname, save, every container's block with every word and
      redirection of every command, sync — if and only if no container's command starts with an empty element. */
  lemma ScriptReadsAsIntendedIff(sw: Switch, kube: Kubeconfig)
    requires Valid(sw, kube) && CleanSwitch(sw, kube)
    ensures ReadScript(ScriptTextOf(Built(sw, kube))) == Some(IntendedScript(sw, kube)) <==> AllStartProperly(sw)
  {
    hide ReadScript, ScriptTextOf, Built, IntendedScript, Commands, TailScript, Script, Valid, CleanSwitch,
      AllStartProperly, Simples;
    ScriptReadsBack(sw, kube);
    CommandsIntendedIff(sw, kube);
  }

  // ---------- the credential, in every run ----------

  /** The command a shell reads at a position of a run. */
  function CommandAt(d: TemplateData, t: seq<Role>, i: nat): Option<Argv>
    requires i < |t|
  {
    ReadLine(LineText(LineOf(d, t[i])))
  }

  /** In every run of the script of an accepted Switch, before the `docker run` of an injecting container, and each with
      success: the operator's kubeconfig is printed into `base64 -d`, which writes one file; that file is chowned to the
      container's user and then set to 0600; and it is the host side of the credential mount of `docker run`. */
  lemma CredentialReadyBeforeStart(sw: Switch, kube: Kubeconfig, k: nat, fate: Fate)
    returns (p: nat, a: nat, b: nat, c: nat, e: nat)
    requires Valid(sw, kube) && CleanSwitch(sw, kube) && k < |sw.containers| && sw.containers[k].inject
    requires Start(k) in Trace(Built(sw, kube), fate)
    ensures var d, t := Built(sw, kube), Trace(Built(sw, kube), fate);
            var con := sw.containers[k];
            var file := "/etc/sonic-operator/credentials/" + con.name + "/control-kubeconfig";
            && p < a < b < c < e < |t| && kube.encoded.Some?
            && CommandAt(d, t, p) == Some(Argv(["printf", "%s", kube.encoded.value], [])) && fate(t[p])
            && CommandAt(d, t, a) == Some(Argv(["base64", "-d"], [Redirect("", ">", file)])) && fate(t[a])
            && CommandAt(d, t, b) == Some(Argv(["chown", UserArg(con), file], [])) && UserArg(con) != "" && fate(t[b])
            && CommandAt(d, t, c) == Some(Argv(["chmod", "0600", file], [])) && fate(t[c])
            && t[e] == Start(k) && CommandAt(d, t, e).Some?
            && Mounts(CommandAt(d, t, e).value, file + ":" + "/var/run/sonic-operator/control-kubeconfig" + ":ro")
  {
    hide Trace, Built, Valid, ReadLine, LineText, CleanContainer, Intended, ContainerLine, UserArg, Mounts,
      CredentialFile;
    var d := Built(sw, kube);
    InjectAsAsked(sw, kube, k);
    p, a, b, c, e := CredentialOrder(d, k, fate);
    InjectedText(sw, kube, k);
    ReadsAt(sw, kube, k, Print(k));
    ReadsAt(sw, kube, k, Decode(k));
    ReadsAt(sw, kube, k, Chown(k));
    ReadsAt(sw, kube, k, Chmod(k));
    ChownUser(sw, kube, k);
    StartMounts(sw, kube, k);
    IntendedPlacing(sw.containers[k], sw.volumes, Encoded(sw, kube), k);
    CredentialFileIs(sw.containers[k]);
  }

  lemma IntendedPlacing(c: Container, vs: seq<Volume>, encoded: string, k: nat)
    ensures var file := CredentialFile(c);
            && Intended(c, vs, encoded, Print(k)) == Argv(["printf", "%s", encoded], [])
            && Intended(c, vs, encoded, Decode(k)) == Argv(["base64", "-d"], [Redirect("", ">", file)])
            && Intended(c, vs, encoded, Chown(k)) == Argv(["chown", UserArg(c), file], [])
            && Intended(c, vs, encoded, Chmod(k)) == Argv(["chmod", "0600", file], [])
  {
    hide UserArg, CredentialFile, IntendedArgv;
  }

  lemma CredentialFileIs(c: Container)
    ensures CredentialFile(c) == "/etc/sonic-operator/credentials/" + c.name + "/control-kubeconfig"
  {
  }

  lemma ReadsAt(sw: Switch, kube: Kubeconfig, k: nat, role: Role)
    requires Valid(sw, kube) && CleanSwitch(sw, kube) && k < |sw.containers| && sw.containers[k].inject
    requires Places(role) && role.k == k && k < |Built(sw, kube).containers|
    ensures ReadLine(LineText(LineOf(Built(sw, kube), role)))
            == Some(Intended(sw.containers[k], sw.volumes, Encoded(sw, kube), role))
  {
    hide Built, Valid, ReadLine, LineText, CleanContainer, Intended, ContainerLine, Encoded, NoNul;
    LineReadsAsIntendedIff(sw, kube, k, role);
  }

  lemma ChownUser(sw: Switch, kube: Kubeconfig, k: nat)
    requires Valid(sw, kube) && CleanSwitch(sw, kube) && k < |sw.containers| && sw.containers[k].inject
    ensures UserArg(sw.containers[k]) != ""
  {
    hide Built, Valid, ReadLine, LineText, CleanContainer, ContainerLine, Encoded, NoNul, UserArg;
    ChownOperand(sw, kube, k);
  }

  /** `-v` followed by that word. */
  predicate Mounts(command: Argv, word: string) {
    exists i :: 0 <= i < |command.args| - 1 && command.args[i] == "-v" && command.args[i + 1] == word
  }

  lemma StartMounts(sw: Switch, kube: Kubeconfig, k: nat)
    requires Valid(sw, kube) && CleanSwitch(sw, kube) && k < |sw.containers| && sw.containers[k].inject
    ensures var c := sw.containers[k];
            var read := ReadLine(LineText(LineOf(Built(sw, kube), Start(k))));
            var file := "/etc/sonic-operator/credentials/" + c.name + "/control-kubeconfig";
            read.Some? && Mounts(read.value, file + ":" + "/var/run/sonic-operator/control-kubeconfig" + ":ro")
  {
    hide Valid, ReadLine, LineText, CleanContainer, Encoded, NoNul, RunLine, Data, ValidContainer, Texts, FrontArgs,
      Line.Valid, BackWords, CredentialFile, InnerFile;
    var c := sw.containers[k];
    var d := Data(c, sw.volumes, Encoded(sw, kube));
    BuiltAt(sw, kube, k);
    RunLineValid(c, sw.volumes, Encoded(sw, kube));
    LineReadsBack(Line(RunLine(d), []));
    FrontTexts(c, sw.volumes, Encoded(sw, kube));
    RunLineSplit(c, sw.volumes, Encoded(sw, kube));
    FrontMounts(c, sw.volumes);
    var front, args := FrontArgs(c, sw.volumes), Texts(RunLine(d));
    assert front <= args;
    var i := |front| - 2;
    assert args[i] == front[i] && args[i + 1] == front[i + 1];
  }

  lemma FrontMounts(c: Container, vs: seq<Volume>)
    requires c.inject
    ensures var front := FrontArgs(c, vs);
            var file := "/etc/sonic-operator/credentials/" + c.name + "/control-kubeconfig";
            && |front| >= 2 && front[|front| - 2] == "-v"
            && front[|front| - 1] == file + ":" + "/var/run/sonic-operator/control-kubeconfig" + ":ro"
  {
    hide MountArgs, UserArg;
  }
}
