/** The part of the shell grammar the template uses: simple commands with redirections, pipelines, `&&` and `||` lists,
    subshells and `if ! ( list ); then command; fi` (sections 2.9.1 to 2.9.4 and 2.10 of the Shell Command Language of
    POSIX.1-2017). A parser, the template's way of writing, and the proof that the parser reads back what is written. */
module ShellGrammar {
  import opened Text
  import opened Shell

  /** What stands inside an `if` condition. */
  datatype Cmd<L> = Run(leaf: L) | Pipe(left: Cmd<L>, right: Cmd<L>) | And(left: Cmd<L>, right: Cmd<L>)
    | Or(left: Cmd<L>, right: Cmd<L>)
    | Subshell(body: Cmd<L>)

  /** What stands at the top level: a command, or `if ! cond; then command; fi`. */
  datatype Top<L> = Simple(leaf: L) | Guarded(cond: Cmd<L>, otherwise: L)

  /** A redirection, and a simple command, as a shell sees them. */
  datatype Redirect = Redirect(fd: string, op: string, target: string)
  datatype Argv = Argv(args: seq<string>, redirects: seq<Redirect>)

  // ---------- the parser ----------

  type Parsed<A> = Option<(A, seq<Token>)>

  predicate At(ts: seq<Token>, t: Token) {
    ts != [] && ts[0] == t
  }

  predicate IsRedirect(t: Token) {
    t == Op(">") || t == Op(">&")
  }

  predicate Reserved(t: Token) {
    t.W? && t.plain && t.text in {"if", "then", "fi", "!"}
  }

  function SkipNewlines(ts: seq<Token>): (r: seq<Token>)
    ensures |r| <= |ts|
  {
    if At(ts, Op("\n")) then SkipNewlines(ts[1..]) else ts
  }

  /** Words and redirections, as many as there are. */
  function ParseArgv(ts: seq<Token>, acc: Argv): (r: Parsed<Argv>)
    ensures r.Some? ==> |r.value.1| <= |ts| && (acc.args == [] ==> |r.value.1| < |ts|)
    decreases |ts|
  {
    if ts != [] && ts[0].W? then ParseArgv(ts[1..], acc.(args := acc.args + [ts[0].text]))
    else if |ts| >= 2 && IsRedirect(ts[0]) && ts[1].W? then
      ParseArgv(ts[2..], acc.(redirects := acc.redirects + [Redirect("", ts[0].op, ts[1].text)]))
    else if |ts| >= 3 && ts[0].Io? && IsRedirect(ts[1]) && ts[2].W? then
      ParseArgv(ts[3..], acc.(redirects := acc.redirects + [Redirect(ts[0].fd, ts[1].op, ts[2].text)]))
    else if acc.args == [] then None
    else Some((acc, ts))
  }

  function ParseSimple(ts: seq<Token>): (r: Parsed<Argv>)
    ensures r.Some? ==> |r.value.1| < |ts|
  {
    if ts != [] && Reserved(ts[0]) then None else ParseArgv(ts, Argv([], []))
  }

  /** A reserved word, unquoted, does not begin a simple command. */
  lemma ReservedIsNoCommand(word: string, rest: seq<Token>)
    requires word == "if" || word == "then" || word == "fi" || word == "!"
    ensures ParseSimple([W(word, true)] + rest).None?
  {
  }

  function ParseCommand(ts: seq<Token>): (r: Parsed<Cmd<Argv>>)
    ensures r.Some? ==> |r.value.1| < |ts|
    decreases |ts|, 0
  {
    if At(ts, Op("(")) then
      match ParseList(SkipNewlines(ts[1..]))
      case None => None
      case Some((body, rest)) =>
        var after := SkipNewlines(rest);
        if At(after, Op(")")) then Some((Subshell(body), after[1..])) else None
    else
      match ParseSimple(ts)
      case None => None
      case Some((argv, rest)) => Some((Run(argv), rest))
  }

  function PipeRest(left: Cmd<Argv>, ts: seq<Token>): (r: Parsed<Cmd<Argv>>)
    ensures r.Some? ==> |r.value.1| <= |ts|
    decreases |ts|, 1
  {
    if At(ts, Op("|")) then
      match ParseCommand(SkipNewlines(ts[1..]))
      case None => None
      case Some((right, rest)) => PipeRest(Pipe(left, right), rest)
    else Some((left, ts))
  }

  function ParsePipeline(ts: seq<Token>): (r: Parsed<Cmd<Argv>>)
    ensures r.Some? ==> |r.value.1| < |ts|
    decreases |ts|, 2
  {
    match ParseCommand(ts)
    case None => None
    case Some((first, rest)) => PipeRest(first, rest)
  }

  function ListRest(left: Cmd<Argv>, ts: seq<Token>): (r: Parsed<Cmd<Argv>>)
    ensures r.Some? ==> |r.value.1| <= |ts|
    decreases |ts|, 3
  {
    if At(ts, Op("&&")) || At(ts, Op("||")) then
      match ParsePipeline(SkipNewlines(ts[1..]))
      case None => None
      case Some((right, rest)) => ListRest(if ts[0] == Op("&&") then And(left, right) else Or(left, right), rest)
    else Some((left, ts))
  }

  /** `&&` and `||` bind alike, to the left. */
  function ParseList(ts: seq<Token>): (r: Parsed<Cmd<Argv>>)
    ensures r.Some? ==> |r.value.1| < |ts|
    decreases |ts|, 4
  {
    match ParsePipeline(ts)
    case None => None
    case Some((first, rest)) => ListRest(first, rest)
  }

  const IF_NOT := [W("if", true), W("!", true)]
  const THEN := [Op(";"), W("then", true)]

  function ParseTop(ts: seq<Token>): (r: Parsed<Top<Argv>>)
    ensures r.Some? ==> |r.value.1| < |ts|
  {
    if IF_NOT <= ts then
      match ParseCommand(ts[2..])
      case None => None
      case Some((cond, rest)) =>
        if !(THEN <= rest) then None
        else
          match ParseSimple(SkipNewlines(rest[2..]))
          case None => None
          case Some((otherwise, more)) =>
            var last := SkipNewlines(more);
            if At(last, W("fi", true)) then Some((Guarded(cond, otherwise), last[1..])) else None
    else
      match ParseSimple(ts)
      case None => None
      case Some((argv, rest)) => Some((Simple(argv), rest))
  }

  /** One item, then the rest of a script if that can be read. */
  function Then(top: Top<Argv>, rest: Option<seq<Top<Argv>>>): Option<seq<Top<Argv>>> {
    match rest
    case None => None
    case Some(more) => Some([top] + more)
  }

  /** A script: items separated by newlines. */
  function ParseScript(ts: seq<Token>): Option<seq<Top<Argv>>>
    decreases |ts|
  {
    var from := SkipNewlines(ts);
    if from == [] then Some([])
    else
      match ParseTop(from)
      case None => None
      case Some((top, rest)) =>
        if rest != [] && rest[0] != Op("\n") then None else Then(top, ParseScript(rest))
  }

  // ---------- what the template writes ----------

  function Texts(ws: seq<Word>): seq<string> {
    seq(|ws|, i requires 0 <= i < |ws| => ws[i].text)
  }

  function Redirects(rs: seq<RedirectText>): seq<Redirect> {
    seq(|rs|, i requires 0 <= i < |rs| => Redirect(rs[i].fd, rs[i].op, rs[i].target.text))
  }

  datatype RedirectText = RedirectText(fd: string, op: string, target: Word) {
    predicate Valid() {
      target.Readable() && op in {">", ">&"} && (fd == "" || Digits(fd))
    }
  }

  /** A simple command: its words, then its redirections. */
  datatype Line = Line(words: seq<Word>, redirects: seq<RedirectText>) {
    predicate Valid() {
      && words != [] && words[0].Lit? && !Reserved(words[0].Token())
      && (forall i :: 0 <= i < |words| ==> words[i].Readable())
      && (forall i :: 0 <= i < |redirects| ==> redirects[i].Valid())
    }

    /** What a shell makes of it. */
    function Meaning(): Argv {
      Argv(Texts(words), Redirects(redirects))
    }
  }

  function WordPieces(ws: seq<Word>): seq<Piece>
    requires ws != []
  {
    if |ws| == 1 then [Piece.Word(ws[0])] else WordPieces(ws[..|ws| - 1]) + [Blank, Piece.Word(ws[|ws| - 1])]
  }

  function RedirectEnd(r: RedirectText): seq<Piece> {
    (if r.fd == "" then [] else [Number(r.fd)]) + [Symbol(r.op), Piece.Word(r.target)]
  }

  function RedirectPieces(rs: seq<RedirectText>): seq<Piece> {
    if rs == [] then []
    else
      var r := rs[|rs| - 1];
      RedirectPieces(rs[..|rs| - 1]) + [Blank] + RedirectEnd(r)
  }

  function LinePieces(l: Line): seq<Piece> {
    if l.words == [] then [] else WordPieces(l.words) + RedirectPieces(l.redirects)
  }

  const AND := [Blank, Symbol("&&"), Symbol("\n")]
  const OR := [Blank, Symbol("||"), Blank]
  const PIPE := [Blank, Symbol("|"), Blank]

  function CmdPieces(c: Cmd<Line>): seq<Piece> {
    match c
    case Run(l) => LinePieces(l)
    case Pipe(l, r) => CmdPieces(l) + PIPE + CmdPieces(r)
    case And(l, r) => CmdPieces(l) + AND + CmdPieces(r)
    case Or(l, r) => CmdPieces(l) + OR + CmdPieces(r)
    case Subshell(body) => [Symbol("(")] + CmdPieces(body) + [Symbol(")")]
  }

  function Meaning(c: Cmd<Line>): Cmd<Argv> {
    match c
    case Run(l) => Run(l.Meaning())
    case Pipe(l, r) => Pipe(Meaning(l), Meaning(r))
    case And(l, r) => And(Meaning(l), Meaning(r))
    case Or(l, r) => Or(Meaning(l), Meaning(r))
    case Subshell(body) => Subshell(Meaning(body))
  }

  // ---------- which commands can be written without brackets ----------

  predicate IsCommand(c: Cmd<Line>)
    decreases c, 0
  {
    match c
    case Run(l) => l.Valid()
    case Subshell(body) => IsList(body)
    case _ => false
  }

  predicate IsPipeline(c: Cmd<Line>)
    decreases c, 1
  {
    if c.Pipe? then IsPipeline(c.left) && IsCommand(c.right) else IsCommand(c)
  }

  predicate IsList(c: Cmd<Line>)
    decreases c, 2
  {
    if c.And? || c.Or? then IsList(c.left) && IsPipeline(c.right) else IsPipeline(c)
  }

  // ---------- reading back the tokens ----------

  /** The tokens after a command do not continue it. */
  predicate Stops(rest: seq<Token>) {
    rest == [] || (rest[0].Op? && !IsRedirect(rest[0]))
  }

  function WordTokens(ws: seq<Word>): seq<Token> {
    seq(|ws|, i requires 0 <= i < |ws| => ws[i].Token())
  }

  lemma {:induction false} WordPieceTokens(ws: seq<Word>)
    requires ws != []
    ensures Tokens(WordPieces(ws)) == WordTokens(ws)
  {
    hide Tokens;
    if |ws| == 1 {
      TokensOne(Piece.Word(ws[0]));
      assert WordTokens(ws) == [ws[0].Token()];
    } else {
      var init, last := ws[..|ws| - 1], ws[|ws| - 1];
      WordPieceTokens(init);
      TokensConcat(WordPieces(init), [Blank, Piece.Word(last)]);
      TokensTwo(Blank, Piece.Word(last));
      assert WordTokens(ws) == WordTokens(init) + [last.Token()];
    }
  }

  lemma TokensOne(p: Piece)
    ensures Tokens([p]) == p.Tokens()
  {
    assert [p][..0] == [];
    assert Tokens([]) == [];
  }

  lemma TokensTwo(p: Piece, q: Piece)
    ensures Tokens([p, q]) == p.Tokens() + q.Tokens()
  {
    TokensOne(p);
    TokensOne(q);
    TokensConcat([p], [q]);
    assert [p] + [q] == [p, q];
  }

  lemma TokensThree(p: Piece, q: Piece, r: Piece)
    ensures Tokens([p, q, r]) == p.Tokens() + q.Tokens() + r.Tokens()
  {
    TokensTwo(p, q);
    TokensOne(r);
    TokensConcat([p, q], [r]);
    assert [p, q] + [r] == [p, q, r];
  }

  /** The words of a command are collected one by one. */
  lemma {:induction false} WordsParse(ws: seq<Word>, rest: seq<Token>, acc: Argv)
    ensures ParseArgv(WordTokens(ws) + rest, acc) == ParseArgv(rest, acc.(args := acc.args + Texts(ws)))
    decreases |ws|
  {
    if ws == [] {
      assert WordTokens(ws) + rest == rest;
      assert acc.args + Texts(ws) == acc.args;
    } else {
      var ts := WordTokens(ws) + rest;
      var next := acc.(args := acc.args + [ws[0].text]);
      assert ts[0] == ws[0].Token() && ts[1..] == WordTokens(ws[1..]) + rest;
      WordsParse(ws[1..], rest, next);
      assert next.args + Texts(ws[1..]) == acc.args + Texts(ws);
    }
  }

  function RedirectTokens(r: RedirectText): seq<Token> {
    (if r.fd == "" then [] else [Io(r.fd)]) + [Op(r.op), r.target.Token()]
  }

  function AllRedirectTokens(rs: seq<RedirectText>): seq<Token> {
    if rs == [] then [] else RedirectTokens(rs[0]) + AllRedirectTokens(rs[1..])
  }

  lemma RedirectParse(r: RedirectText, more: seq<Token>, acc: Argv)
    requires r.op in {">", ">&"}
    ensures ParseArgv(RedirectTokens(r) + more, acc)
            == ParseArgv(more, acc.(redirects := acc.redirects + [Redirect(r.fd, r.op, r.target.text)]))
  {
    var ts := RedirectTokens(r) + more;
    if r.fd == "" {
      assert ts[0] == Op(r.op) && ts[1] == r.target.Token() && ts[2..] == more;
    } else {
      assert ts[0] == Io(r.fd) && ts[1] == Op(r.op) && ts[2] == r.target.Token() && ts[3..] == more;
    }
  }

  lemma {:induction false} RedirectsParse(rs: seq<RedirectText>, rest: seq<Token>, acc: Argv)
    requires forall i :: 0 <= i < |rs| ==> rs[i].op in {">", ">&"}
    ensures ParseArgv(AllRedirectTokens(rs) + rest, acc)
            == ParseArgv(rest, acc.(redirects := acc.redirects + Redirects(rs)))
    decreases |rs|
  {
    hide ParseArgv, RedirectTokens;
    if rs == [] {
      assert AllRedirectTokens(rs) + rest == rest;
      assert acc.redirects + Redirects(rs) == acc.redirects;
    } else {
      var r := rs[0];
      var more := AllRedirectTokens(rs[1..]) + rest;
      assert AllRedirectTokens(rs) + rest == RedirectTokens(r) + more;
      RedirectParse(r, more, acc);
      var next := acc.(redirects := acc.redirects + [Redirect(r.fd, r.op, r.target.text)]);
      RedirectsParse(rs[1..], rest, next);
      assert next.redirects + Redirects(rs[1..]) == acc.redirects + Redirects(rs);
    }
  }

  lemma {:induction false} RedirectTokensSnoc(rs: seq<RedirectText>, r: RedirectText)
    ensures AllRedirectTokens(rs + [r]) == AllRedirectTokens(rs) + RedirectTokens(r)
    decreases |rs|
  {
    if rs == [] {
      assert (rs + [r])[1..] == [] && AllRedirectTokens([]) == [];
    } else {
      assert (rs + [r])[0] == rs[0] && (rs + [r])[1..] == rs[1..] + [r];
      RedirectTokensSnoc(rs[1..], r);
    }
  }

  lemma RedirectEndTokens(r: RedirectText)
    ensures Tokens(RedirectEnd(r)) == RedirectTokens(r)
  {
    if r.fd == "" {
      TokensTwo(Symbol(r.op), Piece.Word(r.target));
    } else {
      TokensThree(Number(r.fd), Symbol(r.op), Piece.Word(r.target));
      assert RedirectEnd(r) == [Number(r.fd), Symbol(r.op), Piece.Word(r.target)];
    }
  }

  lemma {:induction false} RedirectPieceTokens(rs: seq<RedirectText>)
    ensures Tokens(RedirectPieces(rs)) == AllRedirectTokens(rs)
  {
    hide RedirectEnd, RedirectTokens, Tokens, AllRedirectTokens;
    if rs == [] {
      NoTokens();
    } else {
      var init, r := rs[..|rs| - 1], rs[|rs| - 1];
      RedirectPieceTokens(init);
      RedirectTokensSnoc(init, r);
      assert init + [r] == rs;
      TokensConcat(RedirectPieces(init) + [Blank], RedirectEnd(r));
      TokensConcat(RedirectPieces(init), [Blank]);
      TokensOne(Blank);
      RedirectEndTokens(r);
    }
  }

  lemma NoTokens()
    ensures Tokens([]) == [] && AllRedirectTokens([]) == []
  {
  }

  lemma StopParse(rest: seq<Token>, acc: Argv)
    requires Stops(rest) && acc.args != []
    ensures ParseArgv(rest, acc) == Some((acc, rest))
  {
  }

  lemma LineParses(l: Line, rest: seq<Token>)
    requires l.Valid() && Stops(rest)
    ensures ParseSimple(Tokens(LinePieces(l)) + rest) == Some((l.Meaning(), rest))
  {
    hide ParseArgv, WordPieces, RedirectPieces, Tokens, AllRedirectTokens, PlainWord, NoNul, Digits, Texts, Redirects;
    WordPieceTokens(l.words);
    RedirectPieceTokens(l.redirects);
    TokensConcat(WordPieces(l.words), RedirectPieces(l.redirects));
    var more := AllRedirectTokens(l.redirects) + rest;
    var ts := Tokens(LinePieces(l)) + rest;
    assert ts == WordTokens(l.words) + more;
    assert ts[0] == l.words[0].Token();
    TextsLength(l.words);
    WordsParse(l.words, more, Argv([], []));
    assert [] + Texts(l.words) == Texts(l.words);
    RedirectsParse(l.redirects, rest, Argv(Texts(l.words), []));
    assert [] + Redirects(l.redirects) == Redirects(l.redirects);
    StopParse(rest, l.Meaning());
  }

  lemma TextsLength(ws: seq<Word>)
    ensures |Texts(ws)| == |ws|
  {
  }

  // ---------- reading back lists ----------

  function Toks(c: Cmd<Line>): seq<Token> {
    Tokens(CmdPieces(c))
  }

  lemma JoinTokens(a: seq<Piece>, mid: seq<Piece>, b: seq<Piece>)
    ensures Tokens(a + mid + b) == Tokens(a) + Tokens(mid) + Tokens(b)
  {
    TokensConcat(a + mid, b);
    TokensConcat(a, mid);
  }

  lemma ConnectorTokens()
    ensures Tokens(AND) == [Op("&&"), Op("\n")] && Tokens(OR) == [Op("||")] && Tokens(PIPE) == [Op("|")]
    ensures Tokens([Symbol("(")]) == [Op("(")] && Tokens([Symbol(")")]) == [Op(")")]
  {
    hide Tokens;
    TokensThree(Blank, Symbol("&&"), Symbol("\n"));
    TokensThree(Blank, Symbol("||"), Blank);
    TokensThree(Blank, Symbol("|"), Blank);
    TokensOne(Symbol("("));
    TokensOne(Symbol(")"));
  }

  lemma CmdTokens(c: Cmd<Line>)
    ensures c.Pipe? ==> Toks(c) == Toks(c.left) + [Op("|")] + Toks(c.right)
    ensures c.And? ==> Toks(c) == Toks(c.left) + [Op("&&"), Op("\n")] + Toks(c.right)
    ensures c.Or? ==> Toks(c) == Toks(c.left) + [Op("||")] + Toks(c.right)
    ensures c.Subshell? ==> Toks(c) == [Op("(")] + Toks(c.body) + [Op(")")]
    ensures c.Run? ==> Toks(c) == Tokens(LinePieces(c.leaf))
  {
    hide Tokens, LinePieces;
    ConnectorTokens();
    match c
    case Pipe(l, r) => JoinTokens(CmdPieces(l), PIPE, CmdPieces(r));
    case And(l, r) => JoinTokens(CmdPieces(l), AND, CmdPieces(r));
    case Or(l, r) => JoinTokens(CmdPieces(l), OR, CmdPieces(r));
    case Subshell(body) => JoinTokens([Symbol("(")], CmdPieces(body), [Symbol(")")]);
    case Run(_) =>
  }

  lemma LineHead(l: Line)
    requires l.Valid()
    ensures Tokens(LinePieces(l)) != [] && Tokens(LinePieces(l))[0] == l.words[0].Token()
  {
    hide Tokens, WordPieces, RedirectPieces, PlainWord, NoNul, Digits;
    WordPieceTokens(l.words);
    TokensConcat(WordPieces(l.words), RedirectPieces(l.redirects));
    assert WordTokens(l.words)[0] == l.words[0].Token();
  }

  /** A command begins with a word or an opening bracket. */
  lemma {:induction false} Head(c: Cmd<Line>)
    requires IsList(c)
    ensures Toks(c) != [] && Toks(c)[0] != Op("\n")
  {
    hide Tokens, Line.Valid, LinePieces;
    CmdTokens(c);
    match c
    case Pipe(l, _) =>
      assert IsPipeline(c);
      Levels(l);
      Head(l);
    case And(l, _) => Head(l);
    case Or(l, _) => Head(l);
    case Subshell(_) =>
    case Run(l) =>
      assert IsPipeline(c) && IsCommand(c);
      LineHead(l);
  }

  lemma SkipNothing(c: Cmd<Line>, rest: seq<Token>)
    requires IsList(c)
    ensures SkipNewlines(Toks(c) + rest) == Toks(c) + rest
    ensures SkipNewlines([Op("\n")] + (Toks(c) + rest)) == Toks(c) + rest
  {
    hide Toks, IsList;
    Head(c);
    assert ([Op("\n")] + (Toks(c) + rest))[1..] == Toks(c) + rest;
  }

  lemma Levels(c: Cmd<Line>)
    ensures IsCommand(c) ==> IsPipeline(c)
    ensures IsPipeline(c) ==> IsList(c)
  {
    assert IsCommand(c) ==> c.Run? || c.Subshell?;
  }

  lemma {:induction false} CommandParses(c: Cmd<Line>, rest: seq<Token>)
    requires IsCommand(c) && Stops(rest)
    ensures ParseCommand(Toks(c) + rest) == Some((Meaning(c), rest))
    decreases c, 0
  {
    hide ParseList, ParseSimple, Line.Valid, LinePieces, Toks;
    CmdTokens(c);
    var ts := Toks(c) + rest;
    if c.Run? {
      LineHead(c.leaf);
      LineParses(c.leaf, rest);
    } else {
      var after := [Op(")")] + rest;
      assert ts[1..] == Toks(c.body) + after;
      SkipNothing(c.body, after);
      ListParses(c.body, after);
      ListEnds(Meaning(c.body), after);
      assert after[1..] == rest;
    }
  }

  lemma ListEnds(left: Cmd<Argv>, rest: seq<Token>)
    requires !At(rest, Op("&&")) && !At(rest, Op("||"))
    ensures ListRest(left, rest) == Some((left, rest))
  {
  }

  lemma PipeEnds(left: Cmd<Argv>, rest: seq<Token>)
    requires !At(rest, Op("|"))
    ensures PipeRest(left, rest) == Some((left, rest))
  {
  }

  lemma {:induction false} PipelineParses(c: Cmd<Line>, rest: seq<Token>)
    requires IsPipeline(c) && Stops(rest)
    ensures ParsePipeline(Toks(c) + rest) == PipeRest(Meaning(c), rest)
    decreases c, 1
  {
    hide ParseCommand, Line.Valid, Toks;
    if c.Pipe? {
      var more := Toks(c.right) + rest;
      CmdTokens(c);
      assert Toks(c) + rest == Toks(c.left) + ([Op("|")] + more);
      PipelineParses(c.left, [Op("|")] + more);
      assert ([Op("|")] + more)[1..] == more;
      Levels(c.right);
      SkipNothing(c.right, rest);
      CommandParses(c.right, rest);
    } else {
      CommandParses(c, rest);
    }
  }

  lemma {:induction false} ListParses(c: Cmd<Line>, rest: seq<Token>)
    requires IsList(c) && Stops(rest) && !At(rest, Op("|"))
    ensures ParseList(Toks(c) + rest) == ListRest(Meaning(c), rest)
    decreases c, 2
  {
    hide ParsePipeline, PipeRest, Line.Valid, Toks;
    CmdTokens(c);
    if c.And? {
      var more := Toks(c.right) + rest;
      var mid := [Op("&&")] + ([Op("\n")] + more);
      assert Toks(c) + rest == Toks(c.left) + mid;
      ListParses(c.left, mid);
      assert mid[1..] == [Op("\n")] + more;
      Levels(c.right);
      SkipNothing(c.right, rest);
      PipelineParses(c.right, rest);
      PipeEnds(Meaning(c.right), rest);
    } else if c.Or? {
      var more := Toks(c.right) + rest;
      var mid := [Op("||")] + more;
      assert Toks(c) + rest == Toks(c.left) + mid;
      ListParses(c.left, mid);
      assert mid[1..] == more;
      Levels(c.right);
      SkipNothing(c.right, rest);
      PipelineParses(c.right, rest);
      PipeEnds(Meaning(c.right), rest);
    } else {
      PipelineParses(c, rest);
      PipeEnds(Meaning(c), rest);
    }
  }

  // ---------- reading back a script ----------

  const GUARD := [Piece.Word(Lit("if")), Blank, Piece.Word(Lit("!")), Blank, Symbol("("), Symbol("\n")]
  const ELSE := [Symbol("\n"), Symbol(")"), Symbol(";"), Blank, Piece.Word(Lit("then")), Symbol("\n"), Blank, Blank]
  const CLOSE := [Symbol("\n"), Piece.Word(Lit("fi"))]

  /** A top-level item as the template writes it; the condition is a bracketed list on lines of its own. */
  function TopPieces(t: Top<Line>): seq<Piece> {
    match t
    case Simple(l) => LinePieces(l)
    case Guarded(cond, otherwise) =>
      GUARD + (if cond.Subshell? then CmdPieces(cond.body) else []) + ELSE + LinePieces(otherwise) + CLOSE
  }

  function TopMeaning(t: Top<Line>): Top<Argv> {
    match t
    case Simple(l) => Simple(l.Meaning())
    case Guarded(cond, otherwise) => Guarded(Meaning(cond), otherwise.Meaning())
  }

  predicate IsTop(t: Top<Line>) {
    match t
    case Simple(l) => l.Valid()
    case Guarded(cond, otherwise) => cond.Subshell? && IsList(cond.body) && otherwise.Valid()
  }

  lemma GuardTokens()
    ensures Tokens(GUARD) == IF_NOT + [Op("("), Op("\n")]
  {
    hide Tokens;
    var a := [Piece.Word(Lit("if")), Blank, Piece.Word(Lit("!"))];
    var b := [Blank, Symbol("("), Symbol("\n")];
    TokensThree(a[0], a[1], a[2]);
    TokensThree(b[0], b[1], b[2]);
    TokensConcat(a, b);
    assert GUARD == a + b;
    assert IF_NOT == [W("if", true), W("!", true)];
  }

  lemma ElseTokens()
    ensures Tokens(ELSE) == [Op("\n"), Op(")")] + THEN + [Op("\n")]
  {
    hide Tokens;
    var a := [Symbol("\n"), Symbol(")"), Symbol(";")];
    var b := [Blank, Piece.Word(Lit("then")), Symbol("\n")];
    var c := [Blank, Blank];
    TokensThree(a[0], a[1], a[2]);
    TokensThree(b[0], b[1], b[2]);
    TokensTwo(Blank, Blank);
    TokensConcat(a, b);
    TokensConcat(a + b, c);
    assert ELSE == a + b + c;
  }

  lemma CloseTokens()
    ensures Tokens(CLOSE) == [Op("\n"), W("fi", true)]
  {
    hide Tokens;
    TokensTwo(Symbol("\n"), Piece.Word(Lit("fi")));
  }

  lemma BracketParses(body: Cmd<Line>, rest: seq<Token>)
    requires IsList(body)
    ensures ParseCommand([Op("("), Op("\n")] + Toks(body) + [Op("\n"), Op(")")] + rest)
            == Some((Subshell(Meaning(body)), rest))
  {
    hide ParseList, ParseSimple, Toks, IsList, Meaning;
    var after := [Op("\n"), Op(")")] + rest;
    var ts := [Op("("), Op("\n")] + Toks(body) + [Op("\n"), Op(")")] + rest;
    assert ts[1..] == [Op("\n")] + (Toks(body) + after);
    SkipNothing(body, after);
    ListParses(body, after);
    ListEnds(Meaning(body), after);
    assert after[1..] == [Op(")")] + rest;
    assert ([Op(")")] + rest)[1..] == rest;
    assert SkipNewlines(after) == SkipNewlines([Op(")")] + rest);
  }

  predicate EndsItem(rest: seq<Token>) {
    rest == [] || rest[0] == Op("\n")
  }

  lemma LineSkips(l: Line, rest: seq<Token>)
    requires l.Valid()
    ensures SkipNewlines([Op("\n")] + (Tokens(LinePieces(l)) + rest)) == Tokens(LinePieces(l)) + rest
    ensures SkipNewlines(Tokens(LinePieces(l)) + rest) == Tokens(LinePieces(l)) + rest
  {
    hide Tokens, LinePieces, PlainWord, NoNul, Digits;
    LineHead(l);
    assert ([Op("\n")] + (Tokens(LinePieces(l)) + rest))[1..] == Tokens(LinePieces(l)) + rest;
  }

  lemma GuardedTokens(body: Cmd<Line>, otherwise: Line)
    ensures Tokens(TopPieces(Guarded(Subshell(body), otherwise)))
            == IF_NOT + ([Op("("), Op("\n")] + Toks(body) + [Op("\n"), Op(")")]
                         + (THEN + ([Op("\n")] + (Tokens(LinePieces(otherwise)) + [Op("\n"), W("fi", true)]))))
  {
    hide Tokens, LinePieces, CmdPieces;
    GuardTokens();
    ElseTokens();
    CloseTokens();
    var e := LinePieces(otherwise);
    TokensConcat(GUARD + CmdPieces(body) + ELSE + e, CLOSE);
    TokensConcat(GUARD + CmdPieces(body) + ELSE, e);
    TokensConcat(GUARD + CmdPieces(body), ELSE);
    TokensConcat(GUARD, CmdPieces(body));
  }

  lemma GuardedParses(body: Cmd<Line>, otherwise: Line, rest: seq<Token>)
    requires IsList(body) && otherwise.Valid() && EndsItem(rest)
    ensures ParseTop(Tokens(TopPieces(Guarded(Subshell(body), otherwise))) + rest)
            == Some((Guarded(Subshell(Meaning(body)), otherwise.Meaning()), rest))
  {
    hide Tokens, LinePieces, TopPieces, ParseCommand, ParseSimple, IsList, Line.Valid, Meaning, Toks, Line.Meaning;
    GuardedTokens(body, otherwise);
    var close := [Op("\n"), W("fi", true)];
    var e := Tokens(LinePieces(otherwise));
    var tail := THEN + ([Op("\n")] + (e + (close + rest)));
    var ts := Tokens(TopPieces(Guarded(Subshell(body), otherwise))) + rest;
    assert ts == IF_NOT + ([Op("("), Op("\n")] + Toks(body) + [Op("\n"), Op(")")] + tail);
    BracketParses(body, tail);
    assert ts[2..] == [Op("("), Op("\n")] + Toks(body) + [Op("\n"), Op(")")] + tail;
    assert tail[2..] == [Op("\n")] + (e + (close + rest));
    LineSkips(otherwise, close + rest);
    LineParses(otherwise, close + rest);
    FiSkips(rest);
  }

  lemma FiSkips(rest: seq<Token>)
    ensures var last := SkipNewlines([Op("\n"), W("fi", true)] + rest);
            last == [W("fi", true)] + rest && last[1..] == rest
  {
    var ts := [Op("\n"), W("fi", true)] + rest;
    assert ts[1..] == [W("fi", true)] + rest;
  }

  lemma TopParses(t: Top<Line>, rest: seq<Token>)
    requires IsTop(t) && EndsItem(rest)
    ensures Tokens(TopPieces(t)) != [] && Tokens(TopPieces(t))[0] != Op("\n")
    ensures ParseTop(Tokens(TopPieces(t)) + rest) == Some((TopMeaning(t), rest))
  {
    hide Tokens, LinePieces, CmdPieces, ParseCommand, ParseSimple, IsList, PlainWord, NoNul, Digits;
    match t
    case Simple(l) =>
      LineHead(l);
      LineParses(l, rest);
      var ts := Tokens(LinePieces(l)) + rest;
      assert ts[0] == l.words[0].Token();
      assert Reserved(IF_NOT[0]);
    case Guarded(cond, otherwise) =>
      GuardedTokens(cond.body, otherwise);
      GuardedParses(cond.body, otherwise, rest);
  }

  /** An item is read, then the rest of the script. */
  lemma ItemParses(t: Top<Line>, rest: seq<Token>)
    requires IsTop(t) && EndsItem(rest)
    ensures ParseScript(Tokens(TopPieces(t)) + rest)
            == Then(TopMeaning(t), ParseScript(rest))
  {
    hide Tokens, TopPieces, ParseTop, IsTop, TopMeaning;
    TopParses(t, rest);
    var ts := Tokens(TopPieces(t)) + rest;
    assert SkipNewlines(ts) == ts;
  }

  lemma NewlineParses(rest: seq<Token>)
    ensures ParseScript([Op("\n")] + rest) == ParseScript(rest)
  {
    hide ParseTop;
    assert ([Op("\n")] + rest)[1..] == rest;
  }

  // ---------- everything written keeps apart ----------

  /** Pieces that can be read, and that fit between brackets, blanks and newlines. */
  predicate Solid(ps: seq<Piece>) {
    && ps != [] && AllReadable(ps) && Spaced(ps)
    && (ps[0].Word? || ps[0] == Symbol("("))
    && (ps[|ps| - 1].Word? || ps[|ps| - 1] == Symbol(")"))
  }

  lemma SpacedConcat(a: seq<Piece>, b: seq<Piece>)
    requires AllReadable(a) && AllReadable(b) && Spaced(a) && Spaced(b)
    requires a != [] && b != [] ==> a[|a| - 1].Fits(b[0])
    ensures AllReadable(a + b) && Spaced(a + b)
  {
    hide Piece.Readable, Piece.Fits;
  }

  /** A separator with blanks or operators at both ends. */
  predicate Bridge(mid: seq<Piece>) {
    && mid != [] && AllReadable(mid) && Spaced(mid)
    && (mid[0].Blank? || mid[0] == Symbol("\n"))
    && (mid[|mid| - 1].Blank? || mid[|mid| - 1] == Symbol("\n"))
  }

  lemma SolidJoin(a: seq<Piece>, mid: seq<Piece>, b: seq<Piece>)
    requires Solid(a) && Bridge(mid) && Solid(b)
    ensures Solid(a + mid + b)
  {
    hide Piece.Readable, AllReadable, Spaced;
    SpacedConcat(a, mid);
    SpacedConcat(a + mid, b);
  }

  lemma Bridges()
    ensures Bridge(AND) && Bridge(OR) && Bridge(PIPE)
  {
  }

  lemma {:induction false} WordsSolid(ws: seq<Word>)
    requires ws != [] && forall i :: 0 <= i < |ws| ==> ws[i].Readable()
    ensures Solid(WordPieces(ws)) && WordPieces(ws)[|WordPieces(ws)| - 1].Word?
  {
    hide Word.Readable;
    if |ws| > 1 {
      var init, last := ws[..|ws| - 1], ws[|ws| - 1];
      WordsSolid(init);
      assert last == ws[|ws| - 1];
      SpacedConcat(WordPieces(init), [Blank, Piece.Word(last)]);
    }
  }

  lemma RedirectSolid(r: RedirectText)
    requires r.Valid()
    ensures AllReadable([Blank] + RedirectEnd(r)) && Spaced([Blank] + RedirectEnd(r))
  {
    hide Word.Readable;
  }

  lemma {:induction false} RedirectsSolid(front: seq<Piece>, rs: seq<RedirectText>)
    requires Solid(front) && front[|front| - 1].Word? && forall i :: 0 <= i < |rs| ==> rs[i].Valid()
    ensures Solid(front + RedirectPieces(rs)) && (front + RedirectPieces(rs))[|front + RedirectPieces(rs)| - 1].Word?
    decreases |rs|
  {
    hide Word.Readable, Piece.Readable, AllReadable, Spaced, RedirectText.Valid;
    if rs == [] {
      assert front + RedirectPieces(rs) == front;
    } else {
      var init, r := rs[..|rs| - 1], rs[|rs| - 1];
      RedirectsSolid(front, init);
      RedirectSolid(r);
      SpacedConcat(front + RedirectPieces(init), [Blank] + RedirectEnd(r));
      assert front + RedirectPieces(rs) == (front + RedirectPieces(init)) + ([Blank] + RedirectEnd(r));
    }
  }

  lemma LineSolid(l: Line)
    requires l.Valid()
    ensures Solid(LinePieces(l))
  {
    hide Word.Readable, Solid, Digits;
    WordsSolid(l.words);
    RedirectsSolid(WordPieces(l.words), l.redirects);
  }

  /** A single command line, read by itself. */
  function ReadLine(text: string): Option<Argv> {
    match Lex(text)
    case None => None
    case Some(ts) =>
      match ParseSimple(ts)
      case Some((argv, rest)) => if rest == [] then Some(argv) else None
      case None => None
  }

  function LineText(l: Line): string {
    Render(LinePieces(l))
  }

  /** Rendering then reading a command gives its words and redirections, for arbitrary NUL-free quoted values. */
  lemma LineReadsBack(l: Line)
    requires l.Valid()
    ensures ReadLine(LineText(l)) == Some(l.Meaning())
  {
    hide Lex, Render, Tokens, ParseSimple, Line.Valid, LinePieces, Line.Meaning, AllReadable, Spaced;
    LineSolid(l);
    LexRendered(LinePieces(l));
    LineParses(l, []);
    assert Tokens(LinePieces(l)) + [] == Tokens(LinePieces(l));
  }

  /** `shellQuote` is injective and makes one word of any NUL-free text, the empty one included. */
  lemma QuoteRoundTrip(value: string)
    requires NoNul(value)
    ensures Lex(ShellQuote(value)) == Some([W(value, false)])
  {
    hide Lex, NoNul, ShellQuote;
    var ps := [Piece.Word(Quoted(value))];
    LexRendered(ps);
    TokensOne(ps[0]);
    assert ps[..0] == [];
    assert Render(ps) == "" + ShellQuote(value) == ShellQuote(value);
  }

  lemma {:induction false} CmdSolid(c: Cmd<Line>)
    requires IsList(c)
    ensures Solid(CmdPieces(c))
  {
    hide Line.Valid, LinePieces, Solid, Bridge;
    Bridges();
    match c
    case Pipe(l, r) =>
      assert IsPipeline(c);
      Levels(l);
      Levels(r);
      CmdSolid(l);
      CmdSolid(r);
      SolidJoin(CmdPieces(l), PIPE, CmdPieces(r));
    case And(l, r) =>
      Levels(r);
      CmdSolid(l);
      CmdSolid(r);
      SolidJoin(CmdPieces(l), AND, CmdPieces(r));
    case Or(l, r) =>
      Levels(r);
      CmdSolid(l);
      CmdSolid(r);
      SolidJoin(CmdPieces(l), OR, CmdPieces(r));
    case Subshell(body) =>
      assert IsPipeline(c) && IsCommand(c);
      CmdSolid(body);
      BracketSolid(CmdPieces(body));
    case Run(l) =>
      assert IsPipeline(c) && IsCommand(c);
      LineSolid(l);
  }

  lemma BracketSolid(ps: seq<Piece>)
    requires Solid(ps)
    ensures Solid([Symbol("(")] + ps + [Symbol(")")])
  {
    SpacedConcat([Symbol("(")], ps);
    SpacedConcat([Symbol("(")] + ps, [Symbol(")")]);
  }

  lemma FrameReadable()
    ensures AllReadable(GUARD) && AllReadable(ELSE) && AllReadable(CLOSE)
  {
  }

  lemma FrameSpaced()
    ensures Spaced(GUARD) && Spaced(ELSE) && Spaced(CLOSE)
  {
  }

  lemma TopSolid(t: Top<Line>)
    requires IsTop(t)
    ensures Solid(TopPieces(t))
  {
    hide Line.Valid, LinePieces, CmdPieces, IsList, Piece.Readable, AllReadable, Spaced;
    match t
    case Simple(l) => LineSolid(l);
    case Guarded(cond, otherwise) =>
      FrameReadable();
      FrameSpaced();
      CmdSolid(cond.body);
      LineSolid(otherwise);
      var body, e := CmdPieces(cond.body), LinePieces(otherwise);
      SpacedConcat(GUARD, body);
      SpacedConcat(GUARD + body, ELSE);
      SpacedConcat(GUARD + body + ELSE, e);
      SpacedConcat(GUARD + body + ELSE + e, CLOSE);
  }
}
