/** Splitting shell text into tokens — single quotes, double quotes, token recognition and quote removal (sections
    2.2.2, 2.2.3, 2.3 and 2.6.7 of the Shell Command Language of POSIX.1-2017) — and the generator's `shellQuote`. Any
    unquoted expansion, pattern or other character outside this subset makes the reading fail. */
module Shell {
  import opened Text

  /** Characters that stand for themselves outside quotes, wherever they are in a word. */
  predicate IsPlain(c: char) {
    || 'a' <= c <= 'z' || 'A' <= c <= 'Z' || '0' <= c <= '9'
    || c == '-' || c == '_' || c == '.' || c == '/' || c == ':' || c == '=' || c == ',' || c == '+' || c == '@'
      || c == '!'
  }

  /** None of the characters that sections 2.2 and 2.3 give a meaning of its own outside quotes is among them. */
  lemma SpecialIsNotPlain(c: char)
    requires c in "|&;<>()$`\\\"' \t\n*?[#~%{}\0"
    ensures !IsPlain(c)
  {
  }

  predicate PlainWord(s: string) {
    s != [] && forall i :: 0 <= i < |s| ==> IsPlain(s[i])
  }

  predicate NoNul(s: string) {
    forall i :: 0 <= i < |s| ==> s[i] != '\0'
  }

  predicate Digits(s: string) {
    s != [] && forall i :: 0 <= i < |s| ==> '0' <= s[i] <= '9'
  }

  /** A word after quote removal, `plain` if nothing in it was quoted; the number before a redirection; an operator. */
  datatype Token = W(text: string, plain: bool) | Io(fd: string) | Op(op: string)

  datatype Mode = Unquoted | Single | Double | Comment

  /** What has been read but not yet delimited. */
  datatype Pending = Nothing | InWord(text: string, plain: bool) | InOp(op: string)

  datatype Lexer = Lexer(tokens: seq<Token>, pending: Pending, mode: Mode) | Broken

  predicate StartsOp(c: char) {
    c == '&' || c == '|' || c == '(' || c == ')' || c == ';' || c == '>' || c == '\n'
  }

  /** The character makes a longer operator of the one in progress. */
  predicate Merges(op: string, c: char) {
    || (op == "&" && c == '&') || (op == "|" && c == '|') || (op == ";" && c == ';')
    || (op == ">" && (c == '&' || c == '>' || c == '|'))
  }

  /** The pending token, delimited by `c`. */
  function Delimited(p: Pending, c: char): seq<Token> {
    match p
    case Nothing => []
    case InWord(text, plain) => [if plain && Digits(text) && c == '>' then Io(text) else W(text, plain)]
    case InOp(op) => [Op(op)]
  }

  function Soften(l: Lexer, c: char): seq<Token>
    requires l.Lexer?
  {
    if l.pending.InWord? then l.tokens else l.tokens + Delimited(l.pending, c)
  }

  function WordSoFar(p: Pending): string {
    if p.InWord? then p.text else ""
  }

  function Feed(l: Lexer, c: char): Lexer {
    if l.Broken? || c == '\0' then Broken
    else
      match l.mode
      case Unquoted => FeedUnquoted(l, c)
      case Single => if c == '\'' then l.(mode := Unquoted)
        else l.(pending := InWord(WordSoFar(l.pending) + [c], false))
      case Double =>
        if c == '"' then l.(mode := Unquoted)
        else if c == '$' || c == '`' || c == '\\' then Broken
        else l.(pending := InWord(WordSoFar(l.pending) + [c], false))
      case Comment => if c == '\n' then Lexer(l.tokens, InOp("\n"), Unquoted) else l
  }

  function FeedUnquoted(l: Lexer, c: char): Lexer
    requires l.Lexer?
  {
    if l.pending.InOp? && Merges(l.pending.op, c) then l.(pending := InOp(l.pending.op + [c]))
    else if StartsOp(c) then Lexer(l.tokens + Delimited(l.pending, c), InOp([c]), Unquoted)
    else if c == ' ' || c == '\t' then Lexer(l.tokens + Delimited(l.pending, c), Nothing, Unquoted)
    else if c == '#' && !l.pending.InWord? then Lexer(l.tokens + Delimited(l.pending, c), Nothing, Comment)
    else if c == '\'' then Lexer(Soften(l, c), InWord(WordSoFar(l.pending), false), Single)
    else if c == '"' then Lexer(Soften(l, c), InWord(WordSoFar(l.pending), false), Double)
    else if IsPlain(c) then
      Lexer(Soften(l, c), InWord(WordSoFar(l.pending) + [c], l.pending.InWord? ==> l.pending.plain), Unquoted)
    else Broken
  }

  /** Inside double quotes `$`, the backquote and the backslash keep their meaning, so they are refused; outside quotes
      a tab separates like a space. */
  lemma ActiveCharacters(ts: seq<Token>, p: Pending, c: char)
    ensures c in "$`\\" ==> Feed(Lexer(ts, p, Double), c) == Broken
    ensures Feed(Lexer(ts, p, Unquoted), '\t') == Feed(Lexer(ts, p, Unquoted), ' ')
  {
  }

  function FeedAll(l: Lexer, s: string): Lexer
    decreases |s|
  {
    if s == [] then l else FeedAll(Feed(l, s[0]), s[1..])
  }

  const START := Lexer([], Nothing, Unquoted)

  /** The tokens of a text. */
  function Lex(s: string): Option<seq<Token>> {
    var l := FeedAll(START, s);
    if l.Broken? || l.mode == Single || l.mode == Double then None
    else Some(l.tokens + Delimited(l.pending, '\n'))
  }

  // ---------- quoting ----------

  /** `strings.ReplaceAll(value, "'", "'\"'\"'")`. */
  function EscapeQuotes(value: string): string {
    if value == [] then ""
    else (if value[0] == '\'' then "'\"'\"'" else [value[0]]) + EscapeQuotes(value[1..])
  }

  function ShellQuote(value: string): string {
    "'" + EscapeQuotes(value) + "'"
  }

  lemma {:induction false} FeedConcat(l: Lexer, a: string, b: string)
    ensures FeedAll(l, a + b) == FeedAll(FeedAll(l, a), b)
    decreases |a|
  {
    hide Feed;
    if a == [] {
      assert a + b == b;
    } else {
      assert (a + b)[1..] == a[1..] + b;
      FeedConcat(Feed(l, a[0]), a[1..], b);
    }
  }

  lemma FeedOne(l: Lexer, c: char)
    ensures FeedAll(l, [c]) == Feed(l, c)
  {
    hide Feed;
    assert [c][1..] == [];
    assert FeedAll(Feed(l, c), []) == Feed(l, c);
  }

  lemma FeedTwo(l: Lexer, c: char, e: char)
    ensures FeedAll(l, [c, e]) == Feed(Feed(l, c), e)
  {
    hide Feed;
    FeedConcat(l, [c], [e]);
    assert [c] + [e] == [c, e];
    FeedOne(l, c);
    FeedOne(Feed(l, c), e);
  }

  /** The five characters that stand for a quote inside quotes. */
  lemma FeedEscapedQuote(ts: seq<Token>, text: string)
    ensures FeedAll(Lexer(ts, InWord(text, false), Single), "'\"'\"'") == Lexer(ts, InWord(text + "'", false), Single)
  {
    var l := Lexer(ts, InWord(text, false), Single);
    FeedConcat(l, ['\'', '"'], ['\'', '"', '\'']);
    FeedTwo(l, '\'', '"');
    var l2 := Feed(Feed(l, '\''), '"');
    assert l2 == Lexer(ts, InWord(text, false), Double);
    FeedConcat(l2, ['\'', '"'], ['\'']);
    FeedTwo(l2, '\'', '"');
    var l4 := Feed(Feed(l2, '\''), '"');
    assert l4 == Lexer(ts, InWord(text + "'", false), Unquoted);
    FeedOne(l4, '\'');
    assert "'\"'\"'" == ['\'', '"'] + ['\'', '"', '\''];
    assert ['\'', '"', '\''] == ['\'', '"'] + ['\''];
  }

  lemma {:induction false} FeedEscaped(ts: seq<Token>, text: string, value: string)
    requires NoNul(value)
    ensures FeedAll(Lexer(ts, InWord(text, false), Single), EscapeQuotes(value))
            == Lexer(ts, InWord(text + value, false), Single)
    decreases |value|
  {
    hide FeedUnquoted;
    var l := Lexer(ts, InWord(text, false), Single);
    if value == [] {
      assert text + value == text;
    } else {
      var c := value[0];
      var head := if c == '\'' then "'\"'\"'" else [c];
      FeedConcat(l, head, EscapeQuotes(value[1..]));
      assert FeedAll(l, head) == Lexer(ts, InWord(text + [c], false), Single) by {
        if c == '\'' {
          FeedEscapedQuote(ts, text);
        } else {
          FeedOne(l, c);
        }
      }
      FeedEscaped(ts, text + [c], value[1..]);
      assert text + [c] + value[1..] == text + value;
    }
  }

  lemma {:induction false} FeedPlain(ts: seq<Token>, text: string, s: string)
    requires forall i :: 0 <= i < |s| ==> IsPlain(s[i])
    ensures FeedAll(Lexer(ts, InWord(text, true), Unquoted), s) == Lexer(ts, InWord(text + s, true), Unquoted)
    decreases |s|
  {
    if s == [] {
      assert text + s == text;
    } else {
      FeedPlain(ts, text + [s[0]], s[1..]);
      assert text + [s[0]] + s[1..] == text + s;
    }
  }

  // ---------- rendered text ----------

  /** A word of the template: literal text, or a value passed through `shellQuote`. */
  datatype Word = Lit(text: string) | Quoted(text: string) {
    function Spelling(): string {
      if Lit? then text else ShellQuote(text)
    }

    predicate Readable() {
      if Lit? then PlainWord(text) else NoNul(text)
    }

    function Token(): Token {
      W(text, Lit?)
    }
  }

  /** The units the template writes. */
  datatype Piece = Word(word: Word) | Number(fd: string) | Symbol(op: string) | Blank | Note(text: string) {
    function Spelling(): string {
      match this
      case Word(w) => w.Spelling()
      case Number(fd) => fd
      case Symbol(op) => op
      case Blank => " "
      case Note(text) => "#" + text
    }

    predicate Readable() {
      match this
      case Word(w) => w.Readable()
      case Number(fd) => Digits(fd)
      case Symbol(op) => op in {"&&", "||", "|", "(", ")", ";", ">", ">&", "\n"}
      case Blank => true
      case Note(text) => forall i :: 0 <= i < |text| ==> text[i] != '\n' && text[i] != '\0'
    }

    function Tokens(): seq<Token> {
      match this
      case Word(w) => [w.Token()]
      case Number(fd) => [Io(fd)]
      case Symbol(op) => [Op(op)]
      case Blank => []
      case Note(_) => []
    }

    /** This piece and the next stay apart. */
    predicate Fits(next: Piece) {
      match this
      case Word(_) => next.Blank? || (next.Symbol? && next.op != [] && next.op[0] != '>')
      case Number(_) => next.Symbol? && next.op != [] && next.op[0] == '>'
      case Symbol(op) => next.Symbol? ==> next.op != [] && !Merges(op, next.op[0])
      case Blank => true
      case Note(_) => next == Symbol("\n")
    }
  }

  /** The lexer after a piece, with the tokens of all earlier pieces. */
  function After(ts: seq<Token>, p: Piece): Lexer {
    match p
    case Word(w) => Lexer(ts, InWord(w.text, w.Lit?), Unquoted)
    case Number(fd) => Lexer(ts, InWord(fd, true), Unquoted)
    case Symbol(op) => Lexer(ts, InOp(op), Unquoted)
    case Blank => Lexer(ts, Nothing, Unquoted)
    case Note(_) => Lexer(ts, Nothing, Comment)
  }

  /** The first character of a word finds nothing, or a finished operator, before it. */
  lemma FeedFirst(ts: seq<Token>, p: Piece, c: char)
    requires p.Blank? || p.Symbol?
    requires IsPlain(c) || c == '\''
    ensures Feed(After(ts, p), c) == if c == '\'' then Lexer(ts + p.Tokens(), InWord("", false), Single)
                                     else Lexer(ts + p.Tokens(), InWord([c], true), Unquoted)
  {
    assert "" + [c] == [c];
    assert ts + [] == ts;
  }

  /** A word is read as its text and nothing else, whatever it contains. */
  lemma WordReads(ts: seq<Token>, p: Piece, w: Word)
    requires w.Readable() && (p.Blank? || p.Symbol?)
    ensures FeedAll(After(ts, p), w.Spelling()) == After(ts + p.Tokens(), Piece.Word(w))
  {
    hide Feed;
    var l := After(ts, p);
    if w.Lit? {
      var s := w.text;
      FeedFirst(ts, p, s[0]);
      FeedConcat(l, [s[0]], s[1..]);
      assert [s[0]] + s[1..] == s;
      FeedOne(l, s[0]);
      FeedPlain(ts + p.Tokens(), [s[0]], s[1..]);
    } else {
      FeedFirst(ts, p, '\'');
      var inner := Lexer(ts + p.Tokens(), InWord("", false), Single);
      FeedOne(l, '\'');
      FeedConcat(l, "'", EscapeQuotes(w.text) + "'");
      assert w.Spelling() == "'" + (EscapeQuotes(w.text) + "'");
      FeedConcat(inner, EscapeQuotes(w.text), "'");
      FeedEscaped(ts + p.Tokens(), "", w.text);
      assert "" + w.text == w.text;
      FeedOne(Lexer(ts + p.Tokens(), InWord(w.text, false), Single), '\'');
      CloseQuote(ts + p.Tokens(), w.text);
    }
  }

  lemma CloseQuote(ts: seq<Token>, text: string)
    ensures Feed(Lexer(ts, InWord(text, false), Single), '\'') == Lexer(ts, InWord(text, false), Unquoted)
  {
  }

  lemma DigitsArePlain(fd: string)
    requires Digits(fd)
    ensures PlainWord(fd)
  {
  }

  lemma FeedSymbolStart(ts: seq<Token>, p: Piece, c: char, op: string)
    requires p.Readable() && op != [] && op[0] == c && p.Fits(Symbol(op)) && StartsOp(c)
    requires p.Note? ==> op == "\n"
    ensures Feed(After(ts, p), c) == Lexer(ts + p.Tokens(), InOp([c]), Unquoted)
  {
    assert ts + [] == ts;
  }

  lemma SymbolReads(ts: seq<Token>, p: Piece, op: string)
    requires p.Readable() && Symbol(op).Readable() && p.Fits(Symbol(op))
    ensures FeedAll(After(ts, p), op) == After(ts + p.Tokens(), Symbol(op))
  {
    var l := After(ts, p);
    FeedSymbolStart(ts, p, op[0], op);
    if |op| == 1 {
      FeedOne(l, op[0]);
      assert op == [op[0]];
    } else {
      assert op == "&&" || op == "||" || op == ">&";
      FeedTwo(l, op[0], op[1]);
      assert op == [op[0], op[1]] && [op[0]] + [op[1]] == op;
      assert Merges([op[0]], op[1]);
    }
  }

  lemma {:induction false} NoteReads(ts: seq<Token>, text: string)
    requires Note(text).Readable()
    ensures FeedAll(Lexer(ts, Nothing, Comment), text) == Lexer(ts, Nothing, Comment)
    decreases |text|
  {
    if text != [] {
      NoteReads(ts, text[1..]);
    }
  }

  lemma PieceReads(ts: seq<Token>, p: Piece, q: Piece)
    requires p.Readable() && q.Readable() && p.Fits(q)
    ensures FeedAll(After(ts, p), q.Spelling()) == After(ts + p.Tokens(), q)
  {
    hide Feed, PlainWord, NoNul, Digits;
    match q
    case Word(w) => WordReads(ts, p, w);
    case Number(fd) =>
      DigitsArePlain(fd);
      WordReads(ts, p, Lit(fd));
    case Symbol(op) => SymbolReads(ts, p, op);
    case Blank =>
      FeedOne(After(ts, p), ' ');
      BlankReads(ts, p);
    case Note(text) =>
      FeedConcat(After(ts, p), "#", text);
      FeedOne(After(ts, p), '#');
      NoteStarts(ts, p);
      NoteReads(ts + p.Tokens(), text);
  }

  lemma BlankReads(ts: seq<Token>, p: Piece)
    requires p.Readable() && p.Fits(Blank)
    ensures Feed(After(ts, p), ' ') == After(ts + p.Tokens(), Blank)
  {
    assert ts + [] == ts;
  }

  lemma NoteStarts(ts: seq<Token>, p: Piece)
    requires p.Blank? || p.Symbol?
    ensures Feed(After(ts, p), '#') == Lexer(ts + p.Tokens(), Nothing, Comment)
  {
    assert ts + [] == ts;
  }

  // ---------- whole texts ----------

  function Render(ps: seq<Piece>): string {
    if ps == [] then "" else Render(ps[..|ps| - 1]) + ps[|ps| - 1].Spelling()
  }

  function Tokens(ps: seq<Piece>): seq<Token> {
    if ps == [] then [] else Tokens(ps[..|ps| - 1]) + ps[|ps| - 1].Tokens()
  }

  lemma {:induction false} TokensConcat(a: seq<Piece>, b: seq<Piece>)
    ensures Tokens(a + b) == Tokens(a) + Tokens(b)
    decreases |b|
  {
    hide Piece.Tokens;
    if b == [] {
      assert a + b == a;
    } else {
      assert (a + b)[..|a + b| - 1] == a + b[..|b| - 1];
      TokensConcat(a, b[..|b| - 1]);
    }
  }

  predicate AllReadable(ps: seq<Piece>) {
    forall i :: 0 <= i < |ps| ==> ps[i].Readable()
  }

  predicate Spaced(ps: seq<Piece>) {
    forall i :: 0 <= i < |ps| - 1 ==> ps[i].Fits(ps[i + 1])
  }

  /** Rendering then splitting: the text of well-spaced pieces has exactly their tokens. */
  lemma LexRendered(ps: seq<Piece>)
    requires AllReadable(ps) && Spaced(ps) && (ps != [] ==> !ps[|ps| - 1].Number?)
    ensures Lex(Render(ps)) == Some(Tokens(ps))
  {
    hide Piece.Readable, Piece.Fits, Feed, After, Piece.Tokens, Piece.Spelling;
    if ps == [] {
      assert FeedAll(START, "") == START;
      assert Render(ps) == "";
      assert START.tokens + Delimited(START.pending, '\n') == [];
    } else {
      FeedRendered(ps);
      LastDelimited(Tokens(ps[..|ps| - 1]), ps[|ps| - 1]);
    }
  }

  lemma LastDelimited(ts: seq<Token>, p: Piece)
    requires !p.Number?
    ensures var l := After(ts, p);
            !l.Broken? && l.mode != Single && l.mode != Double
              && l.tokens + Delimited(l.pending, '\n') == ts + p.Tokens()
  {
  }

  lemma {:induction false} FeedRendered(ps: seq<Piece>)
    requires ps != [] && AllReadable(ps) && Spaced(ps)
    ensures FeedAll(START, Render(ps)) == After(Tokens(ps[..|ps| - 1]), ps[|ps| - 1])
  {
    hide Feed, Piece.Readable, Piece.Fits, Piece.Tokens, Piece.Spelling, After;
    var init, last := ps[..|ps| - 1], ps[|ps| - 1];
    FeedConcat(START, Render(init), last.Spelling());
    if init == [] {
      FirstPiece(last);
      assert FeedAll(START, "") == START;
    } else {
      FeedRendered(init);
      assert init[|init| - 1].Fits(last);
      PieceReads(Tokens(init[..|init| - 1]), init[|init| - 1], last);
    }
  }

  lemma FirstPiece(p: Piece)
    requires p.Readable()
    ensures FeedAll(START, p.Spelling()) == After([], p)
  {
    hide Feed, Piece.Spelling;
    PieceReads([], Blank, p);
    assert [] + Blank.Tokens() == [];
  }
}
