/** sh.c: characters to tokens, and the canonical text of a command. */
module ShellLexer {
  import opened ShellGrammar

  predicate White(c: char) {
    c in " \t\r\n\U{0B}"
  }

  predicate Symbol(c: char) {
    c in "<|>&;()"
  }

  /** How far the word at the start of u goes. */
  function WordLen(u: string): (n: nat)
    ensures n <= |u| && (forall k :: 0 <= k < n ==> !Special(u[k])) && (n < |u| ==> Special(u[n]))
  {
    if u == "" || Special(u[0]) then 0 else 1 + WordLen(u[1..])
  }

  /** The tokens gettoken finds, one after the other, up to the end of the string. */
  function Lex(u: string): seq<Token>
    decreases |u|
  {
    if u == "" || u[0] == '\0' then []
    else if White(u[0]) then Lex(u[1..])
    else if u[0] == '>' && |u| > 1 && u[1] == '>' then [Append] + Lex(u[2..])
    else if Symbol(u[0]) then [Sym(u[0])] + Lex(u[1..])
    else [Word(u[..WordLen(u)])] + Lex(u[WordLen(u)..])
  }

  predicate TokenOk(t: Token) {
    match t
    case Word(w) => WordOk(w)
    case Sym(c) => Symbol(c)
    case Append => true
  }

  lemma {:induction false} LexOk(u: string)
    ensures forall k :: 0 <= k < |Lex(u)| ==> TokenOk(Lex(u)[k])
    decreases |u|
  {
    if u == "" || u[0] == '\0' {
    } else if White(u[0]) {
      LexOk(u[1..]);
    } else if u[0] == '>' && |u| > 1 && u[1] == '>' {
      LexOk(u[2..]);
    } else if Symbol(u[0]) {
      LexOk(u[1..]);
    } else {
      LexOk(u[WordLen(u)..]);
    }
  }

  // ------------------------------------------------------------------
  // Text of tokens

  function TextOfToken(t: Token): string {
    match t
    case Word(w) => w
    case Sym(c) => [c]
    case Append => ">>"
  }

  function Render(ts: seq<Token>): string {
    if ts == [] then "" else TextOfToken(ts[0]) + (" " + Render(ts[1..]))
  }

  lemma {:induction false} WordEnds(w: string, rest: string)
    requires forall k :: 0 <= k < |w| ==> !Special(w[k])
    requires rest != "" && Special(rest[0])
    ensures WordLen(w + rest) == |w|
    decreases |w|
  {
    if w == "" {
      assert w + rest == rest;
    } else {
      assert (w + rest)[1..] == w[1..] + rest;
      WordEnds(w[1..], rest);
    }
  }

  lemma LexSpace(rest: string)
    ensures Lex(" " + rest) == Lex(rest)
  {
    assert (" " + rest)[1..] == rest;
  }

  lemma LexWord(w: string, rest: string)
    requires WordOk(w)
    ensures Lex(w + (" " + rest)) == [Word(w)] + Lex(rest)
  {
    var u := w + (" " + rest);
    WordEnds(w, " " + rest);
    LexSpace(rest);
    assert !Special(w[0]) && u[0] == w[0];
    assert u[..|w|] == w && u[|w|..] == " " + rest;
  }

  lemma LexSym(c: char, rest: string)
    requires Symbol(c)
    ensures Lex([c] + (" " + rest)) == [Sym(c)] + Lex(rest)
  {
    var u := [c] + (" " + rest);
    LexSpace(rest);
    assert u[0] == c && u[1] == ' ' && u[1..] == " " + rest;
  }

  lemma LexFirst(t: Token, rest: string)
    requires TokenOk(t)
    ensures Lex(TextOfToken(t) + (" " + rest)) == [t] + Lex(rest)
  {
    match t
    case Word(w) => LexWord(w, rest);
    case Sym(c) => LexSym(c, rest);
    case Append =>
      var u := ">>" + (" " + rest);
      LexSpace(rest);
      assert u[0] == '>' && u[1] == '>' && u[2..] == " " + rest;
  }

  lemma {:induction false} LexRender(ts: seq<Token>)
    requires forall k :: 0 <= k < |ts| ==> TokenOk(ts[k])
    ensures Lex(Render(ts)) == ts
  {
    if ts != [] {
      LexRender(ts[1..]);
      LexFirst(ts[0], Render(ts[1..]));
    }
  }

  // ------------------------------------------------------------------
  // Round trip from text

  predicate AllOk(ts: seq<Token>) {
    forall k :: 0 <= k < |ts| ==> TokenOk(ts[k])
  }

  lemma {:induction false} ExecTokens(c: Cmd<string>)
    requires TreeOk(c)
    ensures AllOk(PrintExec(c))
    decreases Size(c), Turn(c) % 4
  {
    if c.Redir? {
      ExecTokens(c.cmd);
    } else if !c.Exec? {
      LineTokens(c);
    }
  }

  lemma {:induction false} PipeTokens(c: Cmd<string>)
    requires TreeOk(c)
    ensures AllOk(PrintPipe(c))
    decreases Size(c), (1 + Turn(c)) % 4
  {
    if c.Pipe? {
      ExecTokens(c.left);
      PipeTokens(c.right);
    } else {
      ExecTokens(c);
    }
  }

  lemma {:induction false} BackTokens(c: Cmd<string>)
    requires TreeOk(c)
    ensures AllOk(PrintBack(c))
    decreases Size(c), (2 + Turn(c)) % 4
  {
    if c.Back? {
      BackTokens(c.cmd);
    } else {
      PipeTokens(c);
    }
  }

  lemma {:induction false} LineTokens(c: Cmd<string>)
    requires TreeOk(c)
    ensures AllOk(PrintLine(c))
    decreases Size(c), (3 + Turn(c)) % 4
  {
    if c.List? {
      BackTokens(c.left);
      LineTokens(c.right);
    } else {
      BackTokens(c);
    }
  }

  /** The printed form of a command. */
  function Print(c: Cmd<string>): string {
    Render(PrintLine(c))
  }

  /** What parsecmd makes of a line, if it does not panic. */
  function Parse(u: string): Parsed {
    var r := ParseLine(Lex(u));
    if r.Ok? && r.rest == [] then r else Bad
  }

  /** Printing and parsing a tree gives it back. */
  lemma RoundTrip(c: Cmd<string>)
    requires TreeOk(c)
    ensures Parse(Print(c)) == Ok(c, [])
  {
    LineTokens(c);
    LexRender(PrintLine(c));
    LineBack(c, []);
    assert PrintLine(c) + [] == PrintLine(c);
  }

  // ------------------------------------------------------------------
  // Whatever parses is such a tree

  lemma {:induction false} WrapOk(c: Cmd<string>, fs: seq<File<string>>)
    requires TreeOk(c) && forall k :: 0 <= k < |fs| ==> FileOk(fs[k])
    ensures TreeOk(Wrap(c, fs))
  {
    if fs != [] {
      WrapOk(c, fs[..|fs| - 1]);
    }
  }

  lemma {:induction false} FilesParsed(ts: seq<Token>)
    requires AllOk(ts)
    ensures var r := ParseFiles(ts); r.Files? ==> AllOk(r.rest) && forall k :: 0 <= k < |r.files| ==> FileOk(r.files[k])
    decreases |ts|
  {
    if StartsFile(ts) && |ts| > 1 && ts[1].Word? {
      FilesParsed(ts[2..]);
    }
  }

  lemma {:induction false} ArgsParsed(argv: seq<string>, fs: seq<File<string>>, ts: seq<Token>)
    requires AllOk(ts) && |argv| < MAXARGS && (forall k :: 0 <= k < |argv| ==> WordOk(argv[k])) && forall k :: 0 <= k < |fs| ==> FileOk(fs[k])
    ensures var r := ParseArgs(argv, fs, ts); r.Ok? ==> TreeOk(r.cmd) && AllOk(r.rest)
    decreases |ts|
  {
    if ts == [] || Starts(ts, "|)&;") {
      WrapOk(Exec(argv), fs);
    } else if ts[0].Word? && |argv| + 1 < MAXARGS {
      FilesParsed(ts[1..]);
      var more := ParseFiles(ts[1..]);
      if more.Files? {
        ArgsParsed(argv + [ts[0].w], fs + more.files, more.rest);
      }
    }
  }

  lemma {:induction false} ExecParsed(ts: seq<Token>)
    requires AllOk(ts)
    ensures var r := ParseExec(ts); r.Ok? ==> TreeOk(r.cmd) && AllOk(r.rest)
    decreases |ts|, 0
  {
    if Starts(ts, "(") {
      LineParsed(ts[1..]);
      var body := ParseLine(ts[1..]);
      if body.Ok? && Starts(body.rest, ")") {
        FilesParsed(body.rest[1..]);
        var more := ParseFiles(body.rest[1..]);
        if more.Files? {
          WrapOk(body.cmd, more.files);
        }
      }
    } else {
      FilesParsed(ts);
      var more := ParseFiles(ts);
      if more.Files? {
        ArgsParsed([], more.files, more.rest);
      }
    }
  }

  lemma {:induction false} PipeParsed(ts: seq<Token>)
    requires AllOk(ts)
    ensures var r := ParsePipe(ts); r.Ok? ==> TreeOk(r.cmd) && AllOk(r.rest)
    decreases |ts|, 1
  {
    ExecParsed(ts);
    var left := ParseExec(ts);
    if left.Ok? && Starts(left.rest, "|") {
      PipeParsed(left.rest[1..]);
    }
  }

  lemma {:induction false} BacksParsed(c: Cmd<string>, ts: seq<Token>)
    requires TreeOk(c) && AllOk(ts)
    ensures TreeOk(ParseBacks(c, ts).0) && AllOk(ParseBacks(c, ts).1)
    decreases |ts|
  {
    if Starts(ts, "&") {
      BacksParsed(Back(c), ts[1..]);
    }
  }

  lemma {:induction false} LineParsed(ts: seq<Token>)
    requires AllOk(ts)
    ensures var r := ParseLine(ts); r.Ok? ==> TreeOk(r.cmd) && AllOk(r.rest)
    decreases |ts|, 2
  {
    PipeParsed(ts);
    var first := ParsePipe(ts);
    if first.Ok? {
      BacksParsed(first.cmd, first.rest);
      var rest := ParseBacks(first.cmd, first.rest).1;
      if Starts(rest, ";") {
        LineParsed(rest[1..]);
      }
    }
  }

  /** Every accepted line stands for a tree with at most nine words per command, and its
      canonical form stands for the same tree. */
  lemma ParsedIsTree(u: string)
    requires Parse(u).Ok?
    ensures TreeOk(Parse(u).cmd) && Parse(Print(Parse(u).cmd)) == Parse(u)
  {
    LexOk(u);
    LineParsed(Lex(u));
    RoundTrip(Parse(u).cmd);
  }
}
