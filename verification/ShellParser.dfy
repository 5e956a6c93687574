/** sh.c: the recursive-descent parser over the characters of a line, and nulterminate. */
module ShellParser {
  import opened Wrappers
  import opened ShellGrammar
  import opened ShellLexer

  /** A pair of pointers into the line: a token from q up to eq. */
  datatype Span = Span(q: nat, eq: nat)

  predicate NoNul(s: string) {
    forall k :: 0 <= k < |s| ==> s[k] != '\0'
  }

  /** A whole word of the line. */
  predicate WordAt(s: string, sp: Span) {
    && sp.q < sp.eq <= |s| && (forall k :: sp.q <= k < sp.eq ==> !Special(s[k]))
    && (sp.eq < |s| ==> Special(s[sp.eq]))
  }

  function Text(s: string, sp: Span): string {
    if sp.q <= sp.eq <= |s| then s[sp.q..sp.eq] else ""
  }

  function Texts(s: string, argv: seq<Span>): (r: seq<string>)
    ensures |r| == |argv|
  {
    seq(|argv|, k requires 0 <= k < |argv| => Text(s, argv[k]))
  }

  /** The tree with each pair of pointers replaced by its characters. */
  function TextOf(s: string, c: Cmd<Span>): Cmd<string> {
    match c
    case Exec(argv) => Exec(Texts(s, argv))
    case Redir(d, file, mode, fd) => Redir(TextOf(s, d), Text(s, file), mode, fd)
    case Pipe(l, r) => Pipe(TextOf(s, l), TextOf(s, r))
    case List(l, r) => List(TextOf(s, l), TextOf(s, r))
    case Back(d) => Back(TextOf(s, d))
  }

  predicate SpansOk(s: string, c: Cmd<Span>) {
    match c
    case Exec(argv) => forall k :: 0 <= k < |argv| ==> WordAt(s, argv[k])
    case Redir(d, file, _, _) => SpansOk(s, d) && WordAt(s, file)
    case Pipe(l, r) => SpansOk(s, l) && SpansOk(s, r)
    case List(l, r) => SpansOk(s, l) && SpansOk(s, r)
    case Back(d) => SpansOk(s, d)
  }

  function TextFiles(s: string, fs: seq<File<Span>>): (r: seq<File<string>>)
    ensures |r| == |fs|
  {
    seq(|fs|, k requires 0 <= k < |fs| => TextFile(s, fs[k]))
  }

  predicate FilesOk(s: string, fs: seq<File<Span>>) {
    forall k :: 0 <= k < |fs| ==> WordAt(s, fs[k].name)
  }

  lemma {:induction false} WrapText(s: string, c: Cmd<Span>, fs: seq<File<Span>>)
    ensures TextOf(s, Wrap(c, fs)) == Wrap(TextOf(s, c), TextFiles(s, fs))
    ensures SpansOk(s, c) && FilesOk(s, fs) ==> SpansOk(s, Wrap(c, fs))
  {
    if fs != [] {
      var n := |fs| - 1;
      WrapText(s, c, fs[..n]);
      assert TextFiles(s, fs)[..n] == TextFiles(s, fs[..n]);
    }
  }

  function TextFile(s: string, f: File<Span>): File<string> {
    File(Text(s, f.name), f.mode, f.fd)
  }

  lemma FilesSnoc(s: string, fs: seq<File<Span>>, f: File<Span>)
    ensures TextFiles(s, fs + [f]) == TextFiles(s, fs) + [TextFile(s, f)]
  {
  }

  function Prepend(fs: seq<File<string>>, r: ParsedFiles): ParsedFiles {
    if r.BadFile? then r else Files(fs + r.files, r.rest)
  }

  lemma PrependMore(fs: seq<File<string>>, ts: seq<Token>, f: File<string>)
    requires StartsFile(ts) && |ts| > 1 && ts[1].Word? && f == FileOf(ts[0], ts[1].w)
    ensures Prepend(fs, ParseFiles(ts)) == Prepend(fs + [f], ParseFiles(ts[2..]))
  {
    var more := ParseFiles(ts[2..]);
    if more.Files? {
      assert fs + ([f] + more.files) == fs + [f] + more.files;
    }
  }

  // ------------------------------------------------------------------
  // gettoken and peek

  /** gettoken's result for a token: 'a' for a word, '+' for >>. */
  function Kind(t: Token): char {
    match t
    case Word(_) => 'a'
    case Append => '+'
    case Sym(c) => c
  }

  /** peek's answer: the next character is one of toks. */
  predicate Next(ts: seq<Token>, toks: string) {
    Starts(ts, toks) || (ts != [] && ts[0].Append? && '>' in toks)
  }

  lemma NextFile(ts: seq<Token>)
    ensures Next(ts, "<>") <==> StartsFile(ts)
  {
  }

  lemma PrependNone(s: string, r: ParsedFiles)
    ensures Prepend(TextFiles(s, []), r) == r
  {
  }

  /** A parser function did what the token grammar says; None is a panic. */
  predicate Agrees(s: string, r: Option<Cmd<Span>>, rest: seq<Token>, spec: Parsed) {
    match spec
    case Bad => r.None?
    case Ok(c, k) => r.Some? && TextOf(s, r.value) == c && SpansOk(s, r.value) && rest == k
  }

  lemma TextsSnoc(s: string, argv: seq<Span>, sp: Span)
    ensures Texts(s, argv + [sp]) == Texts(s, argv) + [Text(s, sp)]
  {
  }

  lemma FilesJoin(s: string, fs: seq<File<Span>>, more: seq<File<Span>>)
    ensures TextFiles(s, fs + more) == TextFiles(s, fs) + TextFiles(s, more)
  {
  }

  lemma NextIs(ts: seq<Token>, toks: string)
    requires '>' !in toks
    ensures Next(ts, toks) <==> Starts(ts, toks)
  {
  }

  class Parser {
    const s: string
    var ps: nat

    predicate Valid()
      reads this
    {
      ps <= |s| && NoNul(s)
    }

    /** The tokens not yet read. */
    function Rest(): seq<Token>
      requires Valid()
      reads this
    {
      Lex(s[ps..])
    }

    constructor (line: string)
      requires NoNul(line)
      ensures Valid() && s == line && ps == 0
    {
      s, ps := line, 0;
    }

    method SkipWhite(from: nat) returns (p: nat)
      requires NoNul(s) && from <= |s|
      ensures from <= p <= |s| && Lex(s[p..]) == Lex(s[from..]) && (p < |s| ==> !White(s[p]))
    {
      p := from;
      while p < |s| && White(s[p])
        invariant from <= p <= |s| && Lex(s[p..]) == Lex(s[from..])
      {
        assert s[p..][1..] == s[p + 1..];
        p := p + 1;
      }
    }

    /** The inner loop of gettoken over a word. */
    method SkipWord(from: nat) returns (p: nat)
      requires NoNul(s) && from <= |s|
      ensures from <= p <= |s| && p - from == WordLen(s[from..])
    {
      p := from;
      while p < |s| && !White(s[p]) && !Symbol(s[p])
        invariant from <= p <= |s| && WordLen(s[from..]) == p - from + WordLen(s[p..])
      {
        assert s[p..][1..] == s[p + 1..];
        p := p + 1;
      }
    }

    /** gettoken: the next token, '\0' at the end. */
    method GetToken() returns (tok: char, sp: Span)
      requires Valid()
      modifies this
      ensures Valid()
      ensures old(Rest()) == [] ==> tok == '\0' && Rest() == [] && ps == |s|
      ensures old(Rest()) != [] ==>
                && tok == Kind(old(Rest())[0]) != '\0' && Rest() == old(Rest())[1..]
                && (tok == 'a' <==> old(Rest())[0].Word?)
                && (old(Rest())[0].Word? ==> WordAt(s, sp) && Text(s, sp) == old(Rest())[0].w)
    {
      var p := SkipWhite(ps);
      var q := p;
      if p == |s| {
        ps := p;
        return '\0', Span(q, p);
      }
      var u := s[p..];
      var c := s[p];
      if c == '>' {
        p := p + 1;
        assert s[p..] == u[1..];
        if p < |s| && s[p] == '>' {
          c, p := '+', p + 1;
          assert s[p..] == u[2..];
        }
      } else if Symbol(c) {
        p := p + 1;
        assert s[p..] == u[1..];
      } else {
        c := 'a';
        p := SkipWord(p);
        assert s[p..] == u[WordLen(u)..] && s[q..p] == u[..WordLen(u)];
      }
      var end := SkipWhite(p);
      ps := end;
      return c, Span(q, p);
    }

    /** peek. */
    method Peek(toks: string) returns (b: bool)
      requires Valid() && forall k :: 0 <= k < |toks| ==> Symbol(toks[k])
      modifies this
      ensures Valid() && Rest() == old(Rest()) && b == Next(Rest(), toks) && (Rest() == [] ==> ps == |s|)
    {
      ps := SkipWhite(ps);
      b := ps < |s| && s[ps] in toks;
    }

    /** One round of parseredirs. */
    method ParseRedir() returns (r: Option<File<Span>>)
      requires Valid() && StartsFile(Rest())
      modifies this
      ensures Valid() && (r.Some? <==> |old(Rest())| > 1 && old(Rest())[1].Word?)
      ensures r.Some? ==> Rest() == old(Rest())[2..] && WordAt(s, r.value.name)
                          && TextFile(s, r.value) == FileOf(old(Rest())[0], old(Rest())[1].w)
    {
      var tok, _ := GetToken();
      var a, sp := GetToken();
      if a != 'a' {
        return None;
      }
      return Some(if tok == '<' then File(sp, O_RDONLY, 0) else File(sp, O_WRONLY_CREATE, 1));
    }

    /** The redirections fs have been read, and the loop goes on if `more`. */
    ghost predicate RedirsSoFar(whole: ParsedFiles, fs: seq<File<Span>>, more: bool)
      reads this
    {
      && Valid() && FilesOk(s, fs) && more == Next(Rest(), "<>")
      && whole == Prepend(TextFiles(s, fs), ParseFiles(Rest()))
    }

    /** One round of parseredirs' loop. */
    method NextRedir(fs: seq<File<Span>>, ghost whole: ParsedFiles) returns (f: Option<File<Span>>, more: bool)
      requires RedirsSoFar(whole, fs, true)
      modifies this
      ensures Valid() && (f.None? ==> !whole.Files?)
      ensures f.Some? ==> RedirsSoFar(whole, fs + [f.value], more) && |Rest()| < |old(Rest())|
    {
      ghost var ts := Rest();
      NextFile(ts);
      f := ParseRedir();
      if f.None? {
        return f, false;
      }
      FilesSnoc(s, fs, f.value);
      PrependMore(TextFiles(s, fs), ts, TextFile(s, f.value));
      more := Peek("<>");
    }

    /** parseredirs: the redirections here, in order. */
    method ParseRedirs() returns (r: Option<seq<File<Span>>>)
      requires Valid()
      modifies this
      ensures Valid() && (r.Some? <==> ParseFiles(old(Rest())).Files?)
      ensures r.Some? ==> FilesOk(s, r.value) && Files(TextFiles(s, r.value), Rest()) == ParseFiles(old(Rest()))
    {
      var fs: seq<File<Span>> := [];
      ghost var whole := ParseFiles(Rest());
      PrependNone(s, whole);
      var more := Peek("<>");
      while more
        invariant RedirsSoFar(whole, fs, more)
        decreases |Rest()|
      {
        var f;
        f, more := NextRedir(fs, whole);
        if f.None? {
          return None;
        }
        fs := fs + [f.value];
      }
      NextFile(Rest());
      return Some(fs);
    }

    /** One round of parseexec's loop: a word and the redirections after it. */
    method ParseArg(argc: nat) returns (sp: Span, r: Option<seq<File<Span>>>)
      requires Valid() && Rest() != [] && !Starts(Rest(), "|)&;")
      modifies this
      ensures Valid()
      ensures var ts := old(Rest());
              var more := ParseFiles(ts[1..]);
              && (r.Some? <==> ts[0].Word? && argc + 1 < MAXARGS && more.Files?)
              && (r.Some? ==> WordAt(s, sp) && Text(s, sp) == ts[0].w && FilesOk(s, r.value)
                              && Files(TextFiles(s, r.value), Rest()) == more)
    {
      var tok;
      tok, sp := GetToken();
      if tok != 'a' {
        return sp, None;
      }
      if argc + 1 >= MAXARGS {
        return sp, None;
      }
      r := ParseRedirs();
    }

    /** parseexec's loop. */
    method ParseWords(first: seq<File<Span>>) returns (r: Option<Cmd<Span>>)
      requires Valid() && FilesOk(s, first)
      modifies this
      ensures Valid() && Agrees(s, r, Rest(), ParseArgs([], TextFiles(s, first), old(Rest())))
    {
      var argv: seq<Span>, fs := [], first;
      ghost var spec := ParseArgs([], TextFiles(s, first), Rest());
      assert Texts(s, argv) == [];
      var stop := Peek("|)&;");
      NextIs(Rest(), "|)&;");
      while !stop && ps < |s|
        invariant Valid() && FilesOk(s, fs) && (forall k :: 0 <= k < |argv| ==> WordAt(s, argv[k]))
        invariant |argv| < MAXARGS && stop == Starts(Rest(), "|)&;") && (Rest() == [] <==> ps == |s|)
        invariant spec == ParseArgs(Texts(s, argv), TextFiles(s, fs), Rest())
        decreases |Rest()|
      {
        ghost var ts := Rest();
        var sp, more := ParseArg(|argv|);
        if more.None? {
          return None;
        }
        TextsSnoc(s, argv, sp);
        FilesJoin(s, fs, more.value);
        argv, fs := argv + [sp], fs + more.value;
        stop := Peek("|)&;");
        NextIs(Rest(), "|)&;");
      }
      WrapText(s, Exec(argv), fs);
      return Some(Wrap(Exec(argv), fs));
    }

    /** parseexec. */
    method ParseExec() returns (r: Option<Cmd<Span>>)
      requires Valid()
      modifies this
      ensures Valid() && Agrees(s, r, Rest(), ShellGrammar.ParseExec(old(Rest())))
      decreases |Rest()|, 1
    {
      var block := Peek("(");
      NextIs(Rest(), "(");
      if block {
        r := ParseBlock();
        return;
      }
      var fs := ParseRedirs();
      if fs.None? {
        return None;
      }
      r := ParseWords(fs.value);
    }

    /** parseblock. */
    method ParseBlock() returns (r: Option<Cmd<Span>>)
      requires Valid() && Starts(Rest(), "(")
      modifies this
      ensures Valid() && Agrees(s, r, Rest(), ShellGrammar.ParseExec(old(Rest())))
      decreases |Rest()|, 0
    {
      ghost var ts := Rest();
      var _, _ := GetToken();
      var body := ParseLine();
      if body.None? {
        return None;
      }
      var close := Peek(")");
      NextIs(Rest(), ")");
      if !close {
        return None;
      }
      var _, _ := GetToken();
      var fs := ParseRedirs();
      if fs.None? {
        return None;
      }
      WrapText(s, body.value, fs.value);
      return Some(Wrap(body.value, fs.value));
    }

    /** parsepipe. */
    method ParsePipe() returns (r: Option<Cmd<Span>>)
      requires Valid()
      modifies this
      ensures Valid() && Agrees(s, r, Rest(), ShellGrammar.ParsePipe(old(Rest())))
      decreases |Rest()|, 2
    {
      var left := ParseExec();
      if left.None? {
        return None;
      }
      var bar := Peek("|");
      NextIs(Rest(), "|");
      if !bar {
        return left;
      }
      var _, _ := GetToken();
      var right := ParsePipe();
      if right.None? {
        return None;
      }
      return Some(Pipe(left.value, right.value));
    }

    /** The loop of parseline over ampersands. */
    method ParseAmps(c: Cmd<Span>) returns (r: Cmd<Span>)
      requires Valid() && SpansOk(s, c)
      modifies this
      ensures Valid() && SpansOk(s, r) && (TextOf(s, r), Rest()) == ParseBacks(TextOf(s, c), old(Rest()))
    {
      r := c;
      ghost var spec := ParseBacks(TextOf(s, c), Rest());
      var amp := Peek("&");
      NextIs(Rest(), "&");
      while amp
        invariant Valid() && SpansOk(s, r) && amp == Starts(Rest(), "&")
        invariant spec == ParseBacks(TextOf(s, r), Rest())
        decreases |Rest()|
      {
        var _, _ := GetToken();
        r := Back(r);
        amp := Peek("&");
        NextIs(Rest(), "&");
      }
    }

    /** parseline. */
    method ParseLine() returns (r: Option<Cmd<Span>>)
      requires Valid()
      modifies this
      ensures Valid() && Agrees(s, r, Rest(), ShellGrammar.ParseLine(old(Rest())))
      decreases |Rest()|, 3
    {
      var first := ParsePipe();
      if first.None? {
        return None;
      }
      var c := ParseAmps(first.value);
      var semi := Peek(";");
      NextIs(Rest(), ";");
      if !semi {
        return Some(c);
      }
      var _, _ := GetToken();
      var more := ParseLine();
      if more.None? {
        return None;
      }
      return Some(List(c, more.value));
    }
  }
}
