/** sh.c: command trees, the token grammar the parser accepts and a canonical printer. */
module ShellGrammar {
  const MAXARGS: nat := 10

  // Open modes of a redirection.
  const O_RDONLY: nat := 0
  const O_WRONLY_CREATE: nat := 0x201

  datatype Token = Word(w: string) | Sym(c: char) | Append

  /** struct cmd; W is what a pair of pointers into the line stands for. */
  datatype Cmd<W> =
    | Exec(argv: seq<W>)
    | Redir(cmd: Cmd<W>, file: W, mode: nat, fd: nat)
    | Pipe(left: Cmd<W>, right: Cmd<W>)
    | List(left: Cmd<W>, right: Cmd<W>)
    | Back(cmd: Cmd<W>)

  datatype File<W> = File(name: W, mode: nat, fd: nat)

  datatype Parsed = Ok(cmd: Cmd<string>, rest: seq<Token>) | Bad
  datatype ParsedFiles = Files(files: seq<File<string>>, rest: seq<Token>) | BadFile

  predicate Starts(ts: seq<Token>, cs: string) {
    ts != [] && ts[0].Sym? && ts[0].c in cs
  }

  predicate StartsFile(ts: seq<Token>) {
    ts != [] && (ts[0] == Sym('<') || ts[0] == Sym('>') || ts[0] == Append)
  }

  /** Redirections wrap a command one by one. */
  function Wrap<W>(c: Cmd<W>, fs: seq<File<W>>): Cmd<W> {
    if fs == [] then c else Redir(Wrap(c, fs[..|fs| - 1]), fs[|fs| - 1].name, fs[|fs| - 1].mode, fs[|fs| - 1].fd)
  }

  // ------------------------------------------------------------------
  // Parsing tokens

  function FileOf(t: Token, name: string): File<string> {
    if t == Sym('<') then File(name, O_RDONLY, 0) else File(name, O_WRONLY_CREATE, 1)
  }

  /** parseredirs. */
  function ParseFiles(ts: seq<Token>): (r: ParsedFiles)
    ensures r.Files? ==> |r.rest| + |r.files| <= |ts| && !StartsFile(r.rest)
    decreases |ts|
  {
    if !StartsFile(ts) then Files([], ts)
    else if |ts| == 1 || !ts[1].Word? then BadFile
    else
      var more := ParseFiles(ts[2..]);
      if more.BadFile? then BadFile else Files([FileOf(ts[0], ts[1].w)] + more.files, more.rest)
  }

  /** The loop of parseexec, with the words and redirections seen so far. */
  function ParseArgs(argv: seq<string>, fs: seq<File<string>>, ts: seq<Token>): (r: Parsed)
    ensures r.Ok? ==> |r.rest| <= |ts|
    decreases |ts|
  {
    if ts == [] || Starts(ts, "|)&;") then Ok(Wrap(Exec(argv), fs), ts)
    else if !ts[0].Word? || |argv| + 1 >= MAXARGS then Bad
    else
      var more := ParseFiles(ts[1..]);
      if more.BadFile? then Bad else ParseArgs(argv + [ts[0].w], fs + more.files, more.rest)
  }

  /** parseexec and parseblock. */
  function ParseExec(ts: seq<Token>): (r: Parsed)
    ensures r.Ok? ==> |r.rest| <= |ts|
    decreases |ts|, 0
  {
    if Starts(ts, "(") then
      var body := ParseLine(ts[1..]);
      if body.Bad? || !Starts(body.rest, ")") then Bad
      else
        var more := ParseFiles(body.rest[1..]);
        if more.BadFile? then Bad else Ok(Wrap(body.cmd, more.files), more.rest)
    else
      var more := ParseFiles(ts);
      if more.BadFile? then Bad else ParseArgs([], more.files, more.rest)
  }

  /** parsepipe. */
  function ParsePipe(ts: seq<Token>): (r: Parsed)
    ensures r.Ok? ==> |r.rest| <= |ts|
    decreases |ts|, 1
  {
    var left := ParseExec(ts);
    if left.Bad? || !Starts(left.rest, "|") then left
    else
      var right := ParsePipe(left.rest[1..]);
      if right.Bad? then Bad else Ok(Pipe(left.cmd, right.cmd), right.rest)
  }

  /** The loop of parseline. */
  function ParseBacks(c: Cmd<string>, ts: seq<Token>): (r: (Cmd<string>, seq<Token>))
    ensures |r.1| <= |ts| && !Starts(r.1, "&")
    decreases |ts|
  {
    if Starts(ts, "&") then ParseBacks(Back(c), ts[1..]) else (c, ts)
  }

  /** parseline. */
  function ParseLine(ts: seq<Token>): (r: Parsed)
    ensures r.Ok? ==> |r.rest| <= |ts|
    decreases |ts|, 2
  {
    var first := ParsePipe(ts);
    if first.Bad? then Bad
    else
      var (c, rest) := ParseBacks(first.cmd, first.rest);
      if !Starts(rest, ";") then Ok(c, rest)
      else
        var more := ParseLine(rest[1..]);
        if more.Bad? then Bad else Ok(List(c, more.cmd), more.rest)
  }

  // ------------------------------------------------------------------
  // Trees and their printed form

  predicate Special(c: char) {
    c in " \t\r\n\U{0B}" || c in "<|>&;()" || c == '\0'
  }

  predicate WordOk(w: string) {
    w != "" && forall k :: 0 <= k < |w| ==> !Special(w[k])
  }

  predicate FileOk(f: File<string>) {
    WordOk(f.name) && ((f.mode == O_RDONLY && f.fd == 0) || (f.mode == O_WRONLY_CREATE && f.fd == 1))
  }

  /** The trees the shell can build. */
  predicate TreeOk(c: Cmd<string>) {
    match c
    case Exec(argv) => |argv| < MAXARGS && forall k :: 0 <= k < |argv| ==> WordOk(argv[k])
    case Redir(d, file, mode, fd) => TreeOk(d) && FileOk(File(file, mode, fd))
    case Pipe(l, r) => TreeOk(l) && TreeOk(r)
    case List(l, r) => TreeOk(l) && TreeOk(r)
    case Back(d) => TreeOk(d)
  }

  function Words(argv: seq<string>): (ts: seq<Token>)
    ensures |ts| == |argv| && forall k :: 0 <= k < |argv| ==> ts[k] == Word(argv[k])
  {
    seq(|argv|, k requires 0 <= k < |argv| => Word(argv[k]))
  }

  function PrintFile(f: File<string>): seq<Token> {
    [Sym(if f.mode == O_RDONLY then '<' else '>'), Word(f.name)]
  }

  function Size(c: Cmd<string>): nat {
    match c
    case Exec(argv) => 1
    case Redir(d, _, _, _) => 1 + Size(d)
    case Pipe(l, r) => 1 + Size(l) + Size(r)
    case List(l, r) => 1 + Size(l) + Size(r)
    case Back(d) => 1 + Size(d)
  }

  /** Which of the four printers comes last for this kind of command. */
  function Turn(c: Cmd<string>): nat {
    match c
    case Exec(_) => 0
    case Redir(_, _, _, _) => 0
    case List(_, _) => 1
    case Back(_) => 2
    case Pipe(_, _) => 3
  }

  /** A command where the grammar wants a simple one; parentheses around anything else. */
  function PrintExec(c: Cmd<string>): seq<Token>
    decreases Size(c), Turn(c) % 4
  {
    match c
    case Exec(argv) => Words(argv)
    case Redir(d, file, mode, fd) => PrintExec(d) + PrintFile(File(file, mode, fd))
    case _ => [Sym('(')] + PrintLine(c) + [Sym(')')]
  }

  function PrintPipe(c: Cmd<string>): seq<Token>
    decreases Size(c), (1 + Turn(c)) % 4
  {
    if c.Pipe? then PrintExec(c.left) + ([Sym('|')] + PrintPipe(c.right)) else PrintExec(c)
  }

  function PrintBack(c: Cmd<string>): seq<Token>
    decreases Size(c), (2 + Turn(c)) % 4
  {
    if c.Back? then PrintBack(c.cmd) + [Sym('&')] else PrintPipe(c)
  }

  /** The canonical form. */
  function PrintLine(c: Cmd<string>): seq<Token>
    decreases Size(c), (3 + Turn(c)) % 4
  {
    if c.List? then PrintBack(c.left) + ([Sym(';')] + PrintLine(c.right)) else PrintBack(c)
  }

  // ------------------------------------------------------------------
  // Round trip

  /** Redirections from the inside out, and what they wrap. */
  function FilesOf(c: Cmd<string>): seq<File<string>> {
    if c.Redir? then FilesOf(c.cmd) + [File(c.file, c.mode, c.fd)] else []
  }

  function Core(c: Cmd<string>): (b: Cmd<string>)
    ensures !b.Redir? && Size(b) <= Size(c)
  {
    if c.Redir? then Core(c.cmd) else c
  }

  function PrintFiles(fs: seq<File<string>>): seq<Token> {
    if fs == [] then [] else PrintFile(fs[0]) + PrintFiles(fs[1..])
  }

  lemma {:induction false} PrintFilesSnoc(fs: seq<File<string>>, f: File<string>)
    ensures PrintFiles(fs + [f]) == PrintFiles(fs) + PrintFile(f)
  {
    if fs == [] {
      assert fs + [f] == [f] && [f][1..] == [];
    } else {
      PrintFilesSnoc(fs[1..], f);
      assert (fs + [f])[1..] == fs[1..] + [f];
    }
  }

  lemma Assoc(a: seq<Token>, b: seq<Token>, c: seq<Token>)
    ensures a + b + c == a + (b + c)
  {
  }

  lemma {:induction false} CorePrints(c: Cmd<string>)
    ensures PrintExec(c) == PrintExec(Core(c)) + PrintFiles(FilesOf(c))
  {
    if c.Redir? {
      CorePrints(c.cmd);
      PrintFilesSnoc(FilesOf(c.cmd), File(c.file, c.mode, c.fd));
      Assoc(PrintExec(Core(c)), PrintFiles(FilesOf(c.cmd)), PrintFile(File(c.file, c.mode, c.fd)));
    } else {
      assert PrintExec(c) + [] == PrintExec(c);
    }
  }

  lemma {:induction false} CoreAndFiles(c: Cmd<string>)
    ensures Wrap(Core(c), FilesOf(c)) == c
    ensures TreeOk(c) ==> TreeOk(Core(c)) && forall k :: 0 <= k < |FilesOf(c)| ==> FileOk(FilesOf(c)[k])
  {
    if c.Redir? {
      CoreAndFiles(c.cmd);
      var fs, f := FilesOf(c.cmd), File(c.file, c.mode, c.fd);
      assert (fs + [f])[..|fs|] == fs;
    }
  }

  lemma {:induction false} FilesBack(fs: seq<File<string>>, k: seq<Token>)
    requires (forall m :: 0 <= m < |fs| ==> FileOk(fs[m])) && !StartsFile(k)
    ensures ParseFiles(PrintFiles(fs) + k) == Files(fs, k)
    decreases |fs|
  {
    if fs == [] {
      assert [] + k == k;
    } else {
      FilesBack(fs[1..], k);
      var ts := PrintFiles(fs) + k;
      assert ts == PrintFile(fs[0]) + (PrintFiles(fs[1..]) + k);
      assert ts[2..] == PrintFiles(fs[1..]) + k;
      assert FileOf(ts[0], ts[1].w) == fs[0];
      assert [fs[0]] + fs[1..] == fs;
    }
  }

  predicate Stops(k: seq<Token>, cs: string) {
    k == [] || Starts(k, cs)
  }

  lemma ArgsStep(argv: seq<string>, fs: seq<File<string>>, w: string, ts: seq<Token>, more: seq<File<string>>, rest: seq<Token>)
    requires |argv| + 1 < MAXARGS && ParseFiles(ts) == Files(more, rest)
    ensures ParseArgs(argv, fs, [Word(w)] + ts) == ParseArgs(argv + [w], fs + more, rest)
  {
    assert ([Word(w)] + ts)[1..] == ts;
  }

  lemma WordFirst(argv: seq<string>, tail: seq<Token>)
    requires argv != []
    ensures Words(argv) + tail == [Word(argv[0])] + (Words(argv[1..]) + tail)
    ensures ParseFiles(Words(argv) + tail) == Files([], Words(argv) + tail)
  {
  }

  /** The words still to come, then the redirections. */
  lemma {:induction false} ArgsBack(argv: seq<string>, more: seq<string>, fs: seq<File<string>>, tail: seq<Token>, k: seq<Token>)
    requires |argv| + |more| < MAXARGS && more != [] && Stops(k, "|)&;") && ParseFiles(tail) == Files(fs, k)
    ensures ParseArgs(argv, [], Words(more) + tail) == Ok(Wrap(Exec(argv + more), fs), k)
    decreases |more|
  {
    var w, rest := more[0], more[1..];
    var none: seq<File<string>> := [];
    WordFirst(more, tail);
    assert argv + [w] + rest == argv + more;
    if rest == [] {
      assert Words(rest) + tail == tail;
      ArgsStep(argv, none, w, tail, fs, k);
      assert argv + [w] == argv + more;
      assert none + fs == fs;
    } else {
      WordFirst(rest, tail);
      ArgsStep(argv, none, w, Words(rest) + tail, none, Words(rest) + tail);
      assert none + none == none;
      ArgsBack(argv + [w], rest, fs, tail, k);
    }
  }

  lemma NoParen(fs: seq<File<string>>, k: seq<Token>)
    requires Stops(k, "|)&;")
    ensures !Starts(PrintFiles(fs) + k, "(") && !StartsFile(k)
  {
  }

  lemma SimpleBack(argv: seq<string>, fs: seq<File<string>>, k: seq<Token>)
    requires |argv| < MAXARGS && Stops(k, "|)&;") && forall m :: 0 <= m < |fs| ==> FileOk(fs[m])
    ensures ParseExec(Words(argv) + (PrintFiles(fs) + k)) == Ok(Wrap(Exec(argv), fs), k)
  {
    var tail := PrintFiles(fs) + k;
    NoParen(fs, k);
    FilesBack(fs, k);
    if argv == [] {
      assert Words(argv) + tail == tail;
    } else {
      WordFirst(argv, tail);
      ArgsBack([], argv, fs, tail, k);
      assert [] + argv == argv;
    }
  }

  lemma BlockBack(b: Cmd<string>, body: seq<Token>, fs: seq<File<string>>, k: seq<Token>)
    requires Stops(k, "|)&;") && forall m :: 0 <= m < |fs| ==> FileOk(fs[m])
    requires ParseLine(body + ([Sym(')')] + (PrintFiles(fs) + k))) == Ok(b, [Sym(')')] + (PrintFiles(fs) + k))
    ensures ParseExec([Sym('(')] + body + [Sym(')')] + PrintFiles(fs) + k) == Ok(Wrap(b, fs), k)
  {
    var ts, tail := [Sym('(')] + body + [Sym(')')] + PrintFiles(fs) + k, [Sym(')')] + (PrintFiles(fs) + k);
    assert ts[1..] == body + tail;
    assert tail[1..] == PrintFiles(fs) + k;
    NoParen(fs, k);
    FilesBack(fs, k);
  }

  lemma {:induction false} ExecBack(c: Cmd<string>, k: seq<Token>)
    requires TreeOk(c) && Stops(k, "|)&;")
    ensures ParseExec(PrintExec(c) + k) == Ok(c, k)
    decreases Size(c), if Core(c).Exec? then 0 else Turn(c) % 4
  {
    CoreAndFiles(c);
    CorePrints(c);
    var b, fs := Core(c), FilesOf(c);
    if b.Exec? {
      SimpleBack(b.argv, fs, k);
      Assoc(Words(b.argv), PrintFiles(fs), k);
    } else {
      LineBack(b, [Sym(')')] + (PrintFiles(fs) + k));
      BlockBack(b, PrintLine(b), fs, k);
    }
  }

  lemma {:induction false} PipeBack(c: Cmd<string>, k: seq<Token>)
    requires TreeOk(c) && Stops(k, ")&;")
    ensures ParsePipe(PrintPipe(c) + k) == Ok(c, k)
    decreases Size(c), (1 + Turn(c)) % 4
  {
    if c.Pipe? {
      var tail := [Sym('|')] + (PrintPipe(c.right) + k);
      Assoc(PrintExec(c.left), [Sym('|')] + PrintPipe(c.right), k);
      Assoc([Sym('|')], PrintPipe(c.right), k);
      ExecBack(c.left, tail);
      assert tail[1..] == PrintPipe(c.right) + k;
      PipeBack(c.right, k);
    } else {
      ExecBack(c, k);
    }
  }

  /** A pipeline and its ampersands. */
  lemma {:induction false} BackBack(c: Cmd<string>, k: seq<Token>)
    requires TreeOk(c) && Stops(k, ")&;")
    ensures var first := ParsePipe(PrintBack(c) + k);
            first.Ok? && ParseBacks(first.cmd, first.rest) == ParseBacks(c, k)
    decreases Size(c), (2 + Turn(c)) % 4
  {
    if c.Back? {
      Assoc(PrintBack(c.cmd), [Sym('&')], k);
      BackBack(c.cmd, [Sym('&')] + k);
      assert ([Sym('&')] + k)[1..] == k;
    } else {
      PipeBack(c, k);
    }
  }

  /** Parsing the canonical form of a tree gives the tree back. */
  lemma {:induction false} LineBack(c: Cmd<string>, k: seq<Token>)
    requires TreeOk(c) && Stops(k, ")")
    ensures ParseLine(PrintLine(c) + k) == Ok(c, k)
    decreases Size(c), (3 + Turn(c)) % 4
  {
    if c.List? {
      var tail := [Sym(';')] + (PrintLine(c.right) + k);
      Assoc(PrintBack(c.left), [Sym(';')] + PrintLine(c.right), k);
      Assoc([Sym(';')], PrintLine(c.right), k);
      BackBack(c.left, tail);
      assert tail[1..] == PrintLine(c.right) + k;
      LineBack(c.right, k);
    } else {
      BackBack(c, k);
    }
  }
}
