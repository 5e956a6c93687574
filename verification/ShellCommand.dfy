/** sh.c: nulterminate and parsecmd on the line buffer. */
module ShellCommand {
  import opened Wrappers
  import opened ShellGrammar
  import opened ShellLexer
  import opened ShellParser

  /** The C string at q. */
  function CStr(b: seq<char>, q: nat): string
    decreases |b| - q
  {
    if q >= |b| || b[q] == '\0' then "" else [b[q]] + CStr(b, q + 1)
  }

  function Strings(b: seq<char>, argv: seq<Span>): (r: seq<string>)
    ensures |r| == |argv|
  {
    seq(|argv|, k requires 0 <= k < |argv| => CStr(b, argv[k].q))
  }

  /** The tree as runcmd sees it: argv and file point at C strings in the buffer. */
  function Seen(b: seq<char>, c: Cmd<Span>): Cmd<string> {
    match c
    case Exec(argv) => Exec(Strings(b, argv))
    case Redir(d, file, mode, fd) => Redir(Seen(b, d), CStr(b, file.q), mode, fd)
    case Pipe(l, r) => Pipe(Seen(b, l), Seen(b, r))
    case List(l, r) => List(Seen(b, l), Seen(b, r))
    case Back(d) => Back(Seen(b, d))
  }

  /** The ends of the tree's tokens. */
  ghost function Ends(c: Cmd<Span>): set<nat> {
    match c
    case Exec(argv) => set k | 0 <= k < |argv| :: argv[k].eq
    case Redir(d, file, _, _) => Ends(d) + {file.eq}
    case Pipe(l, r) => Ends(l) + Ends(r)
    case List(l, r) => Ends(l) + Ends(r)
    case Back(d) => Ends(d)
  }

  /** buf is line with a NUL at each end. */
  ghost predicate Cut(line: seq<char>, buf: seq<char>, ends: set<nat>) {
    |buf| == |line| && forall k :: 0 <= k < |line| ==> buf[k] == if k in ends then '\0' else line[k]
  }

  /** nulterminate writes NULs at the ends of the tokens and nowhere else. */
  method Nulterminate(buf: array<char>, c: Cmd<Span>, ghost s: string)
    requires SpansOk(s, c) && |s| < buf.Length
    modifies buf
    ensures Cut(old(buf[..]), buf[..], Ends(c))
    decreases c
  {
    match c
    case Exec(argv) =>
      var i := 0;
      while i < |argv|
        invariant i <= |argv| && Cut(old(buf[..]), buf[..], set k | 0 <= k < i :: argv[k].eq)
      {
        assert WordAt(s, argv[i]);
        buf[argv[i].eq] := '\0';
        i := i + 1;
      }
    case Redir(d, file, _, _) =>
      Nulterminate(buf, d, s);
      buf[file.eq] := '\0';
    case Pipe(l, r) =>
      Nulterminate(buf, l, s);
      Nulterminate(buf, r, s);
    case List(l, r) =>
      Nulterminate(buf, l, s);
      Nulterminate(buf, r, s);
    case Back(d) =>
      Nulterminate(buf, d, s);
  }

  // ------------------------------------------------------------------
  // Every pointer denotes its token

  /** No end of a token lies inside a word of the line. */
  ghost predicate EndsOk(s: string, ends: set<nat>) {
    forall e :: e in ends ==> e == |s| || (e < |s| && Special(s[e]))
  }

  lemma {:induction false} TreeEnds(s: string, c: Cmd<Span>)
    requires SpansOk(s, c)
    ensures EndsOk(s, Ends(c))
  {
    match c
    case Exec(argv) =>
    case Redir(d, file, _, _) => TreeEnds(s, d);
    case Pipe(l, r) => TreeEnds(s, l); TreeEnds(s, r);
    case List(l, r) => TreeEnds(s, l); TreeEnds(s, r);
    case Back(d) => TreeEnds(s, d);
  }

  /** The buffer b holds the line s. */
  predicate IsLine(b: seq<char>, s: string) {
    |s| < |b| && b[..|s|] == s && b[|s|] == '\0' && NoNul(s)
  }

  lemma {:induction false} LineIs(b: seq<char>, n: nat, q: nat)
    requires n < |b| && b[n] == '\0' && NoNul(b[..n]) && q <= n
    ensures CStr(b, q) == b[q..n]
    decreases n - q
  {
    if q < n {
      assert b[..n][q] != '\0';
      LineIs(b, n, q + 1);
    }
  }

  lemma {:induction false} CStrFrom(s: string, b: seq<char>, buf: seq<char>, ends: set<nat>, sp: Span, q: nat)
    requires IsLine(b, s) && Cut(b, buf, ends) && EndsOk(s, ends) && WordAt(s, sp) && sp.eq in ends && sp.q <= q <= sp.eq
    ensures CStr(buf, q) == s[q..sp.eq]
    decreases sp.eq - q
  {
    if q < sp.eq {
      assert q !in ends;
      assert buf[q] == b[q] == b[..|s|][q] == s[q];
      CStrFrom(s, b, buf, ends, sp, q + 1);
    } else {
      assert buf[q] == '\0';
    }
  }

  lemma {:induction false} SeenIsText(s: string, b: seq<char>, buf: seq<char>, ends: set<nat>, c: Cmd<Span>)
    requires IsLine(b, s) && Cut(b, buf, ends) && EndsOk(s, ends) && SpansOk(s, c) && Ends(c) <= ends
    ensures Seen(buf, c) == TextOf(s, c)
  {
    match c
    case Exec(argv) =>
      forall k | 0 <= k < |argv| ensures Strings(buf, argv)[k] == Texts(s, argv)[k] {
        assert argv[k].eq in Ends(c);
        CStrFrom(s, b, buf, ends, argv[k], argv[k].q);
      }
    case Redir(d, file, _, _) =>
      SeenIsText(s, b, buf, ends, d);
      CStrFrom(s, b, buf, ends, file, file.q);
    case Pipe(l, r) =>
      SeenIsText(s, b, buf, ends, l);
      SeenIsText(s, b, buf, ends, r);
    case List(l, r) =>
      SeenIsText(s, b, buf, ends, l);
      SeenIsText(s, b, buf, ends, r);
    case Back(d) =>
      SeenIsText(s, b, buf, ends, d);
  }

  method Strlen(buf: array<char>) returns (n: nat)
    requires exists k :: 0 <= k < buf.Length && buf[k] == '\0'
    ensures n < buf.Length && buf[n] == '\0' && NoNul(buf[..n])
  {
    n := 0;
    while buf[n] != '\0'
      invariant n < buf.Length && forall k :: 0 <= k < n ==> buf[k] != '\0'
      invariant exists k :: n <= k < buf.Length && buf[k] == '\0'
      decreases buf.Length - n
    {
      n := n + 1;
    }
  }

  /** parsecmd: on every line it ends, with a panic exactly when the grammar rejects the
      line, and otherwise with the line's tree, as runcmd will read it out of the buffer. */
  method Parsecmd(buf: array<char>) returns (r: Option<Cmd<Span>>)
    requires exists k :: 0 <= k < buf.Length && buf[k] == '\0'
    modifies buf
    ensures r.Some? <==> Parse(old(CStr(buf[..], 0))).Ok?
    ensures r.Some? ==> Seen(buf[..], r.value) == Parse(old(CStr(buf[..], 0))).cmd
  {
    var n := Strlen(buf);
    var s := buf[..n];
    LineIs(buf[..], n, 0);
    var p := new Parser(s);
    assert s[0..] == s;
    r := p.ParseLine();
    if r.None? {
      return;
    }
    var _ := p.Peek("");
    if p.ps != n {
      return None;
    }
    Nulterminate(buf, r.value, s);
    TreeEnds(s, r.value);
    SeenIsText(s, old(buf[..]), buf[..], Ends(r.value), r.value);
  }
}
