/**
  Shell quoting (`quote` of crates/agend-daemon/src/runner.rs) and the commands built with
  it (`Git::command` and `patch_id` of crates/agend-daemon/src/git.rs), read back by the
  token and quoting rules of the POSIX.1-2017 Shell Command Language: section 2.2.1
  (backslash), section 2.2.2 (single quotes) and blanks and `|` of section 2.3. Any other
  unquoted character that is special to the shell makes the lexer give up, so a text it
  accepts is subject to no expansion, substitution or redirection.
*/
module ShellQuote {
  import opened Common

  // ---- the shell's side ----------------------------------------------------------

  datatype Token = Word(text: string) | Pipe

  datatype Mode = Plain | Quoted | Escaped | AfterPipe

  datatype Lexer = Lexing(mode: Mode, word: Option<string>, done: seq<Token>) | GivenUp

  const Start := Lexing(Plain, None, [])

  /** Special to the shell when not quoted, besides quotes, blanks and `|`. */
  predicate Special(c: char)
  {
    || c == '&' || c == ';' || c == '<' || c == '>' || c == '(' || c == ')' || c == '$' || c == '`'
    || c == '"' || c == '*' || c == '?' || c == '[' || c == '#' || c == '~' || c == '%' || c == '\n'
  }

  predicate Ordinary(c: char)
  {
    !Special(c) && c != ' ' && c != '\t' && c != '|' && c != '\\' && c != '\''
  }

  function Flushed(word: Option<string>, done: seq<Token>): seq<Token>
  {
    if word.None? then done else done + [Word(word.value)]
  }

  function Appended(word: Option<string>, s: string): Option<string>
  {
    Some((if word.None? then "" else word.value) + s)
  }

  function StepPlain(word: Option<string>, done: seq<Token>, c: char): Lexer
  {
    if c == '\'' then Lexing(Quoted, Appended(word, ""), done)
    else if c == '\\' then Lexing(Escaped, word, done)
    else if c == ' ' || c == '\t' then Lexing(Plain, None, Flushed(word, done))
    else if c == '|' then Lexing(AfterPipe, None, Flushed(word, done) + [Pipe])
    else if Special(c) then GivenUp
    else Lexing(Plain, Appended(word, [c]), done)
  }

  function Step(l: Lexer, c: char): Lexer
  {
    match l
    case GivenUp => GivenUp
    case Lexing(Plain, word, done) => StepPlain(word, done, c)
    // `||` is another operator.
    case Lexing(AfterPipe, word, done) => if c == '|' then GivenUp else StepPlain(word, done, c)
    // A line continuation leaves nothing; any other character stands for itself.
    case Lexing(Escaped, word, done) =>
      if c == '\n' then Lexing(Plain, word, done) else Lexing(Plain, Appended(word, [c]), done)
    case Lexing(Quoted, word, done) =>
      if c == '\'' then Lexing(Plain, word, done) else Lexing(Quoted, Appended(word, [c]), done)
  }

  function Read(l: Lexer, s: string): Lexer
    decreases |s|
  {
    if s == "" then l else Read(Step(l, s[0]), s[1..])
  }

  /** The tokens of a command text; nothing for an open quote or a character given up on. */
  function Lex(s: string): Option<seq<Token>>
  {
    var l := Read(Start, s);
    if l.GivenUp? || l.mode.Quoted? || l.mode.Escaped? then None else Some(Flushed(l.word, l.done))
  }

  lemma {:induction false} ReadInTwoParts(l: Lexer, s: string, t: string)
    ensures Read(l, s + t) == Read(Read(l, s), t)
    decreases |s|
  {
    if s == "" {
      assert s + t == t;
    } else {
      assert (s + t)[1..] == s[1..] + t;
      ReadInTwoParts(Step(l, s[0]), s[1..], t);
    }
  }

  // ---- quoting -------------------------------------------------------------------

  /** `s.replace('\'', "'\\''")` */
  function Escape(s: string): string
  {
    if s == "" then "" else (if s[0] == '\'' then "'\\''" else [s[0]]) + Escape(s[1..])
  }

  function Quote(s: string): string { "'" + Escape(s) + "'" }

  lemma ReadOne(l: Lexer, c: char)
    ensures Read(l, [c]) == Step(l, c)
  {
    assert [c][1..] == "";
  }

  lemma ReadQuoteInside(w: string, done: seq<Token>)
    ensures Read(Lexing(Quoted, Some(w), done), "'\\''") == Lexing(Quoted, Some(w + "'"), done)
  {
    var l := Lexing(Quoted, Some(w), done);
    assert w + "" == w && (w + "'") + "" == w + "'";
    assert "'\\''" == "'" + ("\\" + ("'" + "'"));
    ReadInTwoParts(l, "'", "\\" + ("'" + "'"));
    ReadOne(l, '\'');
    var m := Lexing(Plain, Some(w), done);
    ReadInTwoParts(m, "\\", "'" + "'");
    ReadOne(m, '\\');
    var n := Lexing(Escaped, Some(w), done);
    ReadInTwoParts(n, "'", "'");
    ReadOne(n, '\'');
    ReadOne(Lexing(Plain, Some(w + "'"), done), '\'');
  }

  /** Inside quotes the escaped text stands for the text itself. */
  lemma {:induction false} ReadEscaped(s: string, w: string, done: seq<Token>)
    ensures Read(Lexing(Quoted, Some(w), done), Escape(s)) == Lexing(Quoted, Some(w + s), done)
  {
    var l := Lexing(Quoted, Some(w), done);
    if s == "" {
      assert w + s == w;
    } else {
      var head := if s[0] == '\'' then "'\\''" else [s[0]];
      assert s == [s[0]] + s[1..];
      ReadInTwoParts(l, head, Escape(s[1..]));
      if s[0] == '\'' {
        ReadQuoteInside(w, done);
      } else {
        ReadOne(l, s[0]);
      }
      ReadEscaped(s[1..], w + [s[0]], done);
      assert w + [s[0]] + s[1..] == w + s;
    }
  }

  /** Wherever a word may begin or go on, a quoted string adds exactly itself to the word,
      whatever it contains. */
  lemma ReadQuoted(l: Lexer, s: string)
    requires l.Lexing? && (l.mode.Plain? || l.mode.AfterPipe?)
    ensures Read(l, Quote(s)) == Lexing(Plain, Appended(l.word, s), l.done)
  {
    var w := Appended(l.word, "").value;
    assert Quote(s) == "'" + (Escape(s) + "'");
    ReadInTwoParts(l, "'", Escape(s) + "'");
    ReadOne(l, '\'');
    ReadInTwoParts(Lexing(Quoted, Some(w), l.done), Escape(s), "'");
    ReadEscaped(s, w, l.done);
    ReadOne(Lexing(Quoted, Some(w + s), l.done), '\'');
    assert w + s == Appended(l.word, s).value;
  }

  /** The single word a text stands for. */
  function Unquote(s: string): Option<string>
  {
    var tokens := Lex(s);
    if tokens.Some? && |tokens.value| == 1 && tokens.value[0].Word? then Some(tokens.value[0].text) else None
  }

  lemma UnquoteUndoesQuote(s: string)
    ensures Unquote(Quote(s)) == Some(s)
  {
    ReadQuoted(Start, s);
    assert "" + s == s;
  }

  function QuoteTimes(n: nat, s: string): string
  {
    if n == 0 then s else Quote(QuoteTimes(n - 1, s))
  }

  function UnquoteTimes(n: nat, s: string): Option<string>
  {
    if n == 0 then Some(s)
    else if Unquote(s).None? then None else UnquoteTimes(n - 1, Unquote(s).value)
  }

  /** Quoted for any number of shells, a text comes out of as many shells unchanged. */
  lemma {:induction false} NestedQuotesUnquote(n: nat, s: string)
    ensures UnquoteTimes(n, QuoteTimes(n, s)) == Some(s)
  {
    if n > 0 {
      UnquoteUndoesQuote(QuoteTimes(n - 1, s));
      NestedQuotesUnquote(n - 1, s);
    }
  }

  // ---- commands ------------------------------------------------------------------

  function Words(ws: seq<string>): seq<Token> { seq(|ws|, i requires 0 <= i < |ws| => Word(ws[i])) }

  /** Plain words, each after a blank. */
  function Spaced(ws: seq<string>): string
  {
    if ws == [] then "" else " " + ws[0] + Spaced(ws[1..])
  }

  ghost predicate OrdinaryWord(w: string) { w != "" && forall i :: 0 <= i < |w| ==> Ordinary(w[i]) }

  ghost predicate AllOrdinary(ws: seq<string>)
  {
    forall i :: 0 <= i < |ws| ==> OrdinaryWord(ws[i])
  }

  lemma {:induction false} ReadOrdinary(w: Option<string>, done: seq<Token>, s: string)
    requires OrdinaryWord(s)
    ensures Read(Lexing(Plain, w, done), s) == Lexing(Plain, Appended(w, s), done)
    decreases |s|
  {
    assert Step(Lexing(Plain, w, done), s[0]) == Lexing(Plain, Appended(w, [s[0]]), done);
    if |s| > 1 {
      ReadOrdinary(Appended(w, [s[0]]), done, s[1..]);
      var first := if w.None? then "" else w.value;
      assert (first + [s[0]]) + s[1..] == first + s;
      assert Appended(Appended(w, [s[0]]), s[1..]) == Appended(w, s);
    } else {
      assert s == [s[0]];
      ReadOne(Lexing(Plain, w, done), s[0]);
    }
  }

  lemma ReadBlank(l: Lexer, s: string)
    requires l.Lexing? && (l.mode.Plain? || l.mode.AfterPipe?)
    ensures Read(l, " " + s) == Read(Lexing(Plain, None, Flushed(l.word, l.done)), s)
  {
    ReadInTwoParts(l, " ", s);
    ReadOne(l, ' ');
  }

  /** The lexer has read these words; the last one may still go on. */
  ghost predicate HasRead(l: Lexer, before: seq<Token>, ws: seq<string>)
  {
    l.Lexing? && l.mode.Plain? && l.word.Some? && Flushed(l.word, l.done) == before + Words(ws)
  }

  lemma OneMoreWord(before: seq<Token>, ws: seq<string>, w: string)
    ensures before + Words(ws) + [Word(w)] == before + Words(ws + [w])
  {
  }

  lemma ReadAnotherQuoted(l: Lexer, before: seq<Token>, ws: seq<string>, arg: string)
    requires HasRead(l, before, ws)
    ensures HasRead(Read(l, " " + Quote(arg)), before, ws + [arg])
  {
    ReadBlank(l, Quote(arg));
    ReadQuoted(Lexing(Plain, None, Flushed(l.word, l.done)), arg);
    assert "" + arg == arg;
    OneMoreWord(before, ws, arg);
  }

  lemma {:induction false} ReadSpaced(l: Lexer, before: seq<Token>, ws: seq<string>, more: seq<string>)
    requires HasRead(l, before, ws) && AllOrdinary(more)
    ensures HasRead(Read(l, Spaced(more)), before, ws + more)
    decreases |more|
  {
    if more == [] {
      assert ws + more == ws;
    } else {
      assert Spaced(more) == " " + (more[0] + Spaced(more[1..]));
      ReadBlank(l, more[0] + Spaced(more[1..]));
      var m := Lexing(Plain, None, Flushed(l.word, l.done));
      ReadInTwoParts(m, more[0], Spaced(more[1..]));
      ReadOrdinary(None, m.done, more[0]);
      assert "" + more[0] == more[0];
      OneMoreWord(before, ws, more[0]);
      ReadSpaced(Read(m, more[0]), before, ws + [more[0]], more[1..]);
      assert ws + [more[0]] + more[1..] == ws + more;
    }
  }

  const FIXED := ["-c", "core.hooksPath=/dev/null", "-c", "core.fsmonitor=false"]

  lemma FixedIsOrdinary()
    ensures AllOrdinary(FIXED)
  {
    assert OrdinaryWord("-c") && OrdinaryWord("core.hooksPath=/dev/null") && OrdinaryWord("core.fsmonitor=false");
    hide OrdinaryWord;
  }

  /** `Git::command`: the shell runs exactly this executable with exactly the fixed options
      and these arguments, whatever characters they contain. */
  method Command(executable: string, args: seq<string>) returns (command: string)
    ensures Lex(command) == Some(Words([executable] + FIXED + args))
  {
    command := Quote(executable) + Spaced(FIXED);
    ReadExecutable(Start, executable);
    assert [executable] + FIXED + args[..0] == [executable] + FIXED;
    for i := 0 to |args|
      invariant HasRead(Read(Start, command), [], [executable] + FIXED + args[..i])
    {
      ReadInTwoParts(Start, command, " " + Quote(args[i]));
      ReadAnotherQuoted(Read(Start, command), [], [executable] + FIXED + args[..i], args[i]);
      assert [executable] + FIXED + args[..i] + [args[i]] == [executable] + FIXED + args[..i + 1];
      assert command + " " + Quote(args[i]) == command + (" " + Quote(args[i]));
      command := command + " " + Quote(args[i]);
    }
    assert args[..|args|] == args;
    LexRead(command, [], [executable] + FIXED + args);
  }

  lemma LexRead(s: string, before: seq<Token>, ws: seq<string>)
    requires HasRead(Read(Start, s), before, ws)
    ensures Lex(s) == Some(before + Words(ws))
    ensures before == [] ==> Lex(s) == Some(Words(ws))
  {
    assert [] + Words(ws) == Words(ws);
  }

  /** The beginning every git command has. */
  lemma ReadExecutable(l: Lexer, executable: string)
    requires l.Lexing? && (l.mode.Plain? || l.mode.AfterPipe?) && l.word.None?
    ensures HasRead(Read(l, Quote(executable) + Spaced(FIXED)), l.done, [executable] + FIXED)
  {
    ReadQuoted(l, executable);
    assert "" + executable == executable;
    ReadInTwoParts(l, Quote(executable), Spaced(FIXED));
    FixedIsOrdinary();
    ReadSpaced(Read(l, Quote(executable)), l.done, [executable], FIXED);
  }

  const DIFF := ["diff", "--binary", "--no-color", "--src-prefix=a/", "--dst-prefix=b/", "--no-relative",
                 "--no-ext-diff", "--no-textconv"]
  const PATCH_ID := ["patch-id", "--stable"]
  const BASH_OPTIONS := ["-o", "pipefail", "-c"]

  lemma PrefixesAreOrdinary()
    ensures OrdinaryWord("--src-prefix=a/") && OrdinaryWord("--dst-prefix=b/")
    ensures OrdinaryWord("--no-ext-diff") && OrdinaryWord("--no-textconv")
  {
  }

  lemma DiffIsOrdinary()
    ensures AllOrdinary(DIFF)
  {
    PrefixesAreOrdinary();
    assert OrdinaryWord("diff") && OrdinaryWord("--binary");
    assert OrdinaryWord("--no-color") && OrdinaryWord("--no-relative");
    hide OrdinaryWord;
  }

  lemma OthersAreOrdinary()
    ensures AllOrdinary(PATCH_ID) && AllOrdinary(BASH_OPTIONS) && OrdinaryWord("/bin/bash")
  {
    assert OrdinaryWord("patch-id") && OrdinaryWord("--stable") && OrdinaryWord("/bin/bash");
    assert OrdinaryWord("-o") && OrdinaryWord("pipefail") && OrdinaryWord("-c");
    hide OrdinaryWord;
  }

  function GitText(executable: string, options: seq<string>): string
  {
    Quote(executable) + Spaced(FIXED) + Spaced(options)
  }

  /** The pipeline of `patch_id`. */
  function Pipeline(executable: string, base: string, head: string): string
  {
    GitText(executable, DIFF) + (" " + Quote(base)) + (" " + Quote(head)) + " | " + GitText(executable, PATCH_ID)
  }

  /** The command `patch_id` runs: the pipeline, quoted for a second shell. */
  function PatchId(executable: string, base: string, head: string): string
  {
    "/bin/bash" + Spaced(BASH_OPTIONS) + (" " + Quote(Pipeline(executable, base, head)))
  }

  lemma ReadGitText(l: Lexer, executable: string, options: seq<string>)
    requires l.Lexing? && l.mode.Plain? && l.word.None? && AllOrdinary(options)
    ensures HasRead(Read(l, GitText(executable, options)), l.done, [executable] + FIXED + options)
  {
    ReadExecutable(l, executable);
    ReadInTwoParts(l, Quote(executable) + Spaced(FIXED), Spaced(options));
    ReadSpaced(Read(l, Quote(executable) + Spaced(FIXED)), l.done, [executable] + FIXED, options);
  }

  lemma ReadPipe(l: Lexer, before: seq<Token>, ws: seq<string>)
    requires HasRead(l, before, ws)
    ensures Read(l, " | ") == Lexing(Plain, None, before + Words(ws) + [Pipe])
  {
    assert " | " == " " + ("|" + " ");
    ReadBlank(l, "|" + " ");
    var m := Lexing(Plain, None, before + Words(ws));
    ReadInTwoParts(m, "|", " ");
    ReadOne(m, '|');
    ReadOne(Step(m, '|'), ' ');
  }

  /** The two git commands of the pipeline are exactly the ones meant, for every executable,
      base and head. */
  lemma PipelineIsTwoCommands(executable: string, base: string, head: string)
    ensures Lex(Pipeline(executable, base, head))
         == Some(Words([executable] + FIXED + DIFF + [base, head]) + [Pipe] + Words([executable] + FIXED + PATCH_ID))
  {
    DiffIsOrdinary();
    OthersAreOrdinary();
    hide AllOrdinary, Quote, Read, GitText, HasRead;
    var git := [executable] + FIXED;
    var a := GitText(executable, DIFF);
    ReadGitText(Start, executable, DIFF);
    var b := a + (" " + Quote(base));
    ReadInTwoParts(Start, a, " " + Quote(base));
    ReadAnotherQuoted(Read(Start, a), [], git + DIFF, base);
    var c := b + (" " + Quote(head));
    ReadInTwoParts(Start, b, " " + Quote(head));
    ReadAnotherQuoted(Read(Start, b), [], git + DIFF + [base], head);
    var ws := git + DIFF + [base] + [head];
    assert ws == git + DIFF + [base, head] && [] + Words(ws) == Words(ws);
    ReadInTwoParts(Start, c, " | ");
    ReadPipe(Read(Start, c), [], ws);
    ReadInTwoParts(Start, c + " | ", GitText(executable, PATCH_ID));
    ReadGitText(Read(Start, c + " | "), executable, PATCH_ID);
    LexRead(Pipeline(executable, base, head), Words(ws) + [Pipe], git + PATCH_ID);
  }

  lemma ReadFirstWord(w: string)
    requires OrdinaryWord(w)
    ensures HasRead(Read(Start, w), [], [w])
  {
    ReadOrdinary(None, [], w);
    assert "" + w == w;
    assert Flushed(Some(w), []) == [] + Words([w]);
  }

  /** The first shell hands bash the pipeline as one argument, unchanged. */
  lemma BashReceivesThePipeline(executable: string, base: string, head: string)
    ensures Lex(PatchId(executable, base, head))
         == Some(Words(["/bin/bash", "-o", "pipefail", "-c", Pipeline(executable, base, head)]))
  {
    hide AllOrdinary, OrdinaryWord, Quote, Read, Pipeline, HasRead, Spaced;
    OthersAreOrdinary();
    var p := Pipeline(executable, base, head);
    var l := Read(Start, "/bin/bash");
    ReadFirstWord("/bin/bash");
    ReadInTwoParts(Start, "/bin/bash", Spaced(BASH_OPTIONS));
    ReadSpaced(l, [], ["/bin/bash"], BASH_OPTIONS);
    var a := "/bin/bash" + Spaced(BASH_OPTIONS);
    ReadInTwoParts(Start, a, " " + Quote(p));
    ReadAnotherQuoted(Read(Start, a), [], ["/bin/bash"] + BASH_OPTIONS, p);
    assert ["/bin/bash"] + BASH_OPTIONS + [p] == ["/bin/bash", "-o", "pipefail", "-c", p];
    LexRead(PatchId(executable, base, head), [], ["/bin/bash", "-o", "pipefail", "-c", p]);
  }
}
