/** The command an operator pastes to join a session, and how a POSIX shell reads it. */
module Attach {
  import opened Wrappers

  // ---- Printing --------------------------------------------------------------------------------------------

  /** A quote inside single quotes: close, an escaped quote, open again. */
  function ShellEscape(value: string): string {
    if value == "" then ""
    else (if value[0] == '\'' then "'\\''" else [value[0]]) + ShellEscape(value[1..])
  }

  function Quote(value: string): string {
    "'" + ShellEscape(value) + "'"
  }

  /** `export NAME='value' && ... && exec $SHELL` */
  function Exports(vars: seq<(string, string)>): string {
    if vars == [] then "exec $SHELL"
    else "export " + (vars[0].0 + "=" + (Quote(vars[0].1) + " && " + Exports(vars[1..])))
  }

  function Variables(worktree: string, run: string, issue: string, session: string, provider: string, status: string):
    seq<(string, string)>
  {
    [("SUPERKICK_RUN_ID", run), ("SUPERKICK_ISSUE_IDENTIFIER", issue), ("SUPERKICK_SESSION_ID", session),
     ("SUPERKICK_PROVIDER", provider), ("SUPERKICK_SESSION_STATUS", status), ("SUPERKICK_WORKTREE", worktree)]
  }

  function BuildShellCommand(
    worktree: string, run: string, issue: string, session: string, provider: string, status: string): string
  {
    "cd " + (Quote(worktree) + " && " + Exports(Variables(worktree, run, issue, session, provider, status)))
  }

  // ---- Reading -----------------------------------------------------------------------------------------------

  /** A character of a word; a quoted one is taken literally by every later stage of the shell. */
  datatype Unit = Quoted(c: char) | Plain(c: char)

  datatype Token = Word(units: seq<Unit>) | AndIf

  datatype Mode = Between | InWord(units: seq<Unit>) | InQuotes(units: seq<Unit>)

  /** The unquoted characters this reader does not go into. */
  predicate IsSpecial(c: char) {
    c in {'|', ';', '<', '>', '(', ')', '"', '`', '\n', '&'}
  }

  function Emit(mode: Mode, rest: Option<seq<Token>>): Option<seq<Token>> {
    if rest.Some? && mode.InWord? then Some([Word(mode.units)] + rest.value) else rest
  }

  function EmitAnd(rest: Option<seq<Token>>): Option<seq<Token>> {
    if rest.Some? then Some([AndIf] + rest.value) else None
  }

  /**
   * Token recognition with quoting as in sections 2.2 and 2.3 of the shell chapter of POSIX.1-2017: single quotes,
   * backslashes, blanks and the `&&` operator. Input with any other operator, double quotes, a command
   * substitution, a comment or an open quote is not read.
   */
  function Read(s: string, mode: Mode): Option<seq<Token>>
    decreases |s|
  {
    if s == "" then
      match mode
      case Between => Some([])
      case InWord(units) => Some([Word(units)])
      case InQuotes(_) => None
    else if mode.InQuotes? then
      Read(s[1..], if s[0] == '\'' then InWord(mode.units) else InQuotes(mode.units + [Quoted(s[0])]))
    else
      var units := if mode.InWord? then mode.units else [];
      if s[0] == '\'' then Read(s[1..], InQuotes(units))
      else if s[0] == '\\' then
        if |s| == 1 then None
        else if s[1] == '\n' then Read(s[2..], mode)
        else Read(s[2..], InWord(units + [Quoted(s[1])]))
      else if s[0] == ' ' || s[0] == '\t' then Emit(mode, Read(s[1..], Between))
      else if |s| > 1 && s[0] == '&' && s[1] == '&' then Emit(mode, EmitAnd(Read(s[2..], Between)))
      else if IsSpecial(s[0]) || (mode.Between? && s[0] == '#') then None
      else Read(s[1..], InWord(units + [Plain(s[0])]))
  }

  function AllQuoted(s: string): (units: seq<Unit>)
    ensures |units| == |s| && forall i :: 0 <= i < |s| ==> units[i] == Quoted(s[i])
  {
    seq(|s|, i requires 0 <= i < |s| => Quoted(s[i]))
  }

  function AllPlain(s: string): (units: seq<Unit>)
    ensures |units| == |s| && forall i :: 0 <= i < |s| ==> units[i] == Plain(s[i])
  {
    seq(|s|, i requires 0 <= i < |s| => Plain(s[i]))
  }

  predicate IsPlain(c: char) {
    'a' <= c <= 'z' || 'A' <= c <= 'Z' || c == '_' || c == '=' || c == '$'
  }

  predicate IsPlainWord(s: string) {
    forall i :: 0 <= i < |s| ==> IsPlain(s[i])
  }

  // ---- One step of the reader ------------------------------------------------------------------------------

  lemma ReadOpen(rest: string, mode: Mode)
    requires !mode.InQuotes?
    ensures Read("'" + rest, mode) == Read(rest, InQuotes(if mode.InWord? then mode.units else []))
  {
    assert ("'" + rest)[1..] == rest;
  }

  lemma ReadClose(rest: string, units: seq<Unit>)
    ensures Read("'" + rest, InQuotes(units)) == Read(rest, InWord(units))
  {
    assert ("'" + rest)[1..] == rest;
  }

  lemma ReadLiteral(c: char, rest: string, units: seq<Unit>)
    requires c != '\''
    ensures Read([c] + rest, InQuotes(units)) == Read(rest, InQuotes(units + [Quoted(c)]))
  {
    assert ([c] + rest)[1..] == rest;
  }

  lemma ReadBackslash(c: char, rest: string, units: seq<Unit>)
    requires c != '\n'
    ensures Read(['\\', c] + rest, InWord(units)) == Read(rest, InWord(units + [Quoted(c)]))
  {
    assert (['\\', c] + rest)[2..] == rest;
  }

  lemma ReadOne(c: char, rest: string, units: seq<Unit>)
    requires IsPlain(c)
    ensures Read([c] + rest, InWord(units)) == Read(rest, InWord(units + [Plain(c)]))
  {
    assert ([c] + rest)[1..] == rest;
  }

  lemma ReadStart(c: char, rest: string)
    requires IsPlain(c)
    ensures Read([c] + rest, Between) == Read(rest, InWord([Plain(c)]))
  {
    assert ([c] + rest)[1..] == rest && [] + [Plain(c)] == [Plain(c)];
  }

  // ---- Reading back what was printed -----------------------------------------------------------------------

  /** Inside quotes, an escaped value followed by the closing quote is read as the value, every character quoted. */
  lemma {:induction false} ReadEscaped(value: string, rest: string, units: seq<Unit>)
    ensures Read(ShellEscape(value) + "'" + rest, InQuotes(units)) == Read(rest, InWord(units + AllQuoted(value)))
    decreases |value|
  {
    if value == "" {
      assert ShellEscape(value) + "'" + rest == "'" + rest;
      assert ("'" + rest)[1..] == rest;
      assert units + AllQuoted(value) == units;
    } else {
      var after := ShellEscape(value[1..]) + "'" + rest;
      ReadEscaped(value[1..], rest, units + [Quoted(value[0])]);
      assert units + [Quoted(value[0])] + AllQuoted(value[1..]) == units + AllQuoted(value);
      if value[0] == '\'' {
        assert ShellEscape(value) + "'" + rest == "'\\''" + after;
        ReadEscapedQuote(after, units);
      } else {
        assert ShellEscape(value) + "'" + rest == [value[0]] + after;
        ReadLiteral(value[0], after, units);
      }
    }
  }

  lemma ReadEscapedQuote(after: string, units: seq<Unit>)
    ensures Read("'\\''" + after, InQuotes(units)) == Read(after, InQuotes(units + [Quoted('\'')]))
  {
    assert "'\\''" + after == "'" + (['\\', '\''] + ("'" + after));
    ReadClose(['\\', '\''] + ("'" + after), units);
    ReadBackslash('\'', "'" + after, units);
    ReadOpen(after, InWord(units + [Quoted('\'')]));
  }

  /** A quoted value continues the word it stands in, or starts one even when the value is empty. */
  lemma ReadQuoted(value: string, rest: string, mode: Mode)
    requires !mode.InQuotes?
    ensures var units := if mode.InWord? then mode.units else [];
            Read(Quote(value) + rest, mode) == Read(rest, InWord(units + AllQuoted(value)))
  {
    var units := if mode.InWord? then mode.units else [];
    var s := Quote(value) + rest;
    assert s[1..] == ShellEscape(value) + "'" + rest;
    ReadEscaped(value, rest, units);
  }

  lemma {:induction false} ReadPlain(word: string, rest: string, units: seq<Unit>)
    requires IsPlainWord(word)
    ensures Read(word + rest, InWord(units)) == Read(rest, InWord(units + AllPlain(word)))
    decreases |word|
  {
    if word == "" {
      assert word + rest == rest;
      assert units + AllPlain(word) == units;
    } else {
      assert word + rest == [word[0]] + (word[1..] + rest);
      ReadOne(word[0], word[1..] + rest, units);
      ReadPlain(word[1..], rest, units + [Plain(word[0])]);
      assert units + [Plain(word[0])] + AllPlain(word[1..]) == units + AllPlain(word);
    }
  }

  /** A plain word at the start of a token. */
  lemma ReadFirst(word: string, rest: string)
    requires word != "" && IsPlainWord(word)
    ensures Read(word + rest, Between) == Read(rest, InWord(AllPlain(word)))
  {
    var tail := word[1..];
    assert word + rest == [word[0]] + (tail + rest);
    ReadStart(word[0], tail + rest);
    ReadPlain(tail, rest, [Plain(word[0])]);
    assert [Plain(word[0])] + AllPlain(tail) == AllPlain(word);
  }

  lemma ReadBlank(rest: string, mode: Mode)
    requires !mode.InQuotes?
    ensures Read(" " + rest, mode) == Emit(mode, Read(rest, Between))
  {
    assert (" " + rest)[1..] == rest;
  }

  lemma ReadAnd(rest: string, units: seq<Unit>)
    ensures Read(" && " + rest, InWord(units)) == Emit(InWord(units), EmitAnd(Read(rest, Between)))
  {
    assert " && " + rest == " " + ("&& " + rest);
    ReadBlank("&& " + rest, InWord(units));
    assert ("&& " + rest)[2..] == " " + rest;
    ReadBlank(rest, Between);
  }

  /** A word, a blank, and then a word with a plain beginning and a quoted end, and `&&`. */
  lemma ReadClause(command: string, prefix: string, value: string, rest: string)
    requires command != "" && IsPlainWord(command) && IsPlainWord(prefix)
    ensures Read(command + (" " + (prefix + (Quote(value) + " && " + rest))), Between)
            == Emit(InWord(AllPlain(command)), Emit(InWord(AllPlain(prefix) + AllQuoted(value)), EmitAnd(Read(rest, Between))))
  {
    var tail := prefix + (Quote(value) + " && " + rest);
    ReadFirst(command, " " + tail);
    ReadBlank(tail, InWord(AllPlain(command)));
    assert Quote(value) + " && " + rest == Quote(value) + (" && " + rest);
    if prefix == "" {
      assert tail == Quote(value) + (" && " + rest);
      ReadQuoted(value, " && " + rest, Between);
      assert AllPlain(prefix) + AllQuoted(value) == [] + AllQuoted(value);
    } else {
      ReadFirst(prefix, Quote(value) + (" && " + rest));
      ReadQuoted(value, " && " + rest, InWord(AllPlain(prefix)));
    }
    ReadAnd(rest, AllPlain(prefix) + AllQuoted(value));
  }

  // ---- The whole command -------------------------------------------------------------------------------------

  /** What the exports are meant to be. */
  function ExportTokens(vars: seq<(string, string)>): seq<Token> {
    if vars == [] then [Word(AllPlain("exec")), Word(AllPlain("$SHELL"))]
    else
      [Word(AllPlain("export")), Word(AllPlain(vars[0].0 + "=") + AllQuoted(vars[0].1)), AndIf] + ExportTokens(vars[1..])
  }

  lemma ReadExec()
    ensures Read(Exports([]), Between) == Some(ExportTokens([]))
  {
    var exec, shell := "exec", "$SHELL";
    assert IsPlainWord(exec) && IsPlainWord(shell);
    ReadTwoWords(exec, shell);
    assert Exports([]) == exec + (" " + shell);
  }

  lemma ReadTwoWords(first: string, second: string)
    requires first != "" && second != "" && IsPlainWord(first) && IsPlainWord(second)
    ensures Read(first + (" " + second), Between) == Some([Word(AllPlain(first)), Word(AllPlain(second))])
  {
    ReadFirst(first, " " + second);
    ReadBlank(second, InWord(AllPlain(first)));
    ReadFirst(second, "");
    assert second + "" == second;
    assert Read("", InWord(AllPlain(second))) == Some([Word(AllPlain(second))]);
    assert [Word(AllPlain(first))] + [Word(AllPlain(second))] == [Word(AllPlain(first)), Word(AllPlain(second))];
  }

  lemma ReadExport(name: string, value: string, rest: string, tokens: seq<Token>)
    requires IsPlainWord(name) && Read(rest, Between) == Some(tokens)
    ensures Read("export " + (name + "=" + (Quote(value) + " && " + rest)), Between)
            == Some([Word(AllPlain("export")), Word(AllPlain(name + "=") + AllQuoted(value)), AndIf] + tokens)
  {
    var first, second := Word(AllPlain("export")), Word(AllPlain(name + "=") + AllQuoted(value));
    SpaceApart("export", name + "=" + (Quote(value) + " && " + rest));
    assert "export" + " " == "export ";
    ReadClause("export", name + "=", value, rest);
    assert [first] + ([second] + ([AndIf] + tokens)) == [first, second, AndIf] + tokens;
  }

  lemma SpaceApart(first: string, rest: string)
    ensures first + " " + rest == first + (" " + rest)
  {
  }

  lemma {:induction false} ReadExports(vars: seq<(string, string)>)
    requires forall i :: 0 <= i < |vars| ==> IsPlainWord(vars[i].0)
    ensures Read(Exports(vars), Between) == Some(ExportTokens(vars))
  {
    if vars == [] {
      ReadExec();
    } else {
      ReadExports(vars[1..]);
      ReadExport(vars[0].0, vars[0].1, Exports(vars[1..]), ExportTokens(vars[1..]));
    }
  }

  lemma ShortNamesArePlain()
    ensures IsPlainWord("SUPERKICK_RUN_ID") && IsPlainWord("SUPERKICK_PROVIDER") && IsPlainWord("SUPERKICK_WORKTREE")
  {
  }

  lemma LongNamesArePlain()
    ensures IsPlainWord("SUPERKICK_SESSION_ID")
    ensures IsPlainWord("SUPERKICK_ISSUE_IDENTIFIER") && IsPlainWord("SUPERKICK_SESSION_STATUS")
  {
  }

  lemma NamesArePlain(worktree: string, run: string, issue: string, session: string, provider: string, status: string)
    ensures var vars := Variables(worktree, run, issue, session, provider, status);
            forall i :: 0 <= i < |vars| ==> IsPlainWord(vars[i].0)
  {
    ShortNamesArePlain();
    LongNamesArePlain();
  }

  /** A shell reads exactly the intended words, with every value the original string, whatever it contains. */
  lemma CommandReadsBack(worktree: string, run: string, issue: string, session: string, provider: string, status: string)
    ensures Read(BuildShellCommand(worktree, run, issue, session, provider, status), Between)
            == Some([Word(AllPlain("cd")), Word(AllQuoted(worktree)), AndIf]
                    + ExportTokens(Variables(worktree, run, issue, session, provider, status)))
  {
    var vars := Variables(worktree, run, issue, session, provider, status);
    NamesArePlain(worktree, run, issue, session, provider, status);
    ReadExports(vars);
    var rest := Exports(vars);
    assert BuildShellCommand(worktree, run, issue, session, provider, status)
           == "cd" + (" " + ("" + (Quote(worktree) + " && " + rest)));
    ReadClause("cd", "", worktree, rest);
    assert AllPlain("") + AllQuoted(worktree) == AllQuoted(worktree);
    assert [Word(AllPlain("cd"))] + ([Word(AllQuoted(worktree))] + ([AndIf] + ExportTokens(vars)))
           == [Word(AllPlain("cd")), Word(AllQuoted(worktree)), AndIf] + ExportTokens(vars);
  }

  function ExportOf(name: string, value: string): seq<Token> {
    [Word(AllPlain("export")), Word(AllPlain(name + "=") + AllQuoted(value)), AndIf]
  }

  /** Word by word: into the worktree, the six variables each with its value, and the shell. */
  lemma WordsInOrder(worktree: string, run: string, issue: string, session: string, provider: string, status: string)
    ensures Read(BuildShellCommand(worktree, run, issue, session, provider, status), Between)
            == Some([Word(AllPlain("cd")), Word(AllQuoted(worktree)), AndIf]
                    + (ExportOf("SUPERKICK_RUN_ID", run)
                       + (ExportOf("SUPERKICK_ISSUE_IDENTIFIER", issue)
                          + (ExportOf("SUPERKICK_SESSION_ID", session)
                             + (ExportOf("SUPERKICK_PROVIDER", provider)
                                + (ExportOf("SUPERKICK_SESSION_STATUS", status)
                                   + (ExportOf("SUPERKICK_WORKTREE", worktree)
                                      + [Word(AllPlain("exec")), Word(AllPlain("$SHELL"))])))))))
  {
    CommandReadsBack(worktree, run, issue, session, provider, status);
    var vars := Variables(worktree, run, issue, session, provider, status);
    ExportsFirst("SUPERKICK_RUN_ID", run, vars);
    ExportsFirst("SUPERKICK_ISSUE_IDENTIFIER", issue, vars[1..]);
    ExportsFirst("SUPERKICK_SESSION_ID", session, vars[2..]);
    ExportsFirst("SUPERKICK_PROVIDER", provider, vars[3..]);
    ExportsFirst("SUPERKICK_SESSION_STATUS", status, vars[4..]);
    ExportsFirst("SUPERKICK_WORKTREE", worktree, vars[5..]);
    assert vars[1..][1..] == vars[2..] && vars[2..][1..] == vars[3..] && vars[3..][1..] == vars[4..];
    assert vars[4..][1..] == vars[5..] && vars[5..][1..] == [];
  }

  lemma ExportsFirst(name: string, value: string, vars: seq<(string, string)>)
    requires vars != [] && vars[0] == (name, value)
    ensures ExportTokens(vars) == ExportOf(name, value) + ExportTokens(vars[1..])
  {
  }

  lemma QuotedIsInjective(a: string, b: string)
    requires AllQuoted(a) == AllQuoted(b)
    ensures a == b
  {
    forall i | 0 <= i < |a|
      ensures a[i] == b[i]
    {
      assert AllQuoted(a)[i] == Quoted(b[i]);
    }
  }

  lemma {:induction false} ExportTokensInjective(a: seq<(string, string)>, b: seq<(string, string)>)
    requires |a| == |b| && forall i :: 0 <= i < |a| ==> a[i].0 == b[i].0
    requires ExportTokens(a) == ExportTokens(b)
    ensures a == b
  {
    if a != [] {
      var s, t := ExportTokens(a), ExportTokens(b);
      var name := AllPlain(a[0].0 + "=");
      assert s[1] == t[1] && s[3..] == t[3..];
      assert s[1].units[|name|..] == AllQuoted(a[0].1) && t[1].units[|name|..] == AllQuoted(b[0].1);
      QuotedIsInjective(a[0].1, b[0].1);
      ExportTokensInjective(a[1..], b[1..]);
      assert a == [a[0]] + a[1..] && b == [b[0]] + b[1..];
    }
  }

  /** Different arguments never give the same command. */
  lemma CommandIsInjective(
    w1: string, run1: string, issue1: string, session1: string, provider1: string, status1: string,
    w2: string, run2: string, issue2: string, session2: string, provider2: string, status2: string)
    requires BuildShellCommand(w1, run1, issue1, session1, provider1, status1)
             == BuildShellCommand(w2, run2, issue2, session2, provider2, status2)
    ensures w1 == w2 && run1 == run2 && issue1 == issue2 && session1 == session2
    ensures provider1 == provider2 && status1 == status2
  {
    CommandReadsBack(w1, run1, issue1, session1, provider1, status1);
    CommandReadsBack(w2, run2, issue2, session2, provider2, status2);
    var vars1 := Variables(w1, run1, issue1, session1, provider1, status1);
    var vars2 := Variables(w2, run2, issue2, session2, provider2, status2);
    ghost var t1 := [Word(AllPlain("cd")), Word(AllQuoted(w1)), AndIf] + ExportTokens(vars1);
    ghost var t2 := [Word(AllPlain("cd")), Word(AllQuoted(w2)), AndIf] + ExportTokens(vars2);
    assert t1 == t2 && t1[3..] == ExportTokens(vars1) && t2[3..] == ExportTokens(vars2);
    ExportTokensInjective(vars1, vars2);
    assert forall i :: 0 <= i < 6 ==> vars1[i].1 == vars2[i].1;
    assert vars1[5].1 == w1 && vars2[5].1 == w2;
  }
}
