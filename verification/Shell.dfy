/** Shell quoting, read back by the quoting rules of section 2.2 of the POSIX.1-2017 Shell Command Language. */
module Shell {
  import opened Wrappers

  /** How a quote inside single quotes is written: close, a quoted quote, reopen. */
  const DOUBLE_QUOTED := "'\"'\"'"
  const BACKSLASHED := "'\\''"

  predicate Escape(e: string) {
    e == DOUBLE_QUOTED || e == BACKSLASHED
  }

  // ---------- The program ----------

  function Replace(s: string, escape: string): string {
    if s == "" then "" else (if s[0] == '\'' then escape else [s[0]]) + Replace(s[1..], escape)
  }

  function Quote(s: string, escape: string): string {
    "'" + Replace(s, escape) + "'"
  }

  function SerializeShellArgs(args: seq<string>): string {
    if args == [] then ""
    else if |args| == 1 then Quote(args[0], DOUBLE_QUOTED)
    else Quote(args[0], DOUBLE_QUOTED) + " " + SerializeShellArgs(args[1..])
  }

  method ShellSingleQuote(value: string) returns (quoted: string)
    ensures quoted == Quote(value, BACKSLASHED)
  {
    quoted := "'";
    for i := 0 to |value|
      invariant quoted + Replace(value[i..], BACKSLASHED) == "'" + Replace(value, BACKSLASHED)
    {
      assert value[i..][1..] == value[i + 1..];
      if value[i] == '\'' {
        quoted := quoted + BACKSLASHED;
      } else {
        quoted := quoted + [value[i]];
      }
    }
    quoted := quoted + "'";
  }

  // ---------- The shell's reading ----------

  datatype Mode = Outside | Single | Double

  /** Characters that end a word or mean something unless quoted. */
  predicate Special(c: char) {
    c in {'|', '&', ';', '<', '>', '(', ')', '$', '`', '\n', '*', '?', '[', '#', '~', '=', '%'}
  }

  function Begun(word: Option<string>): string {
    if word.Some? then word.value else ""
  }

  function Prepend(w: string, rest: Option<seq<string>>): Option<seq<string>> {
    if rest.Some? then Some([w] + rest.value) else None
  }

  /** The words of a line from the given mode with the given word begun; None when a special character stands
      unquoted or a quotation does not end. */
  function Lex(m: Mode, word: Option<string>, s: string): Option<seq<string>>
    decreases |s|
  {
    if s == "" then
      if m != Outside then None else Some(if word.Some? then [word.value] else [])
    else
      var c, rest := s[0], s[1..];
      match m
      case Single => if c == '\'' then Lex(Outside, word, rest) else Lex(Single, Some(Begun(word) + [c]), rest)
      case Double =>
        if c == '"' then Lex(Outside, word, rest)
        else if c == '$' || c == '`' then None
        else if c == '\\' && rest != "" && rest[0] in {'$', '`', '"', '\\'} then
          Lex(Double, Some(Begun(word) + [rest[0]]), rest[1..])
        else if c == '\\' && rest != "" && rest[0] == '\n' then Lex(Double, word, rest[1..])
        else Lex(Double, Some(Begun(word) + [c]), rest)
      case Outside =>
        if c == '\'' then Lex(Single, Some(Begun(word)), rest)
        else if c == '"' then Lex(Double, Some(Begun(word)), rest)
        else if c == '\\' then
          if rest == "" then None
          else if rest[0] == '\n' then Lex(Outside, word, rest[1..])
          else Lex(Outside, Some(Begun(word) + [rest[0]]), rest[1..])
        else if c == ' ' || c == '\t' then
          if word.Some? then Prepend(word.value, Lex(Outside, None, rest)) else Lex(Outside, None, rest)
        else if Special(c) then None
        else Lex(Outside, Some(Begun(word) + [c]), rest)
  }

  // ---------- Round trips ----------

  /** Either way of writing a quote inside single quotes reads back as that quote. */
  lemma EscapeReads(escape: string, w: string, rest: string)
    requires Escape(escape)
    ensures Lex(Single, Some(w), escape + rest) == Lex(Single, Some(w + "'"), rest)
  {
    var s := escape + rest;
    if escape == BACKSLASHED {
      assert s[1..] == ['\\', '\'', '\''] + rest;
      assert s[1..][1..][1..] == ['\''] + rest;
      assert s[1..][1..][1..][1..] == rest;
      assert Lex(Outside, Some(w), s[1..]) == Lex(Outside, Some(w + "'"), s[1..][1..][1..]);
    } else {
      assert s[1..] == ['"', '\'', '"', '\''] + rest;
      var t := s[1..][1..];
      assert t == ['\'', '"', '\''] + rest;
      assert t[1..] == ['"', '\''] + rest;
      assert t[1..][1..] == ['\''] + rest;
      assert t[1..][1..][1..] == rest;
      assert Lex(Outside, Some(w), s[1..]) == Lex(Double, Some(w), t);
      assert Lex(Double, Some(w), t) == Lex(Double, Some(w + "'"), t[1..]);
      assert Lex(Double, Some(w + "'"), t[1..]) == Lex(Outside, Some(w + "'"), t[1..][1..]);
    }
  }

  lemma {:induction false} ReplaceReads(s: string, escape: string, w: string, rest: string)
    requires Escape(escape)
    ensures Lex(Single, Some(w), Replace(s, escape) + "'" + rest) == Lex(Outside, Some(w + s), rest)
  {
    var all := Replace(s, escape) + "'" + rest;
    if s == "" {
      assert all[1..] == rest && w + "" == w;
    } else {
      var tail := Replace(s[1..], escape) + "'" + rest;
      ReplaceReads(s[1..], escape, w + [s[0]], rest);
      assert w + [s[0]] + s[1..] == w + s;
      if s[0] == '\'' {
        assert all == escape + tail;
        EscapeReads(escape, w, tail);
      } else {
        assert all[1..] == tail;
      }
    }
  }

  lemma QuoteReads(s: string, escape: string, rest: string)
    requires Escape(escape)
    ensures Lex(Outside, None, Quote(s, escape) + rest) == Lex(Outside, Some(s), rest)
  {
    var all := Quote(s, escape) + rest;
    assert all[1..] == Replace(s, escape) + "'" + rest;
    ReplaceReads(s, escape, "", rest);
    assert "" + s == s;
  }

  /** One quoted value reads back as exactly that one word, whatever it contains. */
  lemma QuoteRoundTrip(value: string, escape: string)
    requires Escape(escape)
    ensures Lex(Outside, None, Quote(value, escape)) == Some([value])
  {
    QuoteReads(value, escape, "");
    assert Quote(value, escape) + "" == Quote(value, escape);
  }

  /** An unquoted space ends the word before it. */
  lemma SpaceEnds(w: string, rest: string)
    ensures Lex(Outside, Some(w), " " + rest) == Prepend(w, Lex(Outside, None, rest))
  {
    assert (" " + rest)[1..] == rest;
  }

  lemma SerializedHead(args: seq<string>)
    requires |args| > 1
    ensures SerializeShellArgs(args) == Quote(args[0], DOUBLE_QUOTED) + (" " + SerializeShellArgs(args[1..]))
  {
  }

  lemma HeadReads(args: seq<string>)
    requires |args| > 1
    ensures Lex(Outside, None, SerializeShellArgs(args)) ==
      Prepend(args[0], Lex(Outside, None, SerializeShellArgs(args[1..])))
  {
    hide Lex, Quote, SerializeShellArgs, Prepend;
    SerializedHead(args);
    QuoteReads(args[0], DOUBLE_QUOTED, " " + SerializeShellArgs(args[1..]));
    SpaceEnds(args[0], SerializeShellArgs(args[1..]));
  }

  lemma SerializedShort(args: seq<string>)
    requires |args| <= 1
    ensures SerializeShellArgs(args) == if args == [] then "" else Quote(args[0], DOUBLE_QUOTED)
  {
  }

  /** A serialised argument list reads back as exactly the list, empty arguments and quotes included. */
  lemma {:induction false} ArgsRoundTrip(args: seq<string>)
    ensures Lex(Outside, None, SerializeShellArgs(args)) == Some(args)
  {
    if |args| <= 1 {
      SerializedShort(args);
      if args != [] { QuoteRoundTrip(args[0], DOUBLE_QUOTED); }
      hide Quote, SerializeShellArgs;
      assert args == if args == [] then [] else [args[0]];
    } else {
      hide Lex, Quote, SerializeShellArgs;
      HeadReads(args);
      ArgsRoundTrip(args[1..]);
      assert args == [args[0]] + args[1..];
    }
  }
}
