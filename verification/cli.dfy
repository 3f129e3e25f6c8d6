/**
 * The interactive front end: how one input line is rewritten from a
 * shell-like alias to an FTP verb, whether the result needs a data
 * connection, and what the read loop does with the line.
 */
module Cli {
  import opened GoStrings

  /** The verbs whose answer arrives over a data connection. */
  const DataCommands: seq<string> := ["RETR", "NLST", "LIST", "STOR", "APPE"]

  // ---------------------------------------------------------------------------
  // convertUnixLikeCommand

  /** A shell-like prefix and the FTP verb it stands for. */
  datatype Alias = Alias(prefix: string, verb: string)

  /** The rewriting rules, in the order they are tried. */
  const Aliases: seq<Alias> := [
    Alias("cd", "CWD"), Alias("ls", "NLST"), Alias("dir", "LIST"),
    Alias("cat", "RETR"), Alias("rm", "DELE"), Alias("pwd", "PWD")
  ]

  /**
   * The first alias prefix the line starts with is replaced, once, by its
   * verb; a line starting with none is kept. Only the head of the line
   * changes: it grows by at most two characters, and everything after its
   * first three is kept.
   */
  function ConvertUnixLikeCommand(cmd: string): (r: string)
    ensures |r| <= |cmd| + 2
    ensures |cmd| >= 3 ==> |r| >= |cmd| - 3 && r[|r| - (|cmd| - 3)..] == cmd[3..]
  {
    if "cd" <= cmd then HeadRewrite(cmd, "cd", "CWD"); ReplaceFirst(cmd, "cd", "CWD")
    else if "ls" <= cmd then HeadRewrite(cmd, "ls", "NLST"); ReplaceFirst(cmd, "ls", "NLST")
    else if "dir" <= cmd then HeadRewrite(cmd, "dir", "LIST"); ReplaceFirst(cmd, "dir", "LIST")
    else if "cat" <= cmd then HeadRewrite(cmd, "cat", "RETR"); ReplaceFirst(cmd, "cat", "RETR")
    else if "rm" <= cmd then HeadRewrite(cmd, "rm", "DELE"); ReplaceFirst(cmd, "rm", "DELE")
    else if "pwd" <= cmd then HeadRewrite(cmd, "pwd", "PWD"); ReplaceFirst(cmd, "pwd", "PWD")
    else cmd
  }

  /** Replacing a head of at most three characters by a verb at most two longer keeps the rest. */
  lemma HeadRewrite(cmd: string, pat: string, verb: string)
    requires pat <= cmd && |pat| <= 3 && |pat| <= |verb| <= |pat| + 2
    ensures var r := ReplaceFirst(cmd, pat, verb);
      |r| <= |cmd| + 2 && (|cmd| >= 3 ==> |r| >= |cmd| - 3 && r[|r| - (|cmd| - 3)..] == cmd[3..])
  {
    var r := ReplaceFirst(cmd, pat, verb);
    assert r == verb + cmd[|pat|..];
    if |cmd| >= 3 {
      assert r[|r| - (|cmd| - 3)..] == cmd[|pat|..][3 - |pat|..];
    }
  }

  /** No alias prefix is a prefix of another, so at most one rule can match a line. */
  lemma AliasesPrefixFree(cmd: string, i: int, j: int)
    requires 0 <= i < |Aliases| && 0 <= j < |Aliases|
    requires Aliases[i].prefix <= cmd && Aliases[j].prefix <= cmd
    ensures i == j
  {
    var p, q := Aliases[i].prefix, Aliases[j].prefix;
    assert |p| >= 2 && |q| >= 2;
    assert p[0] == cmd[0] == q[0] && p[1] == cmd[1] == q[1];
    assert i == 0 || i == 1 || i == 2 || i == 3 || i == 4 || i == 5;
    assert j == 0 || j == 1 || j == 2 || j == 3 || j == 4 || j == 5;
  }

  /** A line starting with an alias prefix becomes its verb followed by the rest of the line, unchanged. */
  lemma ConvertRule(cmd: string, i: int)
    requires 0 <= i < |Aliases| && Aliases[i].prefix <= cmd
    ensures ConvertUnixLikeCommand(cmd) == Aliases[i].verb + cmd[|Aliases[i].prefix|..]
  {
    forall j | 0 <= j < |Aliases| && j != i
      ensures !(Aliases[j].prefix <= cmd)
    {
      if Aliases[j].prefix <= cmd {
        AliasesPrefixFree(cmd, i, j);
      }
    }
    assert i != 0 ==> !(Aliases[0].prefix <= cmd);
    assert i != 1 ==> !(Aliases[1].prefix <= cmd);
    assert i != 2 ==> !(Aliases[2].prefix <= cmd);
    assert i != 3 ==> !(Aliases[3].prefix <= cmd);
    assert i != 4 ==> !(Aliases[4].prefix <= cmd);
    assert i == 0 || i == 1 || i == 2 || i == 3 || i == 4 || i == 5;
  }

  /** A line that starts with no alias prefix is returned as it is. */
  lemma ConvertUnmatched(cmd: string)
    requires forall a :: a in Aliases ==> !(a.prefix <= cmd)
    ensures ConvertUnixLikeCommand(cmd) == cmd
  {
    assert Aliases[0] in Aliases && Aliases[1] in Aliases && Aliases[2] in Aliases;
    assert Aliases[3] in Aliases && Aliases[4] in Aliases && Aliases[5] in Aliases;
  }

  /** Every verb starts with an upper-case letter and every prefix with a lower-case one. */
  lemma CasesDiffer(cmd: string, i: int)
    requires 0 <= i < |Aliases|
    ensures forall a :: a in Aliases ==> !(a.prefix <= Aliases[i].verb + cmd)
  {
    var w := Aliases[i].verb + cmd;
    assert 'A' <= w[0] <= 'Z';
    forall a | a in Aliases
      ensures !(a.prefix <= w)
    {
      assert 'a' <= a.prefix[0] <= 'z';
    }
  }

  /** Rewriting twice is rewriting once: a rewritten line starts with a verb, which matches no prefix. */
  lemma ConvertIdempotent(cmd: string)
    ensures ConvertUnixLikeCommand(ConvertUnixLikeCommand(cmd)) == ConvertUnixLikeCommand(cmd)
  {
    if i :| 0 <= i < |Aliases| && Aliases[i].prefix <= cmd {
      ConvertRule(cmd, i);
      CasesDiffer(cmd[|Aliases[i].prefix|..], i);
      ConvertUnmatched(ConvertUnixLikeCommand(cmd));
    } else {
      forall a | a in Aliases
        ensures !(a.prefix <= cmd)
      {
        var k :| 0 <= k < |Aliases| && Aliases[k] == a;
      }
      ConvertUnmatched(cmd);
    }
  }

  /** Rewriting never shortens a line. */
  lemma ConvertKeepsLength(cmd: string)
    ensures |ConvertUnixLikeCommand(cmd)| >= |cmd|
  {
    if i :| 0 <= i < |Aliases| && Aliases[i].prefix <= cmd {
      ConvertRule(cmd, i);
      assert |Aliases[i].verb| >= |Aliases[i].prefix| by {
        assert i == 0 || i == 1 || i == 2 || i == 3 || i == 4 || i == 5;
      }
    } else {
      forall a | a in Aliases
        ensures !(a.prefix <= cmd)
      {
        var k :| 0 <= k < |Aliases| && Aliases[k] == a;
      }
      ConvertUnmatched(cmd);
    }
  }

  // ---------------------------------------------------------------------------
  // isDataCmd

  /** Whether `s` starts with one of `table`, trying the entries in order and stopping at the first. */
  function HasAnyPrefix(s: string, table: seq<string>): (r: bool)
    ensures r <==> exists i :: 0 <= i < |table| && table[i] <= s
  {
    if table == [] then false
    else if table[0] <= s then true
    else
      var r := HasAnyPrefix(s, table[1..]);
      assert forall i :: 1 <= i < |table| ==> table[1..][i - 1] == table[i];
      r
  }

  /** A line needs a data connection when, upper-cased, it starts with one of the data verbs. */
  predicate IsDataCmd(text: string)
    ensures IsDataCmd(text) ==> |text| >= 4 && UpperChar(text[0]) in "RNLSA"
  {
    HasAnyPrefix(ToUpper(text), DataCommands)
  }

  /** Exactly the lines whose first four characters, upper-cased, spell a data verb. */
  lemma IsDataCmdIff(text: string)
    ensures IsDataCmd(text) <==> |text| >= 4 && ToUpper(text[..4]) in DataCommands
  {
    var u := ToUpper(text);
    if |text| >= 4 {
      assert ToUpper(text[..4]) == u[..4];
      forall i | 0 <= i < |DataCommands|
        ensures DataCommands[i] <= u <==> DataCommands[i] == u[..4]
      {
        assert |DataCommands[i]| == 4;
      }
    } else {
      forall i | 0 <= i < |DataCommands|
        ensures !(DataCommands[i] <= u)
      {
        assert |DataCommands[i]| == 4;
      }
    }
  }

  lemma UpperTwice(s: string)
    ensures ToUpper(ToUpper(s)) == ToUpper(s)
  {
    assert forall i :: 0 <= i < |s| ==> UpperChar(UpperChar(s[i])) == UpperChar(s[i]);
  }

  /** The test ignores case: a line and its upper-cased form are classified alike. */
  lemma IsDataCmdIgnoresCase(text: string)
    ensures IsDataCmd(ToUpper(text)) <==> IsDataCmd(text)
  {
    UpperTwice(text);
  }

  /** Upper-case letters are left alone. */
  lemma UpperFixed(v: string)
    requires forall k :: 0 <= k < |v| ==> 'A' <= v[k] <= 'Z'
    ensures ToUpper(v) == v
  {
  }

  /** Every data verb is four letters, starting with R, N, L, S or A. */
  lemma DataVerbShape(x: string)
    requires x in DataCommands
    ensures |x| == 4 && x[0] in "RNLSA"
  {
  }

  /** `retr` and `RETR` both ask for a data connection, whatever follows; `CWD` never does. */
  lemma VerbCaseIgnored(rest: string)
    ensures IsDataCmd("retr" + rest) && IsDataCmd("RETR" + rest) && !IsDataCmd("CWD" + rest)
  {
    var low := "retr" + rest;
    assert low[..4] == "retr";
    assert ToUpper("retr") == DataCommands[0];
    IsDataCmdIff(low);
    VerbLeads("RETR", rest, 0);
    OtherVerbLeads("CWD", rest);
  }

  /** The rewritten form of a line starting with alias `i` is a data command exactly for ls, dir and cat. */
  lemma RewrittenRouting(cmd: string, i: int)
    requires 0 <= i < |Aliases| && Aliases[i].prefix <= cmd
    ensures IsDataCmd(ConvertUnixLikeCommand(cmd)) <==> 1 <= i <= 3
  {
    ConvertRule(cmd, i);
    var v := Aliases[i].verb;
    if 1 <= i <= 3 {
      VerbLeads(v, cmd[|Aliases[i].prefix|..], if i == 3 then 0 else i);
    } else {
      OtherVerbLeads(v, cmd[|Aliases[i].prefix|..]);
    }
  }

  /** A line starting with a data verb, in upper case, is a data command. */
  lemma VerbLeads(v: string, rest: string, k: int)
    requires 0 <= k < |DataCommands| && v == DataCommands[k]
    ensures IsDataCmd(v + rest)
  {
    var t := v + rest;
    assert t[..4] == v;
    UpperFixed(v);
    IsDataCmdIff(t);
  }

  /** A line starting with an upper-case C, D or P is not a data command. */
  lemma OtherVerbLeads(v: string, rest: string)
    requires |v| >= 1 && v[0] in "CDP"
    ensures !IsDataCmd(v + rest)
  {
    var t := v + rest;
    forall x | x in DataCommands
      ensures !(x <= ToUpper(t))
    {
      DataVerbShape(x);
      assert ToUpper(t)[0] == v[0];
    }
  }

  /**
   * After rewriting, lines starting ls, dir or cat are data commands, and
   * lines starting cd, rm or pwd are not, whatever follows the alias.
   */
  lemma AliasRouting(cmd: string)
    ensures ("ls" <= cmd || "dir" <= cmd || "cat" <= cmd) ==> IsDataCmd(ConvertUnixLikeCommand(cmd))
    ensures ("cd" <= cmd || "rm" <= cmd || "pwd" <= cmd) ==> !IsDataCmd(ConvertUnixLikeCommand(cmd))
  {
    forall k | 0 <= k < |Aliases| && Aliases[k].prefix <= cmd
      ensures IsDataCmd(ConvertUnixLikeCommand(cmd)) <==> 1 <= k <= 3
    {
      RewrittenRouting(cmd, k);
    }
    assert Aliases[0].prefix == "cd" && Aliases[1].prefix == "ls" && Aliases[2].prefix == "dir";
    assert Aliases[3].prefix == "cat" && Aliases[4].prefix == "rm" && Aliases[5].prefix == "pwd";
  }

  // ---------------------------------------------------------------------------
  // What the read loop does with one line

  /** The fate of one input line. */
  datatype Route =
    | Skip                   // empty line: read the next one
    | Stop                   // exit or quit: leave the loop
    | ToData(text: string)   // send through DataCmd
    | ToControl(text: string) // send through Cmd

  /** One turn of the read loop, without the I/O around it. */
  function Dispatch(line: string): (r: Route)
    ensures r.Skip? <==> line == ""
    ensures r.Stop? <==> line == "exit" || line == "quit"
    ensures (r.ToData? || r.ToControl?) ==> r.text != "" && r.text == ConvertUnixLikeCommand(line)
    ensures r.ToData? ==> IsDataCmd(r.text)
    ensures r.ToControl? ==> !IsDataCmd(r.text)
  {
    if |line| == 0 then Skip
    else if line == "exit" || line == "quit" then Stop
    else
      var text := ConvertUnixLikeCommand(line);
      ConvertKeepsLength(line);
      if IsDataCmd(text) then ToData(text) else ToControl(text)
  }

  /** What is sent is already in rewritten form: rewriting it again would change nothing. */
  lemma DispatchSendsRewritten(line: string)
    ensures var r := Dispatch(line); (r.ToData? || r.ToControl?) ==> ConvertUnixLikeCommand(r.text) == r.text
  {
    ConvertIdempotent(line);
  }

  /** `ls` asks for a name list over a data connection, whatever follows it. */
  lemma DispatchList(rest: string)
    ensures Dispatch("ls" + rest) == ToData("NLST" + rest)
  {
    var line := "ls" + rest;
    ConvertRule(line, 1);
    assert line[2..] == rest;
    RewrittenRouting(line, 1);
    assert line != "exit" && line != "quit";
  }

  /** `cd` changes directory over the control connection, whatever follows it. */
  lemma DispatchChangeDir(rest: string)
    ensures Dispatch("cd" + rest) == ToControl("CWD" + rest)
  {
    var line := "cd" + rest;
    ConvertRule(line, 0);
    assert line[2..] == rest;
    RewrittenRouting(line, 0);
    assert line[0] == 'c' && "exit"[0] == 'e' && "quit"[0] == 'q';
  }

  /** A line starting with no alias and no data verb, in any case, goes to the control connection as typed. */
  lemma DispatchPlain(line: string)
    requires line != "" && line != "exit" && line != "quit"
    requires line[0] !in "cldrp" && UpperChar(line[0]) !in "RNLSA"
    ensures Dispatch(line) == ToControl(line)
  {
    forall a | a in Aliases
      ensures !(a.prefix <= line)
    {
      assert a.prefix[0] in "cldrp";
    }
    ConvertUnmatched(line);
    forall x | x in DataCommands
      ensures !(x <= ToUpper(line))
    {
      DataVerbShape(x);
    }
  }

  /** `retr` in lower case is sent as typed, and over a data connection. */
  lemma DispatchRetrieve(rest: string)
    ensures Dispatch("retr" + rest) == ToData("retr" + rest)
  {
    var line := "retr" + rest;
    forall a | a in Aliases
      ensures !(a.prefix <= line)
    {
      assert a.prefix[0] != 'r' || a.prefix[1] != 'e';
    }
    ConvertUnmatched(line);
    VerbCaseIgnored(rest);
    assert line != "exit" && line != "quit";
  }

  /** The stop words are matched exactly and before rewriting: `EXIT` and `exit now` are sent to the server. */
  lemma StopIsExact(rest: string)
    ensures Dispatch("EXIT" + rest) == ToControl("EXIT" + rest)
    ensures rest != "" ==> Dispatch("exit" + rest) == ToControl("exit" + rest)
  {
    var up := "EXIT" + rest;
    assert up[0] == 'E';
    DispatchPlain(up);
    if rest != "" {
      var low := "exit" + rest;
      assert |low| > 4 && low[0] == 'e';
      DispatchPlain(low);
    }
  }
}
