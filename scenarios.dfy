/**
 * Concrete calls on the three objects, as the module's own demonstration
 * block makes them, and what the model says each one does: the process it
 * runs, or the failure it stops at before running anything.
 */
module Scenarios {
  import opened Outcomes
  import opened Text
  import opened Fields
  import opened QueryEngine
  import opened Terse
  import opened Actions

  const NmEnable: AllowList := Some([BoolArg(true), BoolArg(false)])
  const ConList: AllowList := Some([NoneArg, StrArg("id"), StrArg("uuid")])
  const ConUp: AllowList := Some([StrArg("id"), StrArg("uuid"), StrArg("iface"), StrArg("ap")])

  /** The allow-lists the scenarios use are the registered ones. */
  lemma RegisteredAllowLists()
    ensures AllowListOf("nm", "status") == Some(None)
    ensures AllowListOf("nm", "enable") == Some(NmEnable)
    ensures AllowListOf("con", "list") == Some(ConList)
    ensures AllowListOf("con", "up") == Some(ConUp)
  {
    RegisteredLookup(NmCommands, 0);
    RegisteredLookup(NmCommands, 1);
    RegisteredLookup(ConCommands, 0);
    RegisteredLookup(ConCommands, 2);
  }

  /** A single accepted argument validates to its sanitised text. */
  lemma VerifyOne(a: Arg, usable: Option<seq<Option<string>>>, command: string)
    requires Sanitize(a).Ok? && Accepts(usable, Sanitize(a).value)
    ensures VerifyArgs([a], usable, command) == Ok([Sanitize(a).value])
  {
    assert [a][1..] == [];
    assert [Sanitize(a).value] + [] == [Sanitize(a).value];
  }

  /** A single present token serialises to the command, a space and the token's option. */
  lemma CommandOne(command: string, t: string, kwargs: seq<Keyword>)
    requires OptWords(t, kwargs).Ok?
    ensures CommandString(command, [Some(t)], kwargs) == Ok(command + " " + Join(OptWords(t, kwargs).value, " "))
  {
    var opt := Join(OptWords(t, kwargs).value, " ");
    var tokens := [Some(t)];
    assert Opt(tokens[0], kwargs) == Ok(Some(opt));
    var o := Opts(tokens, kwargs);
    assert o.Ok?;
    assert |o.value| == 1;
    assert o.value[0] == Some(opt);
    assert o.value == [Some(opt)];
    assert [Some(opt)][1..] == [];
    assert AllText([]) == Some([]);
    assert [opt] + [] == [opt];
    assert AllText([Some(opt)]) == Some([opt]);
  }

  /** The argument vector of a bare `nm status`. */
  lemma NmStatusQuery(shell: Invoker)
    ensures Query("nm", "status", [], false, shell).invoked
              == [["nmcli", "--terse", "--fields", Join(FieldTable["nm"], ","), "nm"] + ShellWords("status")]
  {
    QueryFallback("nm", "status", shell);
  }

  lemma StatusWords()
    ensures ShellWords("status") == ["status"]
  {
    assert Join(["status"], " ") == "status";
    ShellWordsJoin(["status"]);
  }

  /** `nm.status()` runs nmcli on the `nm` field set with the bare command. */
  lemma NmStatus(shell: Invoker)
    ensures Action("nm", "status", None, One(NoneArg), [], shell).invoked
              == [["nmcli", "--terse", "--fields", Join(FieldTable["nm"], ","), "nm"] + ["status"]]
  {
    assert CallArgs(One(NoneArg), []) == [];
    ActionQuery("nm", "status", None, One(NoneArg), [], shell, [], "status");
    NmStatusQuery(shell);
    StatusWords();
  }

  /** `nm.enable(True)` validates and serialises to `enable true`. */
  lemma NmEnableTrueCommand(shell: Invoker)
    ensures Action("nm", "enable", NmEnable, One(BoolArg(true)), [], shell) == Query("nm", "enable true", [], false, shell)
  {
    assert CallArgs(One(BoolArg(true)), []) == [BoolArg(true)];
    assert SanitizeAll([BoolArg(true), BoolArg(false)])[0] == Some("true");
    VerifyOne(BoolArg(true), UsableArgs(NmEnable), "enable");
    assert OptWords("true", []) == Ok(["true"]);
    CommandOne("enable", "true", []);
    assert Join(["true"], " ") == "true";
    assert "enable" + " " + "true" == "enable true";
    ActionQuery("nm", "enable", NmEnable, One(BoolArg(true)), [], shell, [Some("true")], "enable true");
  }

  lemma NmEnableTrueQuery(shell: Invoker)
    ensures Query("nm", "enable true", [], false, shell).invoked
              == [["nmcli", "--terse", "--fields", Join(FieldTable["nm"], ","), "nm"] + ShellWords("enable true")]
  {
    QueryFallback("nm", "enable true", shell);
  }

  lemma EnableTrueWords()
    ensures ShellWords("enable true") == ["enable", "true"]
  {
    JoinPair("enable", "true", " ");
    assert "enable" + " " + "true" == "enable true";
    ShellWordsJoin(["enable", "true"]);
  }

  /** `nm.enable(True)` sends the lower-cased boolean as an argument word. */
  lemma NmEnableTrue(shell: Invoker)
    ensures Action("nm", "enable", NmEnable, One(BoolArg(true)), [], shell).invoked
              == [["nmcli", "--terse", "--fields", Join(FieldTable["nm"], ","), "nm"] + ["enable", "true"]]
  {
    NmEnableTrueCommand(shell);
    NmEnableTrueQuery(shell);
    EnableTrueWords();
  }

  /** `con.list(food=8302)` is refused on the keyword name and runs nothing. */
  lemma ConListFoodRefused(shell: Invoker)
    ensures Action("con", "list", ConList, One(NoneArg), [Keyword("food", IntArg(8302))], shell)
              == Run([], Err(NotAllowed(Some("food"), "list")))
  {
    assert CallArgs(One(NoneArg), [Keyword("food", IntArg(8302))]) == [StrArg("food")];
    assert Lower("food") == "food";
    var usable := SanitizeAll([NoneArg, StrArg("id"), StrArg("uuid")]);
    assert usable == [None, Some("id"), Some("uuid")] by {
      assert Lower("id") == "id" && Lower("uuid") == "uuid";
    }
    assert !Accepts(UsableArgs(ConList), Some("food"));
  }

  /** `nm.enable("asdasd")` is refused and runs nothing. */
  lemma NmEnableRefused(shell: Invoker)
    ensures Action("nm", "enable", NmEnable, One(StrArg("asdasd")), [], shell)
              == Run([], Err(NotAllowed(Some("asdasd"), "enable")))
  {
    assert CallArgs(One(StrArg("asdasd")), []) == [StrArg("asdasd")];
    assert Lower("asdasd") == "asdasd";
    assert SanitizeAll([BoolArg(true), BoolArg(false)]) == [Some("true"), Some("false")];
  }

  /** `con.up(id="eth0")` validates the keyword name and serialises to `up id eth0`. */
  lemma ConUpByIdCommand(shell: Invoker)
    ensures Action("con", "up", ConUp, One(NoneArg), [Keyword("id", StrArg("eth0"))], shell)
              == Query("con", "up id eth0", [], false, shell)
  {
    var kwargs := [Keyword("id", StrArg("eth0"))];
    assert CallArgs(One(NoneArg), kwargs) == [StrArg("id")];
    assert Lower("id") == "id" && Lower("eth0") == "eth0";
    assert SanitizeAll([StrArg("id"), StrArg("uuid"), StrArg("iface"), StrArg("ap")])[0] == Some("id");
    VerifyOne(StrArg("id"), UsableArgs(ConUp), "up");
    assert OptWords("id", kwargs) == Ok(["id", "eth0"]);
    JoinPair("id", "eth0", " ");
    CommandOne("up", "id", kwargs);
    assert "id" + " " + "eth0" == "id eth0";
    assert "up" + " " + "id eth0" == "up id eth0";
    ActionQuery("con", "up", ConUp, One(NoneArg), kwargs, shell, [Some("id")], "up id eth0");
  }

  lemma ConUpByIdQuery(shell: Invoker)
    ensures Query("con", "up id eth0", [], false, shell).invoked
              == [["nmcli", "--terse", "--fields", Join(FieldTable["con"], ","), "con"] + ShellWords("up id eth0")]
  {
    QueryFallback("con", "up id eth0", shell);
  }

  lemma UpIdWords()
    ensures ShellWords("up id eth0") == ["up", "id", "eth0"]
  {
    JoinPair("id", "eth0", " ");
    assert ["up", "id", "eth0"][1..] == ["id", "eth0"];
    assert "up" + " " + ("id" + " " + "eth0") == "up id eth0";
    ShellWordsJoin(["up", "id", "eth0"]);
  }

  /**
   * `con.up(id="eth0")` sends `up id eth0`; since the command string is one
   * path token, no `con up …` key can match and the `con` field set is used.
   */
  lemma ConUpById(shell: Invoker)
    ensures Action("con", "up", ConUp, One(NoneArg), [Keyword("id", StrArg("eth0"))], shell).invoked
              == [["nmcli", "--terse", "--fields", Join(FieldTable["con"], ","), "con"] + ["up", "id", "eth0"]]
  {
    ConUpByIdCommand(shell);
    ConUpByIdQuery(shell);
    UpIdWords();
  }

  /** `con.list([None])` passes validation, then fails joining the None token into the command. */
  lemma ConListNoneToken(shell: Invoker)
    ensures Action("con", "list", ConList, Many([NoneArg]), [], shell) == Run([], Err(NoneInCommand("list")))
  {
    assert CallArgs(Many([NoneArg]), []) == [NoneArg];
    assert SanitizeAll([NoneArg, StrArg("id"), StrArg("uuid")])[0] == None;
    VerifyOne(NoneArg, UsableArgs(ConList), "list");
    var tokens: seq<Option<string>> := [None];
    assert Opt(tokens[0], []) == Ok(None);
    var o := Opts(tokens, []);
    assert o.Ok? && |o.value| == 1 && o.value[0] == None;
    assert o.value == tokens;
    assert AllText([None]) == None;
  }

  /**
   * `con.up(id=10**20)`: the name `id` is allowed, but the value is a Python 2
   * `long`, so sanitising it while the options are built raises and nothing runs.
   */
  lemma ConUpByLongId(shell: Invoker)
    ensures Action("con", "up", ConUp, One(NoneArg), [Keyword("id", Integer(100000000000000000000))], shell)
              == Run([], Err(NoLower(100000000000000000000)))
  {
    var kwargs := [Keyword("id", LongArg(100000000000000000000))];
    assert CallArgs(One(NoneArg), kwargs) == [StrArg("id")];
    assert Lower("id") == "id";
    assert SanitizeAll([StrArg("id"), StrArg("uuid"), StrArg("iface"), StrArg("ap")])[0] == Some("id");
    VerifyOne(StrArg("id"), UsableArgs(ConUp), "up");
    assert OptWords("id", kwargs) == Err(NoLower(100000000000000000000));
    assert Opt([Some("id")][0], kwargs) == Err(NoLower(100000000000000000000));
    assert Opts([Some("id")], kwargs) == Err(NoLower(100000000000000000000));
  }

  /** The lines of a two-property multi-line output with a trailing newline. */
  lemma ExampleLines()
    ensures Lines("connection.id:home\nipv4.addr:192.168.1.2\n") == ["connection.id:home", "ipv4.addr:192.168.1.2", ""]
  {
    var parts := ["connection.id:home", "ipv4.addr:192.168.1.2", ""];
    assert Join(parts, "\n") == "connection.id:home\nipv4.addr:192.168.1.2\n" by {
      assert parts[1..] == ["ipv4.addr:192.168.1.2", ""];
      assert parts[1..][1..] == [""];
    }
    SplitJoin(parts, '\n');
  }

  /** Two well-formed lines and a blank one give the record of the two properties. */
  lemma MultiLineTwoProperties(s1: string, p1: string, v1: string, s2: string, p2: string, v2: string)
    requires '.' !in s1 && '.' !in p1 && ':' !in s1 && ':' !in p1
    requires '.' !in s2 && '.' !in p2 && ':' !in s2 && ':' !in p2
    ensures MultiLineRecords([s1 + "." + p1 + ":" + v1, s2 + "." + p2 + ":" + v2, ""]) == Ok([map[p1 := v1][p2 := v2]])
  {
    var lines := [s1 + "." + p1 + ":" + v1, s2 + "." + p2 + ":" + v2, ""];
    assert lines[..1][..0] == [];
    MultiLineStepAt(map[], s1, p1, v1);
    assert MultiLineRow(lines[..1]) == Ok(map[p1 := v1]);
    assert lines[..2][..1] == lines[..1];
    MultiLineStepAt(map[p1 := v1], s2, p2, v2);
    assert MultiLineRow(lines[..2]) == Ok(map[p1 := v1][p2 := v2]);
    assert lines[..3][..2] == lines[..2] && lines[..3] == lines;
    assert SplitOnce("", ':') == [""];
  }

  /** Multi-line parsing of those lines gives one record of both properties, the sections dropped. */
  lemma MultiLineExample()
    ensures MultiLineRecords(["connection.id:home", "ipv4.addr:192.168.1.2", ""])
              == Ok([map["id" := "home", "addr" := "192.168.1.2"]])
  {
    assert "connection" + "." + "id" + ":" + "home" == "connection.id:home";
    assert "ipv4" + "." + "addr" + ":" + "192.168.1.2" == "ipv4.addr:192.168.1.2";
    MultiLineTwoProperties("connection", "id", "home", "ipv4", "addr", "192.168.1.2");
    assert map["id" := "home"]["addr" := "192.168.1.2"] == map["id" := "home", "addr" := "192.168.1.2"];
  }
}
