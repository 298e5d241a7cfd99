/**
 * The query engine `_nmcli`: resolve the field set, build the argument vector,
 * run nmcli through an invoker, and either parse its output or fail with its
 * exit code and standard error.
 */
module QueryEngine {
  import opened Outcomes
  import opened Text
  import opened Fields
  import opened Terse

  /** What the invoker hands back for one process: exit code, standard output, standard error. */
  datatype Reply = Reply(retcode: int, stdout: string, stderr: string)

  /** Runs an argument vector; stands for the subprocess call, which is outside the model. */
  type Invoker = seq<string> -> Reply

  /** One call through the wrapper: the argument vectors it ran (none or one) and its outcome. */
  datatype Run = Run(invoked: seq<seq<string>>, result: Result<seq<Record>>)

  /** The words `shlex.split(command)` adds when `command` is non-empty. */
  function CommandWords(command: string): (r: seq<string>)
    ensures command == "" ==> r == []
    ensures forall w :: w in r ==> w != "" && ' ' !in w
  {
    if command != "" then ShellWords(command) else []
  }

  /** An empty command adds no words either way. */
  lemma CommandWordsShell(command: string)
    ensures CommandWords(command) == ShellWords(command)
  {
    if command == "" {
      assert Split(command, ' ') == [""];
    }
  }

  /**
   * The argument vector: the tool, `--terse`, `--fields` with the comma-joined
   * field set, then, from the object on, the object and the command's words.
   */
  function Argv(obj: string, command: string, fields: seq<string>): (r: seq<string>)
    ensures |r| >= 5 && r[..3] == ["nmcli", "--terse", "--fields"] && r[3] == Join(fields, ",")
    ensures r[4..] == [obj] + ShellWords(command)
  {
    CommandWordsShell(command);
    ["nmcli", "--terse", "--fields", Join(fields, ","), obj] + CommandWords(command)
  }

  /** `_nmcli(obj, command, fields, multiline)`, where `fields` extends the lookup path. */
  function Query(obj: string, command: string, extra: seq<string>, multiline: bool, shell: Invoker): (r: Run)
    ensures |r.invoked| <= 1
    ensures r.invoked == [] ==> r.result == Err(UnresolvedFields)
  {
    match Resolve([obj, command] + extra, multiline)
    case Err(e) => Run([], Err(e))
    case Ok(res) =>
      var argv := Argv(obj, command, res.fields);
      var reply := shell(argv);
      if reply.retcode == 0 then Run([argv], ParseOutput(reply.stdout, res.fields, res.multiline))
      else Run([argv], Err(ProcessFailed(reply.retcode, reply.stderr)))
  }

  /** A non-empty field set none of whose names holds a comma. */
  predicate CommaFree(fields: seq<string>)
  {
    |fields| >= 1 && forall i :: 0 <= i < |fields| ==> ',' !in fields[i]
  }

  /** The multi-line field set, the longest of the table, is comma-free. */
  lemma ConListIdCommaFree()
    ensures CommaFree(FieldTable["con list id"])
  {
    var fields := FieldTable["con list id"];
    assert fields[..9] == ["connection", "802-3-ethernet", "802-1x", "802-11-wireless",
                           "802-11-wireless-security", "ipv4", "ipv6", "serial", "ppp"];
    assert forall i :: 0 <= i < 9 ==> ',' !in fields[i];
  }

  /** No registered field name holds a comma, so the `--fields` argument can be read back. */
  lemma TableFieldsHaveNoComma(fields: seq<string>)
    requires fields in FieldTable.Values
    ensures |fields| >= 1 && forall i :: 0 <= i < |fields| ==> ',' !in fields[i]
  {
    var key :| key in FieldTable && FieldTable[key] == fields;
    if key == "con list id" {
      ConListIdCommaFree();
    } else {
      assert key in {"nm", "dev", "con", "con status"};
    }
  }

  /**
   * A path with no registered prefix runs no process. Otherwise exactly one
   * process runs, with the resolved field set comma-joined in the `--fields`
   * argument (splitting it on commas gives the field set back) and the
   * command's words after the object; a non-zero exit code fails with that code
   * and the standard error, a zero one yields the parsed output.
   */
  lemma QueryOutcome(obj: string, command: string, extra: seq<string>, multiline: bool, shell: Invoker)
    ensures var q := Query(obj, command, extra, multiline, shell);
            var path := [obj, command] + extra;
            && (Resolve(path, multiline).Err? ==> q == Run([], Err(UnresolvedFields)))
            && (Resolve(path, multiline).Ok? ==>
                  var fields := Resolve(path, multiline).value.fields;
                  var argv := Argv(obj, command, fields);
                  var reply := shell(argv);
                  && q.invoked == [argv]
                  && argv[..5] == ["nmcli", "--terse", "--fields", argv[3], obj]
                  && Split(argv[3], ',') == fields
                  && argv[5..] == CommandWords(command)
                  && (reply.retcode != 0 ==> q.result == Err(ProcessFailed(reply.retcode, reply.stderr)))
                  && (reply.retcode == 0 && !multiline ==> q.result == Ok(SingleLineRecords(Lines(reply.stdout), fields)))
                  && (reply.retcode == 0 && multiline ==> q.result == MultiLineRecords(Lines(reply.stdout))))
  {
    var path := [obj, command] + extra;
    ResolveKeepsMultiline(path, multiline);
    if Resolve(path, multiline).Ok? {
      var fields := Resolve(path, multiline).value.fields;
      TableFieldsHaveNoComma(fields);
      SplitJoin(fields, ',');
    }
  }

  /** A bare query on a registered object runs one process, whose words from the object on are the object and the command's words. */
  lemma QueryRunsOnce(obj: string, command: string, shell: Invoker)
    requires obj in FieldTable
    ensures |Query(obj, command, [], false, shell).invoked| == 1
    ensures Query(obj, command, [], false, shell).invoked[0][4..] == [obj] + ShellWords(command)
  {
    var path := [obj, command] + [];
    assert path == [obj] + [command];
    ResolveObject(obj, [command], false);
  }

  /** A bare query whose joined path is not registered runs one process on the object's own field set. */
  lemma QueryFallback(obj: string, command: string, shell: Invoker)
    requires obj in FieldTable
    requires obj + " " + command !in FieldTable
    ensures Query(obj, command, [], false, shell).invoked
              == [["nmcli", "--terse", "--fields", Join(FieldTable[obj], ","), obj] + ShellWords(command)]
  {
    assert [obj, command] + [] == [obj, command];
    ResolveFallback(obj, command, false);
    CommandWordsShell(command);
  }

  /** `_nmcli` as the source runs it: resolve, build `args`, run, then the parsing loops or the failure. */
  method Nmcli(obj: string, command: string, extra: seq<string>, multiline: bool, shell: Invoker) returns (r: Run)
    ensures r == Query(obj, command, extra, multiline, shell)
  {
    var ns := [obj, command] + extra;
    var resolved := BuildFields(ns, multiline);
    if resolved.Err? {
      return Run([], Err(resolved.error));
    }
    var fields, ml := resolved.value.fields, resolved.value.multiline;
    var args := ["nmcli", "--terse", "--fields", Join(fields, ","), obj];
    if command != "" {
      args := args + ShellWords(command);
    }
    assert args == Argv(obj, command, fields);
    var reply := shell(args);
    ghost var spec := Query(obj, command, extra, multiline, shell);
    assert spec == if reply.retcode == 0 then Run([args], ParseOutput(reply.stdout, fields, ml))
                   else Run([args], Err(ProcessFailed(reply.retcode, reply.stderr)));
    if reply.retcode == 0 {
      if ml {
        var parsed := ParseMultiLine(reply.stdout);
        r := Run([args], parsed);
      } else {
        var data := ParseSingleLine(reply.stdout, fields);
        r := Run([args], Ok(data));
      }
    } else {
      r := Run([args], Err(ProcessFailed(reply.retcode, reply.stderr)));
    }
  }
}
