/**
 * The actions of the `nm`, `con` and `dev` objects: caller arguments are
 * normalised, checked against the command's allow-list before any process
 * runs, serialised into one command string and handed to the query engine.
 */
module Actions {
  import opened Outcomes
  import opened Text
  import opened Fields
  import opened Terse
  import opened QueryEngine

  /** Python 2's `int` on a 64-bit platform: from `-sys.maxint - 1` to `sys.maxint`. */
  type PyInt = i: int | -0x8000_0000_0000_0000 <= i <= 0x7FFF_FFFF_FFFF_FFFF

  /** A caller-supplied argument value, by its Python 2 type; an integer outside `PyInt` is a `long`. */
  datatype Arg = BoolArg(b: bool) | IntArg(i: PyInt) | LongArg(l: int) | StrArg(s: string) | NoneArg

  /** The Python 2 value of an integer: an `int` when it fits the machine word, a `long` otherwise. */
  function Integer(n: int): (a: Arg)
    ensures a.IntArg? <==> -0x8000_0000_0000_0000 <= n <= 0x7FFF_FFFF_FFFF_FFFF
    ensures (a.IntArg? && a.i == n) || (a.LongArg? && a.l == n)
  {
    if -0x8000_0000_0000_0000 <= n <= 0x7FFF_FFFF_FFFF_FFFF then IntArg(n) else LongArg(n)
  }

  /**
   * `sanitize_arg`: booleans become "true"/"false" (tested before integers),
   * integers their decimal text, strings are lower-cased, None stays None. A
   * `long` fails the integer test and has no `lower`, so it raises.
   */
  function Sanitize(a: Arg): (r: Result<Option<string>>)
    ensures r.Err? <==> a.LongArg?
    ensures r.Err? ==> r.error == NoLower(a.l)
    ensures r.Ok? ==> (r.value.None? <==> a.NoneArg?)
    ensures r.Ok? && r.value.Some? ==> forall i :: 0 <= i < |r.value.value| ==> !IsUpper(r.value.value[i])
  {
    match a
    case BoolArg(b) => Ok(Some(if b then "true" else "false"))
    case IntArg(i) => Ok(Some(IntToDecimal(i)))
    case LongArg(l) => Err(NoLower(l))
    case StrArg(s) => Ok(Some(Lower(s)))
    case NoneArg => Ok(None)
  }

  /** The values an allow-list registers: never a `long`. */
  type ListedArg = a: Arg | !a.LongArg? witness NoneArg

  /** `sanitize_args` on a list of registered values: every element sanitised, in order. */
  function SanitizeAll(xs: seq<ListedArg>): (r: seq<Option<string>>)
    ensures |r| == |xs|
    ensures forall i :: 0 <= i < |xs| ==> Sanitize(xs[i]) == Ok(r[i])
  {
    seq(|xs|, i requires 0 <= i < |xs| => Sanitize(xs[i]).value)
  }

  /** Sanitising the text a sanitised argument produced changes nothing. */
  lemma SanitizeIdempotent(a: Arg)
    ensures Sanitize(a).Ok? && Sanitize(a).value.Some? ==>
              Sanitize(StrArg(Sanitize(a).value.value)) == Sanitize(a)
  {
    if Sanitize(a).Ok? && Sanitize(a).value.Some? {
      LowerFixed(Sanitize(a).value.value);
    }
  }

  /**
   * A non-negative integer sanitises exactly when it is a Python 2 `int`, and
   * then becomes digits whose value is that integer.
   */
  lemma SanitizeNumber(n: nat)
    ensures Sanitize(Integer(n)).Ok? <==> n <= 0x7FFF_FFFF_FFFF_FFFF
    ensures Sanitize(Integer(n)).Ok? ==>
              && Sanitize(Integer(n)).value.Some?
              && (forall i :: 0 <= i < |Sanitize(Integer(n)).value.value| ==> IsDigit(Sanitize(Integer(n)).value.value[i]))
              && DecimalValue(Sanitize(Integer(n)).value.value) == n
  {
    DecimalRoundTrip(n);
  }

  /** The arguments registered for a command: None, or a list of argument values. */
  type AllowList = Option<seq<ListedArg>>

  /** `usableargs`: the registered arguments after `sanitize_args`. */
  function UsableArgs(allowed: AllowList): (r: Option<seq<Option<string>>>)
    ensures r.None? <==> allowed.None?
    ensures r.Some? ==> |r.value| == |allowed.value| && forall i :: 0 <= i < |r.value| ==> Sanitize(allowed.value[i]) == Ok(r.value[i])
  {
    match allowed
    case None => None
    case Some(xs) => Some(SanitizeAll(xs))
  }

  /** `arg in usableargs`; against a None allow-list Python's `in` raises, refusing the argument just the same. */
  predicate Accepts(usable: Option<seq<Option<string>>>, t: Option<string>)
  {
    usable.Some? && t in usable.value
  }

  /** `verify_arg`: sanitise the argument, then refuse it unless the allow-list holds it. */
  function VerifyArg(a: Arg, usable: Option<seq<Option<string>>>, command: string): (r: Result<Option<string>>)
    ensures r.Ok? <==> Sanitize(a).Ok? && Accepts(usable, Sanitize(a).value)
    ensures r.Ok? ==> r == Sanitize(a)
    ensures r.Err? ==> (a.LongArg? && r.error == NoLower(a.l)) || (Sanitize(a).Ok? && r.error == NotAllowed(Sanitize(a).value, command))
  {
    match Sanitize(a)
    case Err(e) => Err(e)
    case Ok(t) => if Accepts(usable, t) then Ok(t) else Err(NotAllowed(t, command))
  }

  /** Argument `i` is the first one `verify_arg` raises on. */
  predicate FirstFailing(args: seq<Arg>, usable: Option<seq<Option<string>>>, command: string, i: int)
  {
    0 <= i < |args| && VerifyArg(args[i], usable, command).Err?
    && forall j :: 0 <= j < i ==> VerifyArg(args[j], usable, command).Ok?
  }

  lemma FirstFailingShift(args: seq<Arg>, usable: Option<seq<Option<string>>>, command: string, k: int)
    requires |args| > 0 && VerifyArg(args[0], usable, command).Ok?
    requires FirstFailing(args[1..], usable, command, k)
    ensures FirstFailing(args, usable, command, k + 1) && args[1..][k] == args[k + 1]
  {
    forall j | 0 <= j < k + 1 ensures VerifyArg(args[j], usable, command).Ok? {
      if j > 0 {
        assert args[j] == args[1..][j - 1];
      }
    }
  }

  /** At most one argument is the first failing one. */
  lemma FirstFailingUnique(args: seq<Arg>, usable: Option<seq<Option<string>>>, command: string, i: int, j: int)
    requires FirstFailing(args, usable, command, i) && FirstFailing(args, usable, command, j)
    ensures i == j
  {
  }

  /**
   * `verify_args`: every argument sanitised and checked in turn. It succeeds
   * exactly when each argument sanitises to a token the allow-list holds, and
   * then gives those tokens; otherwise it fails as `verify_arg` does on the
   * first argument that does not.
   */
  function VerifyArgs(args: seq<Arg>, usable: Option<seq<Option<string>>>, command: string): (r: Result<seq<Option<string>>>)
    ensures r.Ok? <==> forall i :: 0 <= i < |args| ==> Sanitize(args[i]).Ok? && Accepts(usable, Sanitize(args[i]).value)
    ensures r.Ok? ==> |r.value| == |args| && forall i :: 0 <= i < |args| ==> Sanitize(args[i]) == Ok(r.value[i])
    ensures r.Err? ==> exists i :: FirstFailing(args, usable, command, i) && r.error == VerifyArg(args[i], usable, command).error
    ensures r.Err? ==> r.error.NoLower? || r.error.NotAllowed?
    decreases |args|
  {
    if |args| == 0 then Ok([])
    else
      match VerifyArg(args[0], usable, command)
      case Err(e) =>
        assert FirstFailing(args, usable, command, 0);
        Err(e)
      case Ok(t) =>
        var tail := args[1..];
        match VerifyArgs(tail, usable, command)
        case Err(e) =>
          assert exists i :: FirstFailing(args, usable, command, i) && e == VerifyArg(args[i], usable, command).error by {
            var k :| FirstFailing(tail, usable, command, k) && e == VerifyArg(tail[k], usable, command).error;
            FirstFailingShift(args, usable, command, k);
          }
          Err(e)
        case Ok(rest) =>
          forall i | 1 <= i < |args|
            ensures Sanitize(args[i]).Ok? && Accepts(usable, Sanitize(args[i]).value)
            ensures Sanitize(args[i]) == Ok(([t] + rest)[i])
          {
            assert args[i] == tail[i - 1];
          }
          Ok([t] + rest)
  }

  /** A command registered with None accepts only an empty argument list. */
  lemma {:induction false} NoneAllowListTakesNoArgs(args: seq<Arg>, command: string)
    ensures VerifyArgs(args, UsableArgs(None), command).Ok? <==> |args| == 0
  {
    if |args| > 0 {
      assert VerifyArg(args[0], UsableArgs(None), command).Err?;
    }
  }

  /** The positional parameter of an action: one value or a list; None, the default, means no argument. */
  datatype Positional = One(a: Arg) | Many(items: seq<Arg>)

  /** A keyword argument: its name as the caller wrote it, and its value. */
  datatype Keyword = Keyword(name: string, value: Arg)

  /** Python keyword arguments form a dict: no name occurs twice. */
  predicate DistinctNames(kwargs: seq<Keyword>)
  {
    forall i, j :: 0 <= i < j < |kwargs| ==> kwargs[i].name != kwargs[j].name
  }

  /** The keyword names, as string arguments, in the dict's iteration order. */
  function KeywordArgs(kwargs: seq<Keyword>): (r: seq<Arg>)
    ensures |r| == |kwargs|
    ensures forall i :: 0 <= i < |kwargs| ==> r[i] == StrArg(kwargs[i].name)
  {
    seq(|kwargs|, i requires 0 <= i < |kwargs| => StrArg(kwargs[i].name))
  }

  /** `args` after `run_action` has listified it and extended it with the keyword names. */
  function CallArgs(p: Positional, kwargs: seq<Keyword>): (r: seq<Arg>)
    ensures p == One(NoneArg) ==> r == KeywordArgs(kwargs)
    ensures p.One? && !p.a.NoneArg? ==> r == [p.a] + KeywordArgs(kwargs)
    ensures p.Many? ==> r == p.items + KeywordArgs(kwargs)
  {
    var positional := match p
      case One(NoneArg) => []
      case One(a) => [a]
      case Many(xs) => xs;
    positional + KeywordArgs(kwargs)
  }

  /** `kwargs[name]`, when `name` is one of the keyword names exactly as written. */
  function KeywordValue(kwargs: seq<Keyword>, name: string): (r: Option<Arg>)
    ensures r.Some? <==> exists i :: 0 <= i < |kwargs| && kwargs[i].name == name
    ensures r.Some? ==> exists i :: 0 <= i < |kwargs| && kwargs[i] == Keyword(name, r.value)
    ensures r.Some? && DistinctNames(kwargs) ==> forall i :: 0 <= i < |kwargs| && kwargs[i].name == name ==> r.value == kwargs[i].value
  {
    if |kwargs| == 0 then None
    else if kwargs[0].name == name then Some(kwargs[0].value)
    else
      var r := KeywordValue(kwargs[1..], name);
      assert forall i :: 1 <= i < |kwargs| ==> kwargs[1..][i - 1] == kwargs[i];
      r
  }

  /** `"%s" % v` for a sanitised value: the text itself, or "None". */
  function Show(v: Option<string>): string
  {
    match v
    case Some(s) => s
    case None => "None"
  }

  /**
   * The words an option stands for: a keyword name followed by its sanitised
   * value, any other token alone. Sanitising a `long` value raises.
   */
  function OptWords(s: string, kwargs: seq<Keyword>): (r: Result<seq<string>>)
    ensures r.Ok? ==> 1 <= |r.value| <= 2 && r.value[0] == s
    ensures r.Ok? && |r.value| == 1 ==> forall i :: 0 <= i < |kwargs| ==> kwargs[i].name != s
    ensures r.Ok? && |r.value| == 2 ==>
              exists i :: 0 <= i < |kwargs| && kwargs[i].name == s && Sanitize(kwargs[i].value).Ok?
                          && r.value[1] == Show(Sanitize(kwargs[i].value).value)
    ensures r.Err? ==> exists i :: 0 <= i < |kwargs| && kwargs[i].name == s && kwargs[i].value.LongArg?
    ensures r.Err? ==> r.error.NoLower?
  {
    match KeywordValue(kwargs, s)
    case None => Ok([s])
    case Some(v) =>
      match Sanitize(v)
      case Err(e) => Err(e)
      case Ok(t) => Ok([s, Show(t)])
  }

  /** No keyword value is a `long`. */
  predicate NoLongValues(kwargs: seq<Keyword>)
  {
    forall i :: 0 <= i < |kwargs| ==> !kwargs[i].value.LongArg?
  }

  /** One entry of `opts`; a None token is appended as it is. */
  function Opt(t: Option<string>, kwargs: seq<Keyword>): (r: Result<Option<string>>)
    ensures t.None? ==> r == Ok(None)
    ensures t.Some? && r.Ok? ==> OptWords(t.value, kwargs).Ok? && r.value == Some(Join(OptWords(t.value, kwargs).value, " "))
    ensures r.Err? ==> t.Some? && OptWords(t.value, kwargs).Err? && r.error.NoLower?
  {
    match t
    case None => Ok(None)
    case Some(s) =>
      match OptWords(s, kwargs)
      case Err(e) => Err(e)
      case Ok(words) => Ok(Some(Join(words, " ")))
  }

  /** Entry `i` is the first one of `opts` that raises. */
  predicate FirstOptFailing(verified: seq<Option<string>>, kwargs: seq<Keyword>, i: int)
  {
    0 <= i < |verified| && Opt(verified[i], kwargs).Err?
    && forall j :: 0 <= j < i ==> Opt(verified[j], kwargs).Ok?
  }

  /** `opts` for the verified tokens, built in order; the first entry that raises ends it. */
  function Opts(verified: seq<Option<string>>, kwargs: seq<Keyword>): (r: Result<seq<Option<string>>>)
    ensures r.Ok? <==> forall i :: 0 <= i < |verified| ==> Opt(verified[i], kwargs).Ok?
    ensures r.Ok? ==> |r.value| == |verified| && forall i :: 0 <= i < |verified| ==> Opt(verified[i], kwargs) == Ok(r.value[i])
    ensures r.Err? ==> exists i :: FirstOptFailing(verified, kwargs, i) && r.error == Opt(verified[i], kwargs).error
    decreases |verified|
  {
    if |verified| == 0 then Ok([])
    else
      var n := |verified| - 1;
      var init := verified[..n];
      assert forall i :: 0 <= i < n ==> init[i] == verified[i];
      match Opts(init, kwargs)
      case Err(e) =>
        assert exists i :: FirstOptFailing(verified, kwargs, i) && e == Opt(verified[i], kwargs).error by {
          var k :| FirstOptFailing(init, kwargs, k) && e == Opt(init[k], kwargs).error;
          assert FirstOptFailing(verified, kwargs, k);
        }
        Err(e)
      case Ok(prev) =>
        match Opt(verified[n], kwargs)
        case Err(e) =>
          assert FirstOptFailing(verified, kwargs, n);
          Err(e)
        case Ok(o) => Ok(prev + [o])
  }

  /** At most one entry is the first of `opts` to raise. */
  lemma FirstOptFailingUnique(verified: seq<Option<string>>, kwargs: seq<Keyword>, i: int, j: int)
    requires FirstOptFailing(verified, kwargs, i) && FirstOptFailing(verified, kwargs, j)
    ensures i == j
  {
  }

  /** Once a prefix of the tokens has raised, building `opts` for all of them raises the same way. */
  lemma OptsAbort(verified: seq<Option<string>>, kwargs: seq<Keyword>, k: nat)
    requires k <= |verified| && Opts(verified[..k], kwargs).Err?
    ensures Opts(verified, kwargs) == Opts(verified[..k], kwargs)
  {
    var init := verified[..k];
    var e := Opts(init, kwargs).error;
    var i :| FirstOptFailing(init, kwargs, i) && e == Opt(init[i], kwargs).error;
    assert init[i] == verified[i];
    assert FirstOptFailing(verified, kwargs, i) by {
      forall j | 0 <= j < i ensures Opt(verified[j], kwargs).Ok? {
        assert init[j] == verified[j];
      }
    }
    var r := Opts(verified, kwargs);
    assert r.Err?;
    var j :| FirstOptFailing(verified, kwargs, j) && r.error == Opt(verified[j], kwargs).error;
    FirstOptFailingUnique(verified, kwargs, i, j);
  }

  /** The texts of a list of optional strings, or None when one of them is None (`' '.join` refuses None). */
  function AllText(opts: seq<Option<string>>): (r: Option<seq<string>>)
    ensures r.Some? <==> forall i :: 0 <= i < |opts| ==> opts[i].Some?
    ensures r.Some? ==> |r.value| == |opts| && forall i :: 0 <= i < |opts| ==> r.value[i] == opts[i].value
  {
    if |opts| == 0 then Some([])
    else if opts[0].None? then None
    else
      assert forall i :: 1 <= i < |opts| ==> opts[1..][i - 1] == opts[i];
      match AllText(opts[1..])
      case None => None
      case Some(rest) => Some([opts[0].value] + rest)
  }

  /**
   * The command string `run_action` builds: the command alone without
   * arguments, else the command, a space and the space-joined options. A `long`
   * keyword value raises while `opts` is built, a None token at the join.
   */
  function CommandString(command: string, verified: seq<Option<string>>, kwargs: seq<Keyword>): (r: Result<string>)
    ensures |verified| == 0 ==> r == Ok(command)
    ensures r.Ok? ==> |command| <= |r.value| && r.value[..|command|] == command
    ensures r.Err? ==> (r.error.NoLower? && Opts(verified, kwargs).Err?) || r.error == NoneInCommand(command)
  {
    if |verified| == 0 then Ok(command)
    else
      match Opts(verified, kwargs)
      case Err(e) => Err(e)
      case Ok(opts) =>
        match AllText(opts)
        case None => Err(NoneInCommand(command))
        case Some(words) => Ok(command + " " + Join(words, " "))
  }

  /** Tokens that are all present. */
  function Somes(tokens: seq<string>): (r: seq<Option<string>>)
    ensures |r| == |tokens|
    ensures forall i :: 0 <= i < |tokens| ==> r[i] == Some(tokens[i])
  {
    seq(|tokens|, i requires 0 <= i < |tokens| => Some(tokens[i]))
  }

  /** An argument that sanitises to text: neither None nor a `long`. */
  predicate Textual(a: Arg)
  {
    !a.NoneArg? && !a.LongArg?
  }

  /** The sanitised texts of arguments that all sanitise to text. */
  function Texts(args: seq<Arg>): (r: seq<string>)
    requires forall i :: 0 <= i < |args| ==> Textual(args[i])
    ensures |r| == |args|
    ensures forall i :: 0 <= i < |args| ==> Sanitize(args[i]) == Ok(Some(r[i]))
  {
    seq(|args|, i requires 0 <= i < |args| && Textual(args[i]) => Sanitize(args[i]).value.value)
  }

  /** Every word non-empty and free of spaces. */
  predicate PlainWords(words: seq<string>)
  {
    forall i :: 0 <= i < |words| ==> words[i] != "" && ' ' !in words[i]
  }

  /** A token whose option sanitises, into plain words. */
  predicate PlainOption(s: string, kwargs: seq<Keyword>)
  {
    OptWords(s, kwargs).Ok? && PlainWords(OptWords(s, kwargs).value)
  }

  /** The option words of the verified tokens, one group per token. */
  function OptGroups(tokens: seq<string>, kwargs: seq<Keyword>): (r: seq<seq<string>>)
    requires forall i :: 0 <= i < |tokens| ==> OptWords(tokens[i], kwargs).Ok?
    ensures |r| == |tokens|
    ensures forall i :: 0 <= i < |tokens| ==> Ok(r[i]) == OptWords(tokens[i], kwargs)
  {
    seq(|tokens|, i requires 0 <= i < |tokens| => OptWords(tokens[i], kwargs).value)
  }

  /**
   * Serialisation round trip: when no token is None and every name and
   * value is a plain word, the command string splits back into the command
   * followed, token by token, by each bare option or each keyword's name and
   * sanitised value.
   */
  lemma CommandStringWords(command: string, tokens: seq<string>, kwargs: seq<Keyword>)
    requires |tokens| >= 1
    requires PlainWords([command])
    requires forall i :: 0 <= i < |tokens| ==> PlainOption(tokens[i], kwargs)
    ensures CommandString(command, Somes(tokens), kwargs).Ok?
    ensures ShellWords(CommandString(command, Somes(tokens), kwargs).value) == [command] + Flatten(OptGroups(tokens, kwargs))
  {
    var verified := Somes(tokens);
    var groups := OptGroups(tokens, kwargs);
    var opts := Opts(verified, kwargs);
    assert opts.Ok?;
    var texts := AllText(opts.value);
    assert texts.Some?;
    assert texts.value == JoinEach(groups, " ");
    JoinFlatten(groups, " ");
    var flat := Flatten(groups);
    FlattenNonEmpty(groups);
    var all := [command] + flat;
    assert all[1..] == flat;
    assert Join(all, " ") == command + " " + Join(flat, " ");
    assert PlainWords(flat) by {
      FlattenPlain(groups);
    }
    ShellWordsJoin(all);
  }

  lemma {:induction false} FlattenPlain(groups: seq<seq<string>>)
    requires forall i :: 0 <= i < |groups| ==> PlainWords(groups[i])
    ensures PlainWords(Flatten(groups))
  {
    if |groups| > 0 {
      FlattenPlain(groups[1..]);
      var f := Flatten(groups);
      assert f == groups[0] + Flatten(groups[1..]);
      forall i | 0 <= i < |f| ensures f[i] != "" && ' ' !in f[i] {
        if i >= |groups[0]| {
          assert f[i] == Flatten(groups[1..])[i - |groups[0]|];
        }
      }
    }
  }

  /** `run_action` as a value: validate, serialise, then query with the object and the command string. */
  function Action(obj: string, command: string, allowed: AllowList, p: Positional, kwargs: seq<Keyword>, shell: Invoker): (r: Run)
    requires DistinctNames(kwargs)
    ensures |r.invoked| <= 1
    ensures r.invoked == [] ==> r.result.Err?
  {
    match VerifyArgs(CallArgs(p, kwargs), UsableArgs(allowed), command)
    case Err(e) => Run([], Err(e))
    case Ok(verified) =>
      match CommandString(command, verified, kwargs)
      case Err(e) => Run([], Err(e))
      case Ok(cmd) => Query(obj, cmd, [], false, shell)
  }

  /** An action that validates and serialises to `cmd` is the query of `cmd` on its object. */
  lemma ActionQuery(obj: string, command: string, allowed: AllowList, p: Positional, kwargs: seq<Keyword>, shell: Invoker,
                    verified: seq<Option<string>>, cmd: string)
    requires DistinctNames(kwargs)
    requires VerifyArgs(CallArgs(p, kwargs), UsableArgs(allowed), command) == Ok(verified)
    requires CommandString(command, verified, kwargs) == Ok(cmd)
    ensures Action(obj, command, allowed, p, kwargs, shell) == Query(obj, cmd, [], false, shell)
  {
  }

  /**
   * The first argument validation stops at is one the allow-list refuses
   * (rather than one that cannot be sanitised) exactly when the action runs no
   * process and fails with a refusal.
   */
  lemma ActionRefusal(obj: string, command: string, allowed: AllowList, p: Positional, kwargs: seq<Keyword>, shell: Invoker)
    requires DistinctNames(kwargs)
    ensures var args := CallArgs(p, kwargs);
            var run := Action(obj, command, allowed, p, kwargs, shell);
            (exists i :: FirstFailing(args, UsableArgs(allowed), command, i) && Sanitize(args[i]).Ok?)
            <==> (run.invoked == [] && run.result.Err? && run.result.error.NotAllowed?)
  {
    var args := CallArgs(p, kwargs);
    var usable := UsableArgs(allowed);
    var v := VerifyArgs(args, usable, command);
    if v.Ok? {
      if CommandString(command, v.value, kwargs).Ok? {
        var cmd := CommandString(command, v.value, kwargs).value;
        QueryOutcome(obj, cmd, [], false, shell);
      }
    } else {
      var k :| FirstFailing(args, usable, command, k) && v.error == VerifyArg(args[k], usable, command).error;
      forall i | FirstFailing(args, usable, command, i) ensures i == k {
        FirstFailingUnique(args, usable, command, i, k);
      }
    }
  }

  /**
   * A `long` among the arguments, or as the value of a keyword whose name is
   * already lower-case, stops the action before any process runs: it fails
   * sanitising the `long`, or on a refusal found first.
   */
  lemma ActionLongRunsNothing(obj: string, command: string, allowed: AllowList, p: Positional, kwargs: seq<Keyword>, shell: Invoker)
    requires DistinctNames(kwargs)
    ensures var args := CallArgs(p, kwargs);
            var run := Action(obj, command, allowed, p, kwargs, shell);
            ((exists i :: 0 <= i < |args| && args[i].LongArg?)
             || (exists k :: 0 <= k < |kwargs| && kwargs[k].value.LongArg? && Lower(kwargs[k].name) == kwargs[k].name))
            ==> run.invoked == [] && run.result.Err? && (run.result.error.NoLower? || run.result.error.NotAllowed?)
  {
    var args := CallArgs(p, kwargs);
    if VerifyArgs(args, UsableArgs(allowed), command).Err? {
      RefusedRunsNothing(obj, command, allowed, p, kwargs, shell);
    } else if exists k :: 0 <= k < |kwargs| && kwargs[k].value.LongArg? && Lower(kwargs[k].name) == kwargs[k].name {
      var k :| 0 <= k < |kwargs| && kwargs[k].value.LongArg? && Lower(kwargs[k].name) == kwargs[k].name;
      LongValueRunsNothing(obj, command, allowed, p, kwargs, shell, k);
    } else {
      assert forall i :: 0 <= i < |args| ==> !args[i].LongArg?;
    }
  }

  /** An action whose validation fails runs nothing, and fails on a `long` or a refusal. */
  lemma RefusedRunsNothing(obj: string, command: string, allowed: AllowList, p: Positional, kwargs: seq<Keyword>, shell: Invoker)
    requires DistinctNames(kwargs)
    requires VerifyArgs(CallArgs(p, kwargs), UsableArgs(allowed), command).Err?
    ensures var run := Action(obj, command, allowed, p, kwargs, shell);
            run.invoked == [] && run.result.Err? && (run.result.error.NoLower? || run.result.error.NotAllowed?)
  {
    ActionValidationFailure(obj, command, allowed, p, kwargs, shell);
  }

  /** An action whose arguments fail validation runs nothing and fails the same way. */
  lemma ActionValidationFailure(obj: string, command: string, allowed: AllowList, p: Positional, kwargs: seq<Keyword>, shell: Invoker)
    requires DistinctNames(kwargs)
    requires VerifyArgs(CallArgs(p, kwargs), UsableArgs(allowed), command).Err?
    ensures Action(obj, command, allowed, p, kwargs, shell)
              == Run([], Err(VerifyArgs(CallArgs(p, kwargs), UsableArgs(allowed), command).error))
  {
  }

  /** An action that validates, with a lower-case keyword name bound to a `long`, runs nothing and fails on the `long`. */
  lemma LongValueRunsNothing(obj: string, command: string, allowed: AllowList, p: Positional, kwargs: seq<Keyword>, shell: Invoker, k: int)
    requires DistinctNames(kwargs)
    requires VerifyArgs(CallArgs(p, kwargs), UsableArgs(allowed), command).Ok?
    requires 0 <= k < |kwargs| && kwargs[k].value.LongArg? && Lower(kwargs[k].name) == kwargs[k].name
    ensures var run := Action(obj, command, allowed, p, kwargs, shell);
            run.invoked == [] && run.result.Err? && run.result.error.NoLower?
  {
    LongValueFailsCommand(command, allowed, p, kwargs, k);
    ActionCommandFailure(obj, command, allowed, p, kwargs, shell);
  }

  /** The command string of a validated call with a lower-case keyword name bound to a `long` fails on a `long`. */
  lemma LongValueFailsCommand(command: string, allowed: AllowList, p: Positional, kwargs: seq<Keyword>, k: int)
    requires DistinctNames(kwargs)
    requires VerifyArgs(CallArgs(p, kwargs), UsableArgs(allowed), command).Ok?
    requires 0 <= k < |kwargs| && kwargs[k].value.LongArg? && Lower(kwargs[k].name) == kwargs[k].name
    ensures var v := VerifyArgs(CallArgs(p, kwargs), UsableArgs(allowed), command).value;
            CommandString(command, v, kwargs).Err? && CommandString(command, v, kwargs).error.NoLower?
  {
    var v := VerifyArgs(CallArgs(p, kwargs), UsableArgs(allowed), command).value;
    LongKeywordValueRaises(p, kwargs, v, k);
    OptsFailureFailsCommand(command, v, kwargs);
  }

  /** When `opts` raises on some tokens, the command string fails on the `long` that raised. */
  lemma OptsFailureFailsCommand(command: string, verified: seq<Option<string>>, kwargs: seq<Keyword>)
    requires Opts(verified, kwargs).Err?
    ensures CommandString(command, verified, kwargs) == Err(Opts(verified, kwargs).error)
    ensures Opts(verified, kwargs).error.NoLower?
  {
    var opts := Opts(verified, kwargs);
    var i :| FirstOptFailing(verified, kwargs, i) && opts.error == Opt(verified[i], kwargs).error;
  }

  /** An action whose arguments validate but whose command string fails runs nothing and fails the same way. */
  lemma ActionCommandFailure(obj: string, command: string, allowed: AllowList, p: Positional, kwargs: seq<Keyword>, shell: Invoker)
    requires DistinctNames(kwargs)
    requires VerifyArgs(CallArgs(p, kwargs), UsableArgs(allowed), command).Ok?
    requires CommandString(command, VerifyArgs(CallArgs(p, kwargs), UsableArgs(allowed), command).value, kwargs).Err?
    ensures Action(obj, command, allowed, p, kwargs, shell)
              == Run([], Err(CommandString(command, VerifyArgs(CallArgs(p, kwargs), UsableArgs(allowed), command).value, kwargs).error))
  {
  }

  /** In verified tokens of a call with a lower-case keyword name bound to a `long`, building `opts` raises. */
  lemma LongKeywordValueRaises(p: Positional, kwargs: seq<Keyword>, verified: seq<Option<string>>, k: int)
    requires DistinctNames(kwargs)
    requires |verified| == |CallArgs(p, kwargs)|
    requires forall i :: 0 <= i < |verified| ==> Sanitize(CallArgs(p, kwargs)[i]) == Ok(verified[i])
    requires 0 <= k < |kwargs| && kwargs[k].value.LongArg? && Lower(kwargs[k].name) == kwargs[k].name
    ensures Opts(verified, kwargs).Err?
  {
    var args := CallArgs(p, kwargs);
    var n := |args| - |kwargs| + k;
    assert args[n] == StrArg(kwargs[k].name);
    assert verified[n] == Some(kwargs[k].name);
    assert KeywordValue(kwargs, kwargs[k].name) == Some(kwargs[k].value);
    assert Opt(verified[n], kwargs).Err?;
  }

  /**
   * Accepted arguments, none of them None or a `long`, always serialise when
   * no keyword value is a `long`; the command string is the bare command when
   * there are no arguments, and otherwise splits back into the command and the
   * option words, when these are plain words.
   */
  lemma AcceptedCommand(command: string, args: seq<Arg>, usable: Option<seq<Option<string>>>, kwargs: seq<Keyword>)
    requires PlainWords([command])
    requires forall i :: 0 <= i < |args| ==> Textual(args[i]) && Accepts(usable, Sanitize(args[i]).value)
    requires NoLongValues(kwargs)
    ensures VerifyArgs(args, usable, command) == Ok(Somes(Texts(args)))
    ensures CommandString(command, Somes(Texts(args)), kwargs).Ok?
    ensures |args| == 0 ==> CommandString(command, Somes(Texts(args)), kwargs).value == command
    ensures (forall i :: 0 <= i < |args| ==> PlainOption(Texts(args)[i], kwargs)) ==>
              ShellWords(CommandString(command, Somes(Texts(args)), kwargs).value)
                == [command] + Flatten(OptGroups(Texts(args), kwargs))
  {
    var tokens := Texts(args);
    var v := VerifyArgs(args, usable, command);
    assert v.Ok?;
    assert v.value == Somes(tokens);
    if |args| == 0 {
      ShellWordsJoin([command]);
      assert Flatten(OptGroups(tokens, kwargs)) == [];
    } else {
      assert Opts(Somes(tokens), kwargs).Ok?;
      assert AllText(Opts(Somes(tokens), kwargs).value).Some?;
      if forall i :: 0 <= i < |tokens| ==> PlainOption(tokens[i], kwargs) {
        CommandStringWords(command, tokens, kwargs);
      }
    }
  }

  /**
   * An accepted call on a registered object, with no None or `long` argument
   * and no `long` keyword value, runs exactly one process, whose arguments
   * after the object are the command and its option words, when these are
   * plain words.
   */
  lemma ActionRunsCommand(obj: string, command: string, allowed: AllowList, p: Positional, kwargs: seq<Keyword>, shell: Invoker)
    requires DistinctNames(kwargs) && NoLongValues(kwargs)
    requires obj in FieldTable
    requires PlainWords([command])
    requires forall i :: 0 <= i < |CallArgs(p, kwargs)| ==>
               Textual(CallArgs(p, kwargs)[i]) && Accepts(UsableArgs(allowed), Sanitize(CallArgs(p, kwargs)[i]).value)
    ensures |Action(obj, command, allowed, p, kwargs, shell).invoked| == 1
    ensures var run := Action(obj, command, allowed, p, kwargs, shell);
            var tokens := Texts(CallArgs(p, kwargs));
            (forall i :: 0 <= i < |tokens| ==> PlainOption(tokens[i], kwargs)) ==>
              |run.invoked| == 1 && |run.invoked[0]| >= 4 && run.invoked[0][4..] == [obj, command] + Flatten(OptGroups(tokens, kwargs))
  {
    var args := CallArgs(p, kwargs);
    var tokens := Texts(args);
    AcceptedCommand(command, args, UsableArgs(allowed), kwargs);
    var cmd := CommandString(command, Somes(tokens), kwargs).value;
    ActionQuery(obj, command, allowed, p, kwargs, shell, Somes(tokens), cmd);
    QueryRunsOnce(obj, cmd, shell);
    if forall i :: 0 <= i < |tokens| ==> PlainOption(tokens[i], kwargs) {
      RunsWords(Query(obj, cmd, [], false, shell), obj, cmd, command, Flatten(OptGroups(tokens, kwargs)));
    }
  }

  /** A single process whose words from the object on are the object and `command` followed by `rest`. */
  lemma RunsWords(run: Run, obj: string, cmd: string, command: string, rest: seq<string>)
    requires |run.invoked| == 1 && |run.invoked[0]| >= 4 && run.invoked[0][4..] == [obj] + ShellWords(cmd)
    requires ShellWords(cmd) == [command] + rest
    ensures |run.invoked| == 1 && |run.invoked[0]| >= 4 && run.invoked[0][4..] == [obj, command] + rest
  {
    assert [obj] + ([command] + rest) == [obj, command] + rest;
  }

  /** `nm`'s commands and their registered arguments. */
  const NmCommands: seq<(string, AllowList)> := [
    ("status", None),
    ("enable", Some([BoolArg(true), BoolArg(false)])),
    ("sleep", Some([BoolArg(true), BoolArg(false)])),
    ("wifi", Some([StrArg("on"), StrArg("off")])),
    ("wwan", Some([StrArg("on"), StrArg("off")]))
  ]

  /** `con`'s commands and their registered arguments. */
  const ConCommands: seq<(string, AllowList)> := [
    ("list", Some([NoneArg, StrArg("id"), StrArg("uuid")])),
    ("status", Some([NoneArg, StrArg("id"), StrArg("uuid"), StrArg("path")])),
    ("up", Some([StrArg("id"), StrArg("uuid"), StrArg("iface"), StrArg("ap")])),
    ("down", Some([StrArg("id"), StrArg("uuid")])),
    ("delete", Some([StrArg("id"), StrArg("uuid")]))
  ]

  /** `dev`'s commands and their registered arguments. */
  const DevCommands: seq<(string, AllowList)> := [
    ("status", None),
    ("list", Some([NoneArg, StrArg("iface")])),
    ("disconnect", Some([StrArg("iface")])),
    ("wifi", Some([StrArg("list")]))
  ]

  /** The actions an object holds once built: each command bound to the allow-list registered last for it. */
  function Registered(commands: seq<(string, AllowList)>): (m: map<string, AllowList>)
    ensures m.Keys == set i | 0 <= i < |commands| :: commands[i].0
    decreases |commands|
  {
    if |commands| == 0 then map[]
    else
      var n := |commands| - 1;
      var init := Registered(commands[..n]);
      assert forall i :: 0 <= i < n ==> commands[..n][i] == commands[i];
      init[commands[n].0 := commands[n].1]
  }

  /** A command registered once is bound to the allow-list it was registered with. */
  lemma {:induction false} RegisteredLookup(commands: seq<(string, AllowList)>, i: nat)
    requires i < |commands|
    requires forall j :: i < j < |commands| ==> commands[j].0 != commands[i].0
    ensures Registered(commands)[commands[i].0] == commands[i].1
    decreases |commands|
  {
    var n := |commands| - 1;
    if i < n {
      RegisteredLookup(commands[..n], i);
    }
  }

  /** The allow-list of one of the three objects' commands. */
  function AllowListOf(obj: string, command: string): (r: Option<AllowList>)
    ensures r.Some? <==>
              || (obj == "nm" && exists i :: 0 <= i < |NmCommands| && NmCommands[i].0 == command)
              || (obj == "con" && exists i :: 0 <= i < |ConCommands| && ConCommands[i].0 == command)
              || (obj == "dev" && exists i :: 0 <= i < |DevCommands| && DevCommands[i].0 == command)
  {
    var table := if obj == "nm" then Registered(NmCommands)
                 else if obj == "con" then Registered(ConCommands)
                 else if obj == "dev" then Registered(DevCommands)
                 else map[];
    if command in table then Some(table[command]) else None
  }

  /** An object of the wrapper: its name, and its actions bound by name as the constructor installs them. */
  class NMCommand {
    const cmdname: string
    var actions: map<string, AllowList>

    /** `_NMCommand.__init__`: install one action per registered command, a later entry replacing an earlier one of the same name. */
    constructor (cmdname: string, commands: seq<(string, AllowList)>)
      ensures this.cmdname == cmdname
      ensures actions == Registered(commands)
    {
      this.cmdname := cmdname;
      actions := map[];
      new;
      var i := 0;
      while i < |commands|
        invariant 0 <= i <= |commands|
        invariant actions == Registered(commands[..i])
      {
        assert commands[..i + 1][..i] == commands[..i];
        var command, possibleargs := commands[i].0, commands[i].1;
        actions := actions[command := possibleargs];
        i := i + 1;
      }
      assert commands[..i] == commands;
    }

    /** Calling an action by name: an unknown name fails, a known one runs with its allow-list and this object's name. */
    method Call(command: string, p: Positional, kwargs: seq<Keyword>, shell: Invoker) returns (r: Run)
      requires DistinctNames(kwargs)
      ensures command !in actions ==> r == Run([], Err(NoSuchAction(command)))
      ensures command in actions ==> r == Action(cmdname, command, actions[command], p, kwargs, shell)
    {
      if command !in actions {
        return Run([], Err(NoSuchAction(command)));
      }
      r := RunAction(cmdname, command, actions[command], p, kwargs, shell);
    }
  }

  /** The list branch of `sanitize_args`: a loop appending each sanitised element. */
  method SanitizeList(args: seq<ListedArg>) returns (newargs: seq<Option<string>>)
    ensures newargs == SanitizeAll(args)
  {
    newargs := [];
    var i := 0;
    while i < |args|
      invariant 0 <= i <= |args|
      invariant newargs == SanitizeAll(args[..i])
    {
      newargs := newargs + [Sanitize(args[i]).value];
      i := i + 1;
    }
    assert args[..i] == args;
  }

  /** The `opts` loop of `run_action`, raising on a value it cannot sanitise, then the join into the command string. */
  method BuildCommand(command: string, verified: seq<Option<string>>, kwargs: seq<Keyword>) returns (r: Result<string>)
    ensures r == CommandString(command, verified, kwargs)
  {
    if |verified| == 0 {
      return Ok(command);
    }
    var opts: seq<Option<string>> := [];
    var i := 0;
    while i < |verified|
      invariant 0 <= i <= |verified|
      invariant Opts(verified[..i], kwargs) == Ok(opts)
    {
      var arg := verified[i];
      assert verified[..i + 1][..i] == verified[..i];
      if arg.None? || KeywordValue(kwargs, arg.value).None? {
        opts := opts + [arg];
      } else {
        var value := Sanitize(KeywordValue(kwargs, arg.value).value);
        if value.Err? {
          assert Opts(verified[..i + 1], kwargs) == Err(value.error);
          OptsAbort(verified, kwargs, i + 1);
          return Err(value.error);
        }
        assert Join([arg.value, Show(value.value)], " ") == arg.value + " " + Show(value.value);
        opts := opts + [Some(arg.value + " " + Show(value.value))];
      }
      i := i + 1;
    }
    assert verified[..i] == verified;
    var words := AllText(opts);
    if words.None? {
      return Err(NoneInCommand(command));
    }
    r := Ok(command + " " + Join(words.value, " "));
  }

  /** `run_action` as the source runs it: listify, extend with the keyword names, verify, build the command, query. */
  method RunAction(obj: string, command: string, allowed: AllowList, p: Positional, kwargs: seq<Keyword>, shell: Invoker)
    returns (r: Run)
    requires DistinctNames(kwargs)
    ensures r == Action(obj, command, allowed, p, kwargs, shell)
  {
    var usable: Option<seq<Option<string>>> := None;
    if allowed.Some? {
      var sanitized := SanitizeList(allowed.value);
      usable := Some(sanitized);
    }
    var args: seq<Arg>;
    match p {
      case One(NoneArg) => args := [];
      case One(a) => args := [a];
      case Many(xs) => args := xs;
    }
    args := args + KeywordArgs(kwargs);
    var verified := VerifyArgs(args, usable, command);
    if verified.Err? {
      return Run([], Err(verified.error));
    }
    var cmd := BuildCommand(command, verified.value, kwargs);
    if cmd.Err? {
      return Run([], Err(cmd.error));
    }
    r := Nmcli(obj, cmd.value, [], false, shell);
  }
}
