# python-nmcli, modelled in Dafny

The `nmcli` Python module wraps NetworkManager's `nmcli` command-line tool.
Three objects, `nm`, `con` and `dev`, expose one action per registered
command (`con.up(id="eth0")`, `nm.enable(True)`, …). Each call goes through the
same steps:

1. The arguments are normalised: booleans become `true`/`false`, integers
   within Python 2's `int` range their decimal text, strings are lower-cased,
   and None stays None. A wider integer is a Python 2 `long`: it is no `int`
   and has no `lower`, so normalising it raises.
2. Every positional token and every keyword name is checked against the
   command's allow-list. A refusal fails before any process runs.
3. The arguments are serialised into one command string, such as
   `up id eth0`.
4. `_nmcli` is called on the object's name and that string. It picks the
   `--fields` to request by longest-prefix lookup of the command path in a
   fixed table, and runs `nmcli --terse --fields … <obj> <command words>`.
5. On exit code 0 it parses the terse output: one record per line with the
   right number of columns, or one record built from `section.property:value`
   lines. Any other exit code fails with that code and the captured standard
   error.

The model has seven modules:

- `Outcomes`: `Option`, `Result`, and a `Failure` variant for each exception the module lets escape.
- `Text`: the Python string operations used.
  - `str.split`, `split(c, 1)`, `join`, the ASCII part of `lower`, and `str(int)`.
  - The word splitting `shlex.split` does on text without quotes.
- `Fields`: the field table and `_build_fields`.
- `Terse`: the two parsing loops.
- `QueryEngine`: `_nmcli`, with the subprocess replaced by an `Invoker` parameter. A `Run` records the argument vectors executed (none or one) together with the outcome.
- `Actions`: `_NMCommand` and `gen_action`, with the `nm`/`con`/`dev` vocabularies.
- `Scenarios`: the calls made by the module's demonstration block, and a multi-line parse, on concrete values.

Each loop or in-place recursion of the source is a method proved equal to a
specification function. The properties are then proved as lemmas about those
functions.

### Behaviour worth knowing

- **Multi-line mode is never switched on.** Line 95 of `nmcli/__init__.py` tests the field *list* for membership in a tuple of key *strings*, so the test is always false. `multiline` therefore keeps the caller's value. Actions always pass `False`, so even `con.list("id")`, which resolves to the `con list id` entry, parses single-line (`Fields.ConListIdStaysSingleLine`). The multi-line loop is modelled and proved, but no action reaches it.
- **A malformed multi-line key fails the parse.** A colon-bearing line whose key does not split into exactly two parts on `.` is not skipped. The two-name unpacking raises, and the model fails with `BadMultikey`.
- **Keyword names are normalised too.** `run_action` extends the argument list with the keyword names and then sanitises everything, so names are lower-cased before validation. The `arg not in kwargs` lookup then uses the lower-cased token against the names as written.
- **`_nmcli`'s `fields` argument extends the lookup path.** Line 90 of `nmcli/__init__.py` (`ns.extend(fields or [])`) appends its entries to the path that is looked up in the field table.
- **A `long` stops the call.** `con.up(id=10**20)` passes validation, since the keyword name `id` is allowed, and then raises while the value is normalised for `opts`; no process runs (`Scenarios.ConUpByLongId`).
- **Fallback works per token.** The command string reaches `_nmcli` as one path token, for example `"up id eth0"`. So a command that carries arguments usually falls back to the object's own field set (`QueryEngine.QueryFallback`, `Scenarios.ConUpById`).

## Model

| member | source | states |
|---|---|---|
| Text.Split | nmcli/__init__.py:124-125 | `s.split(c)` yields one more piece than there are separators, and no piece holds the separator |
| Text.JoinSplit | nmcli/__init__.py:116 | joining the pieces of a split with the separator restores the text |
| Text.SplitJoin | nmcli/__init__.py:104 | splitting a join on its separator restores the parts when no part holds the separator |
| Text.SplitOnce | nmcli/__init__.py:117 | `split(c, 1)` gives one piece exactly when `c` is absent; otherwise a colon-free head and the rest, around the first `c` |
| Text.SplitOnceAt | nmcli/__init__.py:117 | splitting once at the first separator returns the text before it and everything after it |
| Text.ShellWords | nmcli/__init__.py:106-107 | the command's words are non-empty and contain no space |
| Text.ShellWordsJoin | nmcli/__init__.py:199-200 | words joined with spaces split back into the same words |
| Text.Lower | nmcli/__init__.py:151 | lower-casing keeps the length, leaves no upper-case letter, and changes only upper-case letters |
| Text.LowerIdempotent | nmcli/__init__.py:151 | lower-casing twice is lower-casing once |
| Text.IntToDecimal | nmcli/__init__.py:148 | `str(i)` is non-empty, starts with `-` exactly for negative values, and holds no upper-case letter |
| Text.DecimalRoundTrip | nmcli/__init__.py:148 | reading back the digits of `str(n)` gives `n` |
| Text.JoinFlatten | nmcli/__init__.py:196-200 | joining space-joined option groups with spaces equals joining all their words |
| Fields.Resolve | nmcli/__init__.py:92-100 | resolution yields a registered field set, or fails only as unresolved |
| Fields.ResolveLongestPrefix | nmcli/__init__.py:92-100 | resolution succeeds iff some prefix of the path (the empty one included) is registered; it then yields the field set of the longest registered prefix |
| Fields.ResolveKeepsMultiline | nmcli/__init__.py:93-96 | the resolved multiline flag always equals the one passed in |
| Fields.ConListIdStaysSingleLine | nmcli/__init__.py:62-70 | `con list id` is a multiline key, yet the path `con`/`list id` resolves to its fields with the flag left false |
| Fields.ResolveObject | nmcli/__init__.py:89-99 | a path starting with a registered object always resolves |
| Fields.ResolveFallback | nmcli/__init__.py:89-99 | an object with an unregistered joined command resolves to the object's own field set |
| Fields.BuildFields | nmcli/__init__.py:92-102 | the recursive lookup-and-pop returns exactly the resolution |
| Terse.Zip | nmcli/__init__.py:127 | a zipped record's keys are exactly the field names |
| Terse.ZipPositional | nmcli/__init__.py:127 | with distinct field names, the j-th field maps to the j-th column |
| Terse.SingleLineRecords | nmcli/__init__.py:123-128 | single-line mode never yields more records than lines |
| Terse.SingleLineAppend | nmcli/__init__.py:124-128 | the records of concatenated output are the records of each part in order, so records keep their lines' order |
| Terse.SingleLineRecordShape | nmcli/__init__.py:123-128 | every record has exactly the field names as keys and is the zip of a line with as many columns as fields; there is one record per line iff every line fits |
| Terse.ValueOf | nmcli/__init__.py:117-119 | a property's value is everything after the line's first colon |
| Terse.MultiLineStepEffect | nmcli/__init__.py:117-121 | a line carrying a property sets it to that line's value; any other line leaves it alone |
| Terse.MultiLineStepAt | nmcli/__init__.py:117-121 | a well-formed `section.prop:value` line sets `prop` to `value` |
| Terse.MultiLineRecords | nmcli/__init__.py:113-122 | a successful multi-line parse yields exactly one record |
| Terse.MultiLineFailsIff | nmcli/__init__.py:117-120 | the parse fails iff some colon-bearing line has a key that does not split into exactly two parts on `.` |
| Terse.MultiLinePresent | nmcli/__init__.py:115-122 | on success a property is present iff some line carries it, whatever its section |
| Terse.MultiLineLastWins | nmcli/__init__.py:115-122 | on success a property's value comes from the last line carrying it |
| Terse.MultiLineNoColon | nmcli/__init__.py:115-122 | output without colons, including empty output, gives one empty record |
| Terse.MultiLineAbort | nmcli/__init__.py:117-120 | once the row has failed on a prefix of the lines, the whole parse fails the same way |
| Terse.ParseSingleLine | nmcli/__init__.py:123-128 | the single-line loop returns exactly the single-line records of the output |
| Terse.ParseMultiLine | nmcli/__init__.py:113-122 | the multi-line loop returns exactly the multi-line result, failing early on a bad key |
| QueryEngine.CommandWordsShell | nmcli/__init__.py:106-107 | an empty command adds no words, like a non-empty one split into words |
| QueryEngine.CommandWords | nmcli/__init__.py:106-107 | an empty command adds no words; otherwise the words are non-empty and hold no space |
| QueryEngine.Argv | nmcli/__init__.py:104-107 | the argument vector is `nmcli`, `--terse`, `--fields`, the comma-joined field set, then the object and the command's words |
| QueryEngine.Query | nmcli/__init__.py:86-132 | a query runs at most one process, and one that runs none has failed to resolve its fields |
| QueryEngine.TableFieldsHaveNoComma | nmcli/__init__.py:57-67 | every registered field set is non-empty and has no comma in any name |
| Terse.MultiLineStep | nmcli/__init__.py:117-121 | one line fails the loop iff it has a colon and a key without exactly one `.`; a line without colon leaves the row as it is |
| Terse.MultiLineRow | nmcli/__init__.py:113-121 | the accumulated row can only fail on a bad multi-line key |
| Terse.ParseOutput | nmcli/__init__.py:112-128 | single-line parsing always succeeds with at most one record per line; a successful multi-line parse yields one record |
| QueryEngine.QueryOutcome | nmcli/__init__.py:86-132 | an unresolved path runs nothing; otherwise one process runs with `nmcli --terse --fields <comma-joined fields> <obj>` plus the command words, the `--fields` value splits back into the field set, exit 0 yields the parse, and any other code fails with that code and stderr |
| QueryEngine.QueryRunsOnce | nmcli/__init__.py:89-109 | a query on a registered object runs exactly one process, whose words from the object on are the object and the command's words |
| QueryEngine.QueryFallback | nmcli/__init__.py:89-109 | a query whose joined path is unregistered runs on the object's field set |
| QueryEngine.Nmcli | nmcli/__init__.py:86-132 | the imperative `_nmcli` returns exactly the query's run |
| Actions.Integer | nmcli/__init__.py:147-151 | an integer is an `int` exactly within the 64-bit range, and a `long` outside it, carrying the same value either way |
| Actions.Sanitize | nmcli/__init__.py:143-153 | normalisation fails exactly on a `long`, with that value; otherwise it gives None exactly for None and never an upper-case letter |
| Actions.SanitizeAll | nmcli/__init__.py:155-159 | a list of registered values is normalised element by element, in order |
| Actions.UsableArgs | nmcli/__init__.py:163 | the usable arguments are None exactly for a None allow-list, and otherwise the allow-list normalised element by element |
| Actions.SanitizeIdempotent | nmcli/__init__.py:142-161 | normalising a normalised token again changes nothing |
| Actions.SanitizeNumber | nmcli/__init__.py:147-151 | a non-negative integer normalises iff it is at most `sys.maxint`, and then to digits whose value is that integer |
| Actions.VerifyArg | nmcli/__init__.py:165-171 | one argument passes iff it normalises and its token is in the usable arguments, and then yields that token; otherwise it fails on the `long` or refuses the token for the command |
| Actions.VerifyArgs | nmcli/__init__.py:165-174 | validation succeeds iff every argument normalises to an allowed token, and then returns the tokens in order; otherwise it fails as the first failing argument does, on a `long` or a refusal |
| Actions.NoneAllowListTakesNoArgs | nmcli/__init__.py:163-171 | a command registered with None accepts exactly the empty argument list |
| Actions.KeywordArgs | nmcli/__init__.py:183-184 | the keyword names are appended as string arguments, in order |
| Actions.CallArgs | nmcli/__init__.py:176-184 | the argument list is empty, the single value or the list, followed by the keyword names |
| Actions.KeywordValue | nmcli/__init__.py:193-198 | a name is found iff some keyword has it exactly as written, and then that keyword's value is returned |
| Actions.OptWords | nmcli/__init__.py:193-198 | a token that is no keyword name stands alone; a keyword name is followed by its normalised value; the option fails only on a keyword whose value is a `long` |
| Actions.Opt | nmcli/__init__.py:193-198 | a None token stays None; any other becomes its option words joined with a space, or fails on a `long` value |
| Actions.Opts | nmcli/__init__.py:191-198 | `opts` succeeds iff every entry does, with one entry per verified token in order; otherwise it fails as the first failing entry does |
| Actions.OptsAbort | nmcli/__init__.py:191-198 | once `opts` has raised on a prefix of the tokens, the whole loop raises the same way |
| Actions.AllText | nmcli/__init__.py:199-200 | the join succeeds iff no entry is None, and then it keeps every entry in order |
| Actions.CommandString | nmcli/__init__.py:188-200 | no arguments give the bare command; any command string starts with the command; it fails only on a `long` value in `opts` or a None token at the join |
| Actions.CommandStringWords | nmcli/__init__.py:188-200 | with plain words, the command string splits back into the command followed by each token's option words |
| Actions.AcceptedCommand | nmcli/__init__.py:186-200 | accepted arguments that are neither None nor a `long`, with no `long` keyword value, always serialise; with no arguments the command string is the command itself, otherwise it splits back into the command and the option words |
| Actions.Action | nmcli/__init__.py:176-203 | an action runs at most one process, and one that runs none has failed |
| Actions.ActionQuery | nmcli/__init__.py:186-203 | an action that validates and serialises is the query of its command string on its object |
| Actions.ActionRefusal | nmcli/__init__.py:176-203 | the first argument validation stops at is a refused (rather than a `long`) one iff the action runs no process and fails with a refusal |
| Actions.ActionLongRunsNothing | nmcli/__init__.py:147-151 | a `long` among the arguments, or bound to a lower-case keyword name, means the action runs no process and fails on the `long` or on an earlier refusal |
| Actions.ActionRunsCommand | nmcli/__init__.py:176-203 | an accepted action on a registered object, with no None or `long` argument or `long` keyword value, runs exactly one process, whose words after the object are the command and its option words |
| Actions.Registered | nmcli/__init__.py:136-139 | the installed actions are exactly the registered command names |
| Actions.RegisteredLookup | nmcli/__init__.py:138-139 | a command registered once is bound to its own allow-list |
| Actions.AllowListOf | nmcli/__init__.py:209-235 | a command has an allow-list iff it is registered on `nm`, `con` or `dev` |
| Actions.NMCommand.constructor | nmcli/__init__.py:136-139 | construction keeps the name and installs exactly the registered actions |
| Actions.NMCommand.Call | nmcli/__init__.py:139 | an unknown action fails without running anything; a known one runs with its allow-list on this object |
| Actions.SanitizeList | nmcli/__init__.py:155-159 | the element-wise loop returns the normalised list |
| Actions.BuildCommand | nmcli/__init__.py:188-200 | the `opts` loop and join return exactly the command string |
| Actions.RunAction | nmcli/__init__.py:176-203 | the imperative `run_action` returns exactly the action's run |
| Scenarios.RegisteredAllowLists | nmcli/__init__.py:209-226 | `nm status`, `nm enable`, `con list` and `con up` carry the allow-lists the vocabularies give them |
| Scenarios.NmStatus | nmcli/__init__.py:240 | `nm.status()` runs `nmcli --terse --fields <nm fields> nm status` |
| Scenarios.NmEnableTrue | nmcli/__init__.py:241 | `nm.enable(True)` runs `… nm enable true` |
| Scenarios.ConListFoodRefused | nmcli/__init__.py:244-248 | `con.list(food=8302)` is refused on `food` and runs nothing |
| Scenarios.NmEnableRefused | nmcli/__init__.py:250-254 | `nm.enable("asdasd")` is refused and runs nothing |
| Scenarios.ConUpById | nmcli/__init__.py:188-203 | `con.up(id="eth0")` runs `… con up id eth0` on the `con` field set |
| Scenarios.ConUpByLongId | nmcli/__init__.py:147-151 | `con.up(id=10**20)` passes validation, then raises normalising the `long` value and runs nothing |
| Scenarios.ConListNoneToken | nmcli/__init__.py:191-200 | `con.list([None])` passes validation and then fails joining the None token |
| Scenarios.MultiLineTwoProperties | nmcli/__init__.py:113-122 | two well-formed lines and a blank one give the record of both properties |
| Scenarios.MultiLineExample | nmcli/__init__.py:113-122 | `connection.id:home`, `ipv4.addr:192.168.1.2` and a blank line give the single record `{id: home, addr: 192.168.1.2}` |
| Scenarios.ExampleLines | nmcli/__init__.py:116 | that output with a trailing newline splits into the two lines and an empty one |

## Left out

- `_shell` and `subprocess.Popen` (process I/O) are replaced by the `Invoker` parameter, a function from argument vector to exit code, stdout and stderr. Failures raised by the subprocess call itself are not modelled.
- Text.ShellWords: models `shlex.split` only on text without quotes or backslashes. It splits on spaces and drops empty words. Argument values holding quotes, tabs, carriage returns or newlines are tokenised differently by `shlex`.
- Actions.ActionRunsCommand: the argument-vector equation is stated only when every option word is a plain word (non-empty, no space), since the shell-word approximation is exact only there.
- Text.Lower: models only ASCII case mapping. Python's Unicode `lower()` also maps non-ASCII letters.
- The types and messages of exceptions are left out. Each becomes a `Failure` variant carrying the offending token or exit code and stderr. `TypeError`, `ValueError`, `IndexError` and the message formatting are not distinguished.
- An allow-list of None refuses every argument. In Python, `x in None` raises `TypeError` instead of the module's own exception.
- The mutation of a caller-supplied list by `args.extend` is an aliasing side effect. The model builds a new sequence.
- List-valued keyword values (`sanitize_args` on a list, then `"%s"` of that list) are not modelled. Keyword values are scalars.
- The order of keyword arguments is taken as given. It follows Python's `dict` iteration order, which differs between Python 2 and 3.
- `_nmcli` called with `command=None` fails with a `TypeError` in `' '.join`, and `obj or ""` only matters for a falsy object. Actions always pass a string command and a non-empty object name, so neither is modelled.
- `setattr` on the instance is modelled as the `actions` map of `NMCommand`. Calling an unregistered name becomes `NoSuchAction`. The module-level `nm`, `con` and `dev` instances are represented by the three vocabulary constants.
- `stdout` and `stderr` are treated as strings, not bytes.
- Python 2's `int` is taken to be 64 bits wide (`sys.maxint` on a 64-bit platform). On a 32-bit platform the `long` boundary is lower.
- Allow-lists hold no `long`: a registered `long` would raise when the object is built. The registered lists hold only booleans, strings and None.
- Python 3 has no `long`; there, every integer normalises to its decimal text. The model follows Python 2, the language the module is written in (line 251 of `nmcli/__init__.py` uses the `print` statement).
- The `__main__` block prints live results. Its calls appear only as the concrete lemmas in `Scenarios`.
