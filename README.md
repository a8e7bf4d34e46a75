# deno-run-simple, modelled in Dafny

A model of the subprocess helper `run`. `run` takes a command, either as one
string or as an array of strings, numbers and booleans. It starts the child
process, optionally writes bytes to the child's standard input, and settles
in one of three ways:

- with the trimmed standard output text;
- with a `CommandFailureError` when the child exits unsuccessfully;
- with a runtime error (spawn failure) that it passes on unwrapped.

Three variants read that text as JSON:

- `jsonRun` reads it as one value.
- `jsonlRun` reads it as one value per non-empty line.
- `jsonArrayRun` always returns an array. It applies an ordered chain of
  cases: empty text; a bracketed JSON array; JSON on every line; a single
  wrapped value.

Modules:

- `Js` (`js.dfy`): JavaScript values, truthiness, and the runtime
  built-ins. `Host` bundles `JSON.parse`, `JSON.stringify`, `TextDecoder`
  and `TextEncoder` as abstract functions passed in as parameters. A parse
  that would throw is `None`.
- `Text` (`text.dfy`): `String.prototype.split` with a one-character
  separator, its inverse `Join`, `String.prototype.trim`, and `${n}` for
  integers.
- `Fn` (`fn.dfy`): the helpers of `src/fn.ts`. `j` is `Fn.J`, a direct
  call to the abstract `stringify`. `isString` and `isUint8Array` are the
  predicates `Fn.IsString` and `Fn.IsUint8Array`.
- `Classify` (`classify.dfy`): how `jsonRun`, `jsonlRun` and
  `jsonArrayRun` read the captured text. These are total functions over
  `Option`-returning parses, so parsing never throws.
- `Run` (`run.dfy`): the argument vector, option merging, the stdin-pipe
  decision, the failure value, `tryRun` and the four entry points.

The child process is an abstract function
`exec: Invocation -> Spawned`. It maps what the child is started with
(executable, spawn options, bytes written to stdin) to a runtime fault or
to an exit status with the captured bytes. `Run.Plan` and `Run.Settle`
state what `tryRun` decides before and after the child runs.
`Run.TryRun` follows the source step by step and is proved equal to them.
The predicates `Run.StdinPiped` (src/run.ts:69) and
`Classify.Bracketed` (src/run.ts:192) carry the two tests those decisions
use.

Three behaviours of the code are easy to miss, and the model keeps them:

- A string command is split on every single space, not on runs of
  whitespace. So `"a  b"` gives `["a", "", "b"]`.
- An empty array command gives an empty argument vector. The executable is
  then `undefined`, modelled as `None`, and `exec` decides what happens.
- `stdin: ""` creates a stdin pipe, but nothing is written to it and this
  code never closes it. The write at src/run.ts:89 is guarded by
  truthiness, and the empty string is falsy.

## Model

| member | source | states |
|---|---|---|
| `Text.Split` | src/run.ts:124 | `split(" ")`, and `split("\n")` at src/run.ts:158 and src/run.ts:218: at least one token, and no token contains the separator |
| `Text.JoinSplit` | src/run.ts:124 | joining the tokens of a split with the separator gives back the original string |
| `Text.SplitLength` | src/run.ts:124 | a split has exactly one more token than the string has separators, so adjacent separators give empty tokens |
| `Text.SplitAppend` | src/run.ts:158 | the tokens of `a + sep + b` are the tokens of `a` followed by the tokens of `b` |
| `Text.SplitNoSep` | src/run.ts:158 | a string without the separator is a single token |
| `Text.SplitJoin` | src/run.ts:124 | splitting undoes joining, for a non-empty list of tokens that do not contain the separator |
| `Text.TrimStart` | src/fn.ts:15 | result is the suffix left after the longest all-whitespace prefix, and does not start with whitespace |
| `Text.TrimEnd` | src/fn.ts:15 | result is the prefix left before the longest all-whitespace suffix, and does not end with whitespace |
| `Text.Trim` | src/fn.ts:15 | result is a slice `s[i..j]` of the input whose cut-off ends `s[..i]` and `s[j..]` are all whitespace, and it has no whitespace at either end; it is empty exactly when the input is all whitespace |
| `Text.TrimUnique` | src/fn.ts:15 | any slice of `s` with whitespace-only ends and no whitespace at its own ends is `Trim(s)`, so trim is fixed by its contract |
| `Text.TrimOfTrimmed` | src/fn.ts:15 | a string with no whitespace at either end is unchanged by trim |
| `Text.TrimIdempotent` | src/fn.ts:15 | trimming twice is trimming once |
| `Text.NatToString` | src/run.ts:125 | the decimal form of a natural number: non-empty, all digits, and a leading `0` only in `"0"` itself |
| `Text.IntToString` | src/run.ts:39 | `${code}`: digits with a leading minus sign exactly when the number is negative, in canonical form (no leading zero, no `-0`) |
| `Text.CanonicalUnique` | src/run.ts:39 | every canonical decimal string reads as some integer and is that integer's `IntToString`, so `${n}` is the one canonical string denoting `n` |
| `Text.NatToStringValue` | src/run.ts:125 | the digits of `n` denote `n` |
| `Text.IntToStringRoundTrip` | src/run.ts:125 | the string form of an integer reads back as that integer |
| `Text.IntToStringInjective` | src/run.ts:39 | different exit codes render differently |
| `Fn.IsString` | src/fn.ts:1-3 | `typeof v === "string"`: holds of string values only |
| `Fn.IsUint8Array` | src/fn.ts:5-7 | `v instanceof Uint8Array`: holds of byte arrays only |
| `Fn.NeverBoth` | src/fn.ts:1-7 | no value is both a string and a `Uint8Array` |
| `Fn.AsString` | src/fn.ts:11-16 | `null` and `undefined` give `""`; otherwise exactly `Trim` of the decoded text, which has no whitespace at either end and is empty exactly when the decoded text is all whitespace |
| `Fn.AsStringStable` | src/fn.ts:15 | trimming the result of `asString` again leaves it unchanged |
| `Fn.ParseJsonSafe` | src/fn.ts:22-31 | a string that parses gives the parsed value; a string that does not parse, and any non-string, come back unchanged; any change means the input was a string that parsed to the result |
| `Fn.J` | src/fn.ts:18-20 | `JSON.stringify(obj, null, indentation)`, with two spaces when the indentation is omitted |
| `Fn.Omitted` | src/fn.ts:33-45 | the copy has exactly the keys of `obj` that are not listed, each with its value in `obj` |
| `Fn.Omit` | src/fn.ts:33-45 | the key-by-key loop builds exactly the keys of `obj` not in `omitKeys`, each mapped as in `obj` |
| `Classify.ParseSingle` | src/run.ts:145 | `jsonRun`'s result is the parsed output when it parses, and the output text otherwise |
| `Classify.NonEmpty` | src/run.ts:159 | the kept lines are non-empty lines taken from the input, and no more of them |
| `Classify.NonEmptyAppend` | src/run.ts:159 | filtering a concatenation filters each part and keeps their order |
| `Classify.NonEmptyKeepsAll` | src/run.ts:159 | lines that are all non-empty are kept whole |
| `Classify.NonEmptyDropsBlank` | src/run.ts:159 | lines that are all empty are dropped whole |
| `Classify.ParseEachSafe` | src/run.ts:160 | one element per line, element i being `parseJsonSafe` of line i |
| `Classify.ParseJsonl` | src/run.ts:157-160 | `jsonlRun`'s line mode: at most one value per `"\n"`-separated line, and none for empty text; its lines are fixed by `JsonlAppend`, `JsonlOfLines` and `JsonlOfNewlines` |
| `Classify.JsonlAppend` | src/run.ts:157-160 | line mode reads `a + "\n" + b` as the values of `a` followed by the values of `b` |
| `Classify.JsonlOfLines` | src/run.ts:157-160 | for non-empty lines joined by `"\n"`: one value per line, in order, each `parseJsonSafe` of its line |
| `Classify.JsonlOfNewlines` | src/run.ts:157-160 | text made only of line feeds reads as no values |
| `Classify.JsonlHello` | test/run.test.ts:50-53 | `jsonlRun("echo hello")` gives `["hello"]` |
| `Classify.ParseAll` | src/run.ts:217-219 | succeeds exactly when every line parses, and then gives one parsed value per line, in order |
| `Classify.ParseJsonLinesStrict` | src/run.ts:217-219 | succeeds exactly when every `"\n"`-separated line parses, empty lines included, with one value per line; so a trailing line feed makes it fail when `JSON.parse("")` fails |
| `Classify.Bracketed` | src/run.ts:192 | `json.startsWith("[") && json.endsWith("]")`: a first character `[` and a last character `]` |
| `Classify.ClassifyArray` | src/run.ts:183-207 | the four cases in order: empty gives `[]`; bracketed text that parses gives the parsed value; else, if every line parses, the list of parsed lines; else, if some line fails, `[parseJsonSafe(text)]` |
| `Classify.ClassifyArrayIsArray` | src/run.ts:164-168 | the result is always an array, given that bracketed text which parses yields an array |
| `Classify.EmptyIsEmptyArray` | src/run.ts:185-188 | empty output gives an empty array, not `[""]` |
| `Classify.ArrayShapesAgree` | test/run.test.ts:136-155 | one array (compact or pretty-printed) and the same data one value per line both read as the same array |
| `Classify.ArrayModeAgreesWithLineMode` | src/run.ts:199-204 | when the array mode reads line by line it gives exactly `jsonlRun`'s values, because `JSON.parse("")` fails |
| `Classify.ModesDifferOnOneArrayLine` | src/run.ts:190-194 | on one bracketed line, line mode gives `[array]` while the array mode gives the array itself |
| `Classify.ClassifyArrayHello` | test/run.test.ts:131-134 | `jsonArrayRun("echo hello")` gives `["hello"]` |
| `Run.SegmentText` | src/run.ts:125 | a string stays as it is; a boolean becomes `"true"`/`"false"`; a number becomes `IntToString` of it, the canonical decimal that reads back as that number |
| `Run.Argv` | src/run.ts:123-125 | a string gives at least one token, none containing a space, as many as there are spaces plus one, joining back to the string; an array gives the same number of elements, element i being the string form of item i |
| `Run.ArgvLineRoundTrip` | src/run.ts:124 | space-free tokens joined by spaces split back into the same tokens |
| `Run.ArgvEchoHello` | src/run.ts:123-124 | `"echo hello"` gives `["echo", "hello"]` and `"false"` gives `["false"]` |
| `Run.ArgvDoubleSpace` | src/run.ts:124 | `"a  b"` gives `["a", "", "b"]` |
| `Run.ArgvIdNumber` | src/run.ts:125 | `["id", 1000]` gives `["id", "1000"]` |
| `Js.Truthy` | src/run.ts:60 | JavaScript truthiness: `undefined`, `null`, `false`, `0` and `""` are falsy, everything else (empty arrays, objects and byte arrays included) is truthy; also used at src/run.ts:89 and src/run.ts:186 |
| `Run.DefaultRunOptions` | src/run.ts:59-61 | the defaults hold only `verbose`, a boolean equal to the truthiness of the environment probe |
| `Run.MergeOptions` | src/run.ts:63-67 | every caller field wins; every default the caller does not set is kept; the keys are the union; an omitted argument means the defaults |
| `Run.StdinPiped` | src/run.ts:69 | `pipeStdIn`: `stdin` is a string or a `Uint8Array`; `Run.Plan` states the stdin mode it selects |
| `Run.StdinWrite` | src/run.ts:89-98 | bytes are written exactly when `stdin` is a non-empty string (its encoding) or a `Uint8Array` (its bytes), and only when stdin is piped |
| `Run.SpawnOptions` | src/run.ts:79-85 | the caller's keys without `stdin` and `verbose`, plus `args`; stdin is `"piped"` or `"null"` by the decision; stdout and stderr are always `"piped"`; other fields pass through unchanged |
| `Run.Plan` | src/run.ts:63-92 | executable `cmd[0]` and args `cmd[1..]`; stdin is `"piped"` exactly when `stdin` is a string or `Uint8Array`, otherwise `"null"`; no `verbose`; stdout and stderr piped; bytes written as decided; every other merged option passed through |
| `Run.EmptyStdinIsPipedButNotWritten` | src/run.ts:69-89 | `stdin: ""` gives a piped stdin with nothing written |
| `Run.NewCommandFailure` | src/run.ts:37-45 | message `"Command failed with exit code {code}: " + j(cmd, 0)`; the unchanged `cmd` and output; stdout and stderr are the trimmed decoded streams |
| `Run.FailureMessage` | src/run.ts:39 | the message starts with `"Command failed with exit code "` and ends with the rendered argument vector, with at least a digit and `": "` between them |
| `Run.FailureMessageRoundTrip` | src/run.ts:39 | the exit code and the rendered argument vector can be read back out of the failure message |
| `Run.FailureMessageInjective` | src/run.ts:39 | equal failure messages have equal exit codes and equal rendered argument vectors |
| `Run.Settle` | src/run.ts:101-111 | a runtime fault passes through; an exit gives a result exactly when it succeeded, namely the trimmed stdout; otherwise a failure holding the original `cmd` with the fixed message and both trimmed streams |
| `Run.FalseFails` | test/run.test.ts:34-43 | `run("false")` fails with a `CommandFailureError` holding `["false"]` whose message gives back the exit code |
| `Run.CatEchoesStdin` | test/run.test.ts:45-48 | a child that echoes its input makes `run("cat", { stdin: s })` give `s` trimmed, for non-empty `s` |
| `Run.TryRun` | src/run.ts:63-112 | the step-by-step `tryRun` starts the child as `Plan` says and settles as `Settle` says |
| `Run.Run` | src/run.ts:119-134 | `run` starts the child with the argument vector of the command and passes every failure on unchanged |
| `Run.Rethrow` | src/run.ts:126-133 | a command failure or runtime fault is passed on as it is |
| `Run.JsonRun` | src/run.ts:141-146 | the result is `jsonRun`'s reading of the successful output; failures pass on |
| `Run.JsonlRun` | src/run.ts:153-161 | the result is line mode's reading of the successful output; failures pass on |
| `Run.JsonArrayRun` | src/run.ts:176-208 | the early-return chain equals the array mode's reading of the successful output; failures pass on |

## Left out

- Spawning and stream handling (`Deno.Command`, `spawn`, the stdin writer's write and close, `process.output()`). These are process I/O with async scheduling. The child is the abstract `exec`.
- The order of the stdin write and the output drain, and the pipe-buffer deadlock that depends on it. This is a concurrency property that a sequential model cannot express.
- A failed stdin write is folded into `Spawned.SpawnFault`, the same as a spawn error. Both propagate unwrapped.
- Verbose logging through `console.error`. It is output only and never changes a result.
- `weakEnvGet` and the top-level await that computes `defaultRunOptions`. These are a permission query and an environment read. What the probe returned is a parameter of `Run.DefaultRunOptions`, and the defaults are a parameter of every entry point.
- The internals of `JSON.parse`, `JSON.stringify`, `TextDecoder` and `TextEncoder`. They are abstract fields of `Js.Host`. `j` (`Fn.J`) is a call to the abstract `stringify`; its only property of its own is the default indentation of two spaces.
- `Run.SegmentText`: numbers are integers. The exponent form `${n}` uses for magnitudes of 1e21 and more, fractions, `NaN` and the infinities are not modelled.
- `CommandOutput.signal` is not modelled. Only `success`, `code` and the two byte streams are kept, and `success` is not tied to `code == 0`.
- Strings are sequences of Unicode scalar values, not UTF-16 code units, so lone surrogates cannot be written.
- Objects are maps, so property order is not modelled.
- `Fn.Omit` visits the keys in an arbitrary order rather than the order of `Object.keys`. The resulting record is the same. That `obj` is not modified holds trivially, because records are values here.
- readme/generate-readme.ts, example.ts, readme/example-usage.ts, test/test-data-amount.ts, test/test-binary.ts and mod.ts. They are file I/O, demo scripts, tests that run real processes, and re-exports.
