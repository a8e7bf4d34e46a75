/** The execution pipeline of src/run.ts: building the argument vector,
    merging options, deciding how the child's standard input is wired,
    turning the exit status into a result or a `CommandFailureError`, and the
    four entry points `run`, `jsonRun`, `jsonlRun` and `jsonArrayRun`.

    The child process itself is an abstract function `exec` from the
    invocation (executable, spawn options, bytes written to stdin) to either
    a spawn fault or the exit status and captured bytes. */
module Run {
  import opened Js
  import opened Text
  import opened Fn
  import opened Classify

  // ---------------------------------------------------------------------------
  // commands and the argument vector

  /** An item of a command given as an array: `string | number | boolean`. */
  datatype SimpleValue = SStr(s: string) | SNum(n: int) | SBool(b: bool)

  /** A command: one string, or an array of simple values. */
  datatype Command = Line(text: string) | Segments(items: seq<SimpleValue>)

  /** `${segment}`, the string form of a simple value. */
  function SegmentText(v: SimpleValue): (r: string)
    ensures v.SStr? ==> r == v.s
    ensures v.SBool? ==> r == (if v.b then "true" else "false")
    ensures v.SNum? ==> ParseInt(r) == Some(v.n) && Canonical(r) && r == IntToString(v.n)
  {
    match v
    case SStr(s) => s
    case SNum(n) => (IntToStringRoundTrip(n); IntToString(n))
    case SBool(b) => if b then "true" else "false"
  }

  /** The argument vector `run` builds. A string is split on every single
      space (not on runs of whitespace); an array is converted element by
      element. */
  function Argv(command: Command): (cmd: seq<string>)
    ensures command.Line? ==> |cmd| >= 1
    ensures command.Line? ==> forall i :: 0 <= i < |cmd| ==> ' ' !in cmd[i]
    ensures command.Line? ==> Join(cmd, ' ') == command.text
    ensures command.Line? ==> |cmd| == Count(command.text, ' ') + 1
    ensures command.Segments? ==> |cmd| == |command.items|
    ensures command.Segments? ==> forall i :: 0 <= i < |cmd| ==> cmd[i] == SegmentText(command.items[i])
  {
    match command
    case Line(text) =>
      JoinSplit(text, ' ');
      SplitLength(text, ' ');
      Split(text, ' ')
    case Segments(items) =>
      seq(|items|, i requires 0 <= i < |items| => SegmentText(items[i]))
  }

  /** A string command is recovered from its argument vector, and a
      non-empty list of space-free tokens (empty tokens included) is the
      argument vector of the string that joins them. */
  lemma ArgvLineRoundTrip(tokens: seq<string>)
    requires |tokens| >= 1
    requires forall i :: 0 <= i < |tokens| ==> ' ' !in tokens[i]
    ensures Argv(Line(Join(tokens, ' '))) == tokens
  {
    SplitJoin(tokens, ' ');
  }

  /** `"echo hello"` is `["echo", "hello"]`, and `"false"` is `["false"]`. */
  lemma ArgvEchoHello()
    ensures Argv(Line("echo hello")) == ["echo", "hello"]
    ensures Argv(Line("false")) == ["false"]
  {
    var echo: seq<string> := ["echo", "hello"];
    assert Join(echo[1..], ' ') == "hello";
    assert Join(echo, ' ') == "echo hello";
    ArgvLineRoundTrip(echo);
    SplitNoSep("false", ' ');
  }

  /** Two spaces in a row give an empty argument. */
  lemma ArgvDoubleSpace()
    ensures Argv(Line("a  b")) == ["a", "", "b"]
  {
    ArgvLineRoundTrip(["a", "", "b"]);
  }

  /** `["id", 1000]` is `["id", "1000"]`. */
  lemma ArgvIdNumber()
    ensures Argv(Segments([SStr("id"), SNum(1000)])) == ["id", "1000"]
  {
    assert NatToString(1000) == "1000" by {
      assert NatToString(1) == "1";
      assert NatToString(10) == "10";
      assert NatToString(100) == "100";
    }
  }

  // ---------------------------------------------------------------------------
  // options

  /** `defaultRunOptions`: `verbose` is the truthiness of what the
      environment probe for `VERBOSE` returned (`false` when the permission
      is not granted). */
  function DefaultRunOptions(verboseEnv: Value): (d: Object)
    ensures d.Keys == {"verbose"}
    ensures d["verbose"].Bool? && (d["verbose"].b <==> Truthy(verboseEnv))
  {
    map["verbose" := Bool(Truthy(verboseEnv))]
  }

  /** `options = { ...defaultRunOptions, ...options }`, where an omitted
      options argument stands for the defaults. */
  function MergeOptions(defaults: Object, options: Option<Object>): (r: Object)
    ensures options.None? ==> r == defaults
    ensures options.Some? ==> r.Keys == defaults.Keys + options.value.Keys
    ensures options.Some? ==> forall k :: k in options.value ==> r[k] == options.value[k]
    ensures forall k :: k in defaults && (options.None? || k !in options.value) ==> r[k] == defaults[k]
  {
    var given := if options.Some? then options.value else defaults;
    defaults + given
  }

  /** `pipeStdIn`: the child gets a stdin pipe exactly when `stdin` is a
      string or a byte array. */
  predicate StdinPiped(options: Object)
  {
    IsString(Get(options, "stdin")) || IsUint8Array(Get(options, "stdin"))
  }

  /** The bytes written to the child's stdin, if any: only a truthy `stdin`
      is written, so the empty string opens a pipe that is never written. */
  function StdinWrite(host: Host, options: Object): (w: Option<seq<bv8>>)
    ensures w.Some? ==> StdinPiped(options)
    ensures var stdin := Get(options, "stdin");
      && (w.Some? <==> (stdin.Str? && stdin.s != "") || stdin.Bytes?)
      && (stdin.Str? && stdin.s != "" ==> w == Some(host.encode(stdin.s)))
      && (stdin.Bytes? ==> w == Some(stdin.data))
  {
    var stdin := Get(options, "stdin");
    if Truthy(stdin) && StdinPiped(options) then
      Some(if IsString(stdin) then host.encode(stdin.s) else stdin.data)
    else None
  }

  /** The option names the spawn options set themselves or drop. */
  predicate Reserved(k: string)
  {
    k == "stdin" || k == "verbose" || k == "args" || k == "stdout" || k == "stderr"
  }

  /** `commandOptions`: the caller's options without `stdin` and `verbose`,
      plus the arguments and the three stream modes. */
  function SpawnOptions(options: Object, args: seq<string>, piped: bool): (r: Object)
    ensures r.Keys == (options.Keys - {"stdin", "verbose"}) + {"args", "stdin", "stdout", "stderr"}
    ensures r["args"] == StrArray(args)
    ensures r["stdin"] == Str(if piped then "piped" else "null")
    ensures r["stdout"] == Str("piped") && r["stderr"] == Str("piped")
    ensures forall k :: k in options && !Reserved(k) ==> r[k] == options[k]
  {
    Omitted(options, ["stdin", "verbose"])
      + map["args" := StrArray(args),
            "stdin" := Str(if piped then "piped" else "null"),
            "stdout" := Str("piped"),
            "stderr" := Str("piped")]
  }

  /** What the child is started with: the executable (absent when the
      argument vector is empty, as `cmd[0]` is then `undefined`), the spawn
      options, and the bytes written to its stdin. */
  datatype Invocation = Invocation(executable: Option<string>, options: Object, input: Option<seq<bv8>>)

  /** The invocation `tryRun(cmd, options)` makes. */
  function Plan(host: Host, defaults: Object, cmd: seq<string>, options: Option<Object>): (inv: Invocation)
    ensures |cmd| > 0 ==> inv.executable == Some(cmd[0])
    ensures |cmd| == 0 ==> inv.executable == None
    ensures "args" in inv.options && inv.options["args"] == StrArray(if |cmd| > 0 then cmd[1..] else [])
    ensures "stdout" in inv.options && inv.options["stdout"] == Str("piped")
    ensures "stderr" in inv.options && inv.options["stderr"] == Str("piped")
    ensures "verbose" !in inv.options
    ensures var stdin := Get(MergeOptions(defaults, options), "stdin");
      && "stdin" in inv.options
      && inv.options["stdin"] == Str(if stdin.Str? || stdin.Bytes? then "piped" else "null")
      && (inv.input.Some? <==> (stdin.Str? && stdin.s != "") || stdin.Bytes?)
      && (stdin.Str? && stdin.s != "" ==> inv.input == Some(host.encode(stdin.s)))
      && (stdin.Bytes? ==> inv.input == Some(stdin.data))
    ensures var merged := MergeOptions(defaults, options);
      forall k :: k in merged && !Reserved(k) ==> k in inv.options && inv.options[k] == merged[k]
    ensures forall k :: k in inv.options && !Reserved(k) ==> k in MergeOptions(defaults, options)
  {
    var merged := MergeOptions(defaults, options);
    var args := if |cmd| > 0 then cmd[1..] else [];
    Invocation(if |cmd| > 0 then Some(cmd[0]) else None,
               SpawnOptions(merged, args, StdinPiped(merged)),
               StdinWrite(host, merged))
  }

  /** With `stdin: ""` the child's stdin is a pipe that is never written:
      the write at the truthiness check is skipped. */
  lemma EmptyStdinIsPipedButNotWritten(host: Host, defaults: Object, cmd: seq<string>, options: Object)
    requires "stdin" in options && options["stdin"] == Str("")
    ensures Plan(host, defaults, cmd, Some(options)).options["stdin"] == Str("piped")
    ensures Plan(host, defaults, cmd, Some(options)).input == None
  {
  }

  // ---------------------------------------------------------------------------
  // process outcome and failure

  /** `Deno.CommandOutput`: the exit status and the captured bytes. */
  datatype CommandOutput = CommandOutput(success: bool, code: int, stdout: seq<bv8>, stderr: seq<bv8>)

  /** What starting the child gives: a runtime error (the executable cannot
      be started, or writing its stdin failed), or its exit. */
  datatype Spawned = SpawnFault(reason: string) | Exited(output: CommandOutput)

  /** `CommandFailureError`: the message, the argument vector that was run,
      the raw output, and both streams as trimmed text. */
  datatype CommandFailure = CommandFailure(
    message: string, cmd: seq<string>, output: CommandOutput, stderr: string, stdout: string)

  const FailurePrefix: string := "Command failed with exit code "

  /** The message of a failure: the exit code and the compact JSON rendering
      of the argument vector. */
  function FailureMessage(code: int, renderedCmd: string): (m: string)
    ensures |m| >= |FailurePrefix| + 3 + |renderedCmd|
    ensures m[..|FailurePrefix|] == FailurePrefix
    ensures m[|m| - |renderedCmd|..] == renderedCmd
  {
    FailurePrefix + IntToString(code) + ": " + renderedCmd
  }

  /** `new CommandFailureError(output, cmd)`. */
  function NewCommandFailure(host: Host, output: CommandOutput, cmd: seq<string>): (f: CommandFailure)
    ensures f.message == FailureMessage(output.code, J(host, StrArray(cmd), Some(0)))
    ensures f.cmd == cmd && f.output == output
    ensures f.stdout == AsString(host.decode, Present(output.stdout)) && Trimmed(f.stdout)
    ensures f.stderr == AsString(host.decode, Present(output.stderr)) && Trimmed(f.stderr)
  {
    CommandFailure(
      FailureMessage(output.code, J(host, StrArray(cmd), Some(0))),
      cmd, output,
      AsString(host.decode, Present(output.stderr)),
      AsString(host.decode, Present(output.stdout)))
  }

  /** The first index of `c` in `s`. */
  function IndexOf(s: string, c: char): (r: Option<nat>)
    ensures r.None? ==> c !in s
    ensures r.Some? ==> r.value < |s| && s[r.value] == c && c !in s[..r.value]
    decreases |s|
  {
    if s == [] then None
    else if s[0] == c then Some(0)
    else match IndexOf(s[1..], c)
      case None => None
      case Some(k) => (assert s[..k + 1] == [s[0]] + s[1..][..k]; Some(k + 1))
  }

  /** Reads the exit code and the rendered argument vector back out of a
      failure message. */
  function ParseFailureMessage(m: string): Option<(int, string)>
  {
    if |m| < |FailurePrefix| || m[..|FailurePrefix|] != FailurePrefix then None
    else
      var rest := m[|FailurePrefix|..];
      match IndexOf(rest, ':')
      case None => None
      case Some(k) =>
        if k + 1 < |rest| && rest[k + 1] == ' ' then
          match ParseInt(rest[..k])
          case None => None
          case Some(code) => Some((code, rest[k + 2..]))
        else None
  }

  /** A failure message determines its exit code and its rendered argument
      vector. */
  lemma FailureMessageRoundTrip(code: int, renderedCmd: string)
    ensures ParseFailureMessage(FailureMessage(code, renderedCmd)) == Some((code, renderedCmd))
  {
    var m := FailureMessage(code, renderedCmd);
    var digits := IntToString(code);
    assert m == FailurePrefix + (digits + ": " + renderedCmd);
    var rest := m[|FailurePrefix|..];
    assert rest == digits + ": " + renderedCmd;
    assert ':' !in digits;
    var k := IndexOf(rest, ':');
    assert rest[|digits|] == ':';
    assert k.Some?;
    assert k.value == |digits|;
    assert rest[..|digits|] == digits;
    assert rest[|digits| + 2..] == renderedCmd;
    IntToStringRoundTrip(code);
  }

  /** Two failures with the same message have the same exit code and the
      same rendered argument vector. */
  lemma FailureMessageInjective(c1: int, r1: string, c2: int, r2: string)
    requires FailureMessage(c1, r1) == FailureMessage(c2, r2)
    ensures c1 == c2 && r1 == r2
  {
    FailureMessageRoundTrip(c1, r1);
    FailureMessageRoundTrip(c2, r2);
  }

  /** The result of an execution: the captured stdout text or the value a
      JSON variant derives from it, a command failure, or a runtime fault that
      propagates unwrapped. */
  datatype Outcome<+T> = Ok(value: T) | Failed(failure: CommandFailure) | Fault(reason: string)

  /** How `tryRun` settles once the child has exited: a success gives the
      trimmed stdout text, anything else a `CommandFailureError`. */
  function Settle(host: Host, cmd: seq<string>, spawned: Spawned): (r: Outcome<string>)
    ensures spawned.SpawnFault? ==> r == Fault(spawned.reason)
    ensures spawned.Exited? ==> (r.Ok? <==> spawned.output.success)
    ensures spawned.Exited? && spawned.output.success ==>
      r.value == AsString(host.decode, Present(spawned.output.stdout)) && Trimmed(r.value)
    ensures spawned.Exited? && !spawned.output.success ==>
      r.Failed? && r.failure.cmd == cmd && r.failure.output == spawned.output
      && r.failure.message == FailureMessage(spawned.output.code, J(host, StrArray(cmd), Some(0)))
      && r.failure.stdout == AsString(host.decode, Present(spawned.output.stdout))
      && r.failure.stderr == AsString(host.decode, Present(spawned.output.stderr))
  {
    match spawned
    case SpawnFault(reason) => Fault(reason)
    case Exited(output) =>
      if !output.success then Failed(NewCommandFailure(host, output, cmd))
      else Ok(AsString(host.decode, Present(output.stdout)))
  }

  /** `run("false")` fails with a `CommandFailureError` that holds
      `["false"]` and the exit code. */
  lemma FalseFails(host: Host, output: CommandOutput)
    requires !output.success
    ensures var r := Settle(host, Argv(Line("false")), Exited(output));
      r.Failed? && r.failure.cmd == ["false"]
      && ParseFailureMessage(r.failure.message) == Some((output.code, J(host, StrArray(["false"]), Some(0))))
  {
    ArgvEchoHello();
    FailureMessageRoundTrip(output.code, J(host, StrArray(["false"]), Some(0)));
  }

  /** A child that behaves like `cat` (it exits successfully and echoes
      what it was given) makes `run("cat", { stdin: s })` give back `s`
      trimmed, for any non-empty `s` that survives encoding and decoding. */
  lemma CatEchoesStdin(host: Host, exec: Invocation -> Spawned, defaults: Object, s: string)
    requires s != "" && host.decode(host.encode(s)) == s
    requires forall inv: Invocation :: inv.input.Some? ==>
      exec(inv) == Exited(CommandOutput(true, 0, inv.input.value, []))
    ensures var inv := Plan(host, defaults, Argv(Line("cat")), Some(map["stdin" := Str(s)]));
      Settle(host, Argv(Line("cat")), exec(inv)) == Ok(Trim(s))
  {
    var inv := Plan(host, defaults, Argv(Line("cat")), Some(map["stdin" := Str(s)]));
    assert Get(MergeOptions(defaults, Some(map["stdin" := Str(s)])), "stdin") == Str(s);
    assert inv.input == Some(host.encode(s));
  }

  // ---------------------------------------------------------------------------
  // the entry points

  /** `tryRun(cmd, options)`, step by step: merge the options, decide the
      stdin pipe, split off the executable, build the spawn options, write
      stdin if there is something to write, wait for the exit and settle. */
  method TryRun(host: Host, exec: Invocation -> Spawned, defaults: Object,
                cmd: seq<string>, options: Option<Object>)
    returns (r: Outcome<string>, inv: Invocation)
    ensures inv == Plan(host, defaults, cmd, options)
    ensures r == Settle(host, cmd, exec(inv))
  {
    var merged := MergeOptions(defaults, options);
    var stdin := Get(merged, "stdin");
    var pipeStdIn := IsString(stdin) || IsUint8Array(stdin);
    var executable: Option<string> := None;
    var args: seq<string> := [];
    if |cmd| > 0 {
      executable, args := Some(cmd[0]), cmd[1..];
    }
    var rest := Omit(merged, ["stdin", "verbose"]);
    var commandOptions := rest
      + map["args" := StrArray(args),
            "stdin" := Str(if pipeStdIn then "piped" else "null"),
            "stdout" := Str("piped"),
            "stderr" := Str("piped")];
    var input: Option<seq<bv8>> := None;
    if Truthy(stdin) && pipeStdIn {
      input := Some(if IsString(stdin) then host.encode(stdin.s) else stdin.data);
    }
    inv := Invocation(executable, commandOptions, input);
    var spawned := exec(inv);
    match spawned
    case SpawnFault(reason) =>
      r := Fault(reason);
    case Exited(output) =>
      if !output.success {
        r := Failed(NewCommandFailure(host, output, cmd));
      } else {
        r := Ok(AsString(host.decode, Present(output.stdout)));
      }
  }

  /** `run(command, options)`: build the argument vector and run it; a
      failure is passed on unchanged. */
  method Run(host: Host, exec: Invocation -> Spawned, defaults: Object,
             command: Command, options: Option<Object>)
    returns (r: Outcome<string>, inv: Invocation)
    ensures inv == Plan(host, defaults, Argv(command), options)
    ensures r == Settle(host, Argv(command), exec(inv))
  {
    var cmd := Argv(command);
    r, inv := TryRun(host, exec, defaults, cmd, options);
  }

  /** Passes a failure or a fault on to a JSON variant. */
  function Rethrow<T>(o: Outcome<string>): (r: Outcome<T>)
    requires !o.Ok?
    ensures o.Failed? ==> r == Failed(o.failure)
    ensures o.Fault? ==> r == Fault(o.reason)
  {
    match o
    case Failed(f) => Failed(f)
    case Fault(m) => Fault(m)
  }

  /** `jsonRun(command, options)`: the output read as one JSON value, or as
      its text when it does not parse. */
  method JsonRun(host: Host, exec: Invocation -> Spawned, defaults: Object,
                 command: Command, options: Option<Object>)
    returns (r: Outcome<Value>, inv: Invocation)
    ensures inv == Plan(host, defaults, Argv(command), options)
    ensures var o := Settle(host, Argv(command), exec(inv));
      if o.Ok? then r == Ok(ParseSingle(host.parse, o.value)) else r == Rethrow(o)
  {
    var out;
    out, inv := Run(host, exec, defaults, command, options);
    if out.Ok? {
      r := Ok(ParseJsonSafe(host.parse, Str(out.value)));
    } else {
      r := Rethrow(out);
    }
  }

  /** `jsonlRun(command, options)`: the output read as one JSON value per
      non-empty line. */
  method JsonlRun(host: Host, exec: Invocation -> Spawned, defaults: Object,
                  command: Command, options: Option<Object>)
    returns (r: Outcome<seq<Value>>, inv: Invocation)
    ensures inv == Plan(host, defaults, Argv(command), options)
    ensures var o := Settle(host, Argv(command), exec(inv));
      if o.Ok? then r == Ok(ParseJsonl(host.parse, o.value)) else r == Rethrow(o)
  {
    var out;
    out, inv := Run(host, exec, defaults, command, options);
    if out.Ok? {
      r := Ok(ParseEachSafe(host.parse, NonEmpty(Split(out.value, '\n'))));
    } else {
      r := Rethrow(out);
    }
  }

  /** `jsonArrayRun(command, options)`: the output read as an array by the
      ordered fallback chain. */
  method JsonArrayRun(host: Host, exec: Invocation -> Spawned, defaults: Object,
                      command: Command, options: Option<Object>)
    returns (r: Outcome<Value>, inv: Invocation)
    ensures inv == Plan(host, defaults, Argv(command), options)
    ensures var o := Settle(host, Argv(command), exec(inv));
      if o.Ok? then r == Ok(ClassifyArray(host.parse, o.value)) else r == Rethrow(o)
  {
    var json;
    json, inv := Run(host, exec, defaults, command, options);
    if !json.Ok? {
      r := Rethrow(json);
      return;
    }
    var text := json.value;
    if text == "" {
      r := Ok(Arr([]));
      return;
    }
    if Bracketed(text) {
      var whole := host.parse(text);
      if whole.Some? {
        r := Ok(whole.value);
        return;
      }
    }
    var lines := ParseJsonLinesStrict(host.parse, text);
    if lines.Some? {
      r := Ok(Arr(lines.value));
      return;
    }
    r := Ok(Arr([ParseJsonSafe(host.parse, Str(text))]));
  }
}
