/** How the JSON-oriented entry points of src/run.ts read the captured
    standard output: as one value (`jsonRun`), as one value per non-empty
    line (`jsonlRun`), or as an array chosen by an ordered fallback chain
    (`jsonArrayRun`). Every classifier here is total: a parse failure is a
    `None` that selects the next case, never an error. */
module Classify {
  import opened Js
  import opened Text
  import opened Fn

  // ---------------------------------------------------------------------------
  // jsonRun

  /** `parseJsonSafe(stdout)`: the parsed value, or the text itself. */
  function ParseSingle(parse: string -> Option<Value>, text: string): (r: Value)
    ensures parse(text).Some? ==> r == parse(text).value
    ensures parse(text).None? ==> r == Str(text)
  {
    ParseJsonSafe(parse, Str(text))
  }

  // ---------------------------------------------------------------------------
  // jsonlRun

  /** `lines.filter((line) => line.length > 0)`. */
  function NonEmpty(lines: seq<string>): (r: seq<string>)
    ensures |r| <= |lines|
    ensures forall i :: 0 <= i < |r| ==> r[i] != "" && r[i] in lines
    decreases |lines|
  {
    if lines == [] then []
    else (if lines[0] == "" then [] else [lines[0]]) + NonEmpty(lines[1..])
  }

  /** Filtering a concatenation filters each part, keeping their order. */
  lemma {:induction false} NonEmptyAppend(a: seq<string>, b: seq<string>)
    ensures NonEmpty(a + b) == NonEmpty(a) + NonEmpty(b)
    decreases |a|
  {
    if a != [] {
      assert (a + b)[0] == a[0];
      assert (a + b)[1..] == a[1..] + b;
      NonEmptyAppend(a[1..], b);
    } else {
      assert a + b == b;
    }
  }

  /** A list without empty lines is kept whole. */
  lemma {:induction false} NonEmptyKeepsAll(lines: seq<string>)
    requires forall i :: 0 <= i < |lines| ==> lines[i] != ""
    ensures NonEmpty(lines) == lines
    decreases |lines|
  {
    if lines != [] {
      NonEmptyKeepsAll(lines[1..]);
      assert lines == [lines[0]] + lines[1..];
    }
  }

  /** A list of empty lines is dropped whole. */
  lemma {:induction false} NonEmptyDropsBlank(lines: seq<string>)
    requires forall i :: 0 <= i < |lines| ==> lines[i] == ""
    ensures NonEmpty(lines) == []
    decreases |lines|
  {
    if lines != [] {
      NonEmptyDropsBlank(lines[1..]);
    }
  }

  /** `lines.map((line) => parseJsonSafe(line))`. */
  function ParseEachSafe(parse: string -> Option<Value>, lines: seq<string>): (r: seq<Value>)
    ensures |r| == |lines|
    ensures forall i :: 0 <= i < |lines| ==> r[i] == ParseJsonSafe(parse, Str(lines[i]))
  {
    seq(|lines|, i requires 0 <= i < |lines| => ParseJsonSafe(parse, Str(lines[i])))
  }

  /** `jsonlRun`'s reading of its output: split on "\n", drop the empty
      lines, parse each remaining line, keeping a line that does not parse
      as its text. */
  function ParseJsonl(parse: string -> Option<Value>, text: string): (r: seq<Value>)
    ensures |r| <= Count(text, '\n') + 1
    ensures text == "" ==> r == []
  {
    SplitLength(text, '\n');
    ParseEachSafe(parse, NonEmpty(Split(text, '\n')))
  }

  /** Line mode reads `a + "\n" + b` as the lines of `a` followed by the
      lines of `b`: lines are read independently and in order. */
  lemma JsonlAppend(parse: string -> Option<Value>, a: string, b: string)
    ensures ParseJsonl(parse, a + "\n" + b) == ParseJsonl(parse, a) + ParseJsonl(parse, b)
  {
    SplitAppend(a, b, '\n');
    assert a + "\n" + b == a + ['\n'] + b;
    NonEmptyAppend(Split(a, '\n'), Split(b, '\n'));
  }

  /** Line mode on lines joined by "\n" yields one element per line, in
      order, each the safe parse of that line, as long as no line is empty
      or holds a "\n" itself. */
  lemma JsonlOfLines(parse: string -> Option<Value>, lines: seq<string>)
    requires |lines| >= 1
    requires forall i :: 0 <= i < |lines| ==> lines[i] != "" && '\n' !in lines[i]
    ensures |ParseJsonl(parse, Join(lines, '\n'))| == |lines|
    ensures forall i :: 0 <= i < |lines| ==>
      ParseJsonl(parse, Join(lines, '\n'))[i] == ParseJsonSafe(parse, Str(lines[i]))
  {
    SplitJoin(lines, '\n');
    NonEmptyKeepsAll(lines);
  }

  /** Blank lines add nothing: text made only of line feeds reads as no
      values at all. */
  lemma JsonlOfNewlines(parse: string -> Option<Value>, text: string)
    requires forall i :: 0 <= i < |text| ==> text[i] == '\n'
    ensures ParseJsonl(parse, text) == []
  {
    var lines := Split(text, '\n');
    forall i | 0 <= i < |lines| ensures lines[i] == "" {
      if lines[i] != "" {
        assert lines[i][0] != '\n';
        JoinSplit(text, '\n');
        JoinContains(lines, '\n', i);
      }
    }
    NonEmptyDropsBlank(lines);
  }

  /** Every character of a token appears in the joined text. */
  lemma {:induction false} JoinContains(ts: seq<string>, sep: char, i: nat)
    requires i < |ts| && |ts[i]| > 0
    ensures ts[i][0] in Join(ts, sep)
    decreases |ts|
  {
    if |ts| > 1 {
      if i > 0 {
        JoinContains(ts[1..], sep, i - 1);
      } else {
        assert Join(ts, sep)[0] == ts[0][0];
      }
    }
  }

  /** `jsonlRun("echo hello")` yields `["hello"]`: "hello" is not JSON, so the
      single line is kept as text. */
  lemma JsonlHello(parse: string -> Option<Value>)
    requires parse("hello").None?
    ensures ParseJsonl(parse, "hello") == [Str("hello")]
  {
    SplitNoSep("hello", '\n');
  }

  // ---------------------------------------------------------------------------
  // parseAsJsonLinesOrThrow and jsonArrayRun

  /** `lines.map((line) => JSON.parse(line))`, where any failure makes the
      whole map fail. */
  function ParseAll(parse: string -> Option<Value>, lines: seq<string>): (r: Option<seq<Value>>)
    ensures r.Some? <==> forall i :: 0 <= i < |lines| ==> parse(lines[i]).Some?
    ensures r.Some? ==> |r.value| == |lines|
    ensures r.Some? ==> forall i :: 0 <= i < |lines| ==> parse(lines[i]) == Some(r.value[i])
    decreases |lines|
  {
    if lines == [] then Some([])
    else
      match parse(lines[0])
      case None => None
      case Some(v) =>
        match ParseAll(parse, lines[1..])
        case None => None
        case Some(vs) => Some([v] + vs)
  }

  /** `parseAsJsonLinesOrThrow(json)`: every "\n"-separated line must parse,
      empty lines included. */
  function ParseJsonLinesStrict(parse: string -> Option<Value>, json: string): (r: Option<seq<Value>>)
    ensures r.Some? <==> forall i :: 0 <= i < |Split(json, '\n')| ==> parse(Split(json, '\n')[i]).Some?
    ensures r.Some? ==> |r.value| == Count(json, '\n') + 1
    ensures parse("").None? && |json| >= 1 && json[|json| - 1] == '\n' ==> r.None?
  {
    SplitLength(json, '\n');
    StrictTrailingNewline(parse, json);
    ParseAll(parse, Split(json, '\n'))
  }

  /** A trailing line feed leaves an empty last line. */
  lemma {:induction false} SplitTrailingSep(s: string, sep: char)
    requires |s| >= 1 && s[|s| - 1] == sep
    ensures Split(s, sep)[|Split(s, sep)| - 1] == ""
    decreases |s|
  {
    if |s| == 1 {
      assert s[1..] == "";
    } else {
      SplitTrailingSep(s[1..], sep);
    }
  }

  /** The strict reader fails on a trailing line feed when `JSON.parse("")`
      fails, because the last line is then empty. */
  lemma StrictTrailingNewline(parse: string -> Option<Value>, json: string)
    ensures parse("").None? && |json| >= 1 && json[|json| - 1] == '\n' ==>
      ParseAll(parse, Split(json, '\n')).None?
  {
    if |json| >= 1 && json[|json| - 1] == '\n' {
      SplitTrailingSep(json, '\n');
    }
  }

  /** `json.startsWith("[") && json.endsWith("]")`. */
  predicate Bracketed(json: string)
  {
    |json| >= 1 && json[0] == '[' && json[|json| - 1] == ']'
  }

  /** `jsonArrayRun`'s reading of its output. The cases apply in order:
      1. empty text gives the empty array;
      2. bracketed text that parses gives the parsed value;
      3. text whose every "\n"-line parses gives the list of parsed lines;
      4. anything else gives a one-element array holding the safe parse of
         the whole text. */
  function ClassifyArray(parse: string -> Option<Value>, json: string): (r: Value)
    ensures json == "" ==> r == Arr([])
    ensures json != "" && Bracketed(json) && parse(json).Some? ==> r == parse(json).value
    ensures json != "" && !(Bracketed(json) && parse(json).Some?)
            && (forall i :: 0 <= i < |Split(json, '\n')| ==> parse(Split(json, '\n')[i]).Some?)
            ==> r.Arr? && |r.items| == |Split(json, '\n')|
                && forall i :: 0 <= i < |r.items| ==> parse(Split(json, '\n')[i]) == Some(r.items[i])
    ensures json != "" && !(Bracketed(json) && parse(json).Some?)
            && (exists i :: 0 <= i < |Split(json, '\n')| && parse(Split(json, '\n')[i]).None?)
            ==> r == Arr([ParseJsonSafe(parse, Str(json))])
  {
    if json == "" then Arr([])
    else if Bracketed(json) && parse(json).Some? then parse(json).value
    else
      match ParseJsonLinesStrict(parse, json)
      case Some(values) => Arr(values)
      case None => Arr([ParseJsonSafe(parse, Str(json))])
  }

  /** "Always returns an array": as long as bracketed text that parses
      parses to an array (as JSON's grammar guarantees), the result of the
      array mode is an array. */
  lemma ClassifyArrayIsArray(parse: string -> Option<Value>, json: string)
    requires Bracketed(json) && parse(json).Some? ==> parse(json).value.Arr?
    ensures ClassifyArray(parse, json).Arr?
  {
  }

  /** Case 1 never produces an element: empty output is `[]`, not `[""]`,
      whereas the last case on a blank line would give a one-element array. */
  lemma EmptyIsEmptyArray(parse: string -> Option<Value>)
    ensures ClassifyArray(parse, "") == Arr([])
    ensures |ClassifyArray(parse, "").items| == 0
  {
  }

  /** The same data presented as one JSON array (compact or pretty-printed:
      any bracketed text that parses to it) or as one JSON value per line
      reads as the same array. */
  lemma ArrayShapesAgree(parse: string -> Option<Value>, values: seq<Value>,
                         arrayText: string, lines: seq<string>)
    requires Bracketed(arrayText) && parse(arrayText) == Some(Arr(values))
    requires |lines| == |values| >= 1
    requires forall i :: 0 <= i < |lines| ==> '\n' !in lines[i] && parse(lines[i]) == Some(values[i])
    requires lines[0] != "" && lines[0][0] != '['
    ensures ClassifyArray(parse, arrayText) == Arr(values)
    ensures ClassifyArray(parse, Join(lines, '\n')) == Arr(values)
  {
    var json := Join(lines, '\n');
    assert json[0] == lines[0][0];
    SplitJoin(lines, '\n');
    var r := ParseAll(parse, lines);
    assert r.Some?;
    assert r.value == values;
  }

  /** Where the array mode reads the text line by line, it agrees with line
      mode: the same values in the same order. (`JSON.parse("")` throws, so
      a blank line never parses.) */
  lemma ArrayModeAgreesWithLineMode(parse: string -> Option<Value>, json: string)
    requires parse("").None?
    requires json != "" && !(Bracketed(json) && parse(json).Some?)
    requires forall i :: 0 <= i < |Split(json, '\n')| ==> parse(Split(json, '\n')[i]).Some?
    ensures ClassifyArray(parse, json) == Arr(ParseJsonl(parse, json))
  {
    var lines := Split(json, '\n');
    var strict := ParseAll(parse, lines);
    assert strict.Some?;
    var values := strict.value;
    assert ClassifyArray(parse, json) == Arr(values);
    NonEmptyLines(parse, lines);
    NonEmptyKeepsAll(lines);
    var jsonl := ParseEachSafe(parse, lines);
    forall i | 0 <= i < |values| ensures jsonl[i] == values[i] {
      assert parse(lines[i]) == Some(values[i]);
    }
    assert jsonl == values;
  }

  /** Lines that all parse are all non-empty, since the empty line does not. */
  lemma NonEmptyLines(parse: string -> Option<Value>, lines: seq<string>)
    requires parse("").None?
    requires forall i :: 0 <= i < |lines| ==> parse(lines[i]).Some?
    ensures forall i :: 0 <= i < |lines| ==> lines[i] != ""
  {
  }

  /** A single line of bracketed JSON is where the two modes differ: line
      mode wraps the parsed array in an array, the array mode returns it as
      it is. */
  lemma ModesDifferOnOneArrayLine(parse: string -> Option<Value>, json: string, items: seq<Value>)
    requires Bracketed(json) && '\n' !in json && parse(json) == Some(Arr(items))
    ensures ParseJsonl(parse, json) == [Arr(items)]
    ensures ClassifyArray(parse, json) == Arr(items)
  {
    SplitNoSep(json, '\n');
  }

  /** `jsonArrayRun("echo hello")` yields `["hello"]`. */
  lemma ClassifyArrayHello(parse: string -> Option<Value>)
    requires parse("hello").None?
    ensures ClassifyArray(parse, "hello") == Arr([Str("hello")])
  {
    SplitNoSep("hello", '\n');
    assert Split("hello", '\n')[0] == "hello";
  }
}
