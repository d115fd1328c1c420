/**
 * `Builder._buildStep_II_CompileSources` (build.js), one source at a time: whether the
 * preprocessor runs, the parameters it gets, the two external commands and their temporary
 * files, and the destination file made of the header lines and the compiled text.
 */
module CompileStep {
  import opened Wrappers
  import opened Strings
  import opened Paths
  import opened FileSystem
  import opened ExternalTools
  import opened Manifests
  import opened Effects

  const PreprocessFileExtension := ".pre"
  const CompileFileExtension := ".cmp"
  /** Reading `.trim` of the missing half of a variables entry without '='. */
  const MissingValue := "TypeError: Cannot read properties of undefined (reading 'trim')"

  /** A temporary file: the path's string with a suffix. */
  function Suffixed(p: Path, suffix: string): Path {
    Parse(PathString(p) + suffix)
  }

  /** The preprocessor runs when forced, or when some `-variable` parameter of the build
      names a variables listing of the source. */
  predicate UsePreprocessor(item: CompileItem, variables: seq<string>) {
    item.forcePreprocessor ||
    (item.variables.Some? && exists i :: 0 <= i < |variables| && variables[i] in item.variables.value)
  }

  /** One variables entry as a preprocessor parameter: the text before the first '=' and
      the text between it and the next, both trimmed, and nothing when either is empty. */
  function VariableParam(entry: string): (r: Result<Option<string>>)
    ensures r.Err? <==> '=' !in entry
    ensures r.Err? ==> r.error == MissingValue
  {
    var parts := Split(entry, '=');
    if |parts| < 2 then Err(MissingValue)
    else
      var key := Trim(parts[0]);
      var value := Trim(parts[1]);
      if key != "" && value != "" then Ok(Some("-" + key + "=" + value)) else Ok(None)
  }

  /** The parameters of one listing's entries, in order; the first entry without '=' fails. */
  function EntriesParams(entries: seq<string>): (r: Result<seq<string>>)
    ensures r.Err? ==> r.error == MissingValue
    decreases |entries|
  {
    if entries == [] then Ok([])
    else
      var last := entries[|entries| - 1];
      match EntriesParams(entries[..|entries| - 1])
      case Err(e) => Err(e)
      case Ok(ps) =>
        match VariableParam(last)
        case Err(e) => Err(e)
        case Ok(p) => Ok(ps + (if p.Some? then [p.value] else []))
  }

  /** For each `-variable` parameter in order (repeats included), the parameters of the
      listing it names. */
  function ListingsParams(listings: map<string, seq<string>>, variables: seq<string>): Result<seq<string>>
    decreases |variables|
  {
    if variables == [] then Ok([])
    else
      var v := variables[|variables| - 1];
      match ListingsParams(listings, variables[..|variables| - 1])
      case Err(e) => Err(e)
      case Ok(ps) =>
        if v !in listings then Ok(ps)
        else
          match EntriesParams(listings[v])
          case Err(e) => Err(e)
          case Ok(more) => Ok(ps + more)
  }

  /** The preprocessor's parameter list: none for a source without variables. */
  function PreprocessorParams(item: CompileItem, variables: seq<string>): Result<seq<string>> {
    if item.variables.None? then Ok([]) else ListingsParams(item.variables.value, variables)
  }

  /** The destination file's text: the header lines, each ended by EOL, then the compiled code. */
  function CompiledOutput(header: Option<seq<string>>, compiled: string): string {
    if header.Some? then JoinWith(header.value, EOL) + EOL + compiled else compiled
  }

  function CommandFailed(command: string): string {
    "Command failed: " + command
  }

  function PreprocessCommand(input: Path, params: string, output: Path): string {
    "metascript " + PathString(input) + " " + params + " > " + PathString(output)
  }

  function CompileCommand(input: Path, options: string, output: Path): string {
    "uglifyjs " + PathString(input) + " " + options + " -o " + PathString(output)
  }

  /** Compiling `text` (None when the input cannot be read) found at `input`, then
      writing the destination and removing the temporary files. */
  function Finish(tools: Tools, item: CompileItem, input: Path, text: Option<string>, before: seq<Effect>, pre: Option<Path>): Outcome {
    var cmp := Suffixed(item.destination, CompileFileExtension);
    var ran := before + [Compile(input, cmp, item.compileOptions)];
    var compiled := if text.Some? then tools.compile(text.value, item.compileOptions) else None;
    if compiled.None? then Outcome(ran, Some(CommandFailed(CompileCommand(input, item.compileOptions, cmp))))
    else
      Outcome(ran + [Write(item.destination, CompiledOutput(item.header, compiled.value)), Remove(cmp)] +
        (if pre.Some? then [Remove(pre.value)] else []), None)
  }

  /** Everything compiling one source does, in order, up to its first failure. */
  function CompileOne(fs: Fs, tools: Tools, variables: seq<string>, item: CompileItem): Outcome {
    if UsePreprocessor(item, variables) then
      match PreprocessorParams(item, variables)
      case Err(e) => Outcome([], Some(e))
      case Ok(params) =>
        var p := JoinWith(params, " ");
        var pre := Suffixed(item.destination, PreprocessFileExtension);
        var ran := [Preprocess(item.source, pre, p)];
        var text := match ReadFile(fs, item.source)
          case Ok(content) => tools.preprocess(content, p)
          case Err(_) => None;
        if text.None? then Outcome(ran, Some(CommandFailed(PreprocessCommand(item.source, p, pre))))
        else Finish(tools, item, pre, text, ran, Some(pre))
    else
      var source := ReadFile(fs, item.source);
      Finish(tools, item, item.source, if source.Ok? then Some(source.value) else None, [], None)
  }

  /** The decision, as the loop over the `-variable` parameters makes it, stopping at the
      first parameter that names a listing. */
  method DecidePreprocessor(item: CompileItem, variables: seq<string>) returns (use: bool)
    ensures use == UsePreprocessor(item, variables)
  {
    if item.forcePreprocessor {
      return true;
    }
    use := false;
    if item.variables.Some? {
      var i := 0;
      while i < |variables|
        invariant 0 <= i <= |variables|
        invariant forall k :: 0 <= k < i ==> variables[k] !in item.variables.value
      {
        if variables[i] in item.variables.value {
          return true;
        }
        i := i + 1;
      }
    }
  }

  /** The parameter list, as the nested loops build it: over the `-variable` parameters, then
      over the entries of the listing each one names. */
  method CollectParams(item: CompileItem, variables: seq<string>) returns (r: Result<seq<string>>)
    ensures r == PreprocessorParams(item, variables)
  {
    if item.variables.None? {
      return Ok([]);
    }
    var listings := item.variables.value;
    var params: seq<string> := [];
    for i := 0 to |variables|
      invariant ListingsParams(listings, variables[..i]) == Ok(params)
    {
      assert variables[..i + 1][..i] == variables[..i];
      var v := variables[i];
      if v in listings {
        var more := CollectEntries(listings[v]);
        if more.Err? {
          ListingsFailure(listings, variables, i);
          return Err(more.error);
        }
        params := params + more.value;
      }
    }
    assert variables[..|variables|] == variables;
    return Ok(params);
  }

  /** The inner loop: one listing's entries, each turned into a parameter. */
  method CollectEntries(entries: seq<string>) returns (r: Result<seq<string>>)
    ensures r == EntriesParams(entries)
  {
    var more: seq<string> := [];
    for j := 0 to |entries|
      invariant EntriesParams(entries[..j]) == Ok(more)
    {
      var p := VariableParam(entries[j]);
      if p.Err? {
        EntriesFailure(entries, j);
        return Err(p.error);
      }
      EntriesStep(entries, j);
      if p.value.Some? {
        more := more + [p.value.value];
      } else {
        assert more + [] == more;
      }
    }
    assert entries[..|entries|] == entries;
    return Ok(more);
  }

  /** The entries fail exactly when one of them has no '='; otherwise each yields at most
      one parameter. */
  lemma {:induction false} EntriesParamsFail(entries: seq<string>)
    ensures EntriesParams(entries).Err? <==> exists i :: 0 <= i < |entries| && '=' !in entries[i]
    ensures EntriesParams(entries).Ok? ==> |EntriesParams(entries).value| <= |entries|
    decreases |entries|
  {
    if entries != [] {
      var init := entries[..|entries| - 1];
      EntriesParamsFail(init);
      assert forall i :: 0 <= i < |init| ==> init[i] == entries[i];
    }
  }

  /** One more entry, read after the earlier ones succeeded. */
  lemma EntriesStep(entries: seq<string>, j: nat)
    requires j < |entries| && EntriesParams(entries[..j]).Ok? && VariableParam(entries[j]).Ok?
    ensures var p := VariableParam(entries[j]).value;
      EntriesParams(entries[..j + 1]) == Ok(EntriesParams(entries[..j]).value + (if p.Some? then [p.value] else []))
  {
    var e := entries[..j + 1];
    assert e[..|e| - 1] == entries[..j];
    assert e[|e| - 1] == entries[j];
  }

  /** An entry without '=' decides the entries' error. */
  lemma {:induction false} EntriesFailure(entries: seq<string>, j: nat)
    requires j < |entries| && EntriesParams(entries[..j]).Ok? && '=' !in entries[j]
    ensures EntriesParams(entries) == Err(MissingValue)
    decreases |entries| - j
  {
    var e := entries[..j + 1];
    assert e[..j] == entries[..j];
    assert EntriesParams(e) == Err(MissingValue);
    EntriesErrorPersists(entries, j + 1);
  }

  lemma {:induction false} EntriesErrorPersists(entries: seq<string>, k: nat)
    requires 0 < k <= |entries| && EntriesParams(entries[..k]) == Err(MissingValue)
    ensures EntriesParams(entries) == Err(MissingValue)
    decreases |entries| - k
  {
    if k < |entries| {
      assert entries[..k + 1][..k] == entries[..k];
      EntriesErrorPersists(entries, k + 1);
    } else {
      assert entries[..k] == entries;
    }
  }

  /** A listing whose entries fail decides the whole list's error. */
  lemma {:induction false} ListingsFailure(listings: map<string, seq<string>>, variables: seq<string>, i: nat)
    requires i < |variables| && ListingsParams(listings, variables[..i]).Ok?
    requires variables[i] in listings && EntriesParams(listings[variables[i]]) == Err(MissingValue)
    ensures ListingsParams(listings, variables) == Err(MissingValue)
    decreases |variables| - i
  {
    var vs := variables[..i + 1];
    assert vs[..i] == variables[..i];
    assert ListingsParams(listings, vs) == Err(MissingValue);
    ListingsErrorPersists(listings, variables, i + 1);
  }

  lemma {:induction false} ListingsErrorPersists(listings: map<string, seq<string>>, variables: seq<string>, k: nat)
    requires 0 < k <= |variables| && ListingsParams(listings, variables[..k]) == Err(MissingValue)
    ensures ListingsParams(listings, variables) == Err(MissingValue)
    decreases |variables| - k
  {
    if k < |variables| {
      assert variables[..k + 1][..k] == variables[..k];
      ListingsErrorPersists(listings, variables, k + 1);
    } else {
      assert variables[..k] == variables;
    }
  }

  /** A `key=value` entry with nothing to trim becomes `-key=value`; anything after a
      second '=' is dropped. */
  lemma KeyValueParam(key: string, value: string, rest: string)
    requires key != "" && value != "" && '=' !in key && '=' !in value
    requires Trim(key) == key && Trim(value) == value
    ensures VariableParam(key + "=" + value) == Ok(Some("-" + key + "=" + value))
    ensures VariableParam(key + "=" + value + "=" + rest) == Ok(Some("-" + key + "=" + value))
  {
    SplitAfter(key, value, '=');
    assert Split(key + "=" + value, '=') == [key, value];
    SecondPiece(key, value, rest);
  }

  lemma SecondPiece(key: string, value: string, rest: string)
    requires '=' !in key && '=' !in value
    ensures var parts := Split(key + "=" + value + "=" + rest, '=');
      |parts| >= 2 && parts[0] == key && parts[1] == value
  {
    var tail := value + "=" + rest;
    assert key + "=" + value + "=" + rest == key + "=" + tail;
    SplitAfter(value, rest, '=');
    SplitAfter(key, tail, '=');
  }

  /** The first piece of a split ends at the first separator. */
  lemma SplitAfter(a: string, b: string, sep: char)
    requires sep !in a
    ensures Split(a + [sep] + b, sep) == [a] + Split(b, sep)
  {
    var s := a + [sep] + b;
    FirstIndexAfter(a, b, sep);
    assert s[..|a|] == a;
    assert s[|a| + 1..] == b;
  }

  lemma {:induction false} FirstIndexAfter(a: string, b: string, sep: char)
    requires sep !in a
    ensures FirstIndex(a + [sep] + b, sep) == |a|
  {
    if a != [] {
      FirstIndexAfter(a[1..], b, sep);
      assert (a + [sep] + b)[1..] == a[1..] + [sep] + b;
    }
  }

  /** The destination's lines are the header's lines, then the compiled code's lines; an
      empty header still contributes its EOL, as one blank line. */
  lemma HeaderLinesFirst(header: seq<string>, compiled: string)
    requires forall i :: 0 <= i < |header| ==> '\n' !in header[i]
    ensures Split(CompiledOutput(Some(header), compiled), '\n') ==
      (if header == [] then [""] else header) + Split(compiled, '\n')
  {
    if header == [] {
      assert CompiledOutput(Some(header), compiled) == [] + ['\n'] + compiled;
      SplitAfter([], compiled, '\n');
    } else {
      HeaderLines(header, compiled);
    }
  }

  lemma {:induction false} HeaderLines(header: seq<string>, compiled: string)
    requires header != [] && forall i :: 0 <= i < |header| ==> '\n' !in header[i]
    ensures Split(CompiledOutput(Some(header), compiled), '\n') == header + Split(compiled, '\n')
    decreases |header|
  {
    FirstHeaderLine(header, compiled);
    var rest := header[1..];
    var lines := Split(compiled, '\n');
    if rest == [] {
      assert header == [header[0]];
    } else {
      assert forall i :: 0 <= i < |rest| ==> rest[i] == header[i + 1];
      HeaderLines(rest, compiled);
      ConsConcat(header, lines);
    }
  }

  lemma ConsConcat(xs: seq<string>, ys: seq<string>)
    requires xs != []
    ensures xs + ys == [xs[0]] + (xs[1..] + ys)
  {
    assert xs == [xs[0]] + xs[1..];
  }

  /** The first header line is the first line of the output. */
  lemma FirstHeaderLine(header: seq<string>, compiled: string)
    requires header != [] && '\n' !in header[0]
    ensures Split(CompiledOutput(Some(header), compiled), '\n') ==
      [header[0]] + Split(if |header| == 1 then compiled else CompiledOutput(Some(header[1..]), compiled), '\n')
  {
    OutputUnfolds(header, compiled);
    SplitAfter(header[0], if |header| == 1 then compiled else CompiledOutput(Some(header[1..]), compiled), '\n');
  }

  /** The first header line, EOL, and the output for the remaining lines. */
  lemma OutputUnfolds(header: seq<string>, compiled: string)
    requires header != []
    ensures CompiledOutput(Some(header), compiled) ==
      header[0] + ['\n'] + (if |header| == 1 then compiled else CompiledOutput(Some(header[1..]), compiled))
  {
    if |header| > 1 {
      calc {
        CompiledOutput(Some(header), compiled);
        JoinWith(header, EOL) + EOL + compiled;
        (header[0] + EOL + JoinWith(header[1..], EOL)) + EOL + compiled;
        header[0] + EOL + (JoinWith(header[1..], EOL) + EOL + compiled);
      }
    }
  }

  /** A successful compile writes the destination from the compiled text and removes every
      temporary file it made; the preprocessor runs exactly when it should. */
  lemma CompileOneEffects(fs: Fs, tools: Tools, variables: seq<string>, item: CompileItem)
    ensures var o := CompileOne(fs, tools, variables, item);
      var cmp := Suffixed(item.destination, CompileFileExtension);
      var pre := Suffixed(item.destination, PreprocessFileExtension);
      (o.error.None? ==>
        exists compiled :: o.effects[|o.effects| - (if UsePreprocessor(item, variables) then 3 else 2)..] ==
          [Write(item.destination, CompiledOutput(item.header, compiled)), Remove(cmp)] +
          (if UsePreprocessor(item, variables) then [Remove(pre)] else [])) &&
      (o.effects != [] ==> (o.effects[0].Preprocess? <==> UsePreprocessor(item, variables))) &&
      (o.effects == [] <==> UsePreprocessor(item, variables) && PreprocessorParams(item, variables).Err?)
  {
    if UsePreprocessor(item, variables) {
      var params := PreprocessorParams(item, variables);
      if params.Ok? {
        var p := JoinWith(params.value, " ");
        var pre := Suffixed(item.destination, PreprocessFileExtension);
        var text := match ReadFile(fs, item.source)
          case Ok(content) => tools.preprocess(content, p)
          case Err(_) => None;
        if text.Some? {
          FinishTail(tools, item, pre, text, [Preprocess(item.source, pre, p)], Some(pre));
        }
      }
    } else {
      var source := ReadFile(fs, item.source);
      FinishTail(tools, item, item.source, if source.Ok? then Some(source.value) else None, [], None);
    }
  }

  /** A successful finish ends with the destination's write and the removals. */
  lemma FinishTail(tools: Tools, item: CompileItem, input: Path, text: Option<string>, before: seq<Effect>, pre: Option<Path>)
    ensures var o := Finish(tools, item, input, text, before, pre);
      o.error.None? ==>
        exists compiled :: o.effects[|o.effects| - (if pre.Some? then 3 else 2)..] ==
          [Write(item.destination, CompiledOutput(item.header, compiled)), Remove(Suffixed(item.destination, CompileFileExtension))] +
          (if pre.Some? then [Remove(pre.value)] else [])
  {
    var o := Finish(tools, item, input, text, before, pre);
    if o.error.None? {
      var compiled := tools.compile(text.value, item.compileOptions).value;
      var tail := [Write(item.destination, CompiledOutput(item.header, compiled)), Remove(Suffixed(item.destination, CompileFileExtension))] +
        (if pre.Some? then [Remove(pre.value)] else []);
      var ran := before + [Compile(input, Suffixed(item.destination, CompileFileExtension), item.compileOptions)];
      assert o.effects == ran + tail;
      assert o.effects[|o.effects| - |tail|..] == tail;
    }
  }
}
