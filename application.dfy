/**
 * `Application` (build.js): the command line. Arguments after the program name are sorted
 * into `--option`s, `-variable`s and free-standing names; the first free name is the
 * description to build (or one of the two default file names), and the description
 * decides between a batch build and a single build. Any error ends the run with
 * "Build aborted.".
 */
module Application {
  import opened Wrappers
  import opened Strings
  import opened Paths
  import opened FileSystem
  import opened BuildConfiguration
  import opened Effects
  import opened BuildSpec
  import opened Builds
  import opened Batches

  const DefaultBuildAllFile := "build_all.json"
  const DefaultBuildFile := "build.json"
  const MissingInput := "Missing input file!"

  /** The command line's parameters, each in the order given. */
  datatype Params = Params(option: seq<string>, variable: seq<string>, free: seq<string>)

  /** Where one argument goes: `--name` is an option, `-name` a variable, anything else
      free-standing. */
  function Classify(p: Params, arg: string): Params {
    if StartsWith(arg, "--") then p.(option := p.option + [arg[2..]])
    else if StartsWith(arg, "-") then p.(variable := p.variable + [arg[1..]])
    else p.(free := p.free + [arg])
  }

  /** The arguments sorted one by one, left to right. */
  function ParamsOf(args: seq<string>): Params
    decreases |args|
  {
    if args == [] then Params([], [], [])
    else Classify(ParamsOf(args[..|args| - 1]), args[|args| - 1])
  }

  /** `argv.slice(2)` */
  function Arguments(argv: seq<string>): seq<string> {
    if |argv| <= 2 then [] else argv[2..]
  }

  /** The loop over the arguments. */
  method ParseParams(argv: seq<string>) returns (p: Params)
    ensures p == ParamsOf(Arguments(argv))
  {
    var args := Arguments(argv);
    p := Params([], [], []);
    for i := 0 to |args|
      invariant p == ParamsOf(args[..i])
    {
      assert args[..i + 1][..i] == args[..i];
      var arg := args[i];
      if StartsWith(arg, "--") {
        p := p.(option := p.option + [arg[2..]]);
      } else if StartsWith(arg, "-") {
        p := p.(variable := p.variable + [arg[1..]]);
      } else {
        p := p.(free := p.free + [arg]);
      }
    }
    assert args[..|args|] == args;
  }

  /** Every argument lands in exactly one list, and nothing else does: the lists' lengths
      add up to the number of arguments, an option or variable is its argument without
      the dashes, and a free-standing name starts with no dash. */
  lemma {:induction false} ParamsPartition(args: seq<string>)
    ensures var p := ParamsOf(args);
      |p.option| + |p.variable| + |p.free| == |args| &&
      (forall o :: o in p.option ==> "--" + o in args) &&
      (forall v :: v in p.variable ==> "-" + v in args && !StartsWith("-" + v, "--")) &&
      (forall f :: f in p.free ==> f in args && !StartsWith(f, "-")) &&
      (forall a :: a in args ==>
        (StartsWith(a, "--") && a[2..] in p.option) ||
        (StartsWith(a, "-") && !StartsWith(a, "--") && a[1..] in p.variable) ||
        (!StartsWith(a, "-") && a in p.free))
    decreases |args|
  {
    if args != [] {
      var init := args[..|args| - 1];
      var a := args[|args| - 1];
      ParamsPartition(init);
      assert args == init + [a];
      assert forall x :: x in init ==> x in args;
      if StartsWith(a, "--") {
        assert "--" + a[2..] == a;
      } else if StartsWith(a, "-") {
        assert "-" + a[1..] == a;
      }
    }
  }

  /** The description to build: the first free-standing name, which must exist, or else
      the batch default, or else the single-build default. */
  function InputFile(fs: Fs, free: seq<string>): (r: Result<string>)
    ensures free != [] ==> (r.Ok? <==> NameExists(fs, free[0]))
    ensures free != [] && free[0] == "" ==> r == Err(CannotFind(""))
    ensures r.Ok? ==> r.value != "" && Exists(fs, Parse(r.value))
    ensures free == [] && r.Ok? ==> r.value in {DefaultBuildAllFile, DefaultBuildFile}
  {
    if free == [] then
      if NameExists(fs, DefaultBuildAllFile) then Ok(DefaultBuildAllFile)
      else if NameExists(fs, DefaultBuildFile) then Ok(DefaultBuildFile)
      else Err(MissingInput)
    else if NameExists(fs, free[0]) then Ok(free[0])
    else Err(CannotFind(free[0]))
  }

  /** What a run does with the chosen description, and the error it reports before
      "Build aborted.". */
  function Dispatch(env: Environment, input: Result<string>, options: seq<string>, variables: seq<string>): Outcome {
    match input
    case Err(e) => Outcome([], Some(e))
    case Ok(file) =>
      match ConfigFile(env.fs, env.tools, file)
      case Err(e) => Outcome([], Some(e))
      case Ok(data) => Described(env, StrDir(file), data, options, variables)
  }

  /** What a loaded description, found in `baseDir`, builds: a batch, or a single build
      once its directories are strings. */
  function Described(env: Environment, baseDir: string, data: ConfigData, options: seq<string>, variables: seq<string>): Outcome {
    if data.Batch? then
      var r := BatchBuild(env, baseDir, data.batch, options, variables);
      Outcome(r.effects, r.error)
    else
      match LayoutOf(baseDir, data.sourceDir, data.destinationDir)
      case Err(e) => Outcome([], Some(e))
      case Ok(layout) => SingleBuild(env, layout, data, variables)
  }

  /** A whole run on the command line `argv`. */
  function MainOutcome(env: Environment, argv: seq<string>): Outcome {
    var p := ParamsOf(Arguments(argv));
    Dispatch(env, InputFile(env.fs, p.free), p.option, p.variable)
  }

  /** A run that reports no error found its description and loaded it, and a description
      that is not a batch named its two directories as strings. */
  lemma SuccessNeedsDescription(env: Environment, argv: seq<string>)
    ensures var p := ParamsOf(Arguments(argv));
      var input := InputFile(env.fs, p.free);
      MainOutcome(env, argv).error.None? ==>
        input.Ok? && ConfigFile(env.fs, env.tools, input.value).Ok? &&
        (ConfigFile(env.fs, env.tools, input.value).value.Single? ==>
          LayoutOf(StrDir(input.value), ConfigFile(env.fs, env.tools, input.value).value.sourceDir,
            ConfigFile(env.fs, env.tools, input.value).value.destinationDir).Ok?)
  {
  }

  /** `main`: parse the parameters, pick and load the description, run the build it asks
      for. */
  method Run(env: Environment, argv: seq<string>) returns (o: Outcome)
    requires Valid(env.fs)
    ensures o == MainOutcome(env, argv)
  {
    var p := ParseParams(argv);
    var file := InputFile(env.fs, p.free);
    if file.Err? {
      return Outcome([], Some(file.error));
    }
    o := Launch(env, file.value, p.option, p.variable);
  }

  /** The chosen description is loaded and built: as a batch when it lists other
      descriptions, as a single build otherwise. */
  method Launch(env: Environment, file: string, options: seq<string>, variables: seq<string>) returns (o: Outcome)
    requires Valid(env.fs)
    ensures o == Dispatch(env, Ok(file), options, variables)
  {
    var config := LoadBuildConfig(env.fs, env.tools, file);
    if config.Err? {
      return Outcome([], Some(config.error));
    }
    if config.value.isBatch {
      o := BuildBatch(env, config.value, options, variables);
    } else {
      o := BuildSingle(env, config.value, options, variables);
    }
  }

  /** A batch description: a `BatchBuilder` runs it. */
  method BuildBatch(env: Environment, config: BuildConfig, options: seq<string>, variables: seq<string>) returns (o: Outcome)
    requires Valid(env.fs) && config.isBatch
    ensures o == Described(env, config.baseDir, config.Data(), options, variables)
  {
    var batch := new BatchBuilder(env, config, options, variables);
    var error := batch.Build();
    o := Outcome(batch.effects, error);
  }

  /** A single description: a `Builder` runs it, once its directories are strings. */
  method BuildSingle(env: Environment, config: BuildConfig, options: seq<string>, variables: seq<string>) returns (o: Outcome)
    requires Valid(env.fs) && !config.isBatch
    ensures o == Described(env, config.baseDir, config.Data(), options, variables)
  {
    var builder := NewBuilder(env, config, variables);
    if builder.Err? {
      return Outcome([], Some(builder.error));
    }
    var error := builder.value.Build();
    assert builder.value.effects == [] + builder.value.effects;
    o := Outcome(builder.value.effects, error);
  }

  /** A named description that does not exist stops the run before anything is done;
      without a name, a missing pair of defaults does too. */
  lemma NothingToBuild(env: Environment, argv: seq<string>)
    ensures var p := ParamsOf(Arguments(argv));
      (p.free != [] && !NameExists(env.fs, p.free[0]) ==>
        MainOutcome(env, argv) == Outcome([], Some("Cannot find file: " + p.free[0]))) &&
      (p.free == [] && !NameExists(env.fs, DefaultBuildAllFile) && !NameExists(env.fs, DefaultBuildFile) ==>
        MainOutcome(env, argv) == Outcome([], Some(MissingInput)))
  {
  }

  /** Only the first free-standing name matters: a further one changes nothing. */
  lemma ExtraNamesIgnored(env: Environment, argv: seq<string>, extra: string)
    requires ParamsOf(Arguments(argv)).free != [] && !StartsWith(extra, "-") && |argv| >= 2
    ensures MainOutcome(env, argv + [extra]) == MainOutcome(env, argv)
  {
    var args := Arguments(argv);
    assert (argv + [extra])[2..] == argv[2..] + [extra];
    assert Arguments(argv + [extra]) == args + [extra];
    assert (args + [extra])[..|args|] == args;
    var p, q := ParamsOf(args), ParamsOf(args + [extra]);
    assert q == p.(free := p.free + [extra]);
    assert InputFile(env.fs, q.free) == InputFile(env.fs, p.free);
    assert q.option == p.option && q.variable == p.variable;
  }
}
