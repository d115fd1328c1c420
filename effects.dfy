/**
 * What a build does to the outside world, as a log: the file system is never updated in
 * place by this model, so each write, copy, removal and external command is recorded in
 * the order the build performs it.
 */
module Effects {
  import opened Wrappers
  import opened Paths

  /** `os.EOL` on POSIX systems. */
  const EOL := "\n"

  datatype Effect =
    | Copy(source: Path, destination: Path)
    /** `metascript <input> <params> > <output>` */
    | Preprocess(input: Path, output: Path, params: string)
    /** `uglifyjs <input> <options> -o <output>` */
    | Compile(input: Path, output: Path, options: string)
    | Write(path: Path, content: string)
    | Remove(path: Path)

  /** What a step did before it finished, and the error that stopped it, if any. */
  datatype Outcome = Outcome(effects: seq<Effect>, error: Option<string>)

  /** Runs `second` only when `first` succeeded, keeping both logs. */
  function Then(first: Outcome, second: Outcome): (r: Outcome)
    ensures first.error.Some? ==> r == first
    ensures first.error.None? ==> r.effects == first.effects + second.effects && r.error == second.error
  {
    if first.error.Some? then first else Outcome(first.effects + second.effects, second.error)
  }

  lemma AppendAssoc(a: seq<Effect>, b: seq<Effect>, c: seq<Effect>)
    ensures (a + b) + c == a + (b + c)
  {
  }
}
