/**
 * `Builder._buildStep_III_WriteHTMLFiles` (build.js): each HTML page is copied line by line;
 * a line whose `<script src>` names a compiled source gets that reference pointed at the
 * compiled file, and every other line is copied as it is.
 */
module HtmlRewrite {
  import opened Wrappers
  import opened Strings
  import opened Paths
  import opened FileSystem
  import opened ExternalTools
  import opened Expansion
  import opened Manifests
  import opened Effects

  /** `line` without one trailing carriage return. */
  function DropCarriageReturn(line: string): (r: string)
    ensures '\r' !in line ==> r == line
  {
    if line != [] && line[|line| - 1] == '\r' then line[..|line| - 1] else line
  }

  /** `s.split(/\r?\n/)`: the pieces between line feeds, each without the carriage return
      that ended its line; the last piece, not ended by a line feed, keeps it. */
  function SplitLines(s: string): (r: seq<string>)
    ensures |r| == |Split(s, '\n')| && forall i :: 0 <= i < |r| ==> '\n' !in r[i]
  {
    var pieces := Split(s, '\n');
    seq(|pieces|, i requires 0 <= i < |pieces| =>
      if i < |pieces| - 1 then DropCarriageReturn(pieces[i]) else pieces[i])
  }

  /** The manifest path a `src` attribute stands for: the source directory joined with the
      reference's directory and base name. */
  function ScriptTarget(sourceDir: NormalPath, src: string): Path {
    Join(Join(sourceDir, Parse(StrDir(src))), Parse(StrBase(src)))
  }

  /** The first compiled source whose original path is `target`. */
  function FirstSourceMatch(manifest: seq<CompileItem>, target: Path): (r: Option<nat>)
    ensures r.None? <==> forall k :: 0 <= k < |manifest| ==> manifest[k].originalSource != target
    ensures r.Some? ==> (r.value < |manifest| && manifest[r.value].originalSource == target &&
      forall k :: 0 <= k < r.value ==> manifest[k].originalSource != target)
    decreases |manifest|
  {
    if manifest == [] then None
    else if manifest[0].originalSource == target then Some(0)
    else
      var r := FirstSourceMatch(manifest[1..], target);
      assert forall k :: 1 <= k < |manifest| ==> manifest[1..][k - 1] == manifest[k];
      if r.Some? then Some(r.value + 1) else None
  }

  /** The new reference: the old reference's directory and the compiled file's base name. */
  function DestinationSrc(src: string, item: CompileItem): string {
    StrDir(src) + "/" + Base(item.destination)
  }

  /** One line of the page as it is written out. */
  function RewriteLine(tools: Tools, sourceDir: NormalPath, manifest: seq<CompileItem>, line: string): string {
    match tools.scriptSrc(line)
    case None => line
    case Some(src) =>
      match FirstSourceMatch(manifest, ScriptTarget(sourceDir, src))
      case None => line
      case Some(k) => ReplaceFirst(line, src, DestinationSrc(src, manifest[k]))
  }

  /** The page's lines, each rewritten, joined with EOL. */
  function RewritePage(tools: Tools, sourceDir: NormalPath, manifest: seq<CompileItem>, content: string): string {
    var lines := SplitLines(content);
    JoinWith(seq(|lines|, i requires 0 <= i < |lines| => RewriteLine(tools, sourceDir, manifest, lines[i])), EOL)
  }

  /** Writing one page: read the source (which fails for a directory), write the rewrite. */
  function HtmlOne(fs: Fs, tools: Tools, sourceDir: NormalPath, manifest: seq<CompileItem>, page: Pair): Outcome {
    match ReadFile(fs, page.source)
    case Err(e) => Outcome([], Some(e))
    case Ok(content) => Outcome([Write(page.destination, RewritePage(tools, sourceDir, manifest, content))], None)
  }

  /** The page as the line loop builds it: every line pushed in order, rewritten when it
      refers to a compiled source. */
  method RewriteLines(tools: Tools, sourceDir: NormalPath, manifest: seq<CompileItem>, content: string) returns (page: string)
    ensures page == RewritePage(tools, sourceDir, manifest, content)
  {
    var lines := SplitLines(content);
    var output := RewriteAll(tools, sourceDir, manifest, lines);
    assert output == seq(|lines|, i requires 0 <= i < |lines| => RewriteLine(tools, sourceDir, manifest, lines[i]));
    page := JoinWith(output, EOL);
  }

  /** The line loop: each line rewritten, in order. */
  method RewriteAll(tools: Tools, sourceDir: NormalPath, manifest: seq<CompileItem>, lines: seq<string>) returns (output: seq<string>)
    ensures |output| == |lines|
    ensures forall k :: 0 <= k < |lines| ==> output[k] == RewriteLine(tools, sourceDir, manifest, lines[k])
  {
    output := [];
    for i := 0 to |lines|
      invariant |output| == i
      invariant forall k :: 0 <= k < i ==> output[k] == RewriteLine(tools, sourceDir, manifest, lines[k])
    {
      var rewritten := RewriteOneLine(tools, sourceDir, manifest, lines[i]);
      output := output + [rewritten];
    }
  }

  /** One line: the reference, when there is one, is looked up among the sources. */
  method RewriteOneLine(tools: Tools, sourceDir: NormalPath, manifest: seq<CompileItem>, line: string) returns (rewritten: string)
    ensures rewritten == RewriteLine(tools, sourceDir, manifest, line)
  {
    rewritten := line;
    var src := tools.scriptSrc(line);
    if src.Some? {
      var found := FindSource(manifest, ScriptTarget(sourceDir, src.value));
      if found.Some? {
        rewritten := ReplaceFirst(line, src.value, DestinationSrc(src.value, manifest[found.value]));
      }
    }
  }

  /** The search of the sources manifest, stopping at the first match. */
  method FindSource(manifest: seq<CompileItem>, target: Path) returns (found: Option<nat>)
    ensures found == FirstSourceMatch(manifest, target)
  {
    var k := 0;
    while k < |manifest| && manifest[k].originalSource != target
      invariant 0 <= k <= |manifest|
      invariant forall j :: 0 <= j < k ==> manifest[j].originalSource != target
    {
      k := k + 1;
    }
    if k < |manifest| {
      found := Some(k);
    } else {
      found := None;
    }
  }

  /** A line without a `<script src>`, or whose reference names no compiled source, is
      copied as it is. */
  lemma RewriteLineUnmatched(tools: Tools, sourceDir: NormalPath, manifest: seq<CompileItem>, line: string)
    ensures tools.scriptSrc(line).None? ==> RewriteLine(tools, sourceDir, manifest, line) == line
    ensures (tools.scriptSrc(line).Some? &&
      FirstSourceMatch(manifest, ScriptTarget(sourceDir, tools.scriptSrc(line).value)).None?) ==>
      RewriteLine(tools, sourceDir, manifest, line) == line
  {
  }

  /** A line whose reference names a compiled source has the first occurrence of the
      reference, at i, replaced by the compiled destination, with its `$` patterns expanded
      as `replace` expands them, and nothing else changed. */
  lemma RewriteLineMatched(tools: Tools, sourceDir: NormalPath, manifest: seq<CompileItem>, line: string,
                           src: string, k: nat, i: nat)
    requires tools.scriptSrc(line) == Some(src)
    requires FirstSourceMatch(manifest, ScriptTarget(sourceDir, src)) == Some(k)
    requires OccursAt(line, src, i) && forall j: nat :: j < i ==> !OccursAt(line, src, j)
    ensures RewriteLine(tools, sourceDir, manifest, line) ==
      line[..i] + Substitution(DestinationSrc(src, manifest[k]), src, line[..i], line[i + |src|..]) + line[i + |src|..]
    ensures '$' !in DestinationSrc(src, manifest[k]) ==>
      RewriteLine(tools, sourceDir, manifest, line) == line[..i] + DestinationSrc(src, manifest[k]) + line[i + |src|..]
  {
    ReplaceFirstAt(line, src, DestinationSrc(src, manifest[k]), i);
  }

  /** A page with LF line ends in which no line refers to a compiled source is written
      out byte for byte. */
  lemma UnreferencedPageUnchanged(tools: Tools, sourceDir: NormalPath, manifest: seq<CompileItem>, content: string)
    requires '\r' !in content
    requires forall i :: 0 <= i < |Split(content, '\n')| ==>
      RewriteLine(tools, sourceDir, manifest, Split(content, '\n')[i]) == Split(content, '\n')[i]
    ensures RewritePage(tools, sourceDir, manifest, content) == content
  {
    var pieces := Split(content, '\n');
    SplitKeepsAbsent(content, '\n', '\r');
    var lines := SplitLines(content);
    assert lines == pieces;
    var out := seq(|lines|, i requires 0 <= i < |lines| => RewriteLine(tools, sourceDir, manifest, lines[i]));
    assert out == pieces;
    SplitJoin(content, '\n');
  }

  /** Splitting never brings in a character the string does not have. */
  lemma {:induction false} SplitKeepsAbsent(s: string, sep: char, c: char)
    requires c !in s
    ensures forall i :: 0 <= i < |Split(s, sep)| ==> c !in Split(s, sep)[i]
    decreases |s|
  {
    if sep in s {
      var i := FirstIndex(s, sep);
      assert forall x :: x in s[..i] ==> x in s;
      assert forall x :: x in s[i + 1..] ==> x in s;
      SplitKeepsAbsent(s[i + 1..], sep, c);
    }
  }
}
