/**
 * `Builder._processSourceHeaders` (build.js): a source's header lines get `%tag%`
 * placeholders replaced by the values of the JSDoc tags found in the source file, and
 * `$YEAR$` replaced by the current year. Headers without anything to substitute are left
 * alone, and their sources are not read.
 */
module Headers {
  import opened Wrappers
  import opened Strings
  import opened Paths
  import opened FileSystem
  import opened ExternalTools
  import opened Manifests

  const YearVariable := "$YEAR$"

  /** `line` holds a match of `%\S+%` from index `i` to index `j`. */
  predicate PlaceholderAt(line: string, i: nat, j: nat) {
    i + 1 < j < |line| && line[i] == '%' && line[j] == '%' &&
    forall k :: i < k < j ==> !IsSpace(line[k])
  }

  /** `/%\S+%/.test(line)` */
  predicate HasPlaceholder(line: string) {
    exists i: nat, j: nat | i < j < |line| :: PlaceholderAt(line, i, j)
  }

  /** The test a header line is put to: a `%…%` placeholder, or `$YEAR$`. */
  predicate HasVariables(line: string) {
    HasPlaceholder(line) || Contains(line, YearVariable)
  }

  /** Some line of the header has something to substitute. */
  predicate NeedsSubstitution(header: seq<string>) {
    exists i :: 0 <= i < |header| && HasVariables(header[i])
  }

  /** A character of the regular-expression class `\w`. */
  predicate IsWordChar(c: char) {
    'a' <= c <= 'z' || 'A' <= c <= 'Z' || '0' <= c <= '9' || c == '_'
  }

  /** A tag name as the tag scanner yields it: one or more word characters, so never
      empty and holding neither whitespace nor `%`. */
  predicate IsTagKey(key: string) {
    key != [] && forall i :: 0 <= i < |key| ==> IsWordChar(key[i])
  }

  predicate AllTagKeys(tags: seq<(string, string)>) {
    forall i :: 0 <= i < |tags| ==> IsTagKey(tags[i].0)
  }

  function Placeholder(key: string): string {
    "%" + key + "%"
  }

  /** Every tag, in the order found, replaces all of its placeholders in the line. */
  function SubstituteTags(line: string, tags: seq<(string, string)>): string
    decreases |tags|
  {
    if tags == [] then line
    else
      var (key, value) := tags[|tags| - 1];
      ReplaceAll(SubstituteTags(line, tags[..|tags| - 1]), Placeholder(key), value)
  }

  /** One header line: the tags first, then the year. */
  function SubstituteLine(line: string, tags: seq<(string, string)>, year: nat): string {
    ReplaceAll(SubstituteTags(line, tags), YearVariable, DecimalString(year))
  }

  function SubstituteHeader(header: seq<string>, tags: seq<(string, string)>, year: nat): (r: seq<string>)
    ensures |r| == |header|
    ensures forall i :: 0 <= i < |header| ==> r[i] == SubstituteLine(header[i], tags, year)
  {
    if header == [] then [] else [SubstituteLine(header[0], tags, year)] + SubstituteHeader(header[1..], tags, year)
  }

  /** The header an item is compiled with: unchanged when it has nothing to substitute,
      otherwise substituted with the tags of its source, whose read may fail. */
  function ProcessedHeader(fs: Fs, tools: Tools, year: nat, item: CompileItem): Result<Option<seq<string>>> {
    match item.header
    case None => Ok(None)
    case Some(header) =>
      if !NeedsSubstitution(header) then Ok(Some(header))
      else
        match ReadFile(fs, item.source)
        case Err(e) => Err(e)
        case Ok(content) => Ok(Some(SubstituteHeader(header, tools.jsDocTags(content), year)))
  }

  /** The sources manifest after header processing, or the first read error. */
  function ProcessHeaders(fs: Fs, tools: Tools, year: nat, items: seq<CompileItem>): (r: Result<seq<CompileItem>>)
    ensures r.Ok? ==> (|r.value| == |items| &&
      forall i :: 0 <= i < |items| ==>
        ProcessedHeader(fs, tools, year, items[i]).Ok? &&
        r.value[i] == items[i].(header := ProcessedHeader(fs, tools, year, items[i]).value))
    ensures r.Err? <==> exists i :: 0 <= i < |items| && ProcessedHeader(fs, tools, year, items[i]).Err?
    decreases |items|
  {
    if items == [] then Ok([])
    else
      match ProcessHeaders(fs, tools, year, items[..|items| - 1])
      case Err(e) => Err(e)
      case Ok(done) =>
        var last := items[|items| - 1];
        match ProcessedHeader(fs, tools, year, last)
        case Err(e) => Err(e)
        case Ok(h) => Ok(done + [last.(header := h)])
  }

  /** A tag's placeholder occurs only where the `%\S+%` test finds a placeholder. */
  lemma PlaceholderFound(line: string, key: string, i: nat)
    requires IsTagKey(key) && OccursAt(line, Placeholder(key), i)
    ensures PlaceholderAt(line, i, i + |key| + 1)
  {
    assert line[i..i + |key| + 2] == Placeholder(key);
    forall k | i < k < i + |key| + 1 ensures !IsSpace(line[k]) {
      assert line[k] == Placeholder(key)[k - i] == key[k - i - 1];
    }
  }

  /** Tags leave a line without placeholders as it is. */
  lemma {:induction false} TagsLeaveLine(line: string, tags: seq<(string, string)>)
    requires AllTagKeys(tags) && !HasPlaceholder(line)
    ensures SubstituteTags(line, tags) == line
    decreases |tags|
  {
    if tags != [] {
      TagsLeaveLine(line, tags[..|tags| - 1]);
      var (key, value) := tags[|tags| - 1];
      assert IsTagKey(key);
      forall i: nat | i <= |line| ensures !OccursAt(line, Placeholder(key), i) {
        if OccursAt(line, Placeholder(key), i) {
          PlaceholderFound(line, key, i);
        }
      }
      ReplaceAllAbsent(line, Placeholder(key), value);
    }
  }

  /** Skipping a header without variables is sound: substituting it, whatever the tags and
      the year, would give the same lines. */
  lemma SkipIsSound(header: seq<string>, tags: seq<(string, string)>, year: nat)
    requires AllTagKeys(tags) && !NeedsSubstitution(header)
    ensures SubstituteHeader(header, tags, year) == header
  {
    forall i | 0 <= i < |header| ensures SubstituteLine(header[i], tags, year) == header[i] {
      assert !HasVariables(header[i]);
      TagsLeaveLine(header[i], tags);
      ReplaceAllAbsent(header[i], YearVariable, DecimalString(year));
    }
  }

  /** A header whose source is a readable file is always processed without error; a header
      without variables does not even need that. */
  lemma HeaderErrors(fs: Fs, tools: Tools, year: nat, item: CompileItem)
    ensures ProcessedHeader(fs, tools, year, item).Err? <==>
      item.header.Some? && NeedsSubstitution(item.header.value) && ReadFile(fs, item.source).Err?
    ensures item.header.None? ==> ProcessedHeader(fs, tools, year, item) == Ok(None)
  {
  }

  /** Every `$YEAR$` left once the tags are substituted becomes the decimal year: a line
      whose tag-substituted text is pieces without `$` joined by `$YEAR$` comes out as the
      same pieces joined by the year. */
  lemma YearStamped(line: string, tags: seq<(string, string)>, year: nat, parts: seq<string>)
    requires |parts| >= 1 && forall i :: 0 <= i < |parts| ==> '$' !in parts[i]
    requires SubstituteTags(line, tags) == JoinWith(parts, YearVariable)
    ensures SubstituteLine(line, tags, year) == JoinWith(parts, DecimalString(year))
  {
    var digits := DecimalString(year);
    assert '$' !in digits by {
      forall i | 0 <= i < |digits| ensures digits[i] != '$' {
        assert '0' <= digits[i] <= '9';
      }
    }
    ReplaceAllJoin(parts, YearVariable, digits);
  }

  /** In a line without tag placeholders, every `$YEAR$` becomes the decimal year. */
  lemma YearStampedPlain(parts: seq<string>, tags: seq<(string, string)>, year: nat)
    requires AllTagKeys(tags) && |parts| >= 1 && forall i :: 0 <= i < |parts| ==> '$' !in parts[i]
    requires !HasPlaceholder(JoinWith(parts, YearVariable))
    ensures SubstituteLine(JoinWith(parts, YearVariable), tags, year) == JoinWith(parts, DecimalString(year))
  {
    TagsLeaveLine(JoinWith(parts, YearVariable), tags);
    YearStamped(JoinWith(parts, YearVariable), tags, year, parts);
  }

  /** Where the `%` signs of a line lie when its only placeholder is `%x%`. */
  lemma PercentPositions(before: string, x: string, after: string)
    requires IsTagKey(x) && '%' !in before && '%' !in after
    ensures var s := before + Placeholder(x) + after;
      forall q :: 0 <= q < |s| ==> (s[q] == '%' <==> q == |before| || q == |before| + |x| + 1)
  {
    var s := before + Placeholder(x) + after;
    forall q | 0 <= q < |s|
      ensures s[q] == '%' <==> q == |before| || q == |before| + |x| + 1
    {
      if q < |before| {
        assert s[q] == before[q];
      } else if |before| < q < |before| + |x| + 1 {
        assert s[q] == x[q - |before| - 1];
      } else if q > |before| + |x| + 1 {
        assert s[q] == after[q - |before| - |x| - 2];
      }
    }
  }

  /** A line whose only placeholder is `%x%` holds no other tag's placeholder at `p`. */
  lemma NotPlaceholderAt(before: string, x: string, after: string, key: string, p: nat)
    requires IsTagKey(x) && IsTagKey(key) && key != x && '%' !in before && '%' !in after
    ensures !OccursAt(before + Placeholder(x) + after, Placeholder(key), p)
  {
    var s := before + Placeholder(x) + after;
    if p + |key| + 2 <= |s| {
      var q := p + |key| + 1;
      var w := s[p..q + 1];
      PercentPositions(before, x, after);
      if s[p] == '%' && s[q] == '%' {
        assert p == |before| && q == |before| + |x| + 1;
        var j :| 0 <= j < |x| && key[j] != x[j];
        assert w[1 + j] == x[j] && Placeholder(key)[1 + j] == key[j];
      } else {
        assert w[0] == s[p] && w[|key| + 1] == s[q];
        assert Placeholder(key)[0] == '%' && Placeholder(key)[|key| + 1] == '%';
      }
    }
  }

  /** A line whose only placeholder is `%x%` holds no other tag's placeholder. */
  lemma OnlyPlaceholder(before: string, x: string, after: string, key: string)
    requires IsTagKey(x) && IsTagKey(key) && key != x && '%' !in before && '%' !in after
    ensures !Contains(before + Placeholder(x) + after, Placeholder(key))
  {
    forall p: nat | p <= |before + Placeholder(x) + after|
      ensures !OccursAt(before + Placeholder(x) + after, Placeholder(key), p)
    {
      NotPlaceholderAt(before, x, after, key, p);
    }
  }

  /** A placeholder naming no tag stays as it is: tags whose keys differ from `x` leave a
      line whose only placeholder is `%x%` unchanged, whatever their values. */
  lemma {:induction false} UnknownPlaceholderKept(before: string, x: string, after: string, tags: seq<(string, string)>)
    requires AllTagKeys(tags) && IsTagKey(x) && '%' !in before && '%' !in after
    requires forall i :: 0 <= i < |tags| ==> tags[i].0 != x
    ensures SubstituteTags(before + Placeholder(x) + after, tags) == before + Placeholder(x) + after
    decreases |tags|
  {
    if tags != [] {
      var init := tags[..|tags| - 1];
      UnknownPlaceholderKept(before, x, after, init);
      var (key, value) := tags[|tags| - 1];
      OnlyPlaceholder(before, x, after, key);
      ReplaceAllAbsent(before + Placeholder(x) + after, Placeholder(key), value);
    }
  }

  /** `%c%` at the start of a string is not the placeholder of another tag. */
  lemma CellNotPlaceholder(c: string, t: string, key: string)
    requires IsTagKey(key) && '%' !in c && key != c && t != [] && t[0] == '%' && |c| + |t| >= |key| + 1
    ensures !OccursAt("%" + c + t, Placeholder(key), 0)
  {
    var s := "%" + c + t;
    var pat := Placeholder(key);
    var w := s[0..|pat|];
    if |key| == |c| {
      var j :| 0 <= j < |c| && key[j] != c[j];
      assert w[1 + j] == c[j] && pat[1 + j] == key[j];
    } else if |key| < |c| {
      assert w[|key| + 1] == c[|key|] && pat[|key| + 1] == '%';
    } else {
      assert w[|c| + 1] == t[0] && pat[|c| + 1] == key[|c|];
    }
  }

  /** `%c%` at the start of a string is not the placeholder of another tag, so the
      replacement moves past `%c`. */
  lemma CellSkipped(c: string, t: string, key: string, v: string)
    requires IsTagKey(key) && '%' !in c && key != c && t != [] && t[0] == '%'
    ensures ReplaceAllLiteral("%" + c + t, Placeholder(key), v) == "%" + c + ReplaceAllLiteral(t, Placeholder(key), v)
  {
    var s := "%" + c + t;
    var pat := Placeholder(key);
    if |s| < |pat| {
      assert ReplaceAllLiteral(t, pat, v) == t;
    } else {
      CellNotPlaceholder(c, t, key);
      ReplaceAllSkip(s, pat, v);
      assert s[1..] == c + t;
      ReplaceAllPrefix(c, t, pat, v);
      ConsRegroup("%" + c, ReplaceAllLiteral(t, pat, v));
    }
  }

  /** Text without `%` after a lone `%` holds no placeholder. */
  lemma LoneSignKept(after: string, key: string, v: string)
    requires IsTagKey(key) && '%' !in after
    ensures ReplaceAllLiteral("%" + after, Placeholder(key), v) == "%" + after
  {
    var s := "%" + after;
    var pat := Placeholder(key);
    ReplaceAllPrefix(after, [], pat, v);
    assert after + [] == after;
    if |s| >= |pat| {
      assert s[0..|pat|][|key| + 1] == after[|key|] && pat[|key| + 1] == '%';
      ReplaceAllSkip(s, pat, v);
      assert s[1..] == after;
    }
  }

  /** `%x%` followed by text without `%` is kept by every other tag. */
  lemma PlaceholderTailKept(x: string, after: string, key: string, v: string)
    requires IsTagKey(x) && IsTagKey(key) && key != x && '%' !in after
    ensures ReplaceAllLiteral(Placeholder(x) + after, Placeholder(key), v) == Placeholder(x) + after
  {
    assert Placeholder(x) + after == "%" + x + ("%" + after);
    CellSkipped(x, "%" + after, key, v);
    LoneSignKept(after, key, v);
  }

  /** The line `before%k%mid%x%after` after one more tag, with k's placeholder either still
      there or already replaced by `w`. */
  function KnownUnknown(before: string, k: string, w: Option<string>, mid: string, x: string, after: string): string {
    before + (if w.Some? then w.value else Placeholder(k)) + mid + Placeholder(x) + after
  }

  lemma Regroup(a: string, b: string, c: string, d: string, e: string)
    ensures a + b + c + d + e == a + (b + (c + (d + e)))
  {
  }

  /** `%k%mid%x%after` loses its leading placeholder to the tag named k. */
  lemma KnownHeadReplaced(k: string, mid: string, x: string, after: string, v: string)
    requires IsTagKey(k) && IsTagKey(x) && k != x && '%' !in mid && '%' !in after
    ensures ReplaceAllLiteral(Placeholder(k) + (mid + (Placeholder(x) + after)), Placeholder(k), v) ==
      v + (mid + (Placeholder(x) + after))
  {
    var pat := Placeholder(k);
    var tail := Placeholder(x) + after;
    var rest := pat + (mid + tail);
    assert rest[..|pat|] == pat;
    ReplaceAllHere(rest, pat, v);
    assert rest[|pat|..] == mid + tail;
    ReplaceAllPrefix(mid, tail, pat, v);
    PlaceholderTailKept(x, after, k, v);
  }

  /** The tag named k replaces `%k%` in `before%k%mid%x%after` and keeps `%x%`. */
  lemma KnownStepReplaces(before: string, k: string, mid: string, x: string, after: string, v: string)
    requires IsTagKey(k) && IsTagKey(x) && k != x
    requires '%' !in before && '%' !in mid && '%' !in after
    ensures ReplaceAllLiteral(before + Placeholder(k) + mid + Placeholder(x) + after, Placeholder(k), v) ==
      before + v + mid + Placeholder(x) + after
  {
    var rest := Placeholder(k) + (mid + (Placeholder(x) + after));
    Regroup(before, Placeholder(k), mid, Placeholder(x), after);
    ReplaceAllPrefix(before, rest, Placeholder(k), v);
    KnownHeadReplaced(k, mid, x, after, v);
    Regroup(before, v, mid, Placeholder(x), after);
  }

  /** Another tag keeps `before%k%mid%x%after` as it is. */
  lemma KnownStepOther(before: string, k: string, mid: string, x: string, after: string, key: string, v: string)
    requires IsTagKey(k) && IsTagKey(x) && IsTagKey(key) && key != k && key != mid && key != x
    requires '%' !in before && '%' !in mid && '%' !in after
    ensures ReplaceAllLiteral(before + Placeholder(k) + mid + Placeholder(x) + after, Placeholder(key), v) ==
      before + Placeholder(k) + mid + Placeholder(x) + after
  {
    var pat := Placeholder(key);
    var tail := Placeholder(x) + after;
    var t := "%" + mid + tail;
    var rest := "%" + k + t;
    Regroup(before, Placeholder(k), mid, Placeholder(x), after);
    assert Placeholder(k) + (mid + tail) == rest;
    ReplaceAllPrefix(before, rest, pat, v);
    CellSkipped(k, t, key, v);
    CellSkipped(mid, tail, key, v);
    PlaceholderTailKept(x, after, key, v);
  }

  /** Any tag other than x's keeps `before w mid%x%after` once `%k%` has become `w`. */
  lemma KnownStepDone(before: string, w: string, mid: string, x: string, after: string, key: string, v: string)
    requires IsTagKey(x) && IsTagKey(key) && key != x
    requires '%' !in before && '%' !in w && '%' !in mid && '%' !in after
    ensures ReplaceAllLiteral(before + w + mid + Placeholder(x) + after, Placeholder(key), v) ==
      before + w + mid + Placeholder(x) + after
  {
    var pat := Placeholder(key);
    var head := before + w + mid;
    var tail := Placeholder(x) + after;
    assert before + w + mid + Placeholder(x) + after == head + tail;
    ReplaceAllPrefix(head, tail, pat, v);
    PlaceholderTailKept(x, after, key, v);
  }

  /** One tag applied to `before%k%mid%x%after`: the first tag named k replaces `%k%` by its
      value, and every other tag changes nothing. */
  lemma KnownUnknownStep(before: string, k: string, w: Option<string>, mid: string, x: string, after: string, key: string, v: string)
    requires IsTagKey(k) && IsTagKey(x) && IsTagKey(key) && key != x && key != mid
    requires '%' !in before && '%' !in mid && '%' !in after && '$' !in v
    requires w.Some? ==> '%' !in w.value
    requires w.None? ==> k != x
    ensures ReplaceAll(KnownUnknown(before, k, w, mid, x, after), Placeholder(key), v) ==
      KnownUnknown(before, k, if w.None? && key == k then Some(v) else w, mid, x, after)
  {
    ReplaceAllPlain(KnownUnknown(before, k, w, mid, x, after), Placeholder(key), v);
    if w.Some? {
      KnownStepDone(before, w.value, mid, x, after, key, v);
    } else if key == k {
      KnownStepReplaces(before, k, mid, x, after, v);
    } else {
      KnownStepOther(before, k, mid, x, after, key, v);
    }
  }

  /** A placeholder naming no tag stays as it is while a known one before it is replaced:
      in `before%k%mid%x%after`, with x and mid naming no tag and the values free of `%`
      and `$`, the first tag named k replaces `%k%` and `%x%` is kept. */
  lemma {:induction false} KnownReplacedUnknownKept(before: string, k: string, mid: string, x: string, after: string,
                                                    tags: seq<(string, string)>, i: nat)
    requires AllTagKeys(tags) && IsTagKey(k) && IsTagKey(x) && k != x
    requires '%' !in before && '%' !in mid && '%' !in after
    requires forall j :: 0 <= j < |tags| && j < i ==> tags[j].0 != k
    requires i < |tags| ==> tags[i].0 == k
    requires forall j :: 0 <= j < |tags| ==> tags[j].0 != x && tags[j].0 != mid
    requires forall j :: 0 <= j < |tags| ==> '%' !in tags[j].1 && '$' !in tags[j].1
    ensures SubstituteTags(before + Placeholder(k) + mid + Placeholder(x) + after, tags) ==
      before + (if i < |tags| then tags[i].1 else Placeholder(k)) + mid + Placeholder(x) + after
    decreases |tags|
  {
    if tags != [] {
      var n := |tags| - 1;
      var init := tags[..n];
      KnownReplacedUnknownKept(before, k, mid, x, after, init, i);
      var key, value := tags[n].0, tags[n].1;
      var w := if i < n then Some(tags[i].1) else None;
      assert IsTagKey(key) && key != x && key != mid && '$' !in value;
      KnownUnknownStep(before, k, w, mid, x, after, key, value);
      if i < n {
        assert init[i] == tags[i];
      } else if i == n {
        assert key == k;
      } else {
        assert key != k;
      }
    }
  }

  /** A line whose only placeholder is `%key%`: the tag named key puts its value in place of
      the placeholder, expanded as `replace` expands it against that match. */
  lemma SingleTagExpanded(before: string, key: string, after: string, value: string)
    requires IsTagKey(key) && '%' !in before && '%' !in after
    ensures SubstituteTags(before + Placeholder(key) + after, [(key, value)]) ==
      before + Substitution(value, Placeholder(key), before, after) + after
  {
    assert [(key, value)][..0] == [];
    ReplaceAllSingle(before, Placeholder(key), after, value);
  }

  /** `$&` in a tag value brings back the placeholder it replaces: with the tag
      `author` set to `A $& B`, the line `// %author%` becomes `// A %author% B`. */
  lemma MatchPatternExpanded(before: string, key: string, after: string, x: string, y: string)
    requires IsTagKey(key) && '%' !in before && '%' !in after && '$' !in x && '$' !in y
    ensures SubstituteTags(before + Placeholder(key) + after, [(key, x + "$&" + y)]) ==
      before + (x + Placeholder(key) + y) + after
  {
    var m := Placeholder(key);
    SingleTagExpanded(before, key, after, x + "$&" + y);
    assert x + "$&" + y == x + (['$', '&'] + y);
    SubstitutionPlainHead(x, ['$', '&'] + y, m, before, after);
    SubstitutionPattern('&', y, m, before, after);
    SubstitutionPlain(y, m, before, after);
    ConcatAssoc(x, m, y);
  }

  /** `$$` in a tag value gives one dollar sign: with the tag `price` set to `$$5`, the
      line `%price%` becomes `$5`. */
  lemma DollarPatternExpanded(before: string, key: string, after: string, x: string, y: string)
    requires IsTagKey(key) && '%' !in before && '%' !in after && '$' !in x && '$' !in y
    ensures SubstituteTags(before + Placeholder(key) + after, [(key, x + "$$" + y)]) ==
      before + (x + "$" + y) + after
  {
    var m := Placeholder(key);
    SingleTagExpanded(before, key, after, x + "$$" + y);
    assert x + "$$" + y == x + (['$', '$'] + y);
    SubstitutionPlainHead(x, ['$', '$'] + y, m, before, after);
    SubstitutionPattern('$', y, m, before, after);
    SubstitutionPlain(y, m, before, after);
    ConcatAssoc(x, "$", y);
  }
}
