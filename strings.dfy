/**
 * The string operations the build tool and the engine rely on: trimming,
 * splitting, literal search-and-replace, ASCII case folding and decimal
 * rendering, each with the JavaScript semantics of the method it stands for.
 */
module Strings {
  import opened Wrappers

  /** JavaScript's `\s`, restricted to ASCII whitespace. */
  predicate IsSpace(c: char) {
    c == ' ' || c == '\t' || c == '\n' || c == '\r' || c as int == 11 || c as int == 12
  }

  predicate NoSpace(s: string) {
    forall i :: 0 <= i < |s| ==> !IsSpace(s[i])
  }

  /** Leading whitespace removed. */
  function TrimStart(s: string): (r: string)
    ensures |r| <= |s| && r == s[|s| - |r|..]
    ensures r == [] || !IsSpace(r[0])
    ensures forall i :: 0 <= i < |s| - |r| ==> IsSpace(s[i])
  {
    if s != [] && IsSpace(s[0]) then TrimStart(s[1..]) else s
  }

  /** Trailing whitespace removed. */
  function TrimEnd(s: string): (r: string)
    ensures |r| <= |s| && r == s[..|r|]
    ensures r == [] || !IsSpace(r[|r| - 1])
    ensures forall i :: |r| <= i < |s| ==> IsSpace(s[i])
  {
    if s != [] && IsSpace(s[|s| - 1]) then TrimEnd(s[..|s| - 1]) else s
  }

  /** `s.trim()` */
  function Trim(s: string): (r: string)
    ensures r == [] || (!IsSpace(r[0]) && !IsSpace(r[|r| - 1]))
  {
    TrimEnd(TrimStart(s))
  }

  /** Index of the first occurrence of `c` in `s`. */
  function FirstIndex(s: string, c: char): (i: nat)
    requires c in s
    ensures i < |s| && s[i] == c && c !in s[..i]
  {
    if s[0] == c then 0 else 1 + FirstIndex(s[1..], c)
  }

  /** Index of the last occurrence of `c` in `s`, if any. */
  function LastIndex(s: string, c: char): (r: Option<nat>)
    ensures r.None? <==> c !in s
    ensures r.Some? ==> r.value < |s| && s[r.value] == c && c !in s[r.value + 1..]
  {
    if s == [] then None
    else if s[|s| - 1] == c then Some(|s| - 1)
    else
      var r := LastIndex(s[..|s| - 1], c);
      assert s == s[..|s| - 1] + [s[|s| - 1]];
      r
  }

  /** `parts.join(sep)` */
  function JoinWith(parts: seq<string>, sep: string): string {
    if |parts| == 0 then ""
    else if |parts| == 1 then parts[0]
    else parts[0] + sep + JoinWith(parts[1..], sep)
  }

  /** `s.split(sep)` for a one-character separator: the pieces between separators, empty ones included. */
  function Split(s: string, sep: char): (r: seq<string>)
    ensures |r| >= 1
    ensures forall i :: 0 <= i < |r| ==> sep !in r[i]
    decreases |s|
  {
    if sep in s then
      var i := FirstIndex(s, sep);
      [s[..i]] + Split(s[i + 1..], sep)
    else [s]
  }

  /** Splitting and re-joining with the same separator gives the original string back. */
  lemma {:induction false} SplitJoin(s: string, sep: char)
    ensures JoinWith(Split(s, sep), [sep]) == s
    decreases |s|
  {
    if sep in s {
      var i := FirstIndex(s, sep);
      var rest := Split(s[i + 1..], sep);
      SplitJoin(s[i + 1..], sep);
      assert Split(s, sep) == [s[..i]] + rest;
      assert ([s[..i]] + rest)[1..] == rest;
      assert s == s[..i] + [sep] + s[i + 1..];
    }
  }

  /** Index of the first whitespace character of `s`. */
  function FirstSpace(s: string): (i: nat)
    requires !NoSpace(s)
    ensures i < |s| && IsSpace(s[i]) && NoSpace(s[..i])
  {
    if IsSpace(s[0]) then 0
    else
      var i := 1 + FirstSpace(s[1..]);
      assert forall k :: 0 <= k < i ==> s[..i][k] == if k == 0 then s[0] else s[1..][..i - 1][k - 1];
      i
  }

  /** `s.split(/\s+/)`: the pieces between maximal runs of whitespace. */
  function SplitWs(s: string): (r: seq<string>)
    ensures |r| >= 1
    ensures forall i :: 0 <= i < |r| ==> NoSpace(r[i])
    decreases |s|
  {
    if NoSpace(s) then [s]
    else
      var i := FirstSpace(s);
      [s[..i]] + SplitWs(TrimStart(s[i..]))
  }

  /** Every occurrence of `c` removed: `s.replace(/c/g, '')`. */
  function RemoveChar(s: string, c: char): (r: string)
    ensures c !in r
    ensures forall x :: x != c ==> (x in r <==> x in s)
  {
    if s == [] then []
    else (if s[0] == c then [] else [s[0]]) + RemoveChar(s[1..], c)
  }

  /** `pat` occurs in `s` at index `i`. */
  predicate OccursAt(s: string, pat: string, i: nat) {
    i + |pat| <= |s| && s[i..i + |pat|] == pat
  }

  /** `pat` occurs in `s`. */
  predicate Contains(s: string, pat: string) {
    exists i: nat | i <= |s| :: OccursAt(s, pat, i)
  }

  /** `pat` occurs at the very start of `s`. */
  predicate StartsWith(s: string, pat: string) {
    |pat| <= |s| && s[..|pat|] == pat
  }

  /** The text `replace` inserts for one match of a pattern without capture groups, as
      ECMAScript's GetSubstitution builds it: `$$` gives a dollar sign, `$&` the match,
      `` $` `` the text before the match, `$'` the text after it, and any other `$` stands
      for itself. */
  function Substitution(rep: string, matched: string, before: string, after: string): string
    decreases |rep|
  {
    if rep == [] then []
    else if |rep| >= 2 && rep[0] == '$' && rep[1] == '$' then "$" + Substitution(rep[2..], matched, before, after)
    else if |rep| >= 2 && rep[0] == '$' && rep[1] == '&' then matched + Substitution(rep[2..], matched, before, after)
    else if |rep| >= 2 && rep[0] == '$' && rep[1] == '`' then before + Substitution(rep[2..], matched, before, after)
    else if |rep| >= 2 && rep[0] == '$' && rep[1] == '\'' then after + Substitution(rep[2..], matched, before, after)
    else [rep[0]] + Substitution(rep[1..], matched, before, after)
  }

  /** A replacement without `$` is inserted as it is, whatever the match. */
  lemma {:induction false} SubstitutionPlain(rep: string, matched: string, before: string, after: string)
    requires '$' !in rep
    ensures Substitution(rep, matched, before, after) == rep
    decreases |rep|
  {
    if rep != [] {
      assert rep[0] != '$';
      assert forall c :: c in rep[1..] ==> c in rep;
      SubstitutionPlain(rep[1..], matched, before, after);
      assert rep == [rep[0]] + rep[1..];
    }
  }

  /** A head without `$` is copied ahead of the expanded rest. */
  lemma {:induction false} SubstitutionPlainHead(head: string, rest: string, matched: string, before: string, after: string)
    requires '$' !in head
    ensures Substitution(head + rest, matched, before, after) == head + Substitution(rest, matched, before, after)
    decreases |head|
  {
    if head != [] {
      assert (head + rest)[0] == head[0] && (head + rest)[1..] == head[1..] + rest;
      assert head[0] != '$' && forall c :: c in head[1..] ==> c in head;
      assert Substitution(head + rest, matched, before, after) ==
        [head[0]] + Substitution(head[1..] + rest, matched, before, after);
      SubstitutionPlainHead(head[1..], rest, matched, before, after);
      ConsRegroup(head, Substitution(rest, matched, before, after));
    } else {
      assert head + rest == rest;
    }
  }

  /** The four patterns of two characters, each expanded ahead of the rest. */
  lemma SubstitutionPattern(c: char, rest: string, matched: string, before: string, after: string)
    requires c in "$&`'"
    ensures Substitution(['$', c] + rest, matched, before, after) ==
      (if c == '$' then "$" else if c == '&' then matched else if c == '`' then before else after) +
      Substitution(rest, matched, before, after)
  {
    assert (['$', c] + rest)[2..] == rest;
  }

  /** `s.replace(new RegExp(pat, 'g'), rep)` for a pattern with no special characters and no
      capture groups: occurrences are found left to right, without overlap, and each is
      replaced by `rep` expanded against that match within the whole of `s`. */
  function ReplaceAll(s: string, pat: string, rep: string): string
    requires pat != []
  {
    ReplaceAllFrom(s, pat, rep, 0)
  }

  /** What the global replace makes of `s[k..]`, the search having reached index k. */
  function ReplaceAllFrom(s: string, pat: string, rep: string, k: nat): string
    requires pat != [] && k <= |s|
    decreases |s| - k
  {
    if |s| - k < |pat| then s[k..]
    else if OccursAt(s, pat, k) then
      Substitution(rep, pat, s[..k], s[k + |pat|..]) + ReplaceAllFrom(s, pat, rep, k + |pat|)
    else [s[k]] + ReplaceAllFrom(s, pat, rep, k + 1)
  }

  /** The search passes over text holding no first character of the pattern unchanged. */
  lemma {:induction false} ReplaceAllFromPassing(s: string, pat: string, rep: string, k: nat, m: nat)
    requires pat != [] && k <= m <= |s|
    requires forall j :: k <= j < m ==> s[j] != pat[0]
    ensures ReplaceAllFrom(s, pat, rep, k) == s[k..m] + ReplaceAllFrom(s, pat, rep, m)
    decreases m - k
  {
    if k < m {
      if |s| - k < |pat| {
        assert s[k..] == s[k..m] + s[m..];
      } else {
        assert !OccursAt(s, pat, k) by {
          assert s[k..k + |pat|][0] == s[k];
        }
        ReplaceAllFromPassing(s, pat, rep, k + 1, m);
        assert s[k..m] == [s[k]] + s[k + 1..m];
      }
    }
  }

  lemma ConcatAssoc(a: string, b: string, c: string)
    ensures a + b + c == a + (b + c)
  {
  }

  /** An occurrence where the search stands is replaced by the replacement expanded
      against the text before and after it. */
  lemma ReplaceAllFromHere(s: string, pat: string, rep: string, k: nat, before: string, after: string)
    requires pat != [] && OccursAt(s, pat, k) && before == s[..k] && after == s[k + |pat|..]
    ensures ReplaceAllFrom(s, pat, rep, k) ==
      Substitution(rep, pat, before, after) + ReplaceAllFrom(s, pat, rep, k + |pat|)
  {
  }

  /** The search passes over a lead holding no first character of the pattern. */
  lemma ReplaceAllFromLead(before: string, pat: string, after: string, rep: string)
    requires pat != [] && pat[0] !in before
    ensures ReplaceAllFrom(before + pat + after, pat, rep, 0) == before + ReplaceAllFrom(before + pat + after, pat, rep, |before|)
  {
    var s := before + pat + after;
    assert forall j :: 0 <= j < |before| ==> s[j] == before[j];
    ReplaceAllFromPassing(s, pat, rep, 0, |before|);
    assert s[0..|before|] == before;
  }

  /** The search keeps a tail holding no first character of the pattern. */
  lemma ReplaceAllFromTail(before: string, pat: string, after: string, rep: string)
    requires pat != [] && pat[0] !in after
    ensures ReplaceAllFrom(before + pat + after, pat, rep, |before| + |pat|) == after
  {
    var s := before + pat + after;
    var e := |before| + |pat|;
    assert forall j :: e <= j < |s| ==> s[j] == after[j - e];
    ReplaceAllFromPassing(s, pat, rep, e, |s|);
    assert s[e..|s|] == after;
    assert ReplaceAllFrom(s, pat, rep, |s|) == [];
  }

  /** A string holding the pattern once, with no other first character of it around: the
      replacement, expanded against that one match, takes the pattern's place. */
  lemma ReplaceAllSingle(before: string, pat: string, after: string, rep: string)
    requires pat != [] && pat[0] !in before && pat[0] !in after
    ensures ReplaceAll(before + pat + after, pat, rep) == before + Substitution(rep, pat, before, after) + after
  {
    var s := before + pat + after;
    var b := |before|;
    assert s[..b] == before && s[b..b + |pat|] == pat && s[b + |pat|..] == after;
    ReplaceAllFromLead(before, pat, after, rep);
    ReplaceAllFromHere(s, pat, rep, b, before, after);
    ReplaceAllFromTail(before, pat, after, rep);
    ConcatAssoc(before, Substitution(rep, pat, before, after), after);
  }

  /** The same replacement with `rep` inserted as it is. */
  function ReplaceAllLiteral(s: string, pat: string, rep: string): string
    requires pat != []
    decreases |s|
  {
    if |s| < |pat| then s
    else if s[..|pat|] == pat then rep + ReplaceAllLiteral(s[|pat|..], pat, rep)
    else [s[0]] + ReplaceAllLiteral(s[1..], pat, rep)
  }

  /** A replacement without `$` is inserted literally at every occurrence. */
  lemma ReplaceAllPlain(s: string, pat: string, rep: string)
    requires pat != [] && '$' !in rep
    ensures ReplaceAll(s, pat, rep) == ReplaceAllLiteral(s, pat, rep)
  {
    ReplaceAllFromPlain(s, pat, rep, 0);
    assert s[0..] == s;
  }

  lemma {:induction false} ReplaceAllFromPlain(s: string, pat: string, rep: string, k: nat)
    requires pat != [] && k <= |s| && '$' !in rep
    ensures ReplaceAllFrom(s, pat, rep, k) == ReplaceAllLiteral(s[k..], pat, rep)
    decreases |s| - k, 1
  {
    if |s| - k >= |pat| {
      if OccursAt(s, pat, k) {
        PlainStepHere(s, pat, rep, k);
      } else {
        PlainStepSkip(s, pat, rep, k);
      }
    }
  }

  /** One occurrence replaced, in both readings of the replacement. */
  lemma {:induction false} PlainStepHere(s: string, pat: string, rep: string, k: nat)
    requires pat != [] && '$' !in rep && OccursAt(s, pat, k)
    ensures ReplaceAllFrom(s, pat, rep, k) == ReplaceAllLiteral(s[k..], pat, rep)
    decreases |s| - k, 0
  {
    ReplaceAllFromPlain(s, pat, rep, k + |pat|);
    var t := s[k..];
    assert t[0..|pat|] == s[k..k + |pat|];
    ReplaceAllFromHere(s, pat, rep, k, s[..k], s[k + |pat|..]);
    SubstitutionPlain(rep, pat, s[..k], s[k + |pat|..]);
    ReplaceAllHere(t, pat, rep);
    assert t[|pat|..] == s[k + |pat|..];
  }

  /** One character passed over, in both readings of the replacement. */
  lemma {:induction false} PlainStepSkip(s: string, pat: string, rep: string, k: nat)
    requires pat != [] && '$' !in rep && k + |pat| <= |s| && !OccursAt(s, pat, k)
    ensures ReplaceAllFrom(s, pat, rep, k) == ReplaceAllLiteral(s[k..], pat, rep)
    decreases |s| - k, 0
  {
    ReplaceAllFromPlain(s, pat, rep, k + 1);
    var t := s[k..];
    assert t[0..|pat|] == s[k..k + |pat|];
    ReplaceAllSkip(t, pat, rep);
    assert t[0] == s[k] && t[1..] == s[k + 1..];
  }

  /** Replacing a pattern that does not occur leaves the string as it is, whatever the
      replacement. */
  lemma ReplaceAllAbsent(s: string, pat: string, rep: string)
    requires pat != [] && !Contains(s, pat)
    ensures ReplaceAll(s, pat, rep) == s
  {
    ReplaceAllFromAbsent(s, pat, rep, 0);
    assert s[0..] == s;
  }

  lemma {:induction false} ReplaceAllFromAbsent(s: string, pat: string, rep: string, k: nat)
    requires pat != [] && k <= |s| && !Contains(s, pat)
    ensures ReplaceAllFrom(s, pat, rep, k) == s[k..]
    decreases |s| - k
  {
    if |s| - k >= |pat| {
      assert !OccursAt(s, pat, k);
      ReplaceAllFromAbsent(s, pat, rep, k + 1);
      assert s[k..] == [s[k]] + s[k + 1..];
    }
  }

  /** Text that cannot start an occurrence is kept as it is, ahead of the rest replaced. */
  lemma {:induction false} ReplaceAllPrefix(a: string, b: string, pat: string, rep: string)
    requires pat != [] && pat[0] !in a
    ensures ReplaceAllLiteral(a + b, pat, rep) == a + ReplaceAllLiteral(b, pat, rep)
    decreases |a|
  {
    if a == [] {
      assert a + b == b;
    } else if |a + b| < |pat| {
      assert ReplaceAllLiteral(b, pat, rep) == b;
    } else {
      var t := a[1..];
      ReplaceAllPrefix(t, b, pat, rep);
      ReplaceAllSkip(a + b, pat, rep);
      assert (a + b)[1..] == t + b;
      ConsRegroup(a, ReplaceAllLiteral(b, pat, rep));
    }
  }

  /** Where the pattern does not occur, the first character is kept. */
  lemma ReplaceAllSkip(s: string, pat: string, rep: string)
    requires pat != [] && |s| >= |pat| && !OccursAt(s, pat, 0)
    ensures ReplaceAllLiteral(s, pat, rep) == [s[0]] + ReplaceAllLiteral(s[1..], pat, rep)
  {
    assert s[..|pat|] == s[0..|pat|];
  }

  lemma ConsRegroup(a: string, r: string)
    requires a != []
    ensures [a[0]] + (a[1..] + r) == a + r
  {
    assert a == [a[0]] + a[1..];
  }

  /** An occurrence at the start is replaced. */
  lemma ReplaceAllHere(s: string, pat: string, rep: string)
    requires pat != [] && OccursAt(s, pat, 0)
    ensures ReplaceAllLiteral(s, pat, rep) == rep + ReplaceAllLiteral(s[|pat|..], pat, rep)
  {
    assert s[..|pat|] == s[0..|pat|];
  }

  /** Pieces joined by the pattern, none able to start an occurrence, come out joined by
      the replacement: every occurrence is replaced. */
  lemma {:induction false} ReplaceAllJoin(parts: seq<string>, pat: string, rep: string)
    requires pat != [] && '$' !in rep && |parts| >= 1
    requires forall i :: 0 <= i < |parts| ==> pat[0] !in parts[i]
    ensures ReplaceAll(JoinWith(parts, pat), pat, rep) == JoinWith(parts, rep)
    decreases |parts|
  {
    ReplaceAllPlain(JoinWith(parts, pat), pat, rep);
    if |parts| == 1 {
      ReplaceAllPrefix(parts[0], [], pat, rep);
      assert parts[0] + [] == parts[0];
    } else {
      var rest := JoinWith(parts[1..], pat);
      ReplaceAllJoin(parts[1..], pat, rep);
      ReplaceAllPlain(rest, pat, rep);
      assert JoinWith(parts, pat) == parts[0] + (pat + rest);
      ReplaceAllPrefix(parts[0], pat + rest, pat, rep);
      assert (pat + rest)[..|pat|] == pat;
      ReplaceAllHere(pat + rest, pat, rep);
      assert (pat + rest)[|pat|..] == rest;
    }
  }

  /** The first index from k on at which `pat` occurs in `s`. */
  function FindFrom(s: string, pat: string, k: nat): (r: Option<nat>)
    requires k <= |s|
    ensures r.Some? ==> (k <= r.value <= |s| && OccursAt(s, pat, r.value) &&
      forall j :: k <= j < r.value ==> !OccursAt(s, pat, j))
    ensures r.None? ==> forall j :: k <= j <= |s| ==> !OccursAt(s, pat, j)
    decreases |s| - k
  {
    if OccursAt(s, pat, k) then Some(k)
    else if k == |s| then None
    else FindFrom(s, pat, k + 1)
  }

  /** `s.replace(pat, rep)` with a string pattern: only the first occurrence is replaced,
      by `rep` expanded against it. */
  function ReplaceFirst(s: string, pat: string, rep: string): string {
    match FindFrom(s, pat, 0)
    case None => s
    case Some(i) => s[..i] + Substitution(rep, pat, s[..i], s[i + |pat|..]) + s[i + |pat|..]
  }

  /** The first occurrence is replaced, and everything around it is kept: literally when the
      replacement has no `$`. */
  lemma ReplaceFirstAt(s: string, pat: string, rep: string, i: nat)
    requires OccursAt(s, pat, i)
    requires forall j: nat :: j < i ==> !OccursAt(s, pat, j)
    ensures ReplaceFirst(s, pat, rep) == s[..i] + Substitution(rep, pat, s[..i], s[i + |pat|..]) + s[i + |pat|..]
    ensures '$' !in rep ==> ReplaceFirst(s, pat, rep) == s[..i] + rep + s[i + |pat|..]
  {
    assert FindFrom(s, pat, 0) == Some(i);
    if '$' !in rep {
      SubstitutionPlain(rep, pat, s[..i], s[i + |pat|..]);
    }
  }

  /** Without an occurrence, `replace` changes nothing. */
  lemma ReplaceFirstAbsent(s: string, pat: string, rep: string)
    requires !Contains(s, pat)
    ensures ReplaceFirst(s, pat, rep) == s
  {
  }

  /** ASCII `toLowerCase()` of one character. */
  function LowerChar(c: char): (r: char)
    ensures 'A' <= c <= 'Z' ==> r as int == c as int + 32
    ensures !('A' <= c <= 'Z') ==> r == c
  {
    if 'A' <= c <= 'Z' then (c as int + 32) as char else c
  }

  /** `s.toLowerCase()` over ASCII letters. */
  function Lower(s: string): (r: string)
    ensures |r| == |s| && forall i :: 0 <= i < |s| ==> r[i] == LowerChar(s[i])
  {
    if s == [] then [] else [LowerChar(s[0])] + Lower(s[1..])
  }

  /** The decimal rendering of a natural number, as `String(n)` gives it. */
  function DecimalString(n: nat): (r: string)
    ensures |r| >= 1 && forall i :: 0 <= i < |r| ==> '0' <= r[i] <= '9'
  {
    if n < 10 then [('0' as int + n) as char]
    else DecimalString(n / 10) + [('0' as int + n % 10) as char]
  }
}
