/**
 * The engine's common helpers (src/myst.js): object composition, clamping, the
 * point-in-rectangle test and file-name extensions. Numbers are integers here.
 */
module Common {
  import opened Wrappers
  import opened Strings

  /** A JavaScript object, seen through its own enumerable properties. */
  class JsObject<V> {
    var props: map<string, V>

    constructor (props: map<string, V>)
      ensures this.props == props
    {
      this.props := props;
    }
  }

  /** `obj` with the properties of every present component copied over it, left to right;
      an absent (falsy) component is skipped. */
  function Composed<V>(obj: map<string, V>, components: seq<Option<map<string, V>>>): map<string, V>
    decreases |components|
  {
    if components == [] then obj
    else
      var init := Composed(obj, components[..|components| - 1]);
      var last := components[|components| - 1];
      if last.Some? then init + last.value else init
  }

  /** The last component that has property `k`, if any. */
  function LastWith<V>(components: seq<Option<map<string, V>>>, k: string): (r: Option<nat>)
    ensures r.Some? ==> r.value < |components| && components[r.value].Some? && k in components[r.value].value
    ensures r.Some? ==> forall j :: r.value < j < |components| ==> components[j].None? || k !in components[j].value
    ensures r.None? ==> forall j :: 0 <= j < |components| ==> components[j].None? || k !in components[j].value
    decreases |components|
  {
    if components == [] then None
    else
      var last := components[|components| - 1];
      if last.Some? && k in last.value then Some(|components| - 1)
      else LastWith(components[..|components| - 1], k)
  }

  /** A property of the composition comes from the last component that has it, or else
      from the first argument; no other property appears. */
  lemma {:induction false} ComposedProperty<V>(obj: map<string, V>, components: seq<Option<map<string, V>>>, k: string)
    ensures k in Composed(obj, components) <==> k in obj || LastWith(components, k).Some?
    ensures LastWith(components, k).Some? ==>
      Composed(obj, components)[k] == components[LastWith(components, k).value].value[k]
    ensures LastWith(components, k).None? && k in obj ==> Composed(obj, components)[k] == obj[k]
    decreases |components|
  {
    if components != [] {
      ComposedProperty(obj, components[..|components| - 1], k);
    }
  }

  /** Composing in two calls is composing once with all the components: the sequential
      key-by-key composition of a set of pairs builds the same object. */
  lemma {:induction false} ComposedTwice<V>(obj: map<string, V>, a: seq<Option<map<string, V>>>, b: seq<Option<map<string, V>>>)
    ensures Composed(Composed(obj, a), b) == Composed(obj, a + b)
    decreases |b|
  {
    if b == [] {
      assert a + b == a;
    } else {
      ComposedTwice(obj, a, b[..|b| - 1]);
      assert (a + b)[..|a + b| - 1] == a + b[..|b| - 1];
      assert (a + b)[|a + b| - 1] == b[|b| - 1];
    }
  }

  /** `compose(obj, ...components)`: copies each component's properties onto `obj`, one key
      at a time, and returns `obj` itself. */
  method Compose<V>(obj: JsObject<V>, components: seq<Option<map<string, V>>>) returns (r: JsObject<V>)
    modifies obj
    ensures r == obj && obj.props == Composed(old(obj.props), components)
  {
    for i := 0 to |components|
      invariant obj.props == Composed(old(obj.props), components[..i])
    {
      assert components[..i + 1][..i] == components[..i];
      var component := components[i];
      if component.Some? {
        var keys := component.value.Keys;
        ghost var start := obj.props;
        while keys != {}
          invariant keys <= component.value.Keys
          invariant obj.props == start + map k | k in component.value && k !in keys :: component.value[k]
          decreases keys
        {
          var key :| key in keys;
          obj.props := obj.props[key := component.value[key]];
          keys := keys - {key};
        }
        assert obj.props == start + component.value;
      }
    }
    assert components[..|components|] == components;
    return obj;
  }

  /** `clamp(number, min, max)` */
  function Clamp(number: int, min: int, max: int): (r: int)
    ensures number <= min ==> r == min
    ensures min < number < max ==> r == number
    ensures min <= max ==> min <= r <= max
    ensures number > min && number >= max ==> r == max
  {
    if number <= min then min
    else if number >= max then max
    else number
  }

  /** Clamping a value already in range leaves it alone, and clamping twice is clamping once. */
  lemma ClampIdempotent(number: int, min: int, max: int)
    requires min <= max
    ensures Clamp(Clamp(number, min, max), min, max) == Clamp(number, min, max)
    ensures min < number < max ==> Clamp(number, min, max) == number
  {
  }

  /** `pointInRect(x, y, rx, ry, rw, rh)`: the rectangle is half-open, [rx, rx + rw) by
      [ry, ry + rh). */
  function PointInRect(x: int, y: int, rx: int, ry: int, rw: int, rh: int): (r: bool)
    ensures r ==> rw > 0 && rh > 0
  {
    x >= rx && x < rx + rw && y >= ry && y < ry + rh
  }

  /** Moving the point and the rectangle together does not change the answer. */
  lemma PointInRectTranslated(x: int, y: int, rx: int, ry: int, rw: int, rh: int, dx: int, dy: int)
    ensures PointInRect(x + dx, y + dy, rx + dx, ry + dy, rw, rh) == PointInRect(x, y, rx, ry, rw, rh)
  {
  }

  /** What follows the last `sep` in `s`, or all of `s` when there is none. */
  function After(s: string, sep: char): string {
    match LastIndex(s, sep)
    case None => s
    case Some(i) => s[i + 1..]
  }

  /** The last occurrence in `s` is found in what follows any earlier occurrence. */
  lemma LastIndexFrom(s: string, c: char, i: nat)
    requires i < |s| && s[i] == c
    ensures After(s, c) == After(s[i + 1..], c)
  {
    var rest := s[i + 1..];
    assert s[i] in s;
    var l := LastIndex(s, c).value;
    assert l >= i;
    match LastIndex(rest, c)
    case None =>
      assert l == i;
    case Some(j) =>
      assert s[i + 1 + j] == c;
      assert l == i + 1 + j;
      assert s[l + 1..] == rest[j + 1..];
  }

  /** The last of a split's pieces is what follows the last separator. */
  lemma {:induction false} SplitLast(s: string, sep: char)
    ensures var parts := Split(s, sep); parts[|parts| - 1] == After(s, sep)
    decreases |s|
  {
    if sep in s {
      var i := FirstIndex(s, sep);
      var rest := s[i + 1..];
      SplitLast(rest, sep);
      LastIndexFrom(s, sep, i);
      var tail := Split(rest, sep);
      assert Split(s, sep) == [s[..i]] + tail;
      assert ([s[..i]] + tail)[|tail|] == tail[|tail| - 1];
      assert tail[|tail| - 1] == After(rest, sep);
      var parts := Split(s, sep);
      assert parts[|parts| - 1] == After(s, sep);
    } else {
      assert Split(s, sep) == [s];
      assert LastIndex(s, sep).None?;
      var parts := Split(s, sep);
      assert parts[|parts| - 1] == After(s, sep);
    }
  }

  /** `getFilenameExtension(filename)`: what follows the last dot, in lower case; a name
      without a dot is its own extension. */
  function FilenameExtension(filename: string): (r: string)
    ensures '.' !in r
    ensures r == Lower(After(filename, '.'))
  {
    var parts := Split(filename, '.');
    SplitLast(filename, '.');
    Lower(parts[|parts| - 1])
  }
}
