/**
 * `myst.AssetLoader` (src/myst.js): the bank of loaded assets, kept by category and key;
 * the asset count that decides when loading is done; and `get`, which reads
 * `category.key` references out of its string arguments.
 */
module Assets {
  import opened Wrappers
  import opened Strings

  /** An argument to `get`: a string, or anything else (which is skipped). */
  datatype Arg = Str(s: string) | NotAString

  /** What `get` returns: `undefined`, one asset (itself `undefined` when missing), or an
      object mapping asset names to assets. */
  datatype Found<A> = Undefined | One(asset: Option<A>) | Several(assets: map<string, Option<A>>)

  /** A reference `category.key`. */
  datatype Ref = Ref(category: string, key: string)

  /** The tokens of one string argument: trimmed, commas dropped, split at whitespace. */
  function Tokens(arg: string): (r: seq<string>)
    ensures |r| >= 1 && forall i :: 0 <= i < |r| ==> NoSpace(r[i])
  {
    SplitWs(RemoveChar(Trim(arg), ','))
  }

  /** A token with exactly one dot is a reference; any other token is ignored. */
  function RefOf(token: string): (r: Option<Ref>)
    ensures r.Some? ==> token == r.value.category + "." + r.value.key
    ensures r.Some? ==> '.' !in r.value.category && '.' !in r.value.key
    ensures '.' !in token ==> r.None?
  {
    var parts := Split(token, '.');
    if |parts| == 2 then
      SplitJoin(token, '.');
      assert JoinWith(parts, ".") == parts[0] + "." + JoinWith(parts[1..], ".");
      Some(Ref(parts[0], parts[1]))
    else
      None
  }

  /** The references in the arguments, in order. */
  function Refs(args: seq<Arg>): seq<Ref>
    decreases |args|
  {
    if args == [] then []
    else
      var last := args[|args| - 1];
      Refs(args[..|args| - 1]) + if last.Str? then TokenRefs(Tokens(last.s)) else []
  }

  function TokenRefs(tokens: seq<string>): seq<Ref>
    decreases |tokens|
  {
    if tokens == [] then []
    else
      var last := RefOf(tokens[|tokens| - 1]);
      TokenRefs(tokens[..|tokens| - 1]) + if last.Some? then [last.value] else []
  }

  /** `bank[category] ? bank[category][key] : undefined` */
  function Lookup<A>(bank: map<string, map<string, A>>, r: Ref): Option<A> {
    if r.category in bank && r.key in bank[r.category] then Some(bank[r.category][r.key]) else None
  }

  /** The output object after the references, each setting its key's entry in turn. */
  function Output<A>(bank: map<string, map<string, A>>, refs: seq<Ref>): map<string, Option<A>>
    decreases |refs|
  {
    if refs == [] then map[]
    else
      var r := refs[|refs| - 1];
      Output(bank, refs[..|refs| - 1])[r.key := Lookup(bank, r)]
  }

  /** `get(...)`: no reference gives `undefined`, one gives the asset itself, several an
      object of them by key. */
  function Get<A>(bank: map<string, map<string, A>>, args: seq<Arg>): Found<A> {
    var refs := Refs(args);
    if |refs| == 0 then Undefined
    else if |refs| == 1 then One(Lookup(bank, refs[0]))
    else Several(Output(bank, refs))
  }

  /** With several references, the object holds exactly their keys... */
  lemma {:induction false} OutputKeys<A>(bank: map<string, map<string, A>>, refs: seq<Ref>)
    ensures forall k :: k in Output(bank, refs) <==> exists i :: 0 <= i < |refs| && refs[i].key == k
    decreases |refs|
  {
    if refs != [] {
      var init := refs[..|refs| - 1];
      OutputKeys(bank, init);
      assert forall i :: 0 <= i < |init| ==> init[i] == refs[i];
    }
  }

  /** ...and each key holds the asset its last reference names. */
  lemma {:induction false} OutputLast<A>(bank: map<string, map<string, A>>, refs: seq<Ref>, i: nat)
    requires i < |refs|
    requires forall j :: i < j < |refs| ==> refs[j].key != refs[i].key
    ensures refs[i].key in Output(bank, refs) && Output(bank, refs)[refs[i].key] == Lookup(bank, refs[i])
    decreases |refs|
  {
    if i < |refs| - 1 {
      OutputLast(bank, refs[..|refs| - 1], i);
    }
  }

  /** A description of what to load: categories, each with (key, file name) items. */
  datatype Category = Category(name: string, items: seq<(string, string)>)

  /** A request made to a category's handler: load this file into bank[category][key]. */
  datatype Request = Request(category: string, key: string, filename: string)

  /** The number of items in the list, whatever their category. */
  function ItemCount(list: seq<Category>): nat
    decreases |list|
  {
    if list == [] then 0 else ItemCount(list[..|list| - 1]) + |list[|list| - 1].items|
  }

  /** The requests made for the list: every item of every category that has a handler. */
  function Requests(list: seq<Category>, handlers: set<string>): (r: seq<Request>)
    ensures |r| <= ItemCount(list)
    decreases |list|
  {
    if list == [] then []
    else
      var c := list[|list| - 1];
      Requests(list[..|list| - 1], handlers) +
        if c.name in handlers then seq(|c.items|, i requires 0 <= i < |c.items| => Request(c.name, c.items[i].0, c.items[i].1)) else []
  }

  /** Loading completes (the count of arrivals reaches the count of items) only when every
      item was requested: an item of a category with no handler is counted but never
      loaded, so `done` is then never called. */
  lemma {:induction false} AllRequested(list: seq<Category>, handlers: set<string>)
    ensures |Requests(list, handlers)| == ItemCount(list) <==>
      forall i :: 0 <= i < |list| && list[i].name !in handlers ==> list[i].items == []
    decreases |list|
  {
    if list != [] {
      var init := list[..|list| - 1];
      AllRequested(init, handlers);
      assert forall i :: 0 <= i < |init| ==> init[i] == list[i];
    }
  }

  /** The bank once `load` has made room for each category that has a handler. */
  function Prepared<A>(bank: map<string, map<string, A>>, list: seq<Category>, handlers: set<string>): map<string, map<string, A>>
    decreases |list|
  {
    if list == [] then bank
    else
      var b := Prepared(bank, list[..|list| - 1], handlers);
      var c := list[|list| - 1].name;
      if c in handlers && c !in b then b[c := map[]] else b
  }

  /** Making room adds an empty category for each listed category with a handler and keeps
      every category already there as it was. */
  lemma {:induction false} PreparedBank<A>(bank: map<string, map<string, A>>, list: seq<Category>, handlers: set<string>)
    ensures forall c :: c in Prepared(bank, list, handlers) <==> c in bank || exists i :: 0 <= i < |list| && list[i].name == c && c in handlers
    ensures forall c :: c in Prepared(bank, list, handlers) && c !in bank ==> Prepared(bank, list, handlers)[c] == map[]
    ensures forall c :: c in bank ==> Prepared(bank, list, handlers)[c] == bank[c]
    decreases |list|
  {
    if list != [] {
      var init := list[..|list| - 1];
      PreparedBank(bank, init, handlers);
      assert forall i :: 0 <= i < |init| ==> init[i] == list[i];
    }
  }

  /** The first pass of `load`: counting the items. */
  method CountItems(list: seq<Category>) returns (n: nat)
    ensures n == ItemCount(list)
  {
    n := 0;
    for i := 0 to |list|
      invariant n == ItemCount(list[..i])
    {
      assert list[..i + 1][..i] == list[..i];
      n := n + |list[i].items|;
    }
    assert list[..|list|] == list;
  }

  /** The handler calls for one category's items, in order. */
  method ItemRequests(c: Category) returns (issued: seq<Request>)
    ensures issued == seq(|c.items|, i requires 0 <= i < |c.items| => Request(c.name, c.items[i].0, c.items[i].1))
  {
    issued := [];
    for j := 0 to |c.items|
      invariant issued == seq(j, k requires 0 <= k < j => Request(c.name, c.items[k].0, c.items[k].1))
    {
      issued := issued + [Request(c.name, c.items[j].0, c.items[j].1)];
    }
  }

  /** The inner loop of `get`: the references among one argument's tokens, each recorded
      under its key. */
  method TokenLoop<A>(bank: map<string, map<string, A>>, tokens: seq<string>, refs0: seq<Ref>, output0: map<string, Option<A>>)
      returns (refs: seq<Ref>, output: map<string, Option<A>>)
    requires output0 == Output(bank, refs0)
    ensures refs == refs0 + TokenRefs(tokens) && output == Output(bank, refs)
  {
    refs, output := refs0, output0;
    for j := 0 to |tokens|
      invariant refs == refs0 + TokenRefs(tokens[..j])
      invariant output == Output(bank, refs)
    {
      TokenRefsNext(refs0, tokens, j);
      var ref := RefOf(tokens[j]);
      if ref.Some? {
        OutputPush(bank, refs, ref.value);
        refs := refs + [ref.value];
        output := output[ref.value.key := Lookup(bank, ref.value)];
      }
    }
    assert tokens[..|tokens|] == tokens;
  }

  /** One more reference sets its key's entry, over whatever was there. */
  lemma OutputPush<A>(bank: map<string, map<string, A>>, refs: seq<Ref>, r: Ref)
    ensures Output(bank, refs + [r]) == Output(bank, refs)[r.key := Lookup(bank, r)]
  {
    assert (refs + [r])[..|refs|] == refs;
  }

  /** One more token adds its reference, if it is one, after those already found. */
  lemma TokenRefsNext(refs0: seq<Ref>, tokens: seq<string>, j: nat)
    requires j < |tokens|
    ensures RefOf(tokens[j]).Some? ==>
      refs0 + TokenRefs(tokens[..j + 1]) == refs0 + TokenRefs(tokens[..j]) + [RefOf(tokens[j]).value]
    ensures RefOf(tokens[j]).None? ==> refs0 + TokenRefs(tokens[..j + 1]) == refs0 + TokenRefs(tokens[..j])
  {
    assert tokens[..j + 1][..j] == tokens[..j];
  }

  /** The references in `get`'s arguments, in order, and the object they fill. */
  method CollectRefs<A>(bank: map<string, map<string, A>>, args: seq<Arg>) returns (refs: seq<Ref>, output: map<string, Option<A>>)
    ensures refs == Refs(args) && output == Output(bank, refs)
  {
    output := map[];
    refs := [];
    for i := 0 to |args|
      invariant refs == Refs(args[..i])
      invariant output == Output(bank, refs)
    {
      assert args[..i + 1][..i] == args[..i];
      if args[i].Str? {
        refs, output := TokenLoop(bank, Tokens(args[i].s), refs, output);
      }
    }
    assert args[..|args|] == args;
  }

  /** The count one `load` call keeps: arrivals so far, out of the items counted. */
  class LoadProgress {
    var loaded: nat
    const toLoad: nat

    constructor (toLoad: nat)
      ensures loaded == 0 && this.toLoad == toLoad
    {
      loaded := 0;
      this.toLoad := toLoad;
    }
  }

  class AssetLoader<A> {
    var bank: map<string, map<string, A>>
    /** The categories with a load handler: `graphics`, `data` and `text` to begin with. */
    var handlers: set<string>

    constructor ()
      ensures bank == map[] && handlers == {"graphics", "data", "text"}
    {
      bank := map[];
      handlers := {"graphics", "data", "text"};
    }

    /** `load({assets})`: counts every item, makes room in the bank for each category that
        has a handler, and hands each of its items to the handler. A missing list does
        nothing. */
    method Load(assets: Option<seq<Category>>) returns (r: Option<(LoadProgress, seq<Request>)>)
      modifies this
      ensures handlers == old(handlers)
      ensures assets.None? ==> r.None? && bank == old(bank)
      ensures assets.Some? ==> (r.Some? && fresh(r.value.0) &&
        r.value.0.toLoad == ItemCount(assets.value) && r.value.0.loaded == 0 &&
        r.value.1 == Requests(assets.value, handlers) &&
        bank == Prepared(old(bank), assets.value, handlers))
    {
      if assets.None? {
        return None;
      }
      var list := assets.value;
      var toLoad := CountItems(list);
      var requests := [];
      for i := 0 to |list|
        invariant handlers == old(handlers)
        invariant requests == Requests(list[..i], handlers)
        invariant bank == Prepared(old(bank), list[..i], handlers)
      {
        assert list[..i + 1][..i] == list[..i];
        var c := list[i];
        if c.name in handlers {
          if c.name !in bank {
            bank := bank[c.name := map[]];
          }
          var issued := ItemRequests(c);
          requests := requests + issued;
        }
      }
      assert list[..|list|] == list;
      var progress := new LoadProgress(toLoad);
      return Some((progress, requests));
    }

    /** A handler's `ready(asset)` for a request: the asset goes into the bank, the count
        moves on, and `done` is called when it reaches the number of items. */
    method Arrive(request: Request, asset: A, progress: LoadProgress) returns (done: bool)
      requires request.category in bank
      modifies this, progress
      ensures bank == old(bank)[request.category := old(bank)[request.category][request.key := asset]]
      ensures handlers == old(handlers)
      ensures progress.loaded == old(progress.loaded) + 1
      ensures done <==> progress.loaded == progress.toLoad
    {
      bank := bank[request.category := bank[request.category][request.key := asset]];
      progress.loaded := progress.loaded + 1;
      done := progress.loaded == progress.toLoad;
    }

    /** `get(...)` */
    method GetAssets(args: seq<Arg>) returns (r: Found<A>)
      ensures r == Get(bank, args)
    {
      var refs, output := CollectRefs(bank, args);
      if |refs| == 1 {
        return One(Lookup(bank, refs[0]));
      } else if |refs| > 1 {
        return Several(output);
      }
      return Undefined;
    }
  }
}
