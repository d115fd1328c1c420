/**
 * `_host_db` (examples/app/src/db.js): the example browser's store of example sources,
 * by category name and example name. A source is truthy when it is not empty.
 */
module HostDb {
  type Store = map<string, map<string, string>>

  /** The store after `add(c, e, code)`: the category is created when missing, and the
      example's source is set. */
  function Added(store: Store, c: string, e: string, code: string): (r: Store)
    ensures r.Keys == store.Keys + {c}
    ensures r[c].Keys == (if c in store then store[c].Keys else {}) + {e} && r[c][e] == code
    ensures forall d :: d in store && d != c ==> r[d] == store[d]
    ensures c in store ==> forall x :: x in store[c] && x != e ==> r[c][x] == store[c][x]
  {
    store[c := (if c in store then store[c] else map[])[e := code]]
  }

  /** `get(c, e)`: the stored source when the category exists and the source is truthy,
      "" otherwise. */
  function Lookup(store: Store, c: string, e: string): (r: string)
    ensures r != "" <==> c in store && e in store[c] && store[c][e] != ""
    ensures r != "" ==> r == store[c][e]
  {
    if c in store && e in store[c] && store[c][e] != "" then store[c][e] else ""
  }

  /** `has(c, e)`: whether the category exists and the stored source is truthy. */
  predicate Contains(store: Store, c: string, e: string) {
    c in store && e in store[c] && store[c][e] != ""
  }

  /** `has` holds exactly when `get` finds a source. */
  lemma HasIffGet(store: Store, c: string, e: string)
    ensures Contains(store, c, e) <==> Lookup(store, c, e) != ""
  {
  }

  /** After `add(c, e, code)`: `get(c, e)` returns the code when it is truthy and "" when
      it is not, `has(c, e)` says which, and every other example reads as before. */
  lemma GetAfterAdd(store: Store, c: string, e: string, code: string, c2: string, e2: string)
    ensures Lookup(Added(store, c, e, code), c, e) == code
    ensures Contains(Added(store, c, e, code), c, e) <==> code != ""
    ensures (c2, e2) != (c, e) ==> Lookup(Added(store, c, e, code), c2, e2) == Lookup(store, c2, e2)
    ensures (c2, e2) != (c, e) ==> (Contains(Added(store, c, e, code), c2, e2) <==> Contains(store, c2, e2))
  {
  }

  class Db {
    var store: Store

    constructor ()
      ensures store == map[]
    {
      store := map[];
    }

    /** `add(categoryName, exampleName, code)` */
    method Add(c: string, e: string, code: string)
      modifies this
      ensures store == Added(old(store), c, e, code)
    {
      if c !in store {
        store := store[c := map[]];
      }
      store := store[c := store[c][e := code]];
    }

    /** `get(categoryName, exampleName)` */
    function Get(c: string, e: string): string
      reads this
    {
      Lookup(store, c, e)
    }

    /** `has(categoryName, exampleName)` */
    predicate Has(c: string, e: string)
      reads this
    {
      Contains(store, c, e)
    }
  }
}
