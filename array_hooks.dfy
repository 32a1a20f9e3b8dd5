/**
 * The copy-on-write collection of `useArray` (src/hooks/arrayHooks.ts).
 * Both operations build a new array from the current one; the only effect
 * in the source is handing that new array to the state setter, so here
 * they are functions from the old sequence to the new one.
 */
module ArrayHooks {

  /** `add`: the spread `[...items, item]`. */
  function Add<T>(items: seq<T>, item: T): (r: seq<T>)
    ensures |r| == |items| + 1
    ensures r[|items|] == item
    ensures forall i :: 0 <= i < |items| ==> r[i] == items[i]
  {
    items + [item]
  }

  /** `replace`: `items.map(func)`, element by element in collection order. */
  function Replace<T>(items: seq<T>, f: T -> T): (r: seq<T>)
    ensures |r| == |items|
    ensures forall i :: 0 <= i < |items| ==> r[i] == f(items[i])
  {
    if items == [] then [] else [f(items[0])] + Replace(items[1..], f)
  }

  /** Replacing with the identity updater gives back an equal array. */
  lemma ReplaceIdentity<T>(items: seq<T>)
    ensures Replace(items, x => x) == items
  {
  }
}
