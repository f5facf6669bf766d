/** The wishlist hook: a per-user set of product ids, loaded from the browser's storage
    and toggled one id at a time. Reading and writing the storage itself is not part of
    this model; the stored text and the JSON parser are given as parameters. */
module Wishlist {
  import opened Common

  const StoragePrefix: string := "zen-wishlist"

  /** The storage key of one user's wishlist. */
  function StorageKey(userId: string): (key: string)
    ensures |key| == |StoragePrefix| + 1 + |userId|
    ensures key[..|StoragePrefix|] == StoragePrefix && key[|StoragePrefix|] == '-'
    ensures key[|StoragePrefix| + 1..] == userId
  {
    StoragePrefix + "-" + userId
  }

  /** Two users never share a key. */
  lemma StorageKeyInjective(a: string, b: string)
    requires StorageKey(a) == StorageKey(b)
    ensures a == b
  {
    assert a == StorageKey(a)[|StoragePrefix| + 1..];
  }

  /** The numbers of a stored array. Only numbers can equal a product id, so the other
      elements, which `has` never matches, are dropped. */
  function NumbersIn(elems: seq<JsValue>): (r: set<int>)
    ensures forall n :: n in r <==> Num(n) in elems
  {
    set v | v in elems && v.Num? :: v.n
  }

  /** The initial set: empty when nothing is stored, when the text does not parse and when
      it parses to something other than an array; otherwise the array's numbers. */
  function InitialIds(stored: Option<string>, parse: string -> Parsed): (r: set<int>)
    ensures stored.None? || stored == Some("") ==> r == {}
    ensures stored.Some? && stored.value != "" && parse(stored.value).ParseFailed? ==> r == {}
    ensures stored.Some? && stored.value != "" && parse(stored.value).ParsedValue? ==>
      var v := parse(stored.value).v;
      (!v.Arr? ==> r == {}) && (v.Arr? ==> forall n :: n in r <==> Num(n) in v.elems)
  {
    if stored.None? || stored.value == "" then {}
    else
      match parse(stored.value)
      case ParseFailed => {}
      case ParsedValue(v) => if v.Arr? then NumbersIn(v.elems) else {}
  }

  /** The set `toggle` builds: a copy of the old set with `id` removed when it was there
      and added when it was not. */
  function Toggled(ids: set<int>, id: int): (r: set<int>)
    ensures id in r <==> id !in ids
    ensures forall x :: x != id ==> (x in r <==> x in ids)
  {
    if id in ids then ids - {id} else ids + {id}
  }

  /** Toggling the same id twice gives back the set it started from. */
  lemma ToggleTwice(ids: set<int>, id: int)
    ensures Toggled(Toggled(ids, id), id) == ids
  {
  }

  /** Toggles of two different ids do not interfere. */
  lemma TogglesCommute(ids: set<int>, a: int, b: int)
    ensures Toggled(Toggled(ids, a), b) == Toggled(Toggled(ids, b), a)
  {
  }

  /** The hook's state for one user. */
  class WishlistState {
    const userId: string
    var ids: set<int>

    constructor (userId: string, stored: Option<string>, parse: string -> Parsed)
      ensures this.userId == userId && ids == InitialIds(stored, parse)
    {
      this.userId := userId;
      ids := InitialIds(stored, parse);
    }

    /** The key under which the set is kept. */
    function Key(): string
      reads this
    {
      StorageKey(userId)
    }

    /** `has(productId)`. */
    predicate Has(productId: int)
      reads this
    {
      productId in ids
    }

    /** `toggle(productId)`: the state becomes the toggled copy; the old set, a value, is
        left as it was. */
    method Toggle(productId: int)
      modifies this`ids
      ensures ids == Toggled(old(ids), productId)
      ensures Has(productId) <==> !old(Has(productId))
    {
      var next := ids;
      if productId in next {
        next := next - {productId};
      } else {
        next := next + {productId};
      }
      ids := next;
    }
  }
}
