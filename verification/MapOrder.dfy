/**
 Go ranges over a map in an arbitrary order, a new one each time. An order is a duplicate-free
 listing of the keys; code that ranges over a map is proved correct for every order.
 */
module MapOrder {

  ghost predicate NoDuplicates(s: seq<string>) {
    forall i, j :: 0 <= i < j < |s| ==> s[i] != s[j]
  }

  ghost predicate IsOrder(order: seq<string>, keys: set<string>) {
    NoDuplicates(order) && forall k :: k in order <==> k in keys
  }

  /** Draws the order of one `range` loop. */
  method AnyOrder(keys: set<string>) returns (order: seq<string>)
    ensures IsOrder(order, keys)
  {
    order := [];
    var left := keys;
    while left != {}
      invariant NoDuplicates(order)
      invariant forall k :: k in order <==> k in keys && k !in left
      invariant left <= keys
      decreases left
    {
      var k :| k in left;
      order := order + [k];
      left := left - {k};
    }
  }

  /** Any key can come first. */
  lemma {:induction false} OrderStartingWith(keys: set<string>, first: string) returns (order: seq<string>)
    requires first in keys
    ensures IsOrder(order, keys) && order[0] == first
    decreases keys
  {
    var rest := keys - {first};
    if rest == {} {
      order := [first];
    } else {
      var k :| k in rest;
      var tail := OrderStartingWith(rest, k);
      order := [first] + tail;
      forall i, j | 0 <= i < j < |order|
        ensures order[i] != order[j]
      {
        assert order[j] == tail[j - 1];
        assert order[j] in tail;
      }
    }
  }

  lemma {:induction false} SomeOrder(keys: set<string>) returns (order: seq<string>)
    ensures IsOrder(order, keys)
  {
    if keys == {} {
      order := [];
    } else {
      var k :| k in keys;
      order := OrderStartingWith(keys, k);
    }
  }
}
