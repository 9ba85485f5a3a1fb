/**
 * Python dictionaries built from an ordered list of items: a dict display
 * `{k1: v1, k2: v2}` and a comprehension `{v: k for k, v in d.items()}` both
 * insert their items left to right, and a later item with the same key wins.
 */
module Dicts {

  /** The dict built by inserting `items` in order (last one wins). */
  function FromItems<K, V>(items: seq<(K, V)>): (m: map<K, V>)
    ensures m.Keys == set i | 0 <= i < |items| :: items[i].0
  {
    if items == [] then map[]
    else
      var init, last := items[..|items| - 1], items[|items| - 1];
      assert (set i | 0 <= i < |items| :: items[i].0)
          == (set i | 0 <= i < |init| :: init[i].0) + {last.0} by {
        assert forall i :: 0 <= i < |init| ==> init[i] == items[i];
      }
      FromItems(init)[last.0 := last.1]
  }

  /** A display of three items inserts them one after the other. */
  lemma FromThreeItems<K, V>(a: (K, V), b: (K, V), c: (K, V))
    ensures FromItems([a, b, c]) == map[a.0 := a.1][b.0 := b.1][c.0 := c.1]
  {
    var items := [a, b, c];
    assert [a][..0] == [];
    assert FromItems([a]) == map[a.0 := a.1];
    assert [a, b][..1] == [a];
    assert FromItems([a, b]) == map[a.0 := a.1][b.0 := b.1];
    assert items[..2] == [a, b];
  }

  /** Each item with key and value exchanged, in the same order. */
  function Swapped<K, V>(items: seq<(K, V)>): (r: seq<(V, K)>)
    ensures |r| == |items|
    ensures forall i :: 0 <= i < |items| ==> r[i] == (items[i].1, items[i].0)
  {
    seq(|items|, i requires 0 <= i < |items| => (items[i].1, items[i].0))
  }

  /** No key occurs in two items. */
  ghost predicate DistinctKeys<K, V>(items: seq<(K, V)>)
  {
    forall i, j :: 0 <= i < j < |items| ==> items[i].0 != items[j].0
  }

  /** With distinct keys, the dict maps k to v exactly when (k, v) is one of the items. */
  lemma {:induction false} FromItemsLookup<K, V>(items: seq<(K, V)>, k: K, v: V)
    requires DistinctKeys(items)
    ensures (k in FromItems(items) && FromItems(items)[k] == v) <==> (k, v) in items
  {
    if items != [] {
      var prefix, last := items[..|items| - 1], items[|items| - 1];
      assert items == prefix + [last];
      assert DistinctKeys(prefix);
      FromItemsLookup(prefix, k, v);
      if k == last.0 {
        forall i | 0 <= i < |prefix| ensures prefix[i] != (k, v) {
          assert items[i].0 != items[|items| - 1].0;
        }
      }
    }
  }

  /**
   * Inverting a dict whose keys and values are both distinct and looking the
   * result up again gives back the value that was inverted.
   */
  lemma InvertRoundTrip<K, V>(items: seq<(K, V)>, v: V)
    requires DistinctKeys(items) && DistinctKeys(Swapped(items))
    requires v in FromItems(Swapped(items))
    ensures FromItems(Swapped(items))[v] in FromItems(items)
    ensures FromItems(items)[FromItems(Swapped(items))[v]] == v
  {
    var k := FromItems(Swapped(items))[v];
    FromItemsLookup(Swapped(items), v, k);
    var i :| 0 <= i < |items| && Swapped(items)[i] == (v, k);
    assert items[i] == (k, v);
    FromItemsLookup(items, k, v);
  }
}
