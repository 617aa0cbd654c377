/** The keys of an ordered map, in the order a loop over it visits them. */
module MapKeys {
  import opened NetworkTypes

  ghost predicate Ascending(order: seq<Connection>) {
    forall j, k :: 0 <= j < k < |order| ==> order[j] < order[k]
  }

  ghost function Elements(order: seq<Connection>): set<Connection> {
    set c | c in order
  }

  /** The keys in the order a map is iterated in: each once, ascending. */
  ghost predicate KeyOrder(order: seq<Connection>, keys: set<Connection>) {
    Ascending(order) && Elements(order) == keys
  }

  lemma HasElement(order: seq<Connection>)
    requires order != []
    ensures Elements(order) != {}
  {
    assert order[0] in order;
    assert order[0] in Elements(order);
  }

  lemma EmptyKeyOrder(order: seq<Connection>)
    requires KeyOrder(order, {})
    ensures order == []
  {
    if order != [] {
      HasElement(order);
    }
  }

  /** There is only one such order. */
  lemma {:induction false} KeyOrderUnique(a: seq<Connection>, b: seq<Connection>, keys: set<Connection>)
    requires KeyOrder(a, keys) && KeyOrder(b, keys)
    ensures a == b
  {
    if a == [] {
      if b != [] {
        HasElement(b);
        assert false;
      }
    } else if b == [] {
      HasElement(a);
      assert false;
    } else {
      var x, y := a[|a| - 1], b[|b| - 1];
      assert x in Elements(a) && y in Elements(b);
      assert x in b && y in a;
      assert x == y;
      var a', b' := a[..|a| - 1], b[..|b| - 1];
      assert a == a' + [x] && b == b' + [x];
      assert x !in a' && x !in b';
      assert Elements(a') == keys - {x} == Elements(b');
      KeyOrderUnique(a', b', keys - {x});
    }
  }

  lemma LeastKeyExists(keys: set<Connection>, bound: Connection)
    requires exists c :: c in keys && c <= bound
    ensures exists least :: least in keys && forall c :: c in keys ==> least <= c
    decreases bound
  {
    if c :| c in keys && c < bound {
      LeastKeyExists(keys, c);
    } else {
      assert bound in keys && forall c :: c in keys ==> bound <= c;
    }
  }

  method LeastKey(keys: set<Connection>) returns (least: Connection)
    requires keys != {}
    ensures least in keys && forall c :: c in keys ==> least <= c
  {
    ghost var bound :| bound in keys;
    LeastKeyExists(keys, bound);
    least :| least in keys && forall c :: c in keys ==> least <= c;
  }

  lemma OrderExtends(order: seq<Connection>, done: set<Connection>, next: Connection)
    requires KeyOrder(order, done) && forall c :: c in done ==> c < next
    ensures KeyOrder(order + [next], done + {next})
  {
    assert forall k :: 0 <= k < |order| ==> order[k] in Elements(order);
    assert forall c :: c in order + [next] <==> c in order || c == next;
    assert Elements(order + [next]) == Elements(order) + {next};
  }

  /** Walk the map's keys in order. */
  method KeysInOrder(keys: set<Connection>) returns (order: seq<Connection>)
    ensures KeyOrder(order, keys)
  {
    order := [];
    ghost var done := {};
    var rest := keys;
    var last: int := -1;
    while rest != {}
      invariant done + rest == keys
      invariant KeyOrder(order, done)
      invariant forall c :: c in done ==> c <= last
      invariant forall d :: d in rest ==> last < d
      decreases rest
    {
      var least := LeastKey(rest);
      OrderExtends(order, done, least);
      order := order + [least];
      done := done + {least};
      rest, last := rest - {least}, least;
    }
    assert done == keys;
  }

  lemma ElementsAppend(order: seq<Connection>, last: Connection)
    ensures Elements(order + [last]) == Elements(order) + {last}
  {
    assert forall c :: c in order + [last] <==> c in order || c == last;
  }
}
