/** The order of texts by code point, and sorted listings of sets of them, as Python's `sorted`
    gives them. */
module Ordering {

  predicate Less(a: string, b: string) {
    b != "" && (a == "" || a[0] < b[0] || (a[0] == b[0] && Less(a[1..], b[1..])))
  }

  lemma {:induction false} LessIsTotal(a: string, b: string)
    ensures a == b || Less(a, b) || Less(b, a)
    ensures !(Less(a, b) && Less(b, a)) && !Less(a, a)
    decreases |a|
  {
    if a != "" && b != "" {
      assert a == [a[0]] + a[1..] && b == [b[0]] + b[1..];
      LessIsTotal(a[1..], b[1..]);
      LessIsTotal(a[1..], a[1..]);
    } else if a != "" {
      LessIsTotal(a[1..], a[1..]);
    }
  }

  lemma {:induction false} LessIsTransitive(a: string, b: string, c: string)
    requires Less(a, b) && Less(b, c)
    ensures Less(a, c)
    decreases |a|
  {
    if a != "" && a[0] == b[0] == c[0] {
      LessIsTransitive(a[1..], b[1..], c[1..]);
    }
  }

  /** The members of a set, each once, in ascending order. */
  ghost predicate Sorts(order: seq<string>, keys: set<string>) {
    && (forall i, j :: 0 <= i < j < |order| ==> Less(order[i], order[j]))
    && forall key :: key in order <==> key in keys
  }

  lemma SortsNothing(order: seq<string>, keys: set<string>)
    requires Sorts(order, keys)
    ensures order == [] <==> keys == {}
  {
    if order != [] {
      assert order[0] in order;
    }
    if key :| key in keys {
      assert key in order;
    }
  }

  predicate IsLeast(least: string, keys: set<string>) {
    least in keys && forall key :: key in keys ==> key == least || Less(least, key)
  }

  lemma {:induction false} LeastExists(keys: set<string>) returns (least: string)
    requires keys != {}
    ensures IsLeast(least, keys)
  {
    hide Less;
    var some :| some in keys;
    least := some;
    if keys != {some} {
      var rest := keys - {some};
      var other := LeastExists(rest);
      LessIsTotal(some, other);
      least := if Less(some, other) then some else other;
      forall key | key in keys ensures key == least || Less(least, key) {
        if key != some && Less(some, other) && key != other {
          LessIsTransitive(some, other, key);
        }
      }
    }
  }

  lemma LeastIsUnique(a: string, b: string, keys: set<string>)
    requires IsLeast(a, keys) && IsLeast(b, keys)
    ensures a == b
  {
    LessIsTotal(a, b);
  }

  method Sorted(keys: set<string>) returns (order: seq<string>)
    ensures Sorts(order, keys)
  {
    hide Less;
    order := [];
    var remaining := keys;
    while remaining != {}
      invariant remaining <= keys && Sorts(order, keys - remaining)
      invariant forall i, key :: 0 <= i < |order| && key in remaining ==> Less(order[i], key)
      decreases remaining
    {
      ghost var first := LeastExists(remaining);
      var least :| IsLeast(least, remaining);
      assert IsLeast(least, remaining);
      assert least in remaining;
      assert least in keys;
      assert keys - (remaining - {least}) == keys - remaining + {least};
      order := order + [least];
      remaining := remaining - {least};
    }
  }

  /** There is only one sorted listing of a set. */
  lemma {:induction false} SortingIsUnique(a: seq<string>, b: seq<string>, keys: set<string>)
    requires Sorts(a, keys) && Sorts(b, keys)
    ensures a == b
    decreases |a|
  {
    hide Less;
    SortsNothing(a, keys);
    SortsNothing(b, keys);
    if a != [] {
      SortedHead(a, keys);
      SortedHead(b, keys);
      LeastIsUnique(a[0], b[0], keys);
      SortedTail(a, keys);
      SortedTail(b, keys);
      SortingIsUnique(a[1..], b[1..], keys - {a[0]});
      assert a == [a[0]] + a[1..] && b == [b[0]] + b[1..];
    }
  }

  lemma SortedHead(order: seq<string>, keys: set<string>)
    requires Sorts(order, keys) && order != []
    ensures IsLeast(order[0], keys)
  {
    hide Less;
    assert order[0] in order;
    forall key | key in keys ensures key == order[0] || Less(order[0], key) {
      var i :| 0 <= i < |order| && order[i] == key;
    }
  }

  lemma SortedTail(order: seq<string>, keys: set<string>)
    requires Sorts(order, keys) && order != []
    ensures Sorts(order[1..], keys - {order[0]})
  {
    hide Less;
    LessIsTotal(order[0], order[0]);
    assert forall i :: 0 <= i < |order| ==> order[i] in keys;
    forall key ensures key in order[1..] <==> key in keys - {order[0]} {
      assert order == [order[0]] + order[1..];
      if key in order[1..] {
        var i :| 0 <= i < |order[1..]| && order[1..][i] == key;
        assert order[i + 1] == key;
      }
    }
  }
}
