/** The row `saveOrder` appends to the ConfirmedOrders sheet (server.js:500-505): the
    user's id, the answers in the order of their sorted keys, and a timestamp. */
module Orders {
  import opened Strings

  /** The default order of `Array.prototype.sort` on strings: character by character, a
      proper prefix first. */
  predicate LexLess(a: string, b: string)
  {
    if a == [] then b != []
    else b != [] && (a[0] < b[0] || (a[0] == b[0] && LexLess(a[1..], b[1..])))
  }

  lemma {:induction false} LexLessIrreflexive(a: string)
    ensures !LexLess(a, a)
  {
    if a != [] {
      LexLessIrreflexive(a[1..]);
    }
  }

  lemma {:induction false} LexLessTransitive(a: string, b: string, c: string)
    requires LexLess(a, b) && LexLess(b, c)
    ensures LexLess(a, c)
  {
    if a != [] && a[0] == b[0] && b[0] == c[0] {
      LexLessTransitive(a[1..], b[1..], c[1..]);
    }
  }

  lemma {:induction false} LexLessTotal(a: string, b: string)
    requires a != b
    ensures LexLess(a, b) || LexLess(b, a)
  {
    if a != [] && b != [] && a[0] == b[0] {
      assert a == [a[0]] + a[1..] && b == [b[0]] + b[1..];
      LexLessTotal(a[1..], b[1..]);
    }
  }

  /** Each key comes before every later key. */
  predicate StrictlySorted(keys: seq<string>)
  {
    forall i, j :: 0 <= i < j < |keys| ==> LexLess(keys[i], keys[j])
  }

  /** `k` comes before every other member of `s`. */
  predicate IsLeast(k: string, s: set<string>)
  {
    k in s && forall o :: o in s && o != k ==> LexLess(k, o)
  }

  /** Every non-empty finite set of keys has a first key. */
  lemma {:induction false} LeastExists(s: set<string>)
    requires s != {}
    ensures exists k :: IsLeast(k, s)
  {
    var x :| x in s;
    if s == {x} {
      assert IsLeast(x, s);
    } else {
      var rest := s - {x};
      LeastExists(rest);
      var m :| IsLeast(m, rest);
      if LexLess(x, m) {
        forall o | o in s && o != x
          ensures LexLess(x, o)
        {
          if o != m {
            LexLessTransitive(x, m, o);
          }
        }
        assert IsLeast(x, s);
      } else {
        LexLessTotal(x, m);
        assert IsLeast(m, s);
      }
    }
  }

  /** `Object.keys(orderData).sort()`: every key exactly once, in sorted order. The
      engine's sort is modelled by the result it must produce, built here by repeatedly
      taking the least remaining key. */
  method SortKeys(keys: set<string>) returns (sorted: seq<string>)
    ensures StrictlySorted(sorted)
    ensures forall k :: k in sorted <==> k in keys
    ensures |sorted| == |keys|
  {
    sorted := [];
    var remaining := keys;
    while remaining != {}
      invariant remaining <= keys
      invariant StrictlySorted(sorted)
      invariant forall k :: k in keys <==> k in sorted || k in remaining
      invariant forall k :: k in sorted ==> k !in remaining
      invariant forall i, o :: 0 <= i < |sorted| && o in remaining ==> LexLess(sorted[i], o)
      invariant |sorted| + |remaining| == |keys|
      decreases remaining
    {
      LeastExists(remaining);
      var k :| IsLeast(k, remaining);
      sorted := sorted + [k];
      remaining := remaining - {k};
    }
  }

  /** A strictly sorted sequence has no repeated key. */
  lemma SortedDistinct(keys: seq<string>, i: nat, j: nat)
    requires StrictlySorted(keys) && i < j < |keys|
    ensures keys[i] != keys[j]
  {
    LexLessIrreflexive(keys[i]);
  }

  /** Two sorted enumerations of the same keys are the same sequence, so the column order
      of the saved row depends only on the set of answered keys. */
  lemma {:induction false} SortedEnumerationUnique(a: seq<string>, b: seq<string>)
    requires StrictlySorted(a) && StrictlySorted(b)
    requires forall k :: k in a <==> k in b
    ensures a == b
  {
    SameMembersBothEmpty(a, b);
    if a != [] && b != [] {
      if a[0] != b[0] {
        assert b[0] in a && a[0] in b;
        var i :| 0 <= i < |a| && a[i] == b[0];
        var j :| 0 <= j < |b| && b[j] == a[0];
        assert i > 0 && j > 0;
        assert LexLess(a[0], a[i]) && LexLess(b[0], b[j]);
        LexLessTransitive(a[0], b[0], a[0]);
        LexLessIrreflexive(a[0]);
      }
      forall k ensures k in a[1..] <==> k in b[1..]
      {
        if k in a[1..] {
          var i :| 0 <= i < |a| - 1 && a[1..][i] == k;
          SortedDistinct(a, 0, i + 1);
          assert k in b;
          var j :| 0 <= j < |b| && b[j] == k;
          assert j != 0;
          assert b[1..][j - 1] == k;
        }
        if k in b[1..] {
          var j :| 0 <= j < |b| - 1 && b[1..][j] == k;
          SortedDistinct(b, 0, j + 1);
          assert k in a;
          var i :| 0 <= i < |a| && a[i] == k;
          assert i != 0;
          assert a[1..][i - 1] == k;
        }
      }
      SortedEnumerationUnique(a[1..], b[1..]);
    }
  }

  lemma SameMembersBothEmpty(a: seq<string>, b: seq<string>)
    requires forall k :: k in a <==> k in b
    ensures a == [] <==> b == []
  {
    if a != [] {
      assert a[0] in b;
    }
    if b != [] {
      assert b[0] in a;
    }
  }

  /** The answers under `keys`, in that order. */
  function ValuesAt(orderData: map<string, string>, keys: seq<string>): (r: seq<string>)
    requires forall k :: k in keys ==> k in orderData
    ensures |r| == |keys|
    ensures forall i :: 0 <= i < |keys| ==> r[i] == orderData[keys[i]]
  {
    if keys == [] then [] else ValuesAt(orderData, keys[..|keys| - 1]) + [orderData[keys[|keys| - 1]]]
  }

  /** `s` lists the members of `keys`, each once, in sorted order. */
  ghost predicate ListsSorted(s: seq<string>, keys: set<string>)
  {
    StrictlySorted(s) && forall k :: k in s <==> k in keys
  }

  /** Every finite set of keys has a sorted listing: its least key, then a sorted listing
      of the rest. */
  lemma {:induction false} SortedListingExists(keys: set<string>)
    ensures exists s :: ListsSorted(s, keys)
    decreases keys
  {
    if keys == {} {
      assert ListsSorted([], keys);
    } else {
      LeastExists(keys);
      var k :| IsLeast(k, keys);
      SortedListingExists(keys - {k});
      var rest :| ListsSorted(rest, keys - {k});
      assert ListsSorted([k] + rest, keys);
    }
  }

  /** The sorted enumeration of a set of keys. `SortedEnumerationUnique` makes it the only
      one. */
  ghost function SortedKeysOf(keys: set<string>): (r: seq<string>)
    ensures ListsSorted(r, keys) && |r| == |keys|
  {
    SortedListingExists(keys);
    var s :| ListsSorted(s, keys);
    DistinctCard(s, keys);
    s
  }

  /** The row saved for user `psid`: the id, the answers in the order of their sorted
      keys, and the timestamp. */
  ghost function OrderRow(psid: string, orderData: map<string, string>, timestamp: string): (row: seq<string>)
    ensures |row| == |orderData| + 2 && row[0] == psid && row[|row| - 1] == timestamp
    ensures forall i :: 0 <= i < |orderData| ==> row[i + 1] == orderData[SortedKeysOf(orderData.Keys)[i]]
  {
    var keys := SortedKeysOf(orderData.Keys);
    var answers := ValuesAt(orderData, keys);
    var row := [psid] + answers + [timestamp];
    assert forall i :: 0 <= i < |answers| ==> row[i + 1] == answers[i];
    row
  }

  /** `saveOrder`'s row building: `timestamp` stands for `new Date().toISOString()`.
      Returns the sorted keys alongside, naming the column each answer landed in. */
  method BuildOrderRow(psid: string, orderData: map<string, string>, timestamp: string)
    returns (sortedKeys: seq<string>, values: seq<string>)
    ensures sortedKeys == SortedKeysOf(orderData.Keys)
    ensures values == OrderRow(psid, orderData, timestamp)
  {
    values := [psid];
    sortedKeys := SortKeys(orderData.Keys);
    SortedEnumerationUnique(sortedKeys, SortedKeysOf(orderData.Keys));
    ghost var answers := ValuesAt(orderData, sortedKeys);
    var i := 0;
    while i < |sortedKeys|
      invariant 0 <= i <= |sortedKeys|
      invariant values == [psid] + ValuesAt(orderData, sortedKeys[..i])
    {
      assert sortedKeys[..i + 1][..i] == sortedKeys[..i];
      values := values + [orderData[sortedKeys[i]]];
      i := i + 1;
    }
    assert sortedKeys[..i] == sortedKeys;
    values := values + [timestamp];
    assert values == [psid] + answers + [timestamp];
  }

  /** A sequence without repeats that lists exactly the members of `s` has `|s|`
      entries. */
  lemma {:induction false} DistinctCard(keys: seq<string>, s: set<string>)
    requires StrictlySorted(keys) && (forall k :: k in keys <==> k in s)
    ensures |keys| == |s|
  {
    if keys != [] {
      var rest := keys[1..];
      forall k ensures k in rest <==> k in s - {keys[0]}
      {
        if k in rest {
          var j :| 0 <= j < |rest| && rest[j] == k;
          SortedDistinct(keys, 0, j + 1);
        }
        if k in s - {keys[0]} {
          var j :| 0 <= j < |keys| && keys[j] == k;
          assert j != 0;
          assert rest[j - 1] == k;
        }
      }
      DistinctCard(rest, s - {keys[0]});
    }
  }
}
