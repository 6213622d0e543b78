/**
 * JavaScript objects filled by position: `values.forEach((v, i) => obj[names[i]] = v)`
 * and the equivalent `reduce`. An index past the end of `names` reads
 * `names[i] === undefined`, and assigning to `obj[undefined]` sets the
 * property named "undefined"; later assignments overwrite earlier ones.
 */
module Records {
  import opened JsBuiltins

  /** A property of a positionally filled object: a table name, or "undefined". */
  datatype Key<K> = Named(name: K) | Undefined

  /** The property that index `i` writes. */
  function KeyAt<K>(names: seq<K>, i: nat): Key<K>
  {
    if i < |names| then Named(names[i]) else Undefined
  }

  /** The object `init` after assigning `values[i]` to `obj[names[i]]` for i = 0, 1, ... in order. */
  function Assign<K(==), V>(init: map<Key<K>, V>, names: seq<K>, values: seq<V>): map<Key<K>, V>
    decreases |values|
  {
    if values == [] then init
    else
      var n := |values| - 1;
      Assign(init, names, values[..n])[KeyAt(names, n) := values[n]]
  }

  /** The object's properties are the initial ones and those some index writes. */
  lemma {:induction false} AssignKeys<K, V>(init: map<Key<K>, V>, names: seq<K>, values: seq<V>)
    ensures Assign(init, names, values).Keys == init.Keys + set i | 0 <= i < |values| :: KeyAt(names, i)
    decreases |values|
  {
    if values != [] {
      var n := |values| - 1;
      AssignKeys(init, names, values[..n]);
      assert (set i | 0 <= i < |values| :: KeyAt(names, i))
          == (set i | 0 <= i < n :: KeyAt(names, i)) + {KeyAt(names, n)};
    }
  }

  /** One more value writes one more property: the one its index names. */
  lemma AssignSnoc<K, V>(init: map<Key<K>, V>, names: seq<K>, values: seq<V>, v: V)
    ensures Assign(init, names, values + [v]) == Assign(init, names, values)[KeyAt(names, |values|) := v]
  {
    assert (values + [v])[..|values|] == values;
  }

  /** With distinct names, the value at a named index is the one stored under its name. */
  lemma {:induction false} AssignNamed<K, V>(init: map<Key<K>, V>, names: seq<K>, values: seq<V>, i: nat)
    requires Distinct(names)
    requires i < |values| && i < |names|
    ensures Named(names[i]) in Assign(init, names, values)
    ensures Assign(init, names, values)[Named(names[i])] == values[i]
    decreases |values|
  {
    var n := |values| - 1;
    assert KeyAt(names, i) == Named(names[i]);
    if i < n {
      AssignNamed(init, names, values[..n], i);
      assert KeyAt(names, n) != Named(names[i]);
    }
  }

  /** An index past the names writes "undefined"; the last such value wins. */
  lemma AssignOverflow<K, V>(init: map<Key<K>, V>, names: seq<K>, values: seq<V>)
    requires |values| > |names|
    ensures Assign(init, names, values)[Undefined] == values[|values| - 1]
  {
  }

  /** A property that no index writes keeps its initial value. */
  lemma {:induction false} AssignKeeps<K, V>(init: map<Key<K>, V>, names: seq<K>, values: seq<V>, k: Key<K>)
    requires k in init
    requires forall i :: 0 <= i < |values| ==> KeyAt(names, i) != k
    ensures k in Assign(init, names, values) && Assign(init, names, values)[k] == init[k]
    decreases |values|
  {
    if values != [] {
      AssignKeeps(init, names, values[..|values| - 1], k);
    }
  }

  /** Indices below the table write exactly the first |values| names. */
  lemma KeysWithinTable<K, V>(init: map<Key<K>, V>, names: seq<K>, values: seq<V>)
    requires |values| <= |names|
    ensures Assign(init, names, values).Keys == init.Keys + set i | 0 <= i < |values| :: Named(names[i])
  {
    AssignKeys(init, names, values);
    var byKeyAt := set i | 0 <= i < |values| :: KeyAt(names, i);
    var byName := set i | 0 <= i < |values| :: Named(names[i]);
    assert byKeyAt == byName by {
      forall key | key in byKeyAt ensures key in byName {
        var i :| 0 <= i < |values| && KeyAt(names, i) == key;
        assert Named(names[i]) == key;
      }
      forall key | key in byName ensures key in byKeyAt {
        var i :| 0 <= i < |values| && Named(names[i]) == key;
        assert KeyAt(names, i) == key;
      }
    }
  }

  /** Filling every name of the table sets each name, and nothing else is added. */
  lemma KeysOfFullTable<K, V>(init: map<Key<K>, V>, names: seq<K>, values: seq<V>)
    requires |values| == |names|
    ensures Assign(init, names, values).Keys == init.Keys + set k | k in names :: Named(k)
  {
    KeysWithinTable(init, names, values);
    var byIndex := set i | 0 <= i < |values| :: Named(names[i]);
    var byName := set k | k in names :: Named(k);
    assert byIndex == byName by {
      forall key | key in byName ensures key in byIndex {
        var i := IndexOf(names, key.name);
        assert Named(names[i]) == key;
      }
    }
  }
}
