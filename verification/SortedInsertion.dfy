/** Putting an element into a sorted list: what both insertion sorts share. */
module SortedInsertion {
  import opened XmlText

  function InsertAt<T>(s: seq<T>, j: nat, x: T): seq<T>
    requires j <= |s|
  {
    s[..j] + [x] + s[j..]
  }

  lemma InsertAtPermutes<T>(s: seq<T>, j: nat, x: T)
    requires j <= |s|
    ensures multiset(InsertAt(s, j, x)) == multiset(s) + multiset([x])
  {
    assert s == s[..j] + s[j..];
  }

  predicate Sorted(keys: seq<Text>) {
    forall i, j :: 0 <= i < j < |keys| ==> AtMost(keys[i], keys[j])
  }

  /** The list stays sorted if the key goes between those that are not larger and those that are not smaller. */
  lemma InsertAtSorted(keys: seq<Text>, j: nat, key: Text)
    requires Sorted(keys) && j <= |keys|
    requires forall i :: 0 <= i < j ==> AtMost(keys[i], key)
    requires j < |keys| ==> AtMost(key, keys[j])
    ensures Sorted(InsertAt(keys, j, key))
  {
    var t := InsertAt(keys, j, key);
    forall i | j < i < |keys| ensures AtMost(key, keys[i]) {
      CompareTransitive(key, keys[j], keys[i]);
    }
    forall m, n | 0 <= m < n < |t| ensures AtMost(t[m], t[n]) {
      assert t[m] == if m < j then keys[m] else if m == j then key else keys[m - 1];
      assert t[n] == if n < j then keys[n] else if n == j then key else keys[n - 1];
    }
  }
}
