/**
 * The picked-people lists of the three interview dialogs (src/components/EditInterviewModal.tsx,
 * src/components/InterviewModal.tsx and src/components/EditInterviewersModal.tsx): an entry
 * is appended when picked from a dropdown that leaves out what is already picked, and
 * removal filters out every entry with the given key.
 */
module SelectionLists {
  import opened Lists

  /** `s.some(i => key(i) === k)`. */
  predicate HasKey<T, K(==)>(s: seq<T>, key: T -> K, k: K) {
    exists i :: 0 <= i < |s| && key(s[i]) == k
  }

  /** No two entries share a key. */
  predicate UniqueKeys<T, K(==)>(s: seq<T>, key: T -> K) {
    forall i, j :: 0 <= i < j < |s| ==> key(s[i]) != key(s[j])
  }

  /** `prev.filter(i => key(i) !== k)`: the entries whose key is not `k`, in their order. */
  function RemoveKey<T, K(==)>(s: seq<T>, key: T -> K, k: K): (r: seq<T>)
    ensures IsSubsequence(r, s)
    ensures !HasKey(r, key, k)
    ensures forall i :: 0 <= i < |r| ==> r[i] in s
    ensures forall i :: 0 <= i < |s| && key(s[i]) != k ==> s[i] in r
  {
    var keep := (x: T) => key(x) != k;
    FilterIsSubsequence(s, keep);
    Filter(s, keep)
  }

  /** Removing the entries of a key that is not there changes nothing. */
  lemma RemoveAbsentKey<T, K>(s: seq<T>, key: T -> K, k: K)
    requires !HasKey(s, key, k)
    ensures RemoveKey(s, key, k) == s
  {
    FilterAll(s, (x: T) => key(x) != k);
  }

  /** Appending an entry whose key is not yet there keeps the keys free of repeats. */
  lemma AppendKeepsKeysUnique<T, K>(s: seq<T>, key: T -> K, x: T)
    requires UniqueKeys(s, key) && !HasKey(s, key, key(x))
    ensures UniqueKeys(s + [x], key)
  {
    var t := s + [x];
    forall i, j | 0 <= i < j < |t| ensures key(t[i]) != key(t[j]) {
      if j == |s| {
        assert t[i] == s[i];
      } else {
        assert t[i] == s[i] && t[j] == s[j];
      }
    }
  }

  /** Removing entries keeps the keys free of repeats. */
  lemma RemoveKeepsKeysUnique<T, K>(s: seq<T>, key: T -> K, k: K)
    requires UniqueKeys(s, key)
    ensures UniqueKeys(RemoveKey(s, key, k), key)
  {
    FilterKeepsKeysUnique(s, key, (x: T) => key(x) != k);
  }

  /** An entry put in front of a list with none of its key keeps the keys unique. */
  lemma ConsKeepsKeysUnique<T, K>(x: T, r: seq<T>, key: T -> K)
    requires UniqueKeys(r, key) && !HasKey(r, key, key(x))
    ensures UniqueKeys([x] + r, key)
  {
    var t := [x] + r;
    forall i, j | 0 <= i < j < |t| ensures key(t[i]) != key(t[j]) {
      assert t[j] == r[j - 1];
      if i > 0 {
        assert t[i] == r[i - 1];
      }
    }
  }

  lemma {:induction false} FilterKeepsKeysUnique<T, K>(s: seq<T>, key: T -> K, p: T -> bool)
    requires UniqueKeys(s, key)
    ensures UniqueKeys(Filter(s, p), key)
    decreases |s|
  {
    if s != [] {
      var t := s[1..];
      assert UniqueKeys(t, key) by {
        forall i, j | 0 <= i < j < |t| ensures key(t[i]) != key(t[j]) {
          assert t[i] == s[i + 1] && t[j] == s[j + 1];
        }
      }
      FilterKeepsKeysUnique(t, key, p);
      if p(s[0]) {
        var rest := Filter(t, p);
        forall i | 0 <= i < |rest| ensures key(rest[i]) != key(s[0]) {
          var m :| 0 <= m < |t| && t[m] == rest[i];
          assert s[m + 1] == t[m];
        }
        ConsKeepsKeysUnique(s[0], rest, key);
      }
    }
  }
}
