/**
 * The collection's keys. Creating and deleting presentations keep a collection
 * keyed `1..n` keyed that way: `Object.values` reads it in key order and the
 * rebuild after a delete numbers a list from 1 again. A save under a null
 * `presId` adds the `"null"` property beside the ids, and the collection is
 * then no longer keyed `1..n`.
 */
module Store {
  import opened Js
  import opened Document

  /** The ids `1..n`. */
  function KeyRange(n: nat): (r: set<Key>)
    ensures forall i :: Id(i) in r <==> 1 <= i <= n
    ensures forall k :: k in r ==> k.Id?
    ensures |r| == n
  {
    if n == 0 then {} else KeyRange(n - 1) + {Id(n)}
  }

  /** The ids in use are exactly `1..size`; in particular there is no `"null"` entry. */
  predicate Contiguous(c: Collection) {
    c.Keys == KeyRange(|c|)
  }

  /** `Object.values(store)`: the presentations in id order. */
  function Values(c: Collection): (s: seq<Presentation>)
    requires Contiguous(c)
    ensures |s| == |c|
    ensures forall i :: 0 <= i < |s| ==> Id(i + 1) in c && s[i] == c[Id(i + 1)]
  {
    seq(|c|, i requires 0 <= i < |c| => c[Id(i + 1)])
  }

  /** The `reduce` that turns a list back into a store keyed from 1. */
  function Rebuild(s: seq<Presentation>): (c: Collection)
    ensures Contiguous(c) && |c| == |s|
    ensures forall j :: 1 <= j <= |s| ==> Id(j) in c && c[Id(j)] == s[j - 1]
  {
    var c := map k | k in KeyRange(|s|) :: s[k.id - 1];
    assert c.Keys == KeyRange(|s|);
    c
  }

  /** Re-keying the values of a contiguous collection puts each presentation back under its id. */
  lemma RebuildValuesAt(c: Collection, k: Key)
    requires Contiguous(c) && k in c
    ensures k in Rebuild(Values(c)) && Rebuild(Values(c))[k] == c[k]
  {
    var vs := Values(c);
    assert 1 <= k.id <= |c|;
    assert Rebuild(vs)[k] == vs[k.id - 1];
  }

  lemma RebuildValues(c: Collection)
    requires Contiguous(c)
    ensures Rebuild(Values(c)) == c
  {
    var r := Rebuild(Values(c));
    assert r.Keys == c.Keys by {
      assert |Values(c)| == |c|;
    }
    forall k | k in c
      ensures r[k] == c[k]
    {
      RebuildValuesAt(c, k);
    }
    SameEntries(r, c);
  }

  /** Two collections with the same ids and the same entry under each id are equal. */
  lemma SameEntries(a: Collection, b: Collection)
    requires a.Keys == b.Keys
    requires forall k :: k in a ==> a[k] == b[k]
    ensures a == b
  {
  }

  lemma ValuesRebuild(s: seq<Presentation>)
    ensures Values(Rebuild(s)) == s
  {
  }

  /** Re-keying a list with element `i` spliced out: ids `1..i` keep elements `0..i-1`, and
      each later id `j` holds element `j`, the one that was under id `j + 1` before. */
  lemma RebuildWithout(s: seq<Presentation>, i: int)
    requires 0 <= i < |s|
    ensures var r := Rebuild(SpliceOne(s, i));
            && |r| == |s| - 1
            && r.Keys == KeyRange(|s| - 1)
            && (forall j :: 1 <= j <= i ==> Id(j) in r && r[Id(j)] == s[j - 1])
            && (forall j :: i < j < |s| ==> Id(j) in r && r[Id(j)] == s[j])
  {
    var rest := SpliceOne(s, i);
    assert SpliceStart(|s|, i) == i && |rest| == |s| - 1;
    var r := Rebuild(rest);
    forall j | 1 <= j <= i
      ensures Id(j) in r && r[Id(j)] == s[j - 1]
    {
      assert r[Id(j)] == rest[j - 1];
    }
    forall j | i < j < |s|
      ensures Id(j) in r && r[Id(j)] == s[j]
    {
      assert r[Id(j)] == rest[j - 1];
    }
  }

  /** Storing under id `size + 1` extends a contiguous collection by one id and
      leaves every existing entry where it was. */
  lemma {:induction false} InsertNextKeepsContiguous(c: Collection, p: Presentation)
    requires Contiguous(c)
    ensures var c' := c[Id(|c| + 1) := p];
            && Contiguous(c') && |c'| == |c| + 1
            && c'[Id(|c| + 1)] == p
            && forall k :: k in c ==> k in c' && c'[k] == c[k]
  {
    var c' := c[Id(|c| + 1) := p];
    assert Id(|c| + 1) !in c;
    assert c'.Keys == c.Keys + {Id(|c| + 1)};
    assert c'.Keys == KeyRange(|c| + 1);
  }

  /** Storing under the `"null"` property: the new key is not an id, so the collection is no
      longer keyed `1..n`; every id keeps its entry, and id `n + 1` is still free although
      the collection now has `n + 1` keys. */
  lemma SaveUnderNullKey(c: Collection, p: Presentation)
    requires Contiguous(c)
    ensures var c' := c[NullKey := p];
            && !Contiguous(c') && |c'| == |c| + 1
            && Id(|c| + 1) !in c'
            && forall k :: k in c ==> k.Id? && k in c' && c'[k] == c[k]
  {
    var c' := c[NullKey := p];
    assert NullKey !in c;
    assert NullKey in c' && NullKey !in KeyRange(|c'|);
  }

  /** Storing under an id already present keeps the ids `1..n` and replaces that one entry. */
  lemma SaveUnderExistingId(c: Collection, id: int, p: Presentation)
    requires Contiguous(c) && Id(id) in c
    ensures var c' := c[Id(id) := p];
            && Contiguous(c') && |c'| == |c| && c'[Id(id)] == p
            && forall k :: k in c && k != Id(id) ==> k in c' && c'[k] == c[k]
  {
    var c' := c[Id(id) := p];
    assert c'.Keys == c.Keys;
  }
}
