/**
 * A tag set: a Python `dict` from tag name to rendered tag value. Python dicts keep
 * insertion order, so a tag set is an ordered list of pairs whose keys are distinct.
 * `Put` is `d[k] = v` and `Update` is `d.update(t)`: an existing key keeps its position
 * and takes the new value, a new key is appended, in the argument's order.
 */
module Tags {
  import opened Wrappers
  import PyStr

  /** One tag: its name and its value, already converted to text. */
  type Tag = (string, string)

  /** The names of `m`, in order. */
  function Keys(m: seq<Tag>): seq<string> {
    seq(|m|, i requires 0 <= i < |m| => m[i].0)
  }

  /** The names of two tag lists one after the other. */
  lemma KeysConcat(a: seq<Tag>, b: seq<Tag>)
    ensures Keys(a + b) == Keys(a) + Keys(b)
  {
  }

  /** The names of a non-empty tag list: its first name, then the names of the rest. */
  lemma KeysCons(m: seq<Tag>)
    requires m != []
    ensures Keys(m) == [m[0].0] + Keys(m[1..])
  {
  }

  /** Concatenation of key sequences regroups freely. */
  lemma AppendAssoc(a: seq<string>, b: seq<string>, c: seq<string>)
    ensures a + b + c == a + (b + c)
  {
  }

  predicate DistinctKeys(m: seq<Tag>) {
    forall i, j :: 0 <= i < j < |m| ==> m[i].0 != m[j].0
  }

  /** An insertion-ordered dictionary of tags. */
  type Dict = m: seq<Tag> | DistinctKeys(m) witness []

  /** `d.get(k)`. */
  function Lookup(m: Dict, k: string): Option<string> {
    if k in Keys(m) then Some(m[PyStr.FirstIndex(Keys(m), k)].1) else None
  }

  /** In a dictionary, the value found for the key at position `j` is the one stored there. */
  lemma LookupAt(m: Dict, j: nat)
    requires j < |m|
    ensures Lookup(m, m[j].0) == Some(m[j].1)
  {
    var ks := Keys(m);
    assert ks[j] == m[j].0;
    var i := PyStr.FirstIndex(ks, m[j].0);
    assert ks[i] == m[i].0;
  }

  /** A key is absent exactly when the lookup finds nothing. */
  lemma LookupNone(m: Dict, k: string)
    ensures Lookup(m, k) == None <==> k !in Keys(m)
  {
  }

  /** `d[k] = v`: an existing key keeps its position, a new one is appended. */
  function Put(m: Dict, k: string, v: string): (r: Dict)
    ensures Keys(r) == if k in Keys(m) then Keys(m) else Keys(m) + [k]
  {
    if k in Keys(m) then
      var r := m[PyStr.FirstIndex(Keys(m), k) := (k, v)];
      assert Keys(r) == Keys(m);
      r
    else
      assert forall i :: 0 <= i < |m| ==> m[i].0 == Keys(m)[i];
      var r := m + [(k, v)];
      assert Keys(r) == Keys(m) + [k];
      r
  }

  /** After `d[k] = v`, `k` holds `v` and every other key holds what it held before. */
  lemma PutLookup(m: Dict, k: string, v: string, k': string)
    ensures Lookup(Put(m, k, v), k') == if k' == k then Some(v) else Lookup(m, k')
  {
    var r := Put(m, k, v);
    var i := if k in Keys(m) then PyStr.FirstIndex(Keys(m), k) else |m|;
    assert r[i] == (k, v);
    LookupAt(r, i);
    if k' != k && k' in Keys(m) {
      var j := PyStr.FirstIndex(Keys(m), k');
      assert r[j] == m[j];
      LookupAt(m, j);
      LookupAt(r, j);
    }
  }

  /** `PutLookup` for every key at once. */
  lemma PutLookups(m: Dict, k: string, v: string)
    ensures forall k' :: Lookup(Put(m, k, v), k') == if k' == k then Some(v) else Lookup(m, k')
  {
    forall k' ensures Lookup(Put(m, k, v), k') == if k' == k then Some(v) else Lookup(m, k') {
      PutLookup(m, k, v, k');
    }
  }

  /** `d.update(t)`: the pairs of `t` put into `m` one after another, in `t`'s order. */
  function Update(m: Dict, t: Dict): Dict
    decreases |t|
  {
    if t == [] then m
    else
      assert DistinctKeys(t[1..]);
      Update(Put(m, t[0].0, t[0].1), t[1..])
  }

  /** The keys of `added` that are not in `present`, each once, in order of first appearance. */
  function NewKeys(present: seq<string>, added: seq<string>): (r: seq<string>)
    ensures forall k :: k in r <==> k in added && k !in present
    decreases |added|
  {
    if added == [] then []
    else if added[0] in present then NewKeys(present, added[1..])
    else [added[0]] + NewKeys(present + [added[0]], added[1..])
  }

  /** Two dictionaries with the same keys in the same order and the same lookups are equal. */
  lemma Extensionality(a: Dict, b: Dict)
    requires Keys(a) == Keys(b)
    requires forall k :: Lookup(a, k) == Lookup(b, k)
    ensures a == b
  {
    assert |a| == |Keys(a)| == |Keys(b)| == |b|;
    forall i | 0 <= i < |a| ensures a[i] == b[i] {
      assert Keys(a)[i] == a[i].0 && Keys(b)[i] == b[i].0;
      LookupAt(a, i);
      LookupAt(b, i);
    }
  }

  /** Looking up in a non-empty dictionary: its first pair, or the rest. */
  lemma LookupCons(m: Dict, k: string)
    requires m != []
    ensures DistinctKeys(m[1..])
    ensures Lookup(m, k) == if m[0].0 == k then Some(m[0].1) else Lookup(m[1..], k)
  {
    assert DistinctKeys(m[1..]);
    var rest: Dict := m[1..];
    KeysCons(m);
    if m[0].0 == k {
      LookupAt(m, 0);
    } else if k in Keys(rest) {
      var j := PyStr.FirstIndex(Keys(rest), k);
      LookupAt(rest, j);
      assert m[j + 1] == rest[j];
      LookupAt(m, j + 1);
    }
  }

  /**
   * After `m.update(t)` a key holds `t`'s value if `t` has the key, and `m`'s value
   * (or nothing) otherwise.
   */
  lemma {:induction false} UpdateLookup(m: Dict, t: Dict, k: string)
    ensures Lookup(Update(m, t), k) == if k in Keys(t) then Lookup(t, k) else Lookup(m, k)
    decreases |t|
  {
    if t != [] {
      LookupCons(t, k);
      var rest: Dict := t[1..];
      KeysCons(t);
      UpdateLookup(Put(m, t[0].0, t[0].1), rest, k);
      PutLookup(m, t[0].0, t[0].1, k);
    }
  }

  /**
   * `m.update(t)` keeps every key of `m` where it was and appends the keys of `t`
   * that `m` lacks, in `t`'s order.
   */
  lemma {:induction false} UpdateKeys(m: Dict, t: Dict)
    ensures Keys(Update(m, t)) == Keys(m) + NewKeys(Keys(m), Keys(t))
    decreases |t|
  {
    if t != [] {
      var rest: Dict := t[1..];
      var k := t[0].0;
      KeysCons(t);
      NewKeysCons(Keys(m), k, Keys(rest));
      UpdateKeys(Put(m, k, t[0].1), rest);
      if k !in Keys(m) {
        AppendAssoc(Keys(m), [k], NewKeys(Keys(m) + [k], Keys(rest)));
      }
    }
  }

  /** `NewKeys` of a list with a first element: that element, if new, then the rest. */
  lemma NewKeysCons(present: seq<string>, k: string, rest: seq<string>)
    ensures NewKeys(present, [k] + rest)
         == if k in present then NewKeys(present, rest) else [k] + NewKeys(present + [k], rest)
  {
    assert ([k] + rest)[0] == k && ([k] + rest)[1..] == rest;
  }

  /** Adding one more key at the end of `added`. */
  lemma {:induction false} NewKeysSnoc(present: seq<string>, added: seq<string>, k: string)
    ensures NewKeys(present, added + [k])
         == NewKeys(present, added) + (if k in present || k in added then [] else [k])
    decreases |added|
  {
    if added == [] {
      assert added + [k] == [k];
    } else {
      assert (added + [k])[0] == added[0];
      assert (added + [k])[1..] == added[1..] + [k];
      if added[0] in present {
        NewKeysSnoc(present, added[1..], k);
      } else {
        NewKeysSnoc(present + [added[0]], added[1..], k);
      }
    }
  }

  /** Updating with a dictionary into which one more pair was put. */
  lemma UpdatePut(m: Dict, s: Dict, k: string, v: string)
    ensures Update(m, Put(s, k, v)) == Put(Update(m, s), k, v)
  {
    var lhs := Update(m, Put(s, k, v));
    var rhs := Put(Update(m, s), k, v);
    UpdatePutKeys(m, s, k, v);
    forall k' ensures Lookup(lhs, k') == Lookup(rhs, k') {
      UpdatePutLookup(m, s, k, v, k');
    }
    Extensionality(lhs, rhs);
  }

  lemma UpdatePutLookup(m: Dict, s: Dict, k: string, v: string, k': string)
    ensures Lookup(Update(m, Put(s, k, v)), k') == Lookup(Put(Update(m, s), k, v), k')
  {
    var s' := Put(s, k, v);
    UpdateLookup(m, s', k');
    UpdateLookup(m, s, k');
    PutLookup(s, k, v, k');
    PutLookup(Update(m, s), k, v, k');
    if k' != k {
      assert k' in Keys(s') <==> k' in Keys(s);
    }
  }

  lemma UpdatePutKeys(m: Dict, s: Dict, k: string, v: string)
    ensures Keys(Update(m, Put(s, k, v))) == Keys(Put(Update(m, s), k, v))
  {
    var u := Update(m, s);
    var km, ks := Keys(m), Keys(s);
    UpdateKeys(m, Put(s, k, v));
    UpdateKeys(m, s);
    assert Keys(u) == km + NewKeys(km, ks);
    if k in ks {
      assert Keys(Put(s, k, v)) == ks;
      assert k in Keys(u);
    } else {
      assert Keys(Put(s, k, v)) == ks + [k];
      NewKeysSnoc(km, ks, k);
      if k in km {
        assert k in Keys(u);
      } else {
        assert k !in Keys(u);
        AppendAssoc(km, NewKeys(km, ks), [k]);
      }
    }
  }


  /**
   * Updating with `t1` and then with `t2` is updating once with `t1` merged with `t2`
   * (`t2` winning where both have a key): tags accumulate across chained merges.
   */
  lemma {:induction false} UpdateMerged(m: Dict, t1: Dict, t2: Dict)
    ensures Update(Update(m, t1), t2) == Update(m, Update(t1, t2))
    decreases |t2|
  {
    if t2 != [] {
      var k, v := t2[0].0, t2[0].1;
      var rest: Dict := t2[1..];
      UpdateMerged(m, Put(t1, k, v), rest);
      UpdatePut(m, t1, k, v);
    }
  }

  /**
   * Two updates in a row whose dictionaries share no key are one update with the two
   * dictionaries one after the other.
   */
  lemma UpdateChained(m: Dict, t1: Dict, t2: Dict)
    requires forall k :: k in Keys(t2) ==> k !in Keys(t1)
    ensures DistinctKeys(t1 + t2)
    ensures Update(Update(m, t1), t2) == Update(m, t1 + t2)
  {
    UpdateMerged(m, t1, t2);
    UpdateDisjoint(t1, t2);
  }

  /** Updating with one pair is putting that pair. */
  lemma UpdateSingle(m: Dict, k: string, v: string)
    ensures Update(m, [(k, v)]) == Put(m, k, v)
  {
    assert [(k, v)][1..] == [];
  }

  /** Updating with a two-entry dictionary is putting its two pairs in order. */
  lemma UpdateTwo(m: Dict, k1: string, v1: string, k2: string, v2: string)
    requires k1 != k2
    ensures DistinctKeys([(k1, v1), (k2, v2)])
    ensures Update(m, [(k1, v1), (k2, v2)]) == Put(Put(m, k1, v1), k2, v2)
  {
    var t: Dict := [(k1, v1), (k2, v2)];
    assert t[1..] == [(k2, v2)];
    UpdateSingle(Put(m, k1, v1), k2, v2);
  }

  /** Putting a key the dictionary lacks appends the pair. */
  lemma PutAbsent(m: Dict, k: string, v: string)
    requires k !in Keys(m)
    ensures Put(m, k, v) == m + [(k, v)]
  {
  }

  /** Two dictionaries without common keys concatenate to a dictionary. */
  lemma ConcatDistinct(m: Dict, t: Dict)
    requires forall k :: k in Keys(t) ==> k !in Keys(m)
    ensures DistinctKeys(m + t)
  {
    forall i, j | 0 <= i < j < |m + t| ensures (m + t)[i].0 != (m + t)[j].0 {
      if j < |m| {
        assert (m + t)[i] == m[i] && (m + t)[j] == m[j];
      } else if i >= |m| {
        assert (m + t)[i] == t[i - |m|] && (m + t)[j] == t[j - |m|];
      } else {
        assert Keys(m)[i] == m[i].0 && Keys(m)[i] in Keys(m);
        assert Keys(t)[j - |m|] == t[j - |m|].0 && Keys(t)[j - |m|] in Keys(t);
      }
    }
  }

  /** When no key of `t` is in `m`, `m.update(t)` appends `t`'s pairs in order. */
  lemma UpdateDisjoint(m: Dict, t: Dict)
    requires forall k :: k in Keys(t) ==> k !in Keys(m)
    ensures DistinctKeys(m + t)
    ensures Update(m, t) == m + t
  {
    ConcatDistinct(m, t);
    UpdateAppends(m, t);
  }

  /** The induction behind `UpdateDisjoint`: one pair of `t` appended at a time. */
  lemma {:induction false} UpdateAppends(m: Dict, t: Dict)
    requires forall k :: k in Keys(t) ==> k !in Keys(m)
    ensures Update(m, t) == m + t
    decreases |t|
  {
    if t != [] {
      var m' := DisjointStep(m, t);
      UpdateAppends(m', t[1..]);
      SnocRest(m, t);
    }
  }

  /** Moving the first element of `b` to the end of `a` keeps the concatenation. */
  lemma SnocRest(a: seq<Tag>, b: seq<Tag>)
    requires b != []
    ensures a + [b[0]] + b[1..] == a + b
  {
    assert b == [b[0]] + b[1..];
  }

  lemma DisjointStep(m: Dict, t: Dict) returns (m': Dict)
    requires t != []
    requires forall k :: k in Keys(t) ==> k !in Keys(m)
    ensures DistinctKeys(t[1..])
    ensures m' == m + [t[0]] && m' == Put(m, t[0].0, t[0].1)
    ensures forall k :: k in Keys(t[1..]) ==> k !in Keys(m')
  {
    var rest: Dict := t[1..];
    KeysCons(t);
    PutAbsent(m, t[0].0, t[0].1);
    m' := m + [t[0]];
    assert Keys(m') == Keys(m) + [t[0].0];
    forall k | k in Keys(rest) ensures k !in Keys(m') {
      var j :| 0 <= j < |rest| && Keys(rest)[j] == k;
      assert t[j + 1].0 == k && t[0].0 != k;
    }
  }
}
