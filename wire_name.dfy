/**
 * The wire name of a metric: `<op>,<k1>=<v1>,...,name=<name>`, as composed by
 * `get_tags_string` and the wrapper that `get_metric` puts around every metric method.
 * A decoder for that text is given beside it, so that the composition can be shown to
 * lose nothing when tag names and values hold no separators.
 */
module WireName {
  import opened Wrappers
  import opened PyStr
  import opened Tags

  /** `f"{k}={v}"` */
  function Pair(t: Tag): string {
    t.0 + "=" + t.1
  }

  /** The rendered pairs of `m`, in order. */
  function Pairs(m: seq<Tag>): seq<string> {
    seq(|m|, i requires 0 <= i < |m| => Pair(m[i]))
  }

  /** `get_tags_string`: the `k=v` pairs of the tag set joined by `,`, in insertion order. */
  function TagsString(m: seq<Tag>): string {
    Join(Pairs(m), ',')
  }

  /** The tag set with no tags renders as the empty string. */
  lemma TagsStringEmpty()
    ensures TagsString([]) == ""
  {
  }

  /** Rendering one more tag adds `,k=v` at the end (just `k=v` for the first tag). */
  lemma TagsStringSnoc(m: seq<Tag>, t: Tag)
    ensures TagsString(m + [t]) == (if m == [] then "" else TagsString(m) + ",") + t.0 + "=" + t.1
  {
    assert Pairs(m + [t]) == Pairs(m) + [Pair(t)];
    if m == [] {
      assert Pairs(m + [t]) == [Pair(t)];
    } else {
      JoinSnoc(Pairs(m), Pair(t), ',');
    }
  }

  /** Tags whose names hold neither `,` nor `=` and whose values hold no `,`. */
  predicate Clean(m: seq<Tag>) {
    forall i :: 0 <= i < |m| ==> ',' !in m[i].0 && '=' !in m[i].0 && ',' !in m[i].1
  }

  /** Reads one `k=v` item back, splitting at its first `=`. */
  function ParsePair(s: string): Option<Tag> {
    if '=' in s then
      var i := FirstIndex(s, '=');
      Some((s[..i], s[i + 1..]))
    else None
  }

  function ParseItems(items: seq<string>): Option<seq<Tag>> {
    if items == [] then Some([])
    else
      match (ParsePair(items[0]), ParseItems(items[1..]))
      case (Some(t), Some(ts)) => Some([t] + ts)
      case _ => None
  }

  /** Reads a rendered tag string back into its pairs. */
  function ParseTags(s: string): Option<seq<Tag>> {
    if s == "" then Some([]) else ParseItems(Split(s, ','))
  }

  lemma ParsePairOfPair(t: Tag)
    requires '=' !in t.0
    ensures ParsePair(Pair(t)) == Some(t)
  {
    var s := Pair(t);
    assert s[|t.0|] == '=';
    assert s[..|t.0|] == t.0;
    var i := FirstIndex(s, '=');
    assert i == |t.0|;
    assert s[i + 1..] == t.1;
  }

  lemma {:induction false} ParseItemsOfPairs(m: seq<Tag>)
    requires Clean(m)
    ensures ParseItems(Pairs(m)) == Some(m)
    decreases |m|
  {
    if m != [] {
      var ps := Pairs(m);
      assert ps[0] == Pair(m[0]);
      assert ps[1..] == Pairs(m[1..]);
      ParsePairOfPair(m[0]);
      ParseItemsOfPairs(m[1..]);
      assert ParseItems(ps) == Some([m[0]] + m[1..]);
      assert [m[0]] + m[1..] == m;
    }
  }

  /**
   * The rendered tag string determines the tag set: reading it back gives the same pairs
   * in the same order, as long as names hold no `,` or `=` and values no `,`.
   */
  lemma TagsStringRoundTrip(m: seq<Tag>)
    requires Clean(m)
    ensures ParseTags(TagsString(m)) == Some(m)
  {
    if m == [] {
    } else {
      var ps := Pairs(m);
      forall k | 0 <= k < |ps| ensures ',' !in ps[k] {
        assert ps[k] == m[k].0 + "=" + m[k].1;
      }
      SplitJoin(ps, ',');
      assert ps[0][|m[0].0|] == '=';
      ParseItemsOfPairs(m);
    }
  }

  /**
   * The full metric name built by `get_metric`'s wrapper: the metric method's own name,
   * `,`, and the client's tags with `name` merged in (on a copy) rendered as a tag string.
   */
  function ComposeName(op: string, tags: Dict, name: string): string {
    op + "," + TagsString(Update(tags, [("name", name)]))
  }

  /** Reads a metric name back into the operation and its tags. */
  function ParseMetric(s: string): Option<(string, seq<Tag>)> {
    if ',' in s then
      var i := FirstIndex(s, ',');
      match ParseTags(s[i + 1..])
      case Some(ts) => Some((s[..i], ts))
      case None => None
    else None
  }

  /** A client without tags emits `<op>,name=<name>`. */
  lemma ComposeNameUntagged(op: string, name: string)
    ensures ComposeName(op, [], name) == op + ",name=" + name
  {
    UpdateSingle([], "name", name);
    TagsStringSnoc([], ("name", name));
  }

  /**
   * When the client's tags have no `name` key, the name is the client's tags in their
   * order followed by `,name=<name>`.
   */
  lemma ComposeNameAppends(op: string, tags: Dict, name: string)
    requires tags != [] && "name" !in Keys(tags)
    ensures ComposeName(op, tags, name) == op + "," + TagsString(tags) + ",name=" + name
  {
    UpdateSingle(tags, "name", name);
    PutAbsent(tags, "name", name);
    TagsStringSnoc(tags, ("name", name));
    NameField(op + ",", TagsString(tags), name);
  }

  /** Regrouping the rendered `name` field after a prefix and the other tags. */
  lemma NameField(p: string, ts: string, name: string)
    ensures p + (ts + "," + "name" + "=" + name) == p + ts + ",name=" + name
  {
    assert "," + "name" + "=" == ",name=";
  }

  /**
   * The metric name decodes to the operation and to the client's tags with `name` put in:
   * a `name` tag the client already has keeps its place and takes the call's name, any
   * other tag keeps its place and value.
   */
  lemma ComposeNameRoundTrip(op: string, tags: Dict, name: string)
    requires ',' !in op && ',' !in name && Clean(tags)
    ensures ParseMetric(ComposeName(op, tags, name)) == Some((op, Put(tags, "name", name)))
  {
    var all := Put(tags, "name", name);
    UpdateSingle(tags, "name", name);
    PutClean(tags, "name", name);
    var rest := TagsString(all);
    TagsStringRoundTrip(all);
    var s := ComposeName(op, tags, name);
    assert s == op + [','] + rest;
    assert s[|op|] == ',';
    assert s[..|op|] == op;
    var i := FirstIndex(s, ',');
    assert i == |op|;
    assert s[i + 1..] == rest;
  }

  /** Putting a clean pair into clean tags keeps them clean. */
  lemma PutClean(tags: Dict, k: string, v: string)
    requires Clean(tags) && ',' !in k && '=' !in k && ',' !in v
    ensures Clean(Put(tags, k, v))
  {
    var all := Put(tags, k, v);
    forall i | 0 <= i < |all|
      ensures ',' !in all[i].0 && '=' !in all[i].0 && ',' !in all[i].1
    {
      assert all[i] in all;
      if all[i] != (k, v) {
        var j :| 0 <= j < |tags| && tags[j] == all[i];
      }
    }
  }
}
