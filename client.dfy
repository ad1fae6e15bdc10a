/**
 * The tagged statistics client. Its tag set is a field that the `extra_tags` scope updates
 * in place and restores; every metric method of the underlying client is intercepted and
 * forwarded with its first argument rewritten to the full metric name. The underlying
 * client is not modelled: what it is asked to send is recorded in a ghost trace.
 */
module Client {
  import opened Wrappers
  import opened Tags
  import opened WireName

  /** The metric methods of the underlying client that the wrapper intercepts. */
  datatype MetricOp = Decr | Gauge | Incr | Set | Timer | Timing

  /**
   * The method's own name, which starts the metric name. It is never empty and holds
   * neither separator of the tag format, so a decoder finds where it ends.
   */
  function OpName(op: MetricOp): (r: string)
    ensures r != "" && ',' !in r && '=' !in r
  {
    match op
    case Decr => "decr"
    case Gauge => "gauge"
    case Incr => "incr"
    case Set => "set"
    case Timer => "timer"
    case Timing => "timing"
  }

  /**
   * Attribute access on the client: a metric method's name selects that method, to be
   * wrapped; any other attribute passes through undecorated (None).
   */
  function Intercept(attr: string): (r: Option<MetricOp>)
    ensures r.Some? ==> OpName(r.value) == attr
    ensures r.None? ==> forall op :: OpName(op) != attr
  {
    if attr == "decr" then Some(Decr)
    else if attr == "gauge" then Some(Gauge)
    else if attr == "incr" then Some(Incr)
    else if attr == "set" then Some(Set)
    else if attr == "timer" then Some(Timer)
    else if attr == "timing" then Some(Timing)
    else None
  }

  /**
   * The arguments of a metric call after the name: the positional ones (`*args`) and the
   * keyword ones (`**kwargs`, such as `rate=` or `count=`) in the order given, with their
   * values rendered as text.
   */
  datatype Arguments = Arguments(positional: seq<string>, keyword: seq<(string, string)>)

  /** A call without further arguments. */
  const NO_ARGS := Arguments([], [])

  /** A call forwarded to the underlying client: the method, its first argument, the rest. */
  datatype Emission = Emission(op: MetricOp, metric: string, args: Arguments)

  /**
   * What the wrapper forwards when metric method `op` is called with `name` and `args` on
   * a client tagged `tags`: the same method and the same remaining positional and keyword
   * arguments, with the name replaced by the full metric name, which decodes to the
   * method's name and to the client's tags with `name` put in.
   */
  function Forward(op: MetricOp, tags: Dict, name: string, args: Arguments): (e: Emission)
    ensures e.op == op
    ensures e.args.positional == args.positional && e.args.keyword == args.keyword
  {
    Emission(op, ComposeName(OpName(op), tags, name), args)
  }

  /**
   * The forwarded metric name decodes to the method's name and to the client's tags with
   * `name` put in, when the name and the tags hold no separators.
   */
  lemma ForwardDecodes(op: MetricOp, tags: Dict, name: string, args: Arguments)
    requires ',' !in name && Clean(tags)
    ensures ParseMetric(Forward(op, tags, name, args).metric) == Some((OpName(op), Put(tags, "name", name)))
  {
    ComposeNameRoundTrip(OpName(op), tags, name);
  }

  class StatsClient {
    var tags: Dict
    /** The calls forwarded to the underlying client so far. */
    ghost var sent: seq<Emission>

    /** `StatsClient(tags=...)`; the transport options go to the underlying client. */
    constructor (tags: Dict)
      ensures this.tags == tags && sent == []
    {
      this.tags := tags;
      sent := [];
    }

    /**
     * Calling metric method `op`: the tags are merged with `name` on a copy, so the
     * client's own tags do not change, and one call is forwarded.
     */
    method Emit(op: MetricOp, name: string, args: Arguments) returns (e: Emission)
      modifies this`sent
      ensures e == Forward(op, tags, name, args)
      ensures tags == old(tags)
      ensures sent == old(sent) + [e]
    {
      var copy := Update(tags, [("name", name)]);
      e := Emission(op, OpName(op) + "," + TagsString(copy), args);
      sent := sent + [e];
    }

    /**
     * Entering `with client.extra_tags(extra)`: a copy of the tags is kept and the tags are
     * updated in place, existing keys keeping their places and new ones appended.
     */
    method ExtraTagsEnter(extra: Dict) returns (saved: Dict)
      modifies this`tags
      ensures saved == old(tags)
      ensures tags == Update(old(tags), extra)
    {
      saved := tags;
      tags := Update(tags, extra);
    }

    /** Leaving the scope, normally or by an exception: the kept copy becomes the tags again. */
    method ExtraTagsExit(saved: Dict)
      modifies this`tags
      ensures tags == saved
    {
      tags := saved;
    }

    /**
     * A new client whose tags are this client's merged with `extra`; this client is left
     * as it was.
     */
    method WithExtraTags(extra: Dict) returns (child: StatsClient)
      ensures fresh(child)
      ensures child.tags == Update(tags, extra) && child.sent == []
    {
      var all := Update(tags, extra);
      child := new StatsClient(all);
    }
  }

  /**
   * Tags of chained derivations accumulate: a child of a child has the base tags merged
   * with the first extra tags merged with the second.
   */
  method DeriveTwice(base: StatsClient, t1: Dict, t2: Dict) returns (c1: StatsClient, c2: StatsClient)
    ensures fresh(c1) && fresh(c2) && c1 != c2
    ensures c1.tags == Update(base.tags, t1)
    ensures c2.tags == Update(base.tags, Update(t1, t2))
  {
    c1 := base.WithExtraTags(t1);
    c2 := c1.WithExtraTags(t2);
    UpdateMerged(base.tags, t1, t2);
  }

  /**
   * A scoped tag update seen by one emission: inside the scope the call carries the merged
   * tags, and afterwards the client's tags are exactly what they were.
   */
  method EmitInScope(client: StatsClient, extra: Dict, op: MetricOp, name: string, args: Arguments)
    returns (e: Emission)
    modifies client
    ensures e == Forward(op, Update(old(client.tags), extra), name, args)
    ensures client.tags == old(client.tags)
    ensures client.sent == old(client.sent) + [e]
  {
    var saved := client.ExtraTagsEnter(extra);
    e := client.Emit(op, name, args);
    client.ExtraTagsExit(saved);
  }
}
