/**
 * The package's own test cases replayed on the model: a client obtained for service
 * `test` from module `tests.test_metrics`, and the exact metric names its metric methods
 * are forwarded with. Each expected name is written field by field, one string per
 * `,`-separated field, in the order the fields appear on the wire.
 */
module Scenarios {
  import opened Wrappers
  import opened Tags
  import opened WireName
  import opened Client
  import opened Registry
  import opened Measure

  const TEST_MODULE := "tests.test_metrics"

  /** The tags of the test client: `module`, then `service`. */
  function TestTags(): Dict {
    [("module", TEST_MODULE), ("service", "test")]
  }

  /** A metric name up to its last tag, built left to right one `,key=value` at a time. */
  function WirePrefix(op: string, m: seq<Tag>): string
    requires m != []
  {
    if |m| == 1 then op + "," + m[0].0 + "=" + m[0].1
    else WirePrefix(op, m[..|m| - 1]) + "," + m[|m| - 1].0 + "=" + m[|m| - 1].1
  }

  /** The method's name, a `,` and the tags on the wire, read left to right. */
  lemma {:induction false} WirePrefixOfTags(op: string, m: seq<Tag>)
    requires m != []
    ensures op + "," + TagsString(m) == WirePrefix(op, m)
    decreases |m|
  {
    var last := m[|m| - 1];
    var init := m[..|m| - 1];
    assert m == init + [last];
    TagsStringSnoc(init, last);
    if |m| > 1 {
      WirePrefixOfTags(op, init);
    }
  }

  /** A metric name for tags without `name`, read left to right. */
  lemma MetricOf(op: string, m: Dict, name: string)
    requires m != [] && "name" !in Keys(m)
    ensures ComposeName(op, m, name) == WirePrefix(op, m) + ",name=" + name
  {
    ComposeNameAppends(op, m, name);
    WirePrefixOfTags(op, m);
  }

  /** One more tag on a metric name read left to right: its `,key=value` field. */
  lemma PrefixPlus(op: string, m: seq<Tag>, t: Tag, p: string, q: string)
    requires m != [] && WirePrefix(op, m) == p
    requires p + "," + t.0 + "=" + t.1 == q
    ensures WirePrefix(op, m + [t]) == q
  {
    assert (m + [t])[..|m|] == m;
  }

  /** None of the keys is one the test client's tags or the metric's name already use. */
  predicate Untaken(ks: seq<string>) {
    "module" !in ks && "service" !in ks && "name" !in ks
  }

  /** The test client's tags followed by more tags, none of them already present. */
  lemma ExtendTestTags(extra: Dict)
    requires forall k :: k in Keys(extra) ==> k != "module" && k != "service"
    ensures DistinctKeys(TestTags() + extra)
    ensures Update(TestTags(), extra) == TestTags() + extra
  {
    assert Keys(TestTags()) == ["module", "service"];
    UpdateDisjoint(TestTags(), extra);
  }

  /** A metric of the test client with `extra` merged in, read left to right. */
  lemma TestMetric(op: string, extra: Dict, name: string)
    requires Untaken(Keys(extra))
    ensures ComposeName(op, Update(TestTags(), extra), name) == WirePrefix(op, TestTags() + extra) + ",name=" + name
  {
    ExtendTestTags(extra);
    KeysConcat(TestTags(), extra);
    assert Keys(TestTags()) == ["module", "service"];
    MetricOf(op, TestTags() + extra, name);
  }

  /**
   * A metric method called on the test client with `extra` merged into its tags: the
   * name is the tags read left to right, then the `name` field.
   */
  lemma TestEmission(op: MetricOp, extra: Dict, name: string, prefix: string)
    requires Untaken(Keys(extra))
    requires WirePrefix(OpName(op), TestTags() + extra) == prefix
    ensures Forward(op, Update(TestTags(), extra), name, NO_ARGS) == Emission(op, prefix + ",name=" + name, NO_ARGS)
  {
    TestMetric(OpName(op), extra, name);
  }

  /**
   * A metric method called by a function decorated with `measure_function` on the test
   * client, given the measurement tags the decorator computes.
   */
  lemma MeasuredEmission(op: MetricOp, fnName: string, extra: Dict, qualname: string, measured: Dict,
                         name: string, prefix: string)
    requires MeasureTags(fnName, extra, MethodsClassname(true, qualname)) == measured
    requires Untaken(Keys(measured))
    requires WirePrefix(OpName(op), TestTags() + measured) == prefix
    ensures Forward(op, Update(TestTags(), MeasureTags(fnName, extra, MethodsClassname(true, qualname))), name, NO_ARGS)
         == Emission(op, prefix + ",name=" + name, NO_ARGS)
  {
    TestEmission(op, measured, name, prefix);
  }

  /**
   * A metric method called on a child of a child of the test client, the first derived
   * with `t1` and the second with `t2`, which add new keys.
   */
  lemma ChainedEmission(op: MetricOp, t1: Dict, t2: Dict, name: string, prefix: string)
    requires forall k :: k in Keys(t2) ==> k !in Keys(t1)
    requires Untaken(Keys(t1) + Keys(t2))
    requires DistinctKeys(t1 + t2) ==> WirePrefix(OpName(op), TestTags() + (t1 + t2)) == prefix
    ensures Forward(op, Update(Update(TestTags(), t1), t2), name, NO_ARGS) == Emission(op, prefix + ",name=" + name, NO_ARGS)
  {
    UpdateChained(TestTags(), t1, t2);
    KeysConcat(t1, t2);
    TestEmission(op, t1 + t2, name, prefix);
  }

  /** The test client's tags after a method's name. */
  lemma TestPrefix(op: string)
    ensures WirePrefix(op, TestTags()) == op + ",module=tests.test_metrics" + ",service=test"
  {
    var first: seq<Tag> := [("module", TEST_MODULE)];
    assert WirePrefix(op, first) == op + ",module=tests.test_metrics";
    assert first + [("service", "test")] == TestTags();
    PrefixPlus(op, first, ("service", "test"),
      op + ",module=tests.test_metrics",
      op + ",module=tests.test_metrics" + ",service=test");
  }

  /** A fresh client for service `test` from the registry. */
  method TestClient() returns (client: StatsClient)
    ensures fresh(client) && client.tags == TestTags() && client.sent == []
  {
    var registry := new Registry();
    client := registry.GetClient("test", TEST_MODULE, Kwargs(None, []));
    ClientTagsWithoutCallerTags("test", TEST_MODULE, []);
  }

  lemma FoolEmission()
    ensures Forward(Incr, TestTags(), "fool", NO_ARGS)
         == Emission(Incr, "incr" + ",module=tests.test_metrics" + ",service=test" + ",name=" + "fool", NO_ARGS)
  {
    TestPrefix("incr");
    assert TestTags() + [] == TestTags();
    ExtendTestTags([]);
    TestEmission(Incr, [], "fool",
      "incr" + ",module=tests.test_metrics" + ",service=test");
  }

  /** `client.incr("fool")` on the test client. */
  method EmitOnTestClient() returns (e: Emission)
    ensures e == Emission(Incr, "incr" + ",module=tests.test_metrics" + ",service=test" + ",name=" + "fool", NO_ARGS)
  {
    var client := TestClient();
    e := client.Emit(Incr, "fool", NO_ARGS);
    FoolEmission();
  }

  lemma FoolWithoutTags()
    ensures Forward(Incr, [], "fool", NO_ARGS) == Emission(Incr, "incr" + ",name=" + "fool", NO_ARGS)
  {
    ComposeNameUntagged("incr", "fool");
  }

  /** `StatsClient().incr("fool")`: a client without tags. */
  method EmitWithoutTags() returns (e: Emission)
    ensures e == Emission(Incr, "incr" + ",name=" + "fool", NO_ARGS)
  {
    var client := new StatsClient([]);
    e := client.Emit(Incr, "fool", NO_ARGS);
    FoolWithoutTags();
  }

  lemma ShoesEmission()
    ensures Forward(Incr, Update(TestTags(), [("def", "something")]), "shoes", NO_ARGS)
         == Emission(Incr, "incr" + ",module=tests.test_metrics" + ",service=test" + ",def=something" + ",name=" + "shoes", NO_ARGS)
  {
    TestPrefix("incr");
    PrefixPlus("incr", TestTags(), ("def", "something"),
      "incr" + ",module=tests.test_metrics" + ",service=test",
      "incr" + ",module=tests.test_metrics" + ",service=test" + ",def=something");
    assert Keys([("def", "something")]) == ["def"];
    TestEmission(Incr, [("def", "something")], "shoes",
      "incr" + ",module=tests.test_metrics" + ",service=test" + ",def=something");
  }

  /** `with client.extra_tags({"def": "something"}): client.incr("shoes")`. */
  method EmitInExtraTagsScope() returns (e: Emission)
    ensures e == Emission(Incr, "incr" + ",module=tests.test_metrics" + ",service=test" + ",def=something" + ",name=" + "shoes", NO_ARGS)
  {
    var client := TestClient();
    var extra: Dict := [("def", "something")];
    e := EmitInScope(client, extra, Incr, "shoes", NO_ARGS);
    ShoesEmission();
  }

  /** The qualified names of the three decorated functions of the tests. */
  const PLAIN_PREFIX := "MetricsTestCase.test_measure_function"
  const METHOD_PREFIX := PLAIN_PREFIX + "_class_method"
  const EXTRA_PREFIX := PLAIN_PREFIX + "_extra_tags"
  const PLAIN_QUALNAME := PLAIN_PREFIX + LOCALS + "wrapped_fn"
  const METHOD_QUALNAME := METHOD_PREFIX + LOCALS + "TestClass" + "." + "wrapped_fn"
  const EXTRA_QUALNAME := EXTRA_PREFIX + LOCALS + "wrapped_fn"
  /** No extra tags. */
  const NO_TAGS: Dict := []
  /** The extra tags the third decorated function is given. */
  const FOO_ONE: Dict := [("foo", "one")]
  /** The measurement tags of the three decorated functions. */
  const PLAIN_TAGS: Dict := [("def", "wrapped_fn")]
  const METHOD_TAGS: Dict := [("def", "wrapped_fn"), ("class", "TestClass")]
  const EXTRA_TAGS: Dict := [("def", "wrapped_fn"), ("foo", "one")]

  /** The qualified names hold no `<` before their `.<locals>.`. */
  lemma PrefixesWithoutAngle()
    ensures '<' !in PLAIN_PREFIX && '<' !in METHOD_PREFIX && '<' !in EXTRA_PREFIX
  {
    assert '<' !in "_class_method";
    assert '<' !in "_extra_tags";
  }

  /** The keys of the tags involved; the measurement tags take none of the test client's. */
  lemma MeasuredKeys()
    ensures Keys(NO_TAGS) == [] && Keys(FOO_ONE) == ["foo"] && Keys(PLAIN_TAGS) == ["def"]
    ensures Untaken(Keys(PLAIN_TAGS)) && Untaken(Keys(METHOD_TAGS)) && Untaken(Keys(EXTRA_TAGS))
  {
    assert Keys(METHOD_TAGS) == ["def", "class"];
    assert Keys(EXTRA_TAGS) == ["def", "foo"];
  }

  /** `def=wrapped_fn` updated with `foo=one`. */
  lemma ExtraMerge()
    ensures Update(PLAIN_TAGS, FOO_ONE) == EXTRA_TAGS
  {
    MeasuredKeys();
    UpdateDisjoint(PLAIN_TAGS, FOO_ONE);
    assert PLAIN_TAGS + FOO_ONE == EXTRA_TAGS;
  }

  /** A nested function: measured with `def` alone. */
  lemma PlainFunctionTags()
    ensures MeasureTags("wrapped_fn", NO_TAGS, MethodsClassname(true, PLAIN_QUALNAME)) == PLAIN_TAGS
  {
    PrefixesWithoutAngle();
    MeasuredKeys();
    NestedFunctionNotClassTagged(PLAIN_PREFIX, "wrapped_fn", NO_TAGS);
  }

  /** A method of a class defined in a function: measured with `def` and then `class`. */
  lemma MethodTags()
    ensures MeasureTags("wrapped_fn", NO_TAGS, MethodsClassname(true, METHOD_QUALNAME)) == METHOD_TAGS
  {
    PrefixesWithoutAngle();
    LocalClassname(METHOD_PREFIX, "TestClass", "wrapped_fn");
    ClassTags();
  }

  /** The measurement tags of `wrapped_fn` in class `TestClass`. */
  lemma ClassTags()
    ensures MeasureTags("wrapped_fn", NO_TAGS, Some("TestClass")) == METHOD_TAGS
  {
    var r := MeasureTags("wrapped_fn", NO_TAGS, Some("TestClass"));
    var expected := METHOD_TAGS;
    LookupNone(NO_TAGS, "def");
    LookupNone(NO_TAGS, "class");
    assert ClassTagged("wrapped_fn", NO_TAGS, Some("TestClass"));
    assert Keys(r) == ["def", "class"] == Keys(expected);
    LookupAt(expected, 0);
    LookupAt(expected, 1);
    forall k ensures Lookup(r, k) == Lookup(expected, k) {
      LookupNone(NO_TAGS, k);
      LookupNone(expected, k);
    }
    Extensionality(r, expected);
  }

  /** A nested function decorated with extra tags: `def` first, then the extra tags. */
  lemma ExtraTagsTags()
    ensures MeasureTags("wrapped_fn", FOO_ONE, MethodsClassname(true, EXTRA_QUALNAME)) == EXTRA_TAGS
  {
    PrefixesWithoutAngle();
    MeasuredKeys();
    NestedFunctionNotClassTagged(EXTRA_PREFIX, "wrapped_fn", FOO_ONE);
    ExtraMerge();
  }

  /** The test client's tags and `def=wrapped_fn` after a method's name. */
  lemma DefPrefix(op: string)
    ensures WirePrefix(op, TestTags() + PLAIN_TAGS)
         == op + ",module=tests.test_metrics" + ",service=test" + ",def=wrapped_fn"
  {
    TestPrefix(op);
    PrefixPlus(op, TestTags(), ("def", "wrapped_fn"),
      op + ",module=tests.test_metrics" + ",service=test",
      op + ",module=tests.test_metrics" + ",service=test" + ",def=wrapped_fn");
  }

  /** A metric method the decorated nested function's wrapper calls. */
  lemma PlainEmission(op: MetricOp, name: string)
    ensures Forward(op, Update(TestTags(), MeasureTags("wrapped_fn", NO_TAGS, MethodsClassname(true, PLAIN_QUALNAME))), name, NO_ARGS)
         == Emission(op, OpName(op) + ",module=tests.test_metrics" + ",service=test" + ",def=wrapped_fn" + ",name=" + name, NO_ARGS)
  {
    PlainFunctionTags();
    MeasuredKeys();
    DefPrefix(OpName(op));
    MeasuredEmission(op, "wrapped_fn", NO_TAGS, PLAIN_QUALNAME, PLAIN_TAGS, name, OpName(op) + ",module=tests.test_metrics" + ",service=test" + ",def=wrapped_fn");
  }

  /** A call of the decorated nested function `wrapped_fn`. */
  method MeasureNestedFunction() returns (client: StatsClient)
    ensures client.sent == [
      Emission(Incr, "incr" + ",module=tests.test_metrics" + ",service=test" + ",def=wrapped_fn" + ",name=" + "calls", NO_ARGS),
      Emission(Timer, "timer" + ",module=tests.test_metrics" + ",service=test" + ",def=wrapped_fn" + ",name=" + "duration", NO_ARGS)]
  {
    client := TestClient();
    var r := MeasuredCall(client, NO_TAGS, Some("wrapped_fn"), true, PLAIN_QUALNAME, true, Returned("None"));
    PlainEmission(Incr, "calls");
    PlainEmission(Timer, "duration");
  }

  /** The test client's tags, `def=wrapped_fn` and `class=TestClass` after a method's name. */
  lemma MethodPrefix(op: string)
    ensures WirePrefix(op, TestTags() + METHOD_TAGS) == op + ",module=tests.test_metrics" + ",service=test" + ",def=wrapped_fn" + ",class=TestClass"
  {
    var m := TestTags() + PLAIN_TAGS;
    assert m + [("class", "TestClass")] == TestTags() + METHOD_TAGS;
    DefPrefix(op);
    PrefixPlus(op, m, ("class", "TestClass"), op + ",module=tests.test_metrics" + ",service=test" + ",def=wrapped_fn", op + ",module=tests.test_metrics" + ",service=test" + ",def=wrapped_fn" + ",class=TestClass");
  }

  /** A metric method the decorated method's wrapper calls. */
  lemma MethodEmission(op: MetricOp, name: string)
    ensures Forward(op, Update(TestTags(), MeasureTags("wrapped_fn", NO_TAGS, MethodsClassname(true, METHOD_QUALNAME))), name, NO_ARGS)
         == Emission(op, OpName(op) + ",module=tests.test_metrics" + ",service=test" + ",def=wrapped_fn" + ",class=TestClass" + ",name=" + name, NO_ARGS)
  {
    MethodTags();
    MeasuredKeys();
    MethodPrefix(OpName(op));
    MeasuredEmission(op, "wrapped_fn", NO_TAGS, METHOD_QUALNAME, METHOD_TAGS, name, OpName(op) + ",module=tests.test_metrics" + ",service=test" + ",def=wrapped_fn" + ",class=TestClass");
  }

  /** A call of the decorated method `TestClass.wrapped_fn`. */
  method MeasureMethod() returns (client: StatsClient)
    ensures client.sent == [
      Emission(Incr, "incr" + ",module=tests.test_metrics" + ",service=test" + ",def=wrapped_fn" + ",class=TestClass" + ",name=" + "calls", NO_ARGS),
      Emission(Timer, "timer" + ",module=tests.test_metrics" + ",service=test" + ",def=wrapped_fn" + ",class=TestClass" + ",name=" + "duration", NO_ARGS)]
  {
    client := TestClient();
    var r := MeasuredCall(client, NO_TAGS, Some("wrapped_fn"), true, METHOD_QUALNAME, true, Returned("None"));
    MethodEmission(Incr, "calls");
    MethodEmission(Timer, "duration");
  }

  /** The test client's tags, `def=wrapped_fn` and `foo=one` after a method's name. */
  lemma ExtraPrefix(op: string)
    ensures WirePrefix(op, TestTags() + EXTRA_TAGS) == op + ",module=tests.test_metrics" + ",service=test" + ",def=wrapped_fn" + ",foo=one"
  {
    var m := TestTags() + PLAIN_TAGS;
    assert m + [("foo", "one")] == TestTags() + EXTRA_TAGS;
    DefPrefix(op);
    PrefixPlus(op, m, ("foo", "one"), op + ",module=tests.test_metrics" + ",service=test" + ",def=wrapped_fn", op + ",module=tests.test_metrics" + ",service=test" + ",def=wrapped_fn" + ",foo=one");
  }

  /** A metric method the wrapper of the function decorated with `foo=one` calls. */
  lemma ExtraEmission(op: MetricOp, name: string)
    ensures Forward(op, Update(TestTags(), MeasureTags("wrapped_fn", FOO_ONE, MethodsClassname(true, EXTRA_QUALNAME))), name, NO_ARGS)
         == Emission(op, OpName(op) + ",module=tests.test_metrics" + ",service=test" + ",def=wrapped_fn" + ",foo=one" + ",name=" + name, NO_ARGS)
  {
    ExtraTagsTags();
    MeasuredKeys();
    ExtraPrefix(OpName(op));
    MeasuredEmission(op, "wrapped_fn", FOO_ONE, EXTRA_QUALNAME, EXTRA_TAGS, name, OpName(op) + ",module=tests.test_metrics" + ",service=test" + ",def=wrapped_fn" + ",foo=one");
  }

  /** A call of `wrapped_fn` decorated with the extra tag `foo=one`. */
  method MeasureWithExtraTags() returns (client: StatsClient)
    ensures client.sent == [
      Emission(Incr, "incr" + ",module=tests.test_metrics" + ",service=test" + ",def=wrapped_fn" + ",foo=one" + ",name=" + "calls", NO_ARGS),
      Emission(Timer, "timer" + ",module=tests.test_metrics" + ",service=test" + ",def=wrapped_fn" + ",foo=one" + ",name=" + "duration", NO_ARGS)]
  {
    client := TestClient();
    var r := MeasuredCall(client, FOO_ONE, Some("wrapped_fn"), true, EXTRA_QUALNAME, true, Returned("None"));
    ExtraEmission(Incr, "calls");
    ExtraEmission(Timer, "duration");
  }

  /** The test client's `incr("client")`. */
  lemma ClientEmission()
    ensures Forward(Incr, TestTags(), "client", NO_ARGS).metric
         == "incr" + ",module=tests.test_metrics" + ",service=test" + ",name=" + "client"
  {
    TestPrefix("incr");
    assert TestTags() + [] == TestTags();
    ExtendTestTags([]);
    TestEmission(Incr, [], "client",
      "incr" + ",module=tests.test_metrics" + ",service=test");
  }

  /** The test client's tags and `another=true` after `incr`. */
  lemma AnotherPrefix()
    ensures WirePrefix("incr", TestTags() + [("another", "true")])
         == "incr" + ",module=tests.test_metrics" + ",service=test" + ",another=true"
  {
    TestPrefix("incr");
    PrefixPlus("incr", TestTags(), ("another", "true"),
      "incr" + ",module=tests.test_metrics" + ",service=test",
      "incr" + ",module=tests.test_metrics" + ",service=test" + ",another=true");
  }

  /** The first child with `another=true`: `incr("client2")`. */
  lemma Client2Emission()
    ensures Forward(Incr, Update(TestTags(), [("another", "true")]), "client2", NO_ARGS).metric
         == "incr" + ",module=tests.test_metrics" + ",service=test" + ",another=true" + ",name=" + "client2"
  {
    var another: Dict := [("another", "true")];
    assert Keys(another) == ["another"];
    AnotherPrefix();
    TestEmission(Incr, another, "client2",
      "incr" + ",module=tests.test_metrics" + ",service=test" + ",another=true");
  }

  /** The second child with `another=true`: `incr("client2b")`. */
  lemma Client2bEmission()
    ensures Forward(Incr, Update(TestTags(), [("another", "true")]), "client2b", NO_ARGS).metric
         == "incr" + ",module=tests.test_metrics" + ",service=test" + ",another=true" + ",name=" + "client2b"
  {
    var another: Dict := [("another", "true")];
    assert Keys(another) == ["another"];
    AnotherPrefix();
    TestEmission(Incr, another, "client2b",
      "incr" + ",module=tests.test_metrics" + ",service=test" + ",another=true");
  }

  /** The grandchild's `incr("client3")`. */
  lemma YetAnotherEmission()
    ensures Forward(Incr, Update(Update(TestTags(), [("another", "true")]), [("yet_another", "yay")]), "client3", NO_ARGS).metric
         == "incr" + ",module=tests.test_metrics" + ",service=test" + ",another=true" + ",yet_another=yay" + ",name=" + "client3"
  {
    var another: Dict := [("another", "true")];
    var yet: Dict := [("yet_another", "yay")];
    assert Keys(another) + Keys(yet) == ["another", "yet_another"];
    assert another + yet == [("another", "true"), ("yet_another", "yay")];
    YetAnotherPrefix();
    ChainedEmission(Incr, another, yet, "client3",
      "incr" + ",module=tests.test_metrics" + ",service=test" + ",another=true" + ",yet_another=yay");
  }

  /** The test client's tags, `another=true` and `yet_another=yay` after `incr`. */
  lemma YetAnotherPrefix()
    ensures WirePrefix("incr", TestTags() + [("another", "true"), ("yet_another", "yay")])
         == "incr" + ",module=tests.test_metrics" + ",service=test" + ",another=true" + ",yet_another=yay"
  {
    var m := TestTags() + [("another", "true")];
    assert m + [("yet_another", "yay")] == TestTags() + [("another", "true"), ("yet_another", "yay")];
    AnotherPrefix();
    PrefixPlus("incr", m, ("yet_another", "yay"),
      "incr" + ",module=tests.test_metrics" + ",service=test" + ",another=true",
      "incr" + ",module=tests.test_metrics" + ",service=test" + ",another=true" + ",yet_another=yay");
  }

  /**
   * `with_extra_tags` chained: a child of the test client, a child of that child, and a
   * second child of the test client, which does not see the grandchild's tag.
   */
  method DeriveClients() returns (e1: Emission, e2: Emission, e3: Emission, e2b: Emission)
    ensures e1.metric == "incr" + ",module=tests.test_metrics" + ",service=test" + ",name=" + "client"
    ensures e2.metric == "incr" + ",module=tests.test_metrics" + ",service=test" + ",another=true" + ",name=" + "client2"
    ensures e3.metric
         == "incr" + ",module=tests.test_metrics" + ",service=test" + ",another=true" + ",yet_another=yay" + ",name=" + "client3"
    ensures e2b.metric == "incr" + ",module=tests.test_metrics" + ",service=test" + ",another=true" + ",name=" + "client2b"
  {
    var another: Dict := [("another", "true")];
    var yet: Dict := [("yet_another", "yay")];
    var client := TestClient();
    e1 := client.Emit(Incr, "client", NO_ARGS);
    var client2 := client.WithExtraTags(another);
    e2 := client2.Emit(Incr, "client2", NO_ARGS);
    var client3 := client2.WithExtraTags(yet);
    e3 := client3.Emit(Incr, "client3", NO_ARGS);
    var client2b := client.WithExtraTags(another);
    e2b := client2b.Emit(Incr, "client2b", NO_ARGS);
    ClientEmission();
    Client2Emission();
    Client2bEmission();
    YetAnotherEmission();
  }
}
