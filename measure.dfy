/**
 * `measure_function`: the decorator that wraps a function so that each call counts
 * `calls` and times `duration`, tagged with the function's name (`def`), the decorator's
 * extra tags and, for a method, its class (`class`).
 */
module Measure {
  import opened Wrappers
  import opened PyStr
  import opened Tags
  import opened Client

  /** The marker that separates an enclosing function's name from local names in `__qualname__`. */
  const LOCALS := ".<locals>."

  /**
   * `get_methods_classname`: None when the callable is not a plain function; otherwise the
   * qualified name after its first `.<locals>.`, cut at its last `.` (a remainder without a
   * `.` is returned whole).
   */
  function MethodsClassname(isFunction: bool, qualname: string): (r: Option<string>)
    ensures r.Some? <==> isFunction
    ensures isFunction ==>
      var rest := AfterFirst(qualname, LOCALS);
      && |r.value| <= |rest| && r.value == rest[..|r.value|]
      && (|r.value| == |rest| <==> '.' !in rest)
      && (|r.value| < |rest| ==> rest[|r.value|] == '.' && '.' !in rest[|r.value| + 1..])
  {
    if isFunction then Some(BeforeLast(AfterFirst(qualname, LOCALS), '.')) else None
  }

  /** In `p.<locals>.rest`, where `p` holds no `<`, the first `.<locals>.` is the one after `p`. */
  lemma LocalsAfterPrefix(p: string, rest: string)
    requires '<' !in p
    ensures Find(p + LOCALS + rest, LOCALS) == Some(|p|)
    ensures AfterFirst(p + LOCALS + rest, LOCALS) == rest
  {
    var s := p + LOCALS + rest;
    assert s[|p|..|p| + |LOCALS|] == LOCALS;
    assert OccursAt(s, LOCALS, |p|);
    assert s[..|p|] == p;
    assert s[|p|] == '.';
    forall j | 0 <= j < |p| ensures !OccursAt(s, LOCALS, j) {
      OccursAtChar(s, LOCALS, j, 1);
    }
    assert s[|p| + |LOCALS|..] == rest;
  }

  /** A qualified name without `.<locals>.` is cut at its last `.` as it stands. */
  lemma NoLocals(qualname: string)
    requires '<' !in qualname
    ensures AfterFirst(qualname, LOCALS) == qualname
  {
  }

  /**
   * A method `C.f` defined at module level is measured with class `C`; a function `f`
   * defined at module level gets its own name back.
   */
  lemma ModuleLevelClassname(c: string, f: string)
    requires '<' !in c && '<' !in f && '.' !in c && '.' !in f
    ensures MethodsClassname(true, c + "." + f) == Some(c)
    ensures MethodsClassname(true, f) == Some(f)
  {
    NoLocals(c + "." + f);
    NoLocals(f);
    CutAtLastDot(c, f);
  }

  /** `C.f` cut at its last `.` is `C`, when neither name holds a `.`. */
  lemma CutAtLastDot(c: string, f: string)
    requires '.' !in c && '.' !in f
    ensures BeforeLast(c + "." + f, '.') == c
  {
    var s := c + "." + f;
    assert s[|c|] == '.' && s[|c| + 1..] == f;
    assert s[..|c|] == c;
  }

  /**
   * Defined inside a function `p`: a method `C.f` is measured with class `C`, while a
   * nested function `f` gets its own name back, which then equals its `def` tag.
   */
  lemma LocalClassname(p: string, c: string, f: string)
    requires '<' !in p && '.' !in c && '.' !in f
    ensures MethodsClassname(true, p + LOCALS + c + "." + f) == Some(c)
    ensures MethodsClassname(true, p + LOCALS + f) == Some(f)
  {
    assert p + LOCALS + c + "." + f == p + LOCALS + (c + "." + f);
    LocalsAfterPrefix(p, c + "." + f);
    LocalsAfterPrefix(p, f);
    CutAtLastDot(c, f);
  }

  /** The `def` tag: the decorator's extra `def` tag when it has one, else the function's name. */
  function DefTag(fnName: string, extra: Dict): string {
    match Lookup(extra, "def")
    case Some(d) => d
    case None => fnName
  }

  /** A `class` tag is added when the class name is present, non-empty and not the `def` tag. */
  predicate ClassTagged(fnName: string, extra: Dict, className: Option<string>) {
    className.Some? && className.value != "" && className.value != DefTag(fnName, extra)
  }

  /** The tag set the wrapper starts from: `def` set to the function's name. */
  function DefOnly(fnName: string): (r: Dict)
    ensures Keys(r) == ["def"] && Lookup(r, "def") == Some(fnName)
  {
    var r: Dict := [("def", fnName)];
    LookupAt(r, 0);
    r
  }

  /**
   * The tags `measure_function`'s wrapper scopes each call with: `def` first, then the
   * extra tags (which may override `def`), then `class` when it is tagged.
   */
  function MeasureTags(fnName: string, extra: Dict, className: Option<string>): (r: Dict)
    ensures Lookup(r, "def") == Some(DefTag(fnName, extra))
    ensures Lookup(r, "class")
         == if ClassTagged(fnName, extra, className) then className else Lookup(extra, "class")
    ensures forall k :: k != "def" && k != "class" ==> Lookup(r, k) == Lookup(extra, k)
    ensures Keys(r)
         == ["def"] + NewKeys(["def"], Keys(extra))
            + (if ClassTagged(fnName, extra, className) && "class" !in Keys(extra) then ["class"] else [])
  {
    var initial := DefOnly(fnName);
    var base := Update(initial, extra);
    MeasureTagsBase(fnName, extra);
    if className.Some? && className.value != "" && className.value != Lookup(base, "def").value then
      AddClassTag(base, className.value);
      Update(base, [("class", className.value)])
    else
      base
  }

  /** Updating with `{"class": c}` sets `class`, keeps every other key, and appends `class` when new. */
  lemma AddClassTag(base: Dict, c: string)
    ensures var r := Update(base, [("class", c)]);
      && Lookup(r, "class") == Some(c)
      && (forall k :: k != "class" ==> Lookup(r, k) == Lookup(base, k))
      && Keys(r) == Keys(base) + (if "class" in Keys(base) then [] else ["class"])
  {
    UpdateSingle(base, "class", c);
    PutLookups(base, "class", c);
    assert Keys(base) + [] == Keys(base);
  }

  /** The first two steps: `{"def": name}` updated with the extra tags. */
  lemma MeasureTagsBase(fnName: string, extra: Dict)
    ensures var base := Update(DefOnly(fnName), extra);
      && Lookup(base, "def") == Some(DefTag(fnName, extra))
      && (forall k :: k != "def" ==> Lookup(base, k) == Lookup(extra, k))
      && Keys(base) == ["def"] + NewKeys(["def"], Keys(extra))
      && ("class" in Keys(base) <==> "class" in Keys(extra))
  {
    var initial := DefOnly(fnName);
    var base := Update(initial, extra);
    UpdateKeys(initial, extra);
    forall k ensures Lookup(base, k) == if k in Keys(extra) then Lookup(extra, k) else Lookup(initial, k) {
      UpdateLookup(initial, extra, k);
    }
    LookupNone(extra, "def");
    forall k | k != "def" ensures Lookup(base, k) == Lookup(extra, k) {
      LookupNone(extra, k);
      LookupNone(initial, k);
    }
  }

  /**
   * A function nested in another function is never class-tagged unless the decorator
   * overrides `def`: its "class name" is its own name, which is its `def` tag.
   */
  lemma NestedFunctionNotClassTagged(p: string, fnName: string, extra: Dict)
    requires '<' !in p && '.' !in fnName && "def" !in Keys(extra)
    ensures !ClassTagged(fnName, extra, MethodsClassname(true, p + LOCALS + fnName))
    ensures MeasureTags(fnName, extra, MethodsClassname(true, p + LOCALS + fnName)) == Update(DefOnly(fnName), extra)
  {
    LocalClassname(p, "", fnName);
    var className := MethodsClassname(true, p + LOCALS + fnName);
    assert className == Some(fnName);
    LookupNone(extra, "def");
    assert DefTag(fnName, extra) == fnName;
    MeasureTagsBase(fnName, extra);
  }

  /** What the wrapped function did: returned a value or raised an exception. */
  datatype CallOutcome = Returned(value: string) | Raised(error: string)

  /** The exception raised when the measured callable has no `__name__`. */
  const NO_NAME_ERROR := "AttributeError: __name__"

  /** The exception raised when the measured callable has no code object. */
  const NO_CODE_ERROR := "AttributeError: __code__"

  /**
   * One call of a function decorated with `measure_function(client, extra)`. It first
   * reads the callable's `__name__` (None when it has none, as for a `functools.partial`
   * or an object with `__call__`): without one it raises `AttributeError` before anything
   * is forwarded or any tag touched. Otherwise, inside the client's `extra_tags` scope, it
   * forwards `incr("calls")`, carrying the client's tags merged with the measurement tags.
   * Then it looks up the callable's code object: a plain function or a bound method has
   * one, and `timer("duration")` is forwarded with the same tags before the function
   * runs, its result or exception passed on unchanged. A callable without one (a class,
   * a builtin) raises `AttributeError` there, so the timer is never forwarded and the
   * function never runs. On every path the client's tags are restored. A plain function
   * always has both a name and a code object.
   */
  method MeasuredCall(client: StatsClient, extra: Dict, fnName: Option<string>, isFunction: bool,
                      qualname: string, hasCode: bool, outcome: CallOutcome)
    returns (r: CallOutcome)
    requires isFunction ==> fnName.Some? && hasCode
    modifies client
    ensures client.tags == old(client.tags)
    ensures fnName.None? ==> r == Raised(NO_NAME_ERROR) && client.sent == old(client.sent)
    ensures fnName.Some? ==> r == if hasCode then outcome else Raised(NO_CODE_ERROR)
    ensures fnName.Some? ==>
      var scoped := Update(old(client.tags), MeasureTags(fnName.value, extra, MethodsClassname(isFunction, qualname)));
      client.sent == old(client.sent) + [Forward(Incr, scoped, "calls", NO_ARGS)]
                     + (if hasCode then [Forward(Timer, scoped, "duration", NO_ARGS)] else [])
  {
    if fnName.None? {
      return Raised(NO_NAME_ERROR);
    }
    var measureTags := MeasureTags(fnName.value, extra, MethodsClassname(isFunction, qualname));
    var saved := client.ExtraTagsEnter(measureTags);
    var calls := client.Emit(Incr, "calls", NO_ARGS);
    if !hasCode {
      client.ExtraTagsExit(saved);
      return Raised(NO_CODE_ERROR);
    }
    var duration := client.Emit(Timer, "duration", NO_ARGS);
    r := outcome;
    client.ExtraTagsExit(saved);
  }
}
