# influxstats, modelled in Dafny

influxstats wraps a statsd client so that every metric carries InfluxDB-style tags in its
name: `incr("calls")` on a client tagged `module=m, service=s` goes out as
`incr,module=m,service=s,name=calls`. This project models the package's core and proves
properties of the model:

- **Tag sets** (`tags.dfy`, module `Tags`) are Python dicts of tag name to rendered value:
  insertion-ordered pairs with distinct names. `Put` is `d[k] = v` and `Update` is
  `d.update(t)`.
- **Metric names** (`wire_name.dfy`, module `WireName`) cover `get_tags_string` and the
  name that `get_metric`'s wrapper composes. A decoder sits beside them, so the composition
  can be shown to lose nothing.
- **The client** (`client.dfy`, module `Client`) is the `StatsClient` class:
  - its `tags` field is updated in place by the `extra_tags` scope and restored when the
    scope ends;
  - attribute interception selects the metric methods;
  - `with_extra_tags` derives a new client.

  What the underlying statsd client is asked to send is kept in a ghost trace `sent`.
- **The registry** (`registry.dfy`, module `Registry`) is `get_client` and the
  process-wide `CLIENTS` map. It hands out one client per (module, options) key.
- **Measurement** (`measure.dfy`, module `Measure`) covers `get_methods_classname`, the
  tags `measure_function` scopes each call with, and one measured call.
- **Logger names** (`logger_name.dfy`, module `LoggerNaming`) are the name rule of
  `get_logger`.
- **Install requirements** (`pipfile.dfy`, module `Pipfile`) are `get_required_packages`
  in the setup script: Pipfile `[packages]` entries become install requirements.
- **Python string built-ins** (`pystr.dfy`, module `PyStr`) used by the above: `in`,
  `split`, `rsplit`, `strip`, `join` and slicing, written out on `seq<char>`.
- **Scenarios** (`scenarios.dfy`, module `Scenarios`) replay the package's own test
  cases on the model. They derive the exact metric names the test cases expect.

Passing `extra_tags=None` to `measure_function` is the same as passing `{}`. The model
takes the empty tag set for it.

## Model

| member | source | states |
|---|---|---|
| PyStr.Find | src/influxstats/metrics.py:74 | the result is the first index where the pattern occurs, or None when it occurs nowhere |
| PyStr.Contains | setup.py:37 | `"version" in x` is decided by `Find`; its meaning is stated by `ContainsOccurs` and `ContainsPrefix` |
| PyStr.ContainsOccurs | setup.py:37 | `pat in s` holds exactly when `pat` occurs at some position of `s` |
| PyStr.ContainsPrefix | setup.py:37 | a text that starts with `pat` contains `pat` |
| PyStr.AfterFirst | src/influxstats/metrics.py:74 | `split(pat, 1)[-1]`: the text is what precedes the first occurrence, then the pattern, then the result; without an occurrence the result is the whole text |
| PyStr.BeforeLast | src/influxstats/metrics.py:74 | `rsplit(c, 1)[0]`: the result is a proper prefix followed by `c`, and no `c` follows; without a `c` the result is the whole text |
| PyStr.Split | setup.py:33 | `split(",")` yields at least one part, and no part holds the separator |
| PyStr.Join | src/influxstats/metrics.py:108 | `sep.join(parts)`; its contract is carried by `JoinSplit`, `SplitJoin`, `JoinSnoc` and `JoinSplitMax` |
| PyStr.SplitMax | setup.py:38 | `split("=", 2)` yields between 1 and n+1 parts. There is one part exactly when n is 0 or the separator is absent. The first part is the text before the first separator, and no part but the last holds one. Either all n splits were made or the last part holds no separator |
| PyStr.JoinSplitMax | setup.py:38 | joining the parts of a bounded split with the separator gives back the text; with the clauses of `SplitMax` this fixes every part |
| PyStr.JoinSplit | src/influxstats/metrics.py:108 | joining the parts of a split with the separator gives back the text |
| PyStr.SplitJoin | src/influxstats/metrics.py:108 | joining parts free of the separator and splitting again gives back the same parts |
| PyStr.JoinSnoc | src/influxstats/metrics.py:108 | joining one more part appends the separator and that part |
| PyStr.StripLeadingSuffix | setup.py:33 | `lstrip()` leaves the suffix after the leading white space; it starts with no white space, and everything removed was white space |
| PyStr.StripTrailingPrefix | setup.py:33 | `rstrip()` leaves the prefix before the trailing white space, symmetrically |
| PyStr.Strip | setup.py:33 | `s.strip()` is `rstrip` after `lstrip`; its contract is carried by `StripEnds`, `StripUnchanged` and `StripPadded` |
| PyStr.StripEnds | setup.py:33 | the stripped text neither starts nor ends with white space, and it is a piece of the text with only white space around it |
| PyStr.StripUnchanged | setup.py:33 | a text that neither starts nor ends with white space is its own `strip()` |
| PyStr.StripPadded | setup.py:33 | a text without white space at its ends, padded with white space on either side, strips back to itself |
| PyStr.StripBlank | setup.py:38 | one blank before or after a text without white space at its ends is stripped away |
| PyStr.StripAll | setup.py:33 | the comprehension `[x.strip() for x in xs]` strips each part and keeps their number and order |
| PyStr.Inner | setup.py:40 | `s[1:-1]` is the text without its first and last characters, and empty for texts shorter than 2 |
| Tags.Put | src/influxstats/metrics.py:88 | assigning a key keeps the key order when the key is present and appends it otherwise |
| Tags.PutLookup | src/influxstats/metrics.py:88 | after `d[k] = v`, `k` holds `v` and every other key holds what it held |
| Tags.Update | src/influxstats/metrics.py:224 | `d.update(t)`, used at metrics.py lines 60, 88, 207 and 224; its contract is carried by `UpdateLookup`, `UpdateKeys`, `UpdateDisjoint`, `UpdateSingle` and `UpdateMerged` |
| Tags.UpdateLookup | src/influxstats/metrics.py:224 | after `m.update(t)`, a key holds `t`'s value when `t` has it, and `m`'s value (or nothing) otherwise |
| Tags.UpdateKeys | src/influxstats/metrics.py:224 | `m.update(t)` keeps `m`'s keys in place and appends `t`'s new keys in `t`'s order |
| Tags.UpdateMerged | src/influxstats/metrics.py:219-226 | updating with `t1` and then `t2` equals updating once with `t1` updated by `t2` |
| Tags.UpdateChained | src/influxstats/metrics.py:219-226 | two updates with dictionaries that share no key equal one update with the two concatenated |
| Tags.UpdateDisjoint | src/influxstats/metrics.py:207 | updating with a dictionary whose keys are all new appends its pairs in order |
| Tags.UpdateSingle | src/influxstats/metrics.py:87-88 | `update({k: v})` is the same as `d[k] = v` |
| Tags.UpdateTwo | src/influxstats/metrics.py:60 | updating with a two-entry dict puts its two pairs in their order |
| Tags.Extensionality | src/influxstats/metrics.py:108 | two tag sets with the same key order and the same lookups are the same tag set, so they render the same |
| WireName.TagsString | src/influxstats/metrics.py:98-108 | `get_tags_string`; its contract is carried by `TagsStringEmpty`, `TagsStringSnoc` and `TagsStringRoundTrip` |
| WireName.TagsStringEmpty | src/influxstats/metrics.py:108 | an empty tag set renders as the empty string |
| WireName.TagsStringSnoc | src/influxstats/metrics.py:108 | rendering one more tag appends `,k=v` (just `k=v` for the first tag) |
| WireName.TagsStringRoundTrip | src/influxstats/metrics.py:98-108 | reading the rendered string back yields the same pairs in the same order, when names hold no `,` or `=` and values no `,` |
| WireName.ComposeName | src/influxstats/metrics.py:84-91 | the full metric name of `get_metric`'s wrapper; its contract is carried by `ComposeNameUntagged`, `ComposeNameAppends` and `ComposeNameRoundTrip` |
| WireName.ComposeNameUntagged | src/influxstats/metrics.py:82-93 | a client without tags composes `<op>,name=<name>` |
| WireName.ComposeNameAppends | src/influxstats/metrics.py:85-91 | for tags without a `name` key, the metric name is the op, the tags in order, then `,name=<name>` |
| WireName.ComposeNameRoundTrip | src/influxstats/metrics.py:82-93 | the metric name decodes to the op and to the client's tags with `name` put in; an existing `name` tag keeps its place |
| Client.Intercept | src/influxstats/metrics.py:187-196 | an attribute selects a metric method exactly when it is that method's name; every other attribute passes through |
| Client.OpName | src/influxstats/metrics.py:85 | the method's own name starts the metric name; it is never empty and holds neither `,` nor `=` |
| Client.Forward | src/influxstats/metrics.py:82-93 | the wrapper forwards to the same method with the same remaining positional arguments and the same keyword arguments, in order |
| Client.ForwardDecodes | src/influxstats/metrics.py:82-93 | the forwarded first argument decodes to the method's name and to the tags with `name` put in |
| Client.StatsClient.constructor | src/influxstats/metrics.py:182-185 | a new client holds the given tags and has forwarded nothing |
| Client.StatsClient.Emit | src/influxstats/metrics.py:87-93 | a metric call leaves the client's tags unchanged, since the merge is done on a copy, and appends exactly the forwarded call to the trace |
| Client.StatsClient.ExtraTagsEnter | src/influxstats/metrics.py:203-209 | entering the scope keeps a copy of the old tags and updates the tags in place with the extra tags |
| Client.StatsClient.ExtraTagsExit | src/influxstats/metrics.py:210-211 | leaving the scope, on either path, makes the kept copy the tags again |
| Client.StatsClient.WithExtraTags | src/influxstats/metrics.py:219-226 | a fresh client carries this client's tags updated with the extra tags and has forwarded nothing; this client is untouched |
| Client.DeriveTwice | src/influxstats/metrics.py:219-226 | tags accumulate along a chain of derived clients: the grandchild's tags are the base updated with the merge of both extras |
| Client.EmitInScope | src/influxstats/metrics.py:198-211 | a call inside the scope carries the merged tags, and afterwards the client's tags are exactly the old ones |
| Registry.ClientTags | src/influxstats/metrics.py:59-60 | a new client's tags set `module` and `service` and keep every other caller tag. The caller's keys keep their order, and each of the two names is appended only when missing |
| Registry.UpdateModuleService | src/influxstats/metrics.py:60 | the update with `module` then `service` sets both and keeps every other key, in the stated key order |
| Registry.ClientTagsWithoutCallerTags | src/influxstats/metrics.py:59-60 | without caller tags, the tags are exactly `module` then `service` |
| Registry.Registry.constructor | src/influxstats/metrics.py:22 | the registry starts empty and distinct keys share no client |
| Registry.Registry.GetClient | src/influxstats/metrics.py:43-66 | a hit returns the stored client and changes nothing, whatever the service. A miss adds exactly one entry: a fresh client tagged with `ClientTags`. Either way no other key holds the returned client |
| Registry.GetClientTwice | src/influxstats/metrics.py:55-66 | two requests with the same module and options return the same client, even when the services differ. The registry ends holding that client under their key and is otherwise unchanged. On a hit it is the stored client; on a miss it carries the first service's tags |
| Measure.MethodsClassname | src/influxstats/metrics.py:69-74 | only a plain function gets a class name. The name is a prefix of the text after the first `.<locals>.` and ends just before its last `.`; it is the whole remainder when that has no `.` |
| Measure.ModuleLevelClassname | src/influxstats/metrics.py:69-74 | a module-level method `C.f` gets `C`; a module-level function `f` gets `f` back |
| Measure.LocalClassname | src/influxstats/metrics.py:69-74 | defined inside a function, a method `C.f` gets `C` and a nested function `f` gets `f` back |
| Measure.DefOnly | src/influxstats/metrics.py:129 | the starting tag set has exactly the `def` key, holding the function's name |
| Measure.MeasureTags | src/influxstats/metrics.py:129-136 | `def` holds the extra `def` tag or else the function name. `class` is the class name when that is present, non-empty and not the `def` tag, and the extra tags' `class` otherwise. Every other key is the extra tags', and the key order is `def`, the extra keys, then `class` |
| Measure.MeasureTagsBase | src/influxstats/metrics.py:129-132 | `{"def": name}` updated with the extra tags: extra tags override `def` and add their other keys after it |
| Measure.NestedFunctionNotClassTagged | src/influxstats/metrics.py:134-136 | a nested function is never class-tagged when `def` is not overridden, so its tags are `def` plus the extra tags |
| Measure.MeasuredCall | src/influxstats/metrics.py:128-161 | a measured call always leaves the client's tags as they were. A callable without `__name__` raises `AttributeError` before anything is forwarded. Otherwise the call forwards `incr("calls")` with the client's tags updated with the measurement tags. For a callable with `__code__` it then forwards `timer("duration")` with the same tags and returns or raises what the function did. For one without `__code__` it raises `AttributeError`: no timer, and the function does not run |
| LoggerNaming.ClassSegment | src/influxstats/logging.py:20-30 | the class segment comes from `self` when it is a local, otherwise from a true `cls` |
| LoggerNaming.FunctionSegment | src/influxstats/logging.py:33-39 | the function segment is present exactly when the code name is non-empty and not `<module>` |
| LoggerNaming.LoggerName | src/influxstats/logging.py:5-41 | the name starts with the module's name. A warning is issued exactly for a `<module>` caller, and it names the logger |
| LoggerNaming.LoggerNameSegments | src/influxstats/logging.py:15-39 | what follows the module name is empty exactly when there are no segments, and otherwise is `.` followed by the segments joined with `.` |
| LoggerNaming.SelfTakesPrecedence | src/influxstats/logging.py:22-25 | when `self` is a local, the binding of `cls` does not change the name |
| LoggerNaming.ModuleLevelName | src/influxstats/logging.py:34-37 | a `<module>` caller's logger is named like a caller without a function segment |
| Pipfile.TableItems | setup.py:32-33 | an inline table always yields at least one item |
| Pipfile.VersionItem | setup.py:36-37 | the result is the first item containing `version`, or none when no item contains it |
| Pipfile.TablePin | setup.py:31-44 | the pin of an inline table: the first `version` item's pin, or none without one; its contract is carried by `FindTablePin`, `TableWithoutVersion` and `TableAgreesWithQuoted` |
| Pipfile.ItemPin | setup.py:38-42 | for either split count, the item raises exactly when it holds no `=`, and the pin is never `*` |
| Pipfile.FindTablePin | setup.py:31-44 | the loop over the items computes the table's pin under the intended split: the first `version` item decides it, and without one there is no pin |
| Pipfile.NoVersionItem | setup.py:36-44 | when no item contains `version`, none is found |
| Pipfile.FirstVersionItem | setup.py:36-44 | an item containing `version` with none before it is the one the loop stops at |
| Pipfile.Requirement | setup.py:28-49 | one entry's requirement, with the split count as a parameter; its contract is carried by `RequirementShape`, `EntryRequirement`, `QuotedRequirement` and `TableAgreesWithQuoted` |
| Pipfile.RequirementShape | setup.py:28-49 | a requirement always starts with the package name, and only an empty value or an inline table can fail |
| Pipfile.EntryRequirement | setup.py:28-51 | one entry becomes the requirement `Requirement` defines, under the intended split, errors included |
| Pipfile.GetRequiredPackages | setup.py:26-53 | on success there is one requirement per entry, in order, each the entry's own. On failure the error is that of the first failing entry, and all entries before it succeed |
| Pipfile.QuotedRequirement | setup.py:45-49 | `"*"` gives the bare package, and any other quoted version is appended without its quotes |
| Pipfile.TableWithoutVersion | setup.py:31-49 | a table without a `version` item gives the bare package |
| Pipfile.SingleItemTable | setup.py:32-33 | a table holding one clean item yields exactly that item |
| Pipfile.TableOfVersionEntry | setup.py:31-44 | `{version = "v"}` is decided by its single item |
| Pipfile.VersionItemSplit | setup.py:38 | `version`, white space, `=`, white space and `"v"`, split on `=`, has two parts, around its first `=`: always under the intended split, and for `v` without `=` under the code's split |
| Pipfile.VersionItemParts | setup.py:38 | `version`, white space, `=`, white space and `"v"`, split on `=` and stripped, is `version` and `"v"`: always under the intended split, and for `v` without `=` under the code's split |
| Pipfile.VersionItemPin | setup.py:38-42 | such an item pins exactly `v`, or nothing for `*`: for every `v` under the intended split, and for `v` without `=` under the code's split |
| Pipfile.TableTextItems | setup.py:32-33 | a table holding such an item and white space yields exactly that item |
| Pipfile.TableAgreesWithQuoted | setup.py:31-49 | the table spelling, with any white space around its `=` and inside its braces, and the quoted spelling of a version give the same requirement. Under the intended split this holds for every version without `,`; under the code's split, only for versions without `=` |
| Pipfile.OperatorEntryPin | setup.py:38-40 | under the code's split, a version whose operator holds `=` gets an empty pin |
| Pipfile.TableOperatorPinDropped | setup.py:38-42 | under the code's split, `{version = ">=1.0"}` gives the bare package, while `">=1.0"` gives the pinned package |
| Pipfile.TableKeepsOperatorPin | setup.py:38-42 | under the intended split, `{version = ">=1.0"}` gives the pinned package |
| Scenarios.TestClient | src/tests/test_metrics.py:24-25 | the client for service `test` from module `tests.test_metrics` is tagged `module` then `service` |
| Scenarios.EmitOnTestClient | src/tests/test_metrics.py:45-56 | `incr("fool")` forwards `incr,module=tests.test_metrics,service=test,name=fool` |
| Scenarios.EmitWithoutTags | src/tests/test_metrics.py:58-70 | a client without tags forwards `incr,name=fool` |
| Scenarios.EmitInExtraTagsScope | src/tests/test_metrics.py:72-82 | inside `extra_tags({"def": "something"})`, the forwarded name has `def=something` before `name=shoes` |
| Scenarios.PlainFunctionTags | src/tests/test_metrics.py:90-94 | a nested decorated function is measured with `def` alone |
| Scenarios.MethodTags | src/tests/test_metrics.py:109-114 | a method of a class defined in a function is measured with `def`, then `class=TestClass` |
| Scenarios.ExtraTagsTags | src/tests/test_metrics.py:129-133 | the extra tag `foo=one` follows `def` |
| Scenarios.MeasureNestedFunction | src/tests/test_metrics.py:84-101 | the call forwards exactly the expected `incr` and `timer` names, in that order |
| Scenarios.MeasureMethod | src/tests/test_metrics.py:103-121 | the call forwards exactly the expected `incr` and `timer` names, with `class=TestClass` |
| Scenarios.MeasureWithExtraTags | src/tests/test_metrics.py:123-137 | the call forwards exactly the expected `incr` name with `foo=one`, then the `timer` one |
| Scenarios.ChainedEmission | src/influxstats/metrics.py:219-226 | a grandchild's metric name lists the base tags, then the first extra tags, then the second |
| Scenarios.DeriveClients | src/tests/test_metrics.py:139-173 | the base client, a child, a grandchild and a second child forward the four expected names; the second child does not see the grandchild's tag |

## Left out

- The cache key is left out: the code hashes a JSON serialisation with SHA-256. The model keeps the `(module, options)` pair itself, which assumes the hash is injective on the inputs.
- Registry.Registry.GetClient: the key keeps the order of the transport options but not where `tags` stood among them. The JSON of `tags=T, host=h` and of `host=h, tags=T` differ, so the code makes two keys where the model makes one.
- The statsd transport (host, port, prefix, sockets) is left out, and so is whatever the underlying client does with a call. The model records only the calls it is asked to make.
- Timing is left out: what the `timer` context sends when it closes. The model records only that `timer("duration")` is called.
- Client.Intercept: the metric methods are the six statsd methods that take a metric name (`decr`, `gauge`, `incr`, `set`, `timer`, `timing`). `pipeline` is also listed by the code, but wrapping it passes a name to a method that takes none, so it is not modelled.
- Attribute lookup by reflection (`__getattribute__`, `dir`) is replaced by the `MetricOp` enumeration.
- Client.StatsClient.Emit records only the first forwarded call. The base statsd client's own methods call back through `__getattribute__`, and each such call is wrapped again. `decr` calls `incr`, and a closing `timer` calls `timing`. What the transport receives for these carries a twice-composed name, for example `timing,<tags>,name=timer,<tags>,name=duration`.
- Client.StatsClient.Emit does not model the error of a negative `gauge` without `delta`. The base client then calls `pipeline()`, which is wrapped like the metric methods. The wrapper needs a name argument and gets none, so it raises `TypeError` after `Emit(Gauge, …)`'s forward. The transport receives nothing, and the error reaches the caller.
- Introspection is left out. A function's `__name__` (absent or present), `__qualname__`, whether it is a plain function, whether it has `__code__`, and the caller's stack frame are parameters.
- Logging inside `measure_function` (`log=True`) is left out: the timestamps, the `logger.info` calls and the logger lookup are side effects that change no tag or metric.
- LoggerNaming.LoggerName: the warning's logger (a second `get_logger` call) and `logging.getLogger` itself are not modelled. A true `cls` without `__name__` is also not modelled: the code raises there.
- Injection of the client as a `statsd` keyword argument is left out, and so is anything the measured function itself emits.
- Aliasing of dictionaries is left out; the model's tag sets are values. `get_client` mutates the caller's `tags` dictionary in place, and the new client keeps that same dictionary. A metric method fetched before an `extra_tags` scope and called inside it sees the scope's tags through the shared dict. Leaving the scope rebinds `tags` to the saved copy, so such a method keeps the scope's tags after the scope ends.
- Registry.GetClientTwice holds for two equal but distinct `tags` dictionaries. Passing the same dictionary object twice misses the cache: the second key hashes the dictionary the first call already updated with `module` and `service`. The second client then shares the first one's tags dictionary.
- Tag values are already text in the model; the `str()` conversion of the f-string is not modelled.
- Client.StatsClient.WithExtraTags: the derived client is built without the parent's transport options, as in the code. The model has no transport, so this difference is not visible in it.
- Registry.Registry.GetClient: a construction failure on a miss (invalid transport options) raises before caching. The model has no transport, so this cannot happen in it.
- Pipfile.FindTablePin, Pipfile.EntryRequirement and Pipfile.GetRequiredPackages split a table's `version` item once, as evidently intended, not twice as the code does; see Findings. The functions `ItemPin`, `TablePin` and `Requirement` take the split count, so the code's behaviour is stated beside the corrected one.
- Reading the Pipfile with `configparser` is left out. The `[packages]` section is given as its `(package, raw value)` pairs in file order.
- PyStr.IsSpace is the set of characters Python's `str.strip()` removes by default. No encoding or normalisation is modelled.
- Concurrency is left out: `CLIENTS` is a plain module-level dict, and the model has a single thread.

## Findings

| source | as written | input that shows it | evidently intended | confidence | as-written member | corrected member |
|---|---|---|---|---|---|---|
| setup.py:38 | a braced entry's `version` item is split on its first two `=`, so a version whose operator holds `=` is cut at that `=` and the pin comes out empty | `foo = {version = ">=1.0"}` yields `foo`, while `foo = ">=1.0"` yields `foo>=1.0` | split the item on its first `=` only (`split("=", 1)`), so the pin is the whole quoted version | not executed | Pipfile.TableOperatorPinDropped | Pipfile.TableKeepsOperatorPin |
