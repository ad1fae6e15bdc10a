/**
 * `get_required_packages` in the package's setup script: every entry of the Pipfile's
 * `[packages]` table becomes one install requirement, the package name followed by the
 * version the entry pins, if any. The table is given as its `(package, raw value)` pairs in
 * file order; reading the file is not modelled.
 */
module Pipfile {
  import opened Wrappers
  import opened PyStr

  /**
   * Where the code raises `IndexError`: an empty raw value (`version[0]`), or a braced
   * table whose `version` item holds no `=` (`item_split[1]`).
   */
  datatype PipfileError = EmptyValue(package: string) | VersionWithoutEquals(package: string, item: string)

  /** The raw value `"*"`, quotes included: any version. */
  const ANY_VERSION := "\"*\""

  /** The items of an inline table: `{`/`}` removed, split on `,`, each stripped. */
  function TableItems(raw: string): (items: seq<string>)
    ensures |items| >= 1
  {
    StripAll(Split(Inner(raw), ','))
  }

  /** The index of the first item that contains `version`, if any. */
  function VersionItem(items: seq<string>): (r: Option<nat>)
    ensures r.Some? ==> r.value < |items| && Contains(items[r.value], "version")
    ensures r.Some? ==> forall j :: 0 <= j < r.value ==> !Contains(items[j], "version")
    ensures r.None? ==> forall j :: 0 <= j < |items| ==> !Contains(items[j], "version")
  {
    if items == [] then None
    else if Contains(items[0], "version") then Some(0)
    else
      match VersionItem(items[1..])
      case None => None
      case Some(i) => Some(i + 1)
  }

  /**
   * How many times a `version` item is split on `=`: twice as the code is written
   * (`item.split("=", 2)`), once as evidently intended. The install requirements use the
   * intended split; the written one is kept for the finding it shows.
   */
  const AS_WRITTEN_SPLITS := 2
  const INTENDED_SPLITS := 1

  /**
   * The pin of a `version` item: the item split on its first `splits` occurrences of `=`,
   * each part stripped; the second part without its first and last characters; `*` means
   * no pin, written as the empty pin. An item without `=` has no second part.
   */
  function ItemPin(package: string, item: string, splits: nat): (r: Result<string, PipfileError>)
    requires splits >= 1
    ensures r.Err? <==> '=' !in item
    ensures r.Err? ==> r.error == VersionWithoutEquals(package, item)
    ensures r.Ok? ==> r.value != "*"
  {
    var parts := StripAll(SplitMax(item, '=', splits));
    if |parts| < 2 then Err(VersionWithoutEquals(package, item))
    else
      var version := Inner(parts[1]);
      Ok(if version != "*" then version else "")
  }

  /** The pin of an inline table: that of its first `version` item; none without one. */
  function TablePin(package: string, raw: string, splits: nat): Result<string, PipfileError>
    requires splits >= 1
  {
    var items := TableItems(raw);
    match VersionItem(items)
    case None => Ok("")
    case Some(i) => ItemPin(package, items[i], splits)
  }

  /**
   * The requirement for one entry: an error for an empty value; for an inline table, the
   * package followed by the table's pin; for `"*"`, the bare package; for any other value,
   * the package followed by the value without its first and last characters. An empty pin
   * leaves the bare package, as `if package_version:` does.
   */
  function Requirement(package: string, raw: string, splits: nat): Result<string, PipfileError>
    requires splits >= 1
  {
    if raw == "" then Err(EmptyValue(package))
    else if raw[0] == '{' then
      match TablePin(package, raw, splits)
      case Err(e) => Err(e)
      case Ok(pin) => Ok(package + pin)
    else if raw != ANY_VERSION then Ok(package + Inner(raw))
    else Ok(package)
  }

  /**
   * The loop over the table's items: the first item containing `version` decides the pin
   * and ends the loop.
   */
  method FindTablePin(package: string, raw: string) returns (r: Result<string, PipfileError>)
    ensures r == TablePin(package, raw, INTENDED_SPLITS)
  {
    var items := TableItems(raw);
    var i := 0;
    while i < |items|
      invariant 0 <= i <= |items|
      invariant forall j :: 0 <= j < i ==> !Contains(items[j], "version")
    {
      if Contains(items[i], "version") {
        FirstVersionItem(items, i);
        var itemSplit := StripAll(SplitMax(items[i], '=', INTENDED_SPLITS));
        if |itemSplit| < 2 {
          return Err(VersionWithoutEquals(package, items[i]));
        }
        var version := Inner(itemSplit[1]);
        var packageVersion := "";
        if version != "*" {
          packageVersion := version;
        }
        return Ok(packageVersion);
      }
      i := i + 1;
    }
    NoVersionItem(items);
    r := Ok("");
  }

  /** Without an item containing `version`, `VersionItem` finds none. */
  lemma NoVersionItem(items: seq<string>)
    requires forall j :: 0 <= j < |items| ==> !Contains(items[j], "version")
    ensures VersionItem(items) == None
  {
  }

  /** An item containing `version` with none before it is the one `VersionItem` finds. */
  lemma FirstVersionItem(items: seq<string>, i: nat)
    requires i < |items| && Contains(items[i], "version")
    requires forall j :: 0 <= j < i ==> !Contains(items[j], "version")
    ensures VersionItem(items) == Some(i)
  {
  }

  /** One entry of the table turned into its requirement. */
  method EntryRequirement(package: string, raw: string) returns (r: Result<string, PipfileError>)
    ensures r == Requirement(package, raw, INTENDED_SPLITS)
  {
    if raw == "" {
      return Err(EmptyValue(package));
    }
    var packageVersion := "";
    if raw[0] == '{' {
      var pin := FindTablePin(package, raw);
      if pin.Err? {
        return Err(pin.error);
      }
      packageVersion := pin.value;
    } else if raw != ANY_VERSION {
      packageVersion := Inner(raw);
    }
    var fullPackage := package;
    assert package + "" == package;
    if packageVersion != "" {
      fullPackage := package + packageVersion;
    }
    r := Ok(fullPackage);
  }

  /**
   * A requirement always starts with the package name, and only an empty value or an
   * inline table can fail.
   */
  lemma RequirementShape(package: string, raw: string, splits: nat)
    requires splits >= 1
    ensures var r := Requirement(package, raw, splits);
      && (r.Ok? ==> |package| <= |r.value| && r.value[..|package|] == package)
      && (r.Err? ==> raw == "" || raw[0] == '{')
  {
    if raw != "" && raw[0] == '{' && TablePin(package, raw, splits).Ok? {
      var pin := TablePin(package, raw, splits).value;
      assert (package + pin)[..|package|] == package;
    } else if raw != "" && raw[0] != '{' && raw != ANY_VERSION {
      assert (package + Inner(raw))[..|package|] == package;
    }
  }

  /**
   * `get_required_packages`: one requirement per entry, in the table's order; the first
   * entry that raises ends the loop with its error.
   */
  method GetRequiredPackages(entries: seq<(string, string)>) returns (r: Result<seq<string>, PipfileError>)
    ensures r.Ok? ==> |r.value| == |entries|
    ensures r.Ok? ==> forall i :: 0 <= i < |entries| ==> Requirement(entries[i].0, entries[i].1, INTENDED_SPLITS) == Ok(r.value[i])
    ensures r.Err? ==> exists i :: (0 <= i < |entries|
      && (forall j :: 0 <= j < i ==> Requirement(entries[j].0, entries[j].1, INTENDED_SPLITS).Ok?)
      && Requirement(entries[i].0, entries[i].1, INTENDED_SPLITS) == Err(r.error))
  {
    var installRequires: seq<string> := [];
    for i := 0 to |entries|
      invariant |installRequires| == i
      invariant forall j :: 0 <= j < i ==> Requirement(entries[j].0, entries[j].1, INTENDED_SPLITS) == Ok(installRequires[j])
    {
      var (package, raw) := entries[i];
      var requirement := EntryRequirement(package, raw);
      if requirement.Err? {
        assert Requirement(entries[i].0, entries[i].1, INTENDED_SPLITS) == Err(requirement.error);
        return Err(requirement.error);
      }
      installRequires := installRequires + [requirement.value];
    }
    r := Ok(installRequires);
  }

  /** The inline-table entry `{version = "v"}`. */
  function TableEntry(v: string): string {
    "{" + VersionEntry(v) + "}"
  }

  /** The table item `version = "v"`. */
  function VersionEntry(v: string): string {
    "version = \"" + v + "\""
  }

  /** The quoted entry `"v"`. */
  function Quoted(v: string): string {
    "\"" + v + "\""
  }

  /** `"*"` gives the bare package, and any other quoted value pins the text between its quotes. */
  lemma QuotedRequirement(package: string, v: string, splits: nat)
    requires splits >= 1
    ensures Requirement(package, Quoted(v), splits) == Ok(if v == "*" then package else package + v)
  {
    var raw := Quoted(v);
    assert raw[0] == '"';
    assert Inner(raw) == v;
    if v == "*" {
      assert raw == ANY_VERSION;
    }
  }

  /** A table without any item containing `version` leaves the bare package. */
  lemma TableWithoutVersion(package: string, raw: string, splits: nat)
    requires splits >= 1
    requires raw != "" && raw[0] == '{'
    requires forall j :: 0 <= j < |TableItems(raw)| ==> !Contains(TableItems(raw)[j], "version")
    ensures Requirement(package, raw, splits) == Ok(package)
  {
    assert package + "" == package;
  }

  /** A table whose inside is a single item with no `,` and no white space at its ends. */
  lemma SingleItemTable(raw: string, item: string)
    requires Inner(raw) == item && ',' !in item
    requires item != [] && !IsSpace(item[0]) && !IsSpace(item[|item| - 1])
    ensures TableItems(raw) == [item]
  {
    assert Split(item, ',') == [item];
    StripUnchanged(item);
  }

  /** The item `version = "v"` starts with `version`, ends with a quote and holds no `,` when `v` holds none. */
  lemma VersionEntryShape(v: string)
    ensures var item := VersionEntry(v);
      && |item| >= 7 && item[..7] == "version"
      && !IsSpace(item[0]) && !IsSpace(item[|item| - 1])
      && (',' !in v ==> ',' !in item)
  {
    var item := VersionEntry(v);
    assert item == "version = \"" + v + "\"";
    assert item[..7] == "version";
    assert item[0] == 'v';
    assert item[|item| - 1] == '"';
  }

  /** A table holding just one `version` item is decided by that item. */
  lemma TableOfVersionEntry(package: string, v: string, splits: nat)
    requires splits >= 1 && ',' !in v
    ensures Requirement(package, TableEntry(v), splits)
         == match ItemPin(package, VersionEntry(v), splits)
            case Err(e) => Err(e)
            case Ok(pin) => Ok(package + pin)
  {
    var item := VersionEntry(v);
    var raw := TableEntry(v);
    assert raw[0] == '{';
    assert Inner(raw) == item;
    VersionEntryShape(v);
    SingleItemTable(raw, item);
    ContainsPrefix(item, "version");
    FirstVersionItem([item], 0);
  }

  /** The parts of `version = "v"` around its first `=`. */
  lemma VersionEntryHead(v: string, n: nat)
    requires n >= 1
    ensures SplitMax(VersionEntry(v), '=', n) == ["version "] + SplitMax(" " + Quoted(v), '=', n - 1)
  {
    assert VersionEntry(v) == "version " + ['='] + (" " + Quoted(v));
    SplitMaxCons("version ", '=', " " + Quoted(v), n);
  }

  /**
   * A `version` item spelled with any white space around its `=`: `version`, white space,
   * `=`, white space, the quoted version. Table items are stripped, so this is an item as
   * the code meets it, with no white space at its ends.
   */
  function VersionItemText(w1: string, w2: string, v: string): string {
    "version" + w1 + "=" + w2 + Quoted(v)
  }

  /** An inline table holding just such an item, with any white space inside its braces. */
  function TableText(w0: string, w1: string, w2: string, w3: string, v: string): string {
    "{" + w0 + VersionItemText(w1, w2, v) + w3 + "}"
  }

  /** White space holds neither `=` nor `,`. */
  lemma SpaceHoldsNoSeparator(w: string)
    requires AllSpace(w)
    ensures '=' !in w && ',' !in w
  {
  }

  /**
   * Such an item split on `=` is `version` with its white space, and the rest: always
   * with a single split, and with more splits when the version holds no `=`.
   */
  lemma VersionItemSplit(w1: string, w2: string, v: string, splits: nat)
    requires AllSpace(w1) && AllSpace(w2)
    requires splits >= 1 && (splits >= 2 ==> '=' !in v)
    ensures SplitMax(VersionItemText(w1, w2, v), '=', splits) == ["version" + w1, w2 + Quoted(v)]
  {
    var q := Quoted(v);
    var head, tail := "version" + w1, w2 + q;
    SpaceHoldsNoSeparator(w1);
    SpaceHoldsNoSeparator(w2);
    assert '=' !in head;
    assert VersionItemText(w1, w2, v) == head + ['='] + tail;
    SplitMaxCons(head, '=', tail, splits);
    if splits >= 2 {
      assert q == ['"'] + v + ['"'];
      assert '=' !in tail;
    }
    assert SplitMax(tail, '=', splits - 1) == [tail];
  }

  /**
   * Such an item split on `=` and stripped is `version` and the quoted version: always
   * with a single split, and with more splits when the version holds no `=`.
   */
  lemma VersionItemParts(w1: string, w2: string, v: string, splits: nat)
    requires AllSpace(w1) && AllSpace(w2)
    requires splits >= 1 && (splits >= 2 ==> '=' !in v)
    ensures StripAll(SplitMax(VersionItemText(w1, w2, v), '=', splits)) == ["version", Quoted(v)]
  {
    var q := Quoted(v);
    var head, tail := "version" + w1, w2 + q;
    VersionItemSplit(w1, w2, v, splits);
    assert q[0] == '"' && q[|q| - 1] == '"';
    StripPadded("", "version", w1);
    assert "" + "version" + w1 == head;
    StripPadded(w2, q, "");
    assert w2 + q + "" == tail;
    var r := StripAll([head, tail]);
    assert r[0] == Strip(head) && r[1] == Strip(tail);
  }

  /**
   * The pin of such an item is exactly the version, none for `*`: for every version with
   * the intended single split, and for versions without `=` with the code's split.
   */
  lemma VersionItemPin(package: string, w1: string, w2: string, v: string, splits: nat)
    requires AllSpace(w1) && AllSpace(w2)
    requires splits >= 1 && (splits >= 2 ==> '=' !in v)
    ensures ItemPin(package, VersionItemText(w1, w2, v), splits) == Ok(if v == "*" then "" else v)
  {
    VersionItemParts(w1, w2, v, splits);
    assert Inner(Quoted(v)) == v;
  }

  /** A table holding such an item, and nothing else, yields exactly that item. */
  lemma TableTextItems(w0: string, w1: string, w2: string, w3: string, v: string)
    requires AllSpace(w0) && AllSpace(w1) && AllSpace(w2) && AllSpace(w3) && ',' !in v
    ensures TableItems(TableText(w0, w1, w2, w3, v)) == [VersionItemText(w1, w2, v)]
  {
    var item := VersionItemText(w1, w2, v);
    var raw := TableText(w0, w1, w2, w3, v);
    var inside := w0 + item + w3;
    assert raw == ['{'] + inside + ['}'];
    assert Inner(raw) == inside;
    SpaceHoldsNoSeparator(w0);
    SpaceHoldsNoSeparator(w1);
    SpaceHoldsNoSeparator(w2);
    SpaceHoldsNoSeparator(w3);
    assert item == "version" + w1 + "=" + w2 + "\"" + v + "\"";
    assert ',' !in item;
    assert ',' !in inside;
    assert Split(inside, ',') == [inside];
    assert item[0] == 'v' && item[|item| - 1] == '"';
    StripPadded(w0, item, w3);
  }

  /** Such an item is found by `"version" in item`. */
  lemma VersionItemContainsVersion(w1: string, w2: string, v: string)
    ensures Contains(VersionItemText(w1, w2, v), "version")
  {
    var item := VersionItemText(w1, w2, v);
    assert item == "version" + (w1 + "=" + w2 + Quoted(v));
    assert item[..7] == "version";
    ContainsPrefix(item, "version");
  }

  /**
   * The table spelling `{version = "v"}`, with any white space around its `=` and inside
   * its braces, and the quoted spelling `"v"` give the same requirement: for every
   * version without `,` under the intended split, and for versions without `=` under the
   * code's split.
   */
  lemma TableAgreesWithQuoted(package: string, w0: string, w1: string, w2: string, w3: string,
                              v: string, splits: nat)
    requires AllSpace(w0) && AllSpace(w1) && AllSpace(w2) && AllSpace(w3) && ',' !in v
    requires splits >= 1 && (splits >= 2 ==> '=' !in v)
    ensures Requirement(package, TableText(w0, w1, w2, w3, v), splits) == Requirement(package, Quoted(v), splits)
  {
    var item := VersionItemText(w1, w2, v);
    var raw := TableText(w0, w1, w2, w3, v);
    assert raw[0] == '{';
    TableTextItems(w0, w1, w2, w3, v);
    VersionItemContainsVersion(w1, w2, v);
    FirstVersionItem([item], 0);
    VersionItemPin(package, w1, w2, v, splits);
    QuotedRequirement(package, v, splits);
    assert package + "" == package;
  }

  /**
   * As written, a table version whose operator contains `=` (`>=`, `<=`, `~=`, `==`, `!=`)
   * loses its pin: the item is split on its second `=` too, so the pin is cut down to
   * what lies between the quote and the operator's `=`, which is empty. The quoted
   * spelling of the same version keeps it.
   */
  lemma TableOperatorPinDropped(package: string, a: string, b: string)
    requires |a| <= 1 && '=' !in a && (a == [] || !IsSpace(a[0]))
    requires ',' !in a + "=" + b
    ensures Requirement(package, TableEntry(a + "=" + b), AS_WRITTEN_SPLITS) == Ok(package)
    ensures Requirement(package, Quoted(a + "=" + b), AS_WRITTEN_SPLITS) == Ok(package + a + "=" + b)
  {
    var v := a + "=" + b;
    TableOfVersionEntry(package, v, AS_WRITTEN_SPLITS);
    OperatorEntryPin(package, a, b);
    assert package + "" == package;
    QuotedOperatorVersion(package, a, b);
  }

  /** The quoted spelling of a version with an operator keeps it. */
  lemma QuotedOperatorVersion(package: string, a: string, b: string)
    requires '=' !in a
    ensures Requirement(package, Quoted(a + "=" + b), AS_WRITTEN_SPLITS) == Ok(package + a + "=" + b)
  {
    var v := a + "=" + b;
    assert v != "*" by {
      assert v[|a|] == '=';
    }
    QuotedRequirement(package, v, AS_WRITTEN_SPLITS);
    Regroup(package, a, b);
  }

  /** Appending `a=b` to a package name, grouped either way. */
  lemma Regroup(package: string, a: string, b: string)
    ensures package + (a + "=" + b) == package + a + "=" + b
  {
  }

  /** Split on its first two `=`, `version = "a=b"` has ` "a` as its second part. */
  lemma OperatorEntrySplit(a: string, b: string)
    requires '=' !in a
    ensures SplitMax(VersionEntry(a + "=" + b), '=', 2) == ["version ", " \"" + a, b + "\""]
  {
    var v := a + "=" + b;
    var head := " \"" + a;
    var tail := b + "\"";
    VersionEntryHead(v, 2);
    OperatorQuotedShape(a, b);
    assert '=' !in head;
    SplitMaxCons(head, '=', tail, 1);
    assert SplitMax(tail, '=', 0) == [tail];
  }

  /** ` "a=b"` is ` "a`, then `=`, then `b"`. */
  lemma OperatorQuotedShape(a: string, b: string)
    ensures " " + Quoted(a + "=" + b) == (" \"" + a) + ['='] + (b + "\"")
  {
    var v := a + "=" + b;
    calc {
      " " + Quoted(v);
      " " + ("\"" + v + "\"");
      { assert v == a + ['='] + b; }
      (" \"" + a) + ['='] + (b + "\"");
    }
  }

  /** So the code's pin of that item is what lies between the quote and the `=`: empty for a one-character operator. */
  lemma OperatorEntryPin(package: string, a: string, b: string)
    requires |a| <= 1 && '=' !in a && (a == [] || !IsSpace(a[0]))
    ensures ItemPin(package, VersionEntry(a + "=" + b), AS_WRITTEN_SPLITS) == Ok("")
  {
    OperatorEntrySplit(a, b);
    OperatorSecondPart(a);
    var parts := StripAll(SplitMax(VersionEntry(a + "=" + b), '=', 2));
    assert parts[1] == "\"" + a;
  }

  /** ` "a` stripped is `"a`, whose inside is empty when `a` has at most one character. */
  lemma OperatorSecondPart(a: string)
    requires |a| <= 1 && (a == [] || !IsSpace(a[0]))
    ensures Strip(" \"" + a) == "\"" + a
    ensures Inner("\"" + a) == ""
  {
    var second := "\"" + a;
    assert " \"" + a == " " + second;
    StripBlank(second);
  }

  /**
   * With the intended split, a table version with an operator keeps its pin, exactly as
   * its quoted spelling does.
   */
  lemma TableKeepsOperatorPin(package: string, a: string, b: string)
    requires '=' !in a && ',' !in a + "=" + b
    ensures Requirement(package, TableEntry(a + "=" + b), INTENDED_SPLITS) == Ok(package + a + "=" + b)
  {
    var v := a + "=" + b;
    assert TableEntry(v) == TableText("", " ", " ", "", v);
    TableAgreesWithQuoted(package, "", " ", " ", "", v, INTENDED_SPLITS);
    assert v != "*" by {
      assert v[|a|] == '=';
    }
    QuotedRequirement(package, v, INTENDED_SPLITS);
    Regroup(package, a, b);
  }
}
