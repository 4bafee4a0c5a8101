/**
 The gosec report filter of build/ci/code_scanning/code_scan_results/filter_code_scan_results.py.
 The deserialised report is a JSON value. A truthy report must be an object: its
 "Golang errors" and "Stats" members are deleted, and so are the "cwe" and "line" members of
 every element of its "Issues" array, all in place. A missing key ends the process with
 status 1 after a message (KeyError), and a value of the wrong kind ends it with an uncaught
 TypeError. Otherwise the report is written to `<output_path>/filtered-<target>.json`.
 */
module ScanFilter {
  import opened Wrappers
  import opened Strings

  /** A deserialised JSON value. Numbers are integers, and objects are maps, so member
      order is not kept. */
  datatype Json =
    | JNull
    | JBool(b: bool)
    | JNum(n: int)
    | JStr(s: string)
    | JArr(items: seq<Json>)
    | JObj(fields: map<string, Json>)

  /** Python truthiness of the deserialised value. */
  predicate Truthy(j: Json) {
    match j
    case JNull => false
    case JBool(b) => b
    case JNum(n) => n != 0
    case JStr(s) => |s| > 0
    case JArr(items) => |items| > 0
    case JObj(fields) => |fields| > 0
  }

  /** The two ways the filter stops early. */
  datatype Error = KeyError(key: string) | TypeError

  /** How the process ends: the report written to a path, or exit status 1. */
  datatype Exit = Written(path: string, report: Json) | KeyErrorExit(key: string) | TypeErrorExit

  const TopFields: seq<string> := ["Golang errors", "Stats"]
  const IssuesKey: string := "Issues"
  const InnerFields: seq<string> := ["cwe", "line"]

  /** No key is listed twice. */
  predicate Distinct(keys: seq<string>) {
    forall i, j :: 0 <= i < j < |keys| ==> keys[i] != keys[j]
  }

  /** The dict left by `for k in keys: del d[k]` and the key whose `del` raised, if any. */
  datatype Deletion = Deletion(remaining: map<string, Json>, missing: Option<string>)

  function DeleteKeys(m: map<string, Json>, keys: seq<string>): Deletion
    decreases |keys|
  {
    if |keys| == 0 then Deletion(m, None)
    else
      var d := DeleteKeys(m, keys[..|keys| - 1]);
      var k := keys[|keys| - 1];
      if d.missing.Some? then d
      else if k in d.remaining then Deletion(d.remaining - {k}, None)
      else Deletion(d.remaining, Some(k))
  }

  /** Deleting distinct keys succeeds exactly when all of them are present, and then removes
      them and nothing else. */
  lemma {:induction false} DeleteKeysSucceeds(m: map<string, Json>, keys: seq<string>)
    requires Distinct(keys)
    ensures DeleteKeys(m, keys).missing.None? <==> forall i :: 0 <= i < |keys| ==> keys[i] in m
    ensures DeleteKeys(m, keys).missing.None? ==>
              DeleteKeys(m, keys).remaining == m - set k | k in keys
    decreases |keys|
  {
    if |keys| > 0 {
      var init := keys[..|keys| - 1];
      var last := keys[|keys| - 1];
      DeleteKeysSucceeds(m, init);
      assert forall i :: 0 <= i < |init| ==> keys[i] == init[i];
      var d := DeleteKeys(m, init);
      if d.missing.None? {
        assert last !in init;
        assert (set k | k in keys) == (set k | k in init) + {last};
      }
    }
  }

  /** A failure names the first absent key, and the keys before it are gone already. */
  lemma {:induction false} DeleteKeysFails(m: map<string, Json>, keys: seq<string>)
    requires Distinct(keys)
    requires DeleteKeys(m, keys).missing.Some?
    ensures exists j :: 0 <= j < |keys| && keys[j] == DeleteKeys(m, keys).missing.value &&
              keys[j] !in m && (forall i :: 0 <= i < j ==> keys[i] in m) &&
              DeleteKeys(m, keys).remaining == m - set k | k in keys[..j]
    decreases |keys|
  {
    var init := keys[..|keys| - 1];
    var last := keys[|keys| - 1];
    var d := DeleteKeys(m, init);
    assert forall i :: 0 <= i < |init| ==> keys[i] == init[i];
    if d.missing.None? {
      DeleteKeysSucceeds(m, init);
      assert last !in init;
      assert init == keys[..|keys| - 1];
      var j := |keys| - 1;
      assert keys[j] == DeleteKeys(m, keys).missing.value && keys[j] !in m;
    } else {
      DeleteKeysFails(m, init);
      var j :| 0 <= j < |init| && init[j] == d.missing.value && init[j] !in m &&
               (forall i :: 0 <= i < j ==> init[i] in m) &&
               d.remaining == m - set k | k in init[..j];
      assert keys[..j] == init[..j];
    }
  }

  /** A Python dict updated in place. */
  class JsonDict {
    var entries: map<string, Json>

    constructor (entries: map<string, Json>)
      ensures this.entries == entries
    {
      this.entries := entries;
    }

    /** `for k in keys: del d[k]`; `missing` is the key whose `del` raised KeyError. */
    method DeleteEach(keys: seq<string>) returns (missing: Option<string>)
      modifies this
      ensures DeleteKeys(old(entries), keys) == Deletion(entries, missing)
    {
      var i := 0;
      while i < |keys|
        invariant 0 <= i <= |keys|
        invariant DeleteKeys(old(entries), keys[..i]) == Deletion(entries, None)
      {
        assert keys[..i + 1][..i] == keys[..i];
        if keys[i] !in entries {
          DeleteKeysStops(old(entries), keys, i + 1);
          return Some(keys[i]);
        }
        entries := entries - {keys[i]};
        i := i + 1;
      }
      assert keys[..i] == keys;
      missing := None;
    }
  }

  /** Once a `del` has raised, the later keys change nothing. */
  lemma {:induction false} DeleteKeysStops(m: map<string, Json>, keys: seq<string>, j: nat)
    requires j <= |keys|
    requires DeleteKeys(m, keys[..j]).missing.Some?
    ensures DeleteKeys(m, keys) == DeleteKeys(m, keys[..j])
    decreases |keys| - j
  {
    if j < |keys| {
      var init := keys[..|keys| - 1];
      assert init[..j] == keys[..j];
      DeleteKeysStops(m, init, j);
    } else {
      assert keys[..j] == keys;
    }
  }

  /** The Issues elements after the inner loop, and the error that stopped it, if any. */
  datatype Stripped = Stripped(items: seq<Json>, err: Option<Error>)

  /** `for inner in items: for k in keys: del inner[k]`: an element that is not an object
      raises TypeError, an object lacking a key raises KeyError; the elements after that
      one are left as they were. */
  function StripIssues(items: seq<Json>, keys: seq<string>): (r: Stripped)
    ensures |r.items| == |items|
    decreases |items|
  {
    if |items| == 0 then Stripped([], None)
    else
      var prev := StripIssues(items[..|items| - 1], keys);
      var item := items[|items| - 1];
      if prev.err.Some? then Stripped(prev.items + [item], prev.err)
      else
        match item
        case JObj(fields) =>
          var d := DeleteKeys(fields, keys);
          Stripped(prev.items + [JObj(d.remaining)],
                   if d.missing.Some? then Some(KeyError(d.missing.value)) else None)
        case _ => Stripped(prev.items + [item], Some(TypeError))
  }

  /** The element is an object holding every one of `keys`. */
  predicate HasAll(item: Json, keys: seq<string>) {
    item.JObj? && forall i :: 0 <= i < |keys| ==> keys[i] in item.fields
  }

  /** The element after the keys are deleted from it. */
  function Stripped1(item: Json, keys: seq<string>): Json
    requires item.JObj?
  {
    JObj(DeleteKeys(item.fields, keys).remaining)
  }

  /** The inner loop succeeds exactly when every element is an object holding all the keys,
      and then each element has had the keys deleted, the array keeping length and order. */
  lemma {:induction false} StripIssuesSucceeds(items: seq<Json>, keys: seq<string>)
    requires Distinct(keys)
    ensures StripIssues(items, keys).err.None? <==>
            forall i :: 0 <= i < |items| ==> HasAll(items[i], keys)
    ensures StripIssues(items, keys).err.None? ==>
              forall i :: 0 <= i < |items| ==>
                HasAll(items[i], keys) && StripIssues(items, keys).items[i] == Stripped1(items[i], keys)
    decreases |items|
  {
    if |items| > 0 {
      var init := items[..|items| - 1];
      var item := items[|items| - 1];
      StripIssuesSucceeds(init, keys);
      assert forall i :: 0 <= i < |init| ==> items[i] == init[i];
      if item.JObj? {
        DeleteKeysSucceeds(item.fields, keys);
      }
    }
  }

  /** `out` is what the inner loop leaves when it stops at element `j`: the elements before
      it hold all the keys and have been stripped, `j` itself does not, and the elements
      after it are untouched. */
  predicate StoppedAt(items: seq<Json>, keys: seq<string>, out: seq<Json>, j: int) {
    && 0 <= j < |items| == |out|
    && !HasAll(items[j], keys)
    && (forall i :: 0 <= i < j ==> HasAll(items[i], keys) && out[i] == Stripped1(items[i], keys))
    && out[j + 1..] == items[j + 1..]
  }

  /** An element appended after the stop is left untouched. */
  lemma StoppedAtExtend(items: seq<Json>, keys: seq<string>, out: seq<Json>, j: int, item: Json)
    requires StoppedAt(items, keys, out, j)
    ensures StoppedAt(items + [item], keys, out + [item], j)
  {
    assert (out + [item])[j + 1..] == out[j + 1..] + [item];
    assert (items + [item])[j + 1..] == items[j + 1..] + [item];
    assert forall i :: 0 <= i <= j ==> (items + [item])[i] == items[i] && (out + [item])[i] == out[i];
  }

  /** Stripped elements followed by one that lacks a key: the loop stopped at that one. */
  lemma StoppedAtLast(items: seq<Json>, keys: seq<string>, out: seq<Json>, item: Json, x: Json)
    requires |out| == |items|
    requires forall i :: 0 <= i < |items| ==> HasAll(items[i], keys) && out[i] == Stripped1(items[i], keys)
    requires !HasAll(item, keys)
    ensures StoppedAt(items + [item], keys, out + [x], |items|)
  {
    assert forall i :: 0 <= i < |items| ==> (items + [item])[i] == items[i] && (out + [x])[i] == out[i];
  }

  /** When the inner loop fails, it stopped at the first element that is not an object
      holding all the keys. */
  lemma {:induction false} StripIssuesFails(items: seq<Json>, keys: seq<string>)
    requires Distinct(keys)
    requires StripIssues(items, keys).err.Some?
    ensures exists j :: StoppedAt(items, keys, StripIssues(items, keys).items, j)
    decreases |items|
  {
    var init := items[..|items| - 1];
    var item := items[|items| - 1];
    var prev := StripIssues(init, keys);
    var r := StripIssues(items, keys);
    assert items == init + [item];
    if prev.err.Some? {
      assert r.items == prev.items + [item];
      StripIssuesFails(init, keys);
      var j :| StoppedAt(init, keys, prev.items, j);
      StoppedAtExtend(init, keys, prev.items, j, item);
    } else {
      assert r.items == prev.items + [r.items[|items| - 1]];
      StripIssuesSucceeds(init, keys);
      assert !HasAll(item, keys) by {
        if item.JObj? {
          assert DeleteKeys(item.fields, keys).missing.Some?;
          DeleteKeysSucceeds(item.fields, keys);
        }
      }
      StoppedAtLast(init, keys, prev.items, item, r.items[|items| - 1]);
    }
  }

  /** `_remove_inner_fields_dict(report, key, keys)` on the report's members: the members
      after the loop and the error that stopped it. Iterating an empty object or an empty
      string runs no iteration; a non-empty one yields strings, whose `del` raises TypeError;
      any other non-array value is not iterable. */
  function StripInner(m: map<string, Json>, key: string, keys: seq<string>): (map<string, Json>, Option<Error>) {
    if key !in m then (m, Some(KeyError(key)))
    else
      match m[key]
      case JArr(items) =>
        var s := StripIssues(items, keys);
        (m[key := JArr(s.items)], s.err)
      case JObj(fields) => (m, if |fields| == 0 then None else Some(TypeError))
      case JStr(s) => (m, if |s| == 0 then None else Some(TypeError))
      case _ => (m, Some(TypeError))
  }

  /** The report itself, as the Python dict the filter mutates. */
  class Report {
    var root: JsonDict

    constructor (entries: map<string, Json>)
      ensures fresh(root) && root.entries == entries
    {
      root := new JsonDict(entries);
    }

    /** `_remove_inner_fields_dict(report, key, keys)`: the Issues elements are stripped
        in place, then the process goes on or stops. */
    method RemoveInnerFields(key: string, keys: seq<string>) returns (err: Option<Error>)
      modifies root
      ensures StripInner(old(root.entries), key, keys) == (root.entries, err)
    {
      if key !in root.entries {
        return Some(KeyError(key));
      }
      match root.entries[key]
      case JArr(items) =>
        var stripped;
        stripped, err := StripEach(items, keys);
        root.entries := root.entries[key := JArr(stripped)];
      case JObj(fields) =>
        err := if |fields| == 0 then None else Some(TypeError);
      case JStr(s) =>
        err := if |s| == 0 then None else Some(TypeError);
      case _ =>
        err := Some(TypeError);
    }

    /** `_filter_code_scan_res_gosec(report)` with the KeyError handlers' exit: the top-level
        deletions, then the Issues pass. */
    method FilterGosec() returns (err: Option<Error>)
      modifies root
      ensures GosecOutcome(old(root.entries)) == (root.entries, err)
    {
      var missing := root.DeleteEach(TopFields);
      if missing.Some? {
        return Some(KeyError(missing.value));
      }
      err := RemoveInnerFields(IssuesKey, InnerFields);
    }
  }

  /** The loop over the Issues elements: each object element is a dict whose keys are
      deleted in place; `out` is the array afterwards, the elements not reached unchanged. */
  method StripEach(items: seq<Json>, keys: seq<string>) returns (out: seq<Json>, err: Option<Error>)
    ensures StripIssues(items, keys) == Stripped(out, err)
  {
    var i := 0;
    out := [];
    while i < |items|
      invariant 0 <= i <= |items| && |out| == i
      invariant StripIssues(items[..i], keys) == Stripped(out, None)
    {
      assert items[..i + 1][..i] == items[..i];
      assert items[..i + 1][i] == items[i];
      if !items[i].JObj? {
        StripIssuesStops(items, keys, i + 1);
        return out + items[i..], Some(TypeError);
      }
      var inner := new JsonDict(items[i].fields);
      var missing := inner.DeleteEach(keys);
      out := out + [JObj(inner.entries)];
      if missing.Some? {
        StripIssuesStops(items, keys, i + 1);
        return out + items[i + 1..], Some(KeyError(missing.value));
      }
      i := i + 1;
    }
    assert items[..i] == items;
    err := None;
  }

  /** Once an element has raised, the later elements are carried over untouched. */
  lemma {:induction false} StripIssuesStops(items: seq<Json>, keys: seq<string>, j: nat)
    requires j <= |items|
    requires StripIssues(items[..j], keys).err.Some?
    ensures StripIssues(items, keys) ==
            Stripped(StripIssues(items[..j], keys).items + items[j..], StripIssues(items[..j], keys).err)
    decreases |items| - j
  {
    if j < |items| {
      var init := items[..|items| - 1];
      assert init[..j] == items[..j];
      StripIssuesStops(init, keys, j);
      assert init[j..] + [items[|items| - 1]] == items[j..];
    } else {
      assert items[..j] == items;
    }
  }

  /** The members after `_filter_code_scan_res_gosec`, and the error that stopped it. */
  function GosecOutcome(m: map<string, Json>): (map<string, Json>, Option<Error>) {
    var d := DeleteKeys(m, TopFields);
    if d.missing.Some? then (d.remaining, Some(KeyError(d.missing.value)))
    else StripInner(d.remaining, IssuesKey, InnerFields)
  }

  /** Python's posixpath.join of two components. */
  function PathJoin(a: string, b: string): string {
    if HasPrefix(b, "/") then b
    else if a == "" || a[|a| - 1] == '/' then a + b
    else a + "/" + b
  }

  /** The report read: `<output_path>/<target>.json`. */
  function InputPath(outputPath: string, target: string): string {
    PathJoin(outputPath, target + ".json")
  }

  /** The report written: `<output_path>/filtered-<target>.json`. */
  function OutputPath(outputPath: string, target: string): string {
    PathJoin(outputPath, "filtered-" + target + ".json")
  }

  /** The whole script on the deserialised report. */
  function Filter(outputPath: string, target: string, report: Json): Exit {
    if !Truthy(report) then Written(OutputPath(outputPath, target), report)
    else
      match report
      case JObj(m) =>
        var (m', err) := GosecOutcome(m);
        (match err
         case None => Written(OutputPath(outputPath, target), JObj(m'))
         case Some(KeyError(k)) => KeyErrorExit(k)
         case Some(TypeError) => TypeErrorExit)
      case _ => TypeErrorExit
  }

  /** main(): a falsy report is written as it is; a truthy one is filtered first. The
      report is the deserialised content of the input file, which is read outside the model. */
  method RunFilter(outputPath: string, target: string, report: Json) returns (exit: Exit)
    ensures exit == Filter(outputPath, target, report)
  {
    if !Truthy(report) {
      return Written(OutputPath(outputPath, target), report);
    }
    match report
    case JObj(m) =>
      var r := new Report(m);
      var err := r.FilterGosec();
      match err {
        case None => exit := Written(OutputPath(outputPath, target), JObj(r.root.entries));
        case Some(KeyError(k)) => exit := KeyErrorExit(k);
        case Some(TypeError) => exit := TypeErrorExit;
      }
    case _ =>
      exit := TypeErrorExit;
  }

  /** An empty or falsy report is written out unchanged. */
  lemma FalsyWrittenUnchanged(outputPath: string, target: string, report: Json)
    requires !Truthy(report)
    ensures Filter(outputPath, target, report) == Written(OutputPath(outputPath, target), report)
  {
  }

  /** The issues are in the shape the filter expects: an array of objects holding "cwe" and
      "line", or an empty object or string, over which the loop does not iterate. */
  predicate IssuesWellFormed(issues: Json) {
    match issues
    case JArr(items) => forall i :: 0 <= i < |items| ==> HasAll(items[i], InnerFields)
    case JObj(fields) => |fields| == 0
    case JStr(s) => |s| == 0
    case _ => false
  }

  /** The members after the top-level deletions. */
  lemma TopFieldsDeleted(m: map<string, Json>)
    ensures DeleteKeys(m, TopFields).missing.None? <==> "Golang errors" in m && "Stats" in m
    ensures DeleteKeys(m, TopFields).missing.None? ==>
              DeleteKeys(m, TopFields).remaining == m - {"Golang errors", "Stats"}
  {
    DeleteKeysSucceeds(m, TopFields);
    assert forall k :: k in TopFields <==> k == "Golang errors" || k == "Stats";
    assert (set k | k in TopFields) == {"Golang errors", "Stats"};
  }

  /** An issue after its inner deletions has lost exactly "cwe" and "line". */
  lemma InnerFieldsDeleted(item: Json)
    requires HasAll(item, InnerFields)
    ensures Stripped1(item, InnerFields) == JObj(item.fields - {"cwe", "line"})
  {
    DeleteKeysSucceeds(item.fields, InnerFields);
    assert forall k :: k in InnerFields <==> k == "cwe" || k == "line";
    assert (set k | k in InnerFields) == {"cwe", "line"};
  }

  /** `_filter_code_scan_res_gosec` succeeds exactly when the report holds "Golang errors",
      "Stats" and well-formed "Issues". */
  lemma GosecSucceedsIff(m: map<string, Json>)
    ensures GosecOutcome(m).1.None? <==>
            "Golang errors" in m && "Stats" in m && IssuesKey in m && IssuesWellFormed(m[IssuesKey])
  {
    TopFieldsDeleted(m);
    var d := DeleteKeys(m, TopFields);
    if d.missing.None? && IssuesKey in d.remaining && d.remaining[IssuesKey].JArr? {
      StripIssuesSucceeds(d.remaining[IssuesKey].items, InnerFields);
    }
  }

  /** After a successful `_filter_code_scan_res_gosec` the report lacks "Golang errors" and
      "Stats", keeps every other member, and each issue has lost exactly "cwe" and "line",
      the array keeping its length and order. */
  lemma GosecResult(m: map<string, Json>)
    requires "Golang errors" in m && "Stats" in m && IssuesKey in m && IssuesWellFormed(m[IssuesKey])
    ensures GosecOutcome(m).1.None?
    ensures GosecOutcome(m).0.Keys == m.Keys - {"Golang errors", "Stats"}
    ensures forall k :: k in GosecOutcome(m).0 && k != IssuesKey ==> GosecOutcome(m).0[k] == m[k]
    ensures m[IssuesKey].JArr? ==>
              && GosecOutcome(m).0[IssuesKey].JArr?
              && |GosecOutcome(m).0[IssuesKey].items| == |m[IssuesKey].items|
              && forall i :: 0 <= i < |m[IssuesKey].items| ==>
                   GosecOutcome(m).0[IssuesKey].items[i] ==
                   JObj(m[IssuesKey].items[i].fields - {"cwe", "line"})
    ensures !m[IssuesKey].JArr? ==> GosecOutcome(m).0[IssuesKey] == m[IssuesKey]
  {
    TopFieldsDeleted(m);
    GosecSucceedsIff(m);
    var rest := m - {"Golang errors", "Stats"};
    if m[IssuesKey].JArr? {
      var items := m[IssuesKey].items;
      assert rest[IssuesKey] == m[IssuesKey];
      StripIssuesSucceeds(items, InnerFields);
      forall i | 0 <= i < |items|
        ensures GosecOutcome(m).0[IssuesKey].items[i] == JObj(items[i].fields - {"cwe", "line"})
      {
        InnerFieldsDeleted(items[i]);
      }
    }
  }

  /** A truthy object report is written, to `<output_path>/filtered-<target>.json`, exactly
      when the gosec filter succeeds on it; what is written is the filtered report. */
  lemma FilterWritten(outputPath: string, target: string, m: map<string, Json>)
    requires |m| > 0
    ensures Filter(outputPath, target, JObj(m)).Written? <==>
            "Golang errors" in m && "Stats" in m && IssuesKey in m && IssuesWellFormed(m[IssuesKey])
    ensures Filter(outputPath, target, JObj(m)).Written? ==>
              Filter(outputPath, target, JObj(m)) ==
              Written(OutputPath(outputPath, target), JObj(GosecOutcome(m).0))
  {
    GosecSucceedsIff(m);
  }

  /** A missing top-level key is reported by name; "Golang errors" is checked first. */
  lemma FilterMissingTopKey(outputPath: string, target: string, m: map<string, Json>)
    requires |m| > 0
    ensures "Golang errors" !in m ==> Filter(outputPath, target, JObj(m)) == KeyErrorExit("Golang errors")
    ensures "Golang errors" in m && "Stats" !in m ==> Filter(outputPath, target, JObj(m)) == KeyErrorExit("Stats")
    ensures "Golang errors" in m && "Stats" in m && IssuesKey !in m ==>
              Filter(outputPath, target, JObj(m)) == KeyErrorExit(IssuesKey)
  {
    TopFieldsDeleted(m);
    if DeleteKeys(m, TopFields).missing.Some? {
      DeleteKeysFails(m, TopFields);
    }
  }

  /** Filtering an already filtered report fails: "Golang errors" is gone. */
  lemma RefilterFails(outputPath: string, target: string, m: map<string, Json>)
    requires |m| > 0
    requires Filter(outputPath, target, JObj(m)).Written?
    ensures Filter(outputPath, target, Filter(outputPath, target, JObj(m)).report) ==
            KeyErrorExit("Golang errors")
  {
    FilterWritten(outputPath, target, m);
    GosecResult(m);
    var out := Filter(outputPath, target, JObj(m)).report;
    assert IssuesKey in out.fields;
    FilterMissingTopKey(outputPath, target, out.fields);
  }

  /** The filtered report never overwrites the report it was read from. */
  lemma OutputIsNotInput(outputPath: string, target: string)
    ensures OutputPath(outputPath, target) != InputPath(outputPath, target)
  {
    var name := "filtered-" + target + ".json";
    assert !HasPrefix(name, "/") by {
      assert name[0] == 'f';
    }
    assert |OutputPath(outputPath, target)| >= |target + ".json"| + 9;
    if !HasPrefix(target + ".json", "/") {
      assert |OutputPath(outputPath, target)| == |InputPath(outputPath, target)| + 9;
    }
  }
}
