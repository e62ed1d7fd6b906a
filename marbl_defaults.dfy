/**
 * The MARBL defaults class: it holds the parsed parameter file and the
 * provided keys built from the grid name, lists the categories in the order
 * `_order` gives after checking that list against the file, lists the
 * variables of a category, and resolves the default value of a variable,
 * choosing among conditional defaults by the provided keys.
 */
module MarblDefaults {
  import opened Schema
  import opened CaseInsensitiveSort
  import opened VariableLookup

  function UnknownCategoryMessage(name: string): (r: string)
  {
    "ERROR: can not find '" + name + "' in YAML file"
  }

  function UnlistedCategoryMessage(name: string): (r: string)
  {
    "ERROR: '" + name + "' is not listed in '_order' and won't be processed"
  }

  function RepeatedCategoryMessage(name: string): (r: string)
  {
    "ERROR: '" + name + "' appears in '_order' multiple times"
  }

  function NoDefaultKeyMessage(variable: string): (r: string)
  {
    "ERROR: variable '" + variable + "' does not have default key in default_value"
  }

  /** An `_order` entry that names a top-level key of the file. */
  predicate KnownEntry(parms: Mapping, entry: Value)
  {
    entry.Text? && entry.s in parms.entries
  }

  /** A top-level key that `_order` accounts for. */
  predicate ListedKey(order: seq<Value>, key: string)
  {
    key == "_order" || Text(key) in order
  }

  /** First check: the scan of `_order` from index `i` for an entry the file lacks. */
  function UnknownEntryFrom(parms: Mapping, order: seq<Value>, i: nat): (r: Outcome)
    requires i <= |order|
    decreases |order| - i
  {
    if i == |order| then Pass
    else if KnownEntry(parms, order[i]) then UnknownEntryFrom(parms, order, i + 1)
    else if order[i].Text? then Fail(Abort(UnknownCategoryMessage(order[i].s)))
    else Fail(TypeError)  // the message cannot be built from a non-string entry
  }

  /** Second check: the scan of the top-level keys from index `i` for one `_order` leaves out. */
  function UnlistedKeyFrom(parms: Mapping, order: seq<Value>, i: nat): (r: Outcome)
    requires i <= |parms.keys|
    decreases |parms.keys| - i
  {
    if i == |parms.keys| then Pass
    else if ListedKey(order, parms.keys[i]) then UnlistedKeyFrom(parms, order, i + 1)
    else Fail(Abort(UnlistedCategoryMessage(parms.keys[i])))
  }

  /** Third check: the scan of `_order` from index `i` for an entry seen before it. */
  function RepeatedEntryFrom(order: seq<Value>, i: nat): (r: Outcome)
    requires i <= |order|
    decreases |order| - i
  {
    if i == |order| then Pass
    else if order[i] !in order[..i] then RepeatedEntryFrom(order, i + 1)
    else if order[i].Text? then Fail(Abort(RepeatedCategoryMessage(order[i].s)))
    else Fail(TypeError)
  }

  /** `get_category_names`: the three checks in turn, then `parms["_order"]` itself. */
  function CategoryNames(parms: Mapping): (r: Result<Value>)
  {
    if "_order" !in parms.entries then Err(KeyError("_order"))
    else
      var node := parms.entries["_order"];
      if !node.List? then Err(TypeError)
      else if UnknownEntryFrom(parms, node.items, 0).Fail? then Err(UnknownEntryFrom(parms, node.items, 0).error)
      else if UnlistedKeyFrom(parms, node.items, 0).Fail? then Err(UnlistedKeyFrom(parms, node.items, 0).error)
      else if RepeatedEntryFrom(node.items, 0).Fail? then Err(RepeatedEntryFrom(node.items, 0).error)
      else Ok(node)
  }

  /**
   * What the three checks demand of `_order`: every entry is a top-level key,
   * every top-level key other than `_order` is listed, and no entry repeats.
   */
  predicate OrderConsistent(parms: Mapping, order: seq<Value>)
  {
    && (forall i :: 0 <= i < |order| ==> KnownEntry(parms, order[i]))
    && (forall i :: 0 <= i < |parms.keys| ==> ListedKey(order, parms.keys[i]))
    && (forall i, j :: 0 <= i < j < |order| ==> order[i] != order[j])
  }

  lemma {:induction false} UnknownEntryFromPasses(parms: Mapping, order: seq<Value>, i: nat)
    requires i <= |order|
    ensures UnknownEntryFrom(parms, order, i) == Pass <==> forall k :: i <= k < |order| ==> KnownEntry(parms, order[k])
    decreases |order| - i
  {
    if i < |order| {
      UnknownEntryFromPasses(parms, order, i + 1);
    }
  }

  lemma {:induction false} UnlistedKeyFromPasses(parms: Mapping, order: seq<Value>, i: nat)
    requires i <= |parms.keys|
    ensures UnlistedKeyFrom(parms, order, i) == Pass <==> forall k :: i <= k < |parms.keys| ==> ListedKey(order, parms.keys[k])
    decreases |parms.keys| - i
  {
    if i < |parms.keys| {
      UnlistedKeyFromPasses(parms, order, i + 1);
    }
  }

  lemma {:induction false} RepeatedEntryFromPasses(order: seq<Value>, i: nat)
    requires i <= |order|
    ensures RepeatedEntryFrom(order, i) == Pass <==> forall k :: i <= k < |order| ==> order[k] !in order[..k]
    decreases |order| - i
  {
    if i < |order| {
      RepeatedEntryFromPasses(order, i + 1);
    }
  }

  lemma NoEntrySeenBeforeMeansDistinct(order: seq<Value>)
    ensures (forall k :: 0 <= k < |order| ==> order[k] !in order[..k])
        <==> (forall i, j :: 0 <= i < j < |order| ==> order[i] != order[j])
  {
    if forall k :: 0 <= k < |order| ==> order[k] !in order[..k] {
      forall i, j | 0 <= i < j < |order| ensures order[i] != order[j] {
        assert order[..j][i] == order[i];
      }
    }
  }

  /**
   * `get_category_names` returns normally exactly when `_order` is a list
   * consistent with the file's keys, and then it returns `_order` itself:
   * the same entries in the same order.
   */
  lemma CategoryNamesIffConsistent(parms: Mapping)
    ensures CategoryNames(parms).Ok? <==>
      "_order" in parms.entries && parms.entries["_order"].List?
      && OrderConsistent(parms, parms.entries["_order"].items)
    ensures CategoryNames(parms).Ok? ==> CategoryNames(parms).value == parms.entries["_order"]
  {
    if "_order" in parms.entries && parms.entries["_order"].List? {
      var order := parms.entries["_order"].items;
      UnknownEntryFromPasses(parms, order, 0);
      UnlistedKeyFromPasses(parms, order, 0);
      RepeatedEntryFromPasses(order, 0);
      NoEntrySeenBeforeMeansDistinct(order);
    }
  }

  lemma {:induction false} UnknownEntryFromFirst(parms: Mapping, order: seq<Value>, i: nat, f: nat)
    requires i <= f < |order| && !KnownEntry(parms, order[f])
    requires forall k :: i <= k < f ==> KnownEntry(parms, order[k])
    ensures UnknownEntryFrom(parms, order, i) == UnknownEntryFrom(parms, order, f)
    decreases f - i
  {
    if i < f {
      UnknownEntryFromFirst(parms, order, i + 1, f);
    }
  }

  lemma {:induction false} UnlistedKeyFromFirst(parms: Mapping, order: seq<Value>, i: nat, f: nat)
    requires i <= f < |parms.keys| && !ListedKey(order, parms.keys[f])
    requires forall k :: i <= k < f ==> ListedKey(order, parms.keys[k])
    ensures UnlistedKeyFrom(parms, order, i) == UnlistedKeyFrom(parms, order, f)
    decreases f - i
  {
    if i < f {
      UnlistedKeyFromFirst(parms, order, i + 1, f);
    }
  }

  lemma {:induction false} RepeatedEntryFromFirst(order: seq<Value>, i: nat, f: nat)
    requires i <= f < |order| && order[f] in order[..f]
    requires forall k :: i <= k < f ==> order[k] !in order[..k]
    ensures RepeatedEntryFrom(order, i) == RepeatedEntryFrom(order, f)
    decreases f - i
  {
    if i < f {
      RepeatedEntryFromFirst(order, i + 1, f);
    }
  }

  /** The first `_order` entry missing from the file aborts with a message naming it. */
  lemma UnknownEntryAborts(parms: Mapping, f: nat)
    requires "_order" in parms.entries && parms.entries["_order"].List?
    requires var order := parms.entries["_order"].items;
      && f < |order| && order[f].Text? && order[f].s !in parms.entries
      && forall k :: 0 <= k < f ==> KnownEntry(parms, order[k])
    ensures CategoryNames(parms) == Err(Abort(UnknownCategoryMessage(parms.entries["_order"].items[f].s)))
  {
    UnknownEntryFromFirst(parms, parms.entries["_order"].items, 0, f);
  }

  /**
   * Once every entry is known, the first top-level key `_order` leaves out
   * aborts with a message naming it.
   */
  lemma UnlistedKeyAborts(parms: Mapping, f: nat)
    requires "_order" in parms.entries && parms.entries["_order"].List?
    requires var order := parms.entries["_order"].items;
      && (forall k :: 0 <= k < |order| ==> KnownEntry(parms, order[k]))
      && f < |parms.keys| && !ListedKey(order, parms.keys[f])
      && forall k :: 0 <= k < f ==> ListedKey(order, parms.keys[k])
    ensures CategoryNames(parms) == Err(Abort(UnlistedCategoryMessage(parms.keys[f])))
  {
    var order := parms.entries["_order"].items;
    UnknownEntryFromPasses(parms, order, 0);
    UnlistedKeyFromFirst(parms, order, 0, f);
  }

  /**
   * Once the first two checks pass, the first entry that repeats an earlier
   * one aborts with a message naming it.
   */
  lemma RepeatedEntryAborts(parms: Mapping, f: nat)
    requires "_order" in parms.entries && parms.entries["_order"].List?
    requires var order := parms.entries["_order"].items;
      && (forall k :: 0 <= k < |order| ==> KnownEntry(parms, order[k]))
      && (forall k :: 0 <= k < |parms.keys| ==> ListedKey(order, parms.keys[k]))
      && f < |order| && order[f] in order[..f]
      && forall k :: 0 <= k < f ==> order[k] !in order[..k]
    ensures CategoryNames(parms) == Err(Abort(RepeatedCategoryMessage(parms.entries["_order"].items[f].s)))
  {
    var order := parms.entries["_order"].items;
    UnknownEntryFromPasses(parms, order, 0);
    UnlistedKeyFromPasses(parms, order, 0);
    RepeatedEntryFromFirst(order, 0, f);
  }

  /**
   * `_get_correct_default`: the conditional default table must hold a
   * "default" entry; the value is the one under the last provided key the
   * table has, or under "default" when it has none.
   */
  function CheckedDefault(parms: Mapping, provided: seq<string>, category: string, variable: string): (r: Result<Value>)
  {
    var table :- DefaultValue(parms, category, variable);
    if !table.Dict? then Err(AttributeError)  // `.keys()` of a value that is not a mapping
    else if "default" !in table.d.entries then Err(Abort(NoDefaultKeyMessage(variable)))
    else Ok(table.d.entries[SelectedKey(provided, table.d.entries)])
  }

  /** A conditional default without a "default" entry aborts, whatever the provided keys are. */
  lemma MissingDefaultAborts(parms: Mapping, provided: seq<string>, category: string, variable: string, table: Mapping)
    requires DefaultValue(parms, category, variable) == Ok(Dict(table))
    requires "default" !in table.entries
    ensures CheckedDefault(parms, provided, category, variable) == Err(Abort(NoDefaultKeyMessage(variable)))
  {
  }

  /**
   * With a "default" entry present the selection never fails: it yields the
   * value under the last provided key in the table, or under "default" when
   * no provided key is in it.
   */
  lemma CheckedDefaultIsLastMatch(parms: Mapping, provided: seq<string>, category: string, variable: string, table: Mapping)
    requires DefaultValue(parms, category, variable) == Ok(Dict(table))
    requires "default" in table.entries
    ensures NoMatch(provided, table.entries) ==>
      CheckedDefault(parms, provided, category, variable) == Ok(table.entries["default"])
    ensures forall i :: IsLastMatch(provided, table.entries, i) ==>
      CheckedDefault(parms, provided, category, variable) == Ok(table.entries[provided[i]])
    ensures !NoMatch(provided, table.entries) ==>
      exists i :: IsLastMatch(provided, table.entries, i) && CheckedDefault(parms, provided, category, variable) == Ok(table.entries[provided[i]])
  {
    if !NoMatch(provided, table.entries) {
      var i :| 0 <= i < |provided| && provided[i] in table.entries;
      LastMatchExists(provided, table.entries, i);
    }
  }

  /** `get_variable_value`: the scalar default or the selected conditional one, quoted for strings. */
  function VariableValue(parms: Mapping, provided: seq<string>, category: string, variable: string): (r: Result<Value>)
  {
    var desc :- Descriptor(parms, category, variable);
    var given :- Lookup(desc, "default_value");
    var value :- if given.Dict? then CheckedDefault(parms, provided, category, variable) else Ok(given);
    Render(desc, value)
  }

  /** A default that is not a mapping is returned unchanged when the datatype is not "string", and quoted when it is. */
  lemma ScalarDefault(parms: Mapping, provided: seq<string>, category: string, variable: string, desc: Mapping)
    requires Descriptor(parms, category, variable) == Ok(desc)
    requires "default_value" in desc.entries && !desc.entries["default_value"].Dict?
    requires "datatype" in desc.entries
    ensures desc.entries["datatype"] != Text("string") ==>
      VariableValue(parms, provided, category, variable) == Ok(desc.entries["default_value"])
    ensures desc.entries["datatype"] == Text("string") ==>
      VariableValue(parms, provided, category, variable) == Ok(Text("\"" + Str(desc.entries["default_value"]) + "\""))
  {
  }

  /**
   * With the provided keys the constructor builds, a conditional default
   * resolves to its "grid = <grid>" entry when it has one and to its
   * "default" entry otherwise; a "string" datatype adds one pair of quotes.
   */
  lemma GridDefault(parms: Mapping, grid: string, category: string, variable: string, desc: Mapping, table: Mapping)
    requires Descriptor(parms, category, variable) == Ok(desc)
    requires "default_value" in desc.entries && desc.entries["default_value"] == Dict(table)
    requires "default" in table.entries && "datatype" in desc.entries
    ensures var chosen := table.entries[if "grid = " + grid in table.entries then "grid = " + grid else "default"];
      VariableValue(parms, ["grid = " + grid], category, variable)
      == Ok(if desc.entries["datatype"] == Text("string") then Quoted(chosen) else chosen)
  {
    var provided := ["grid = " + grid];
    if "grid = " + grid in table.entries {
      assert IsLastMatch(provided, table.entries, 0);
    } else {
      assert NoMatch(provided, table.entries);
    }
  }

  /** Two provided keys that both match: the later one wins, whatever order the table lists its keys in. */
  lemma LaterKeyWins(table: map<string, Value>, first: string, second: string)
    requires first in table && second in table
    ensures SelectedKey([first, second], table) == second
  {
    assert IsLastMatch([first, second], table, 1);
  }

  class Defaults {
    var configKeyword: map<string, string>
    var providedKeys: seq<string>
    var parms: Mapping

    /** The parsed file stands in for reading it from disk. */
    constructor (schema: Mapping, grid: string)
      ensures configKeyword == map["grid" := grid]
      ensures providedKeys == ["grid = " + grid]
      ensures parms == schema
    {
      var keywords: map<string, string> := map[];
      keywords := keywords["grid" := grid];
      var keys: seq<string> := [];
      keys := keys + ["grid = " + keywords["grid"]];
      configKeyword := keywords;
      providedKeys := keys;
      parms := schema;
    }

    method GetCategoryNames() returns (r: Result<Value>)
      ensures r == CategoryNames(parms)
      ensures r.Ok? <==>
        "_order" in parms.entries && parms.entries["_order"].List?
        && OrderConsistent(parms, parms.entries["_order"].items)
      ensures r.Ok? ==> r.value == parms.entries["_order"]
    {
      CategoryNamesIffConsistent(parms);
      if "_order" !in parms.entries {
        return Err(KeyError("_order"));
      }
      var node := parms.entries["_order"];
      if !node.List? {
        return Err(TypeError);
      }
      var order := node.items;

      // 1. every entry of _order is a top-level key
      var i := 0;
      while i < |order|
        invariant 0 <= i <= |order|
        invariant UnknownEntryFrom(parms, order, 0) == UnknownEntryFrom(parms, order, i)
      {
        var key := order[i];
        if !(key.Text? && key.s in parms.entries) {
          if key.Text? {
            r := Err(Abort(UnknownCategoryMessage(key.s)));
          } else {
            r := Err(TypeError);
          }
          return;
        }
        i := i + 1;
      }

      // 2. every top-level key other than _order is listed in _order
      i := 0;
      while i < |parms.keys|
        invariant 0 <= i <= |parms.keys|
        invariant UnlistedKeyFrom(parms, order, 0) == UnlistedKeyFrom(parms, order, i)
      {
        var key := parms.keys[i];
        if key != "_order" && Text(key) !in order {
          return Err(Abort(UnlistedCategoryMessage(key)));
        }
        i := i + 1;
      }

      // 3. no entry of _order appears twice
      var uniqueKeys: seq<Value> := [];
      i := 0;
      while i < |order|
        invariant 0 <= i <= |order|
        invariant uniqueKeys == order[..i]
        invariant RepeatedEntryFrom(order, 0) == RepeatedEntryFrom(order, i)
      {
        var key := order[i];
        if key in uniqueKeys {
          if key.Text? {
            r := Err(Abort(RepeatedCategoryMessage(key.s)));
          } else {
            r := Err(TypeError);
          }
          return;
        }
        uniqueKeys := uniqueKeys + [key];
        i := i + 1;
      }
      return Ok(node);
    }

    /** `get_variable_names`. */
    function GetVariableNames(category: string): (r: Result<seq<string>>)
      reads this
      ensures r.Ok? <==> category in parms.entries && parms.entries[category].Dict?
      ensures category !in parms.entries ==> r == Err(KeyError(category))
      ensures category in parms.entries && !parms.entries[category].Dict? ==> r == Err(AttributeError)
      ensures r.Ok? ==>
        var names := parms.entries[category].d.keys;
        && Sorted(r.value)
        && multiset(r.value) == multiset(names)
        && forall folded :: WithLower(r.value, folded) == WithLower(names, folded)
    {
      SortedVariableNames(parms, category)
    }

    /** `_get_correct_default`. */
    method GetCorrectDefault(category: string, variable: string) returns (r: Result<Value>)
      ensures r == CheckedDefault(parms, providedKeys, category, variable)
    {
      var table :- DefaultValue(parms, category, variable);
      if !table.Dict? {
        return Err(AttributeError);
      }
      if "default" !in table.d.entries {
        return Err(Abort(NoDefaultKeyMessage(variable)));
      }
      var useKey := "default";
      var i := 0;
      while i < |providedKeys|
        invariant 0 <= i <= |providedKeys|
        invariant useKey == SelectedKey(providedKeys[..i], table.d.entries)
      {
        var key := providedKeys[i];
        if key in table.d.entries {
          useKey := key;
        }
        assert providedKeys[..i + 1][..i] == providedKeys[..i];
        i := i + 1;
      }
      assert providedKeys[..i] == providedKeys;
      return Ok(table.d.entries[useKey]);
    }

    /** `get_variable_value`. */
    method GetVariableValue(category: string, variable: string) returns (r: Result<Value>)
      ensures r == VariableValue(parms, providedKeys, category, variable)
    {
      var desc :- Descriptor(parms, category, variable);
      var given :- Lookup(desc, "default_value");
      var value: Value;
      if given.Dict? {
        value :- GetCorrectDefault(category, variable);
      } else {
        value := given;
      }
      r := Render(desc, value);
    }
  }

  /** Asking twice gives the same answer: the query changes nothing. */
  method CategoryNamesTwice(defaults: Defaults) returns (first: Result<Value>, second: Result<Value>)
    ensures first == second
    ensures first.Ok? ==> "_order" in defaults.parms.entries && first.value == defaults.parms.entries["_order"]
  {
    first := defaults.GetCategoryNames();
    second := defaults.GetCategoryNames();
  }
}
