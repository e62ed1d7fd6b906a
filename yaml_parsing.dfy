/**
 * The earlier YAML parsing class. It has the same state and the same lookups
 * as the MARBL defaults class, but returns `_order` without checking it and
 * does not check that a conditional default has a "default" entry: a missing
 * entry surfaces as a failed lookup.
 */
module YamlParsing {
  import opened Schema
  import opened CaseInsensitiveSort
  import opened VariableLookup
  import MarblDefaults

  /** `_get_correct_default` without the "default" check. */
  function UncheckedDefault(parms: Mapping, provided: seq<string>, category: string, variable: string): (r: Result<Value>)
  {
    var table :- DefaultValue(parms, category, variable);
    if !table.Dict? then
      // the scan calls `.keys()` on it; with no provided keys only the final subscript runs
      if provided == [] then Err(TypeError) else Err(AttributeError)
    else Lookup(table.d, SelectedKey(provided, table.d.entries))
  }

  /**
   * The selection fails, with a missing-key error for "default", exactly when
   * no provided key is in the table and the table has no "default" entry;
   * otherwise it yields the entry of the last matching key, or of "default".
   */
  lemma UncheckedDefaultFailsOnlyWithoutFallback(parms: Mapping, provided: seq<string>, category: string, variable: string, table: Mapping)
    requires DefaultValue(parms, category, variable) == Ok(Dict(table))
    ensures UncheckedDefault(parms, provided, category, variable).Err?
        <==> NoMatch(provided, table.entries) && "default" !in table.entries
    ensures UncheckedDefault(parms, provided, category, variable).Err? ==>
      UncheckedDefault(parms, provided, category, variable) == Err(KeyError("default"))
    ensures forall i :: IsLastMatch(provided, table.entries, i) ==>
      UncheckedDefault(parms, provided, category, variable) == Ok(table.entries[provided[i]])
    ensures NoMatch(provided, table.entries) && "default" in table.entries ==>
      UncheckedDefault(parms, provided, category, variable) == Ok(table.entries["default"])
  {
    if !NoMatch(provided, table.entries) {
      var i :| 0 <= i < |provided| && provided[i] in table.entries;
      LastMatchExists(provided, table.entries, i);
    }
  }

  /** Where the table has a "default" entry the two classes select the same value. */
  lemma SameSelectionWithFallback(parms: Mapping, provided: seq<string>, category: string, variable: string, table: Mapping)
    requires DefaultValue(parms, category, variable) == Ok(Dict(table))
    requires "default" in table.entries
    ensures UncheckedDefault(parms, provided, category, variable)
         == MarblDefaults.CheckedDefault(parms, provided, category, variable)
  {
  }

  /** `get_variable_value`, selecting with the unchecked scan. */
  function VariableValue(parms: Mapping, provided: seq<string>, category: string, variable: string): (r: Result<Value>)
  {
    var desc :- Descriptor(parms, category, variable);
    var given :- Lookup(desc, "default_value");
    var value :- if given.Dict? then UncheckedDefault(parms, provided, category, variable) else Ok(given);
    Render(desc, value)
  }

  /**
   * A "string" datatype yields the default's text in double quotes; any other
   * datatype yields the scalar default, or the selected conditional one,
   * unchanged.
   */
  lemma VariableValueQuotesStrings(parms: Mapping, provided: seq<string>, category: string, variable: string, desc: Mapping)
    requires Descriptor(parms, category, variable) == Ok(desc)
    requires "default_value" in desc.entries && "datatype" in desc.entries
    ensures var given := desc.entries["default_value"];
      var chosen := if given.Dict? then UncheckedDefault(parms, provided, category, variable) else Ok(given);
      chosen.Ok? ==>
        VariableValue(parms, provided, category, variable)
        == Ok(if desc.entries["datatype"] == Text("string") then Text("\"" + Str(chosen.value) + "\"") else chosen.value)
  {
  }

  /**
   * Wherever the conditional defaults all carry a "default" entry the two
   * classes resolve every variable alike.
   */
  lemma SameValueWithFallback(parms: Mapping, provided: seq<string>, category: string, variable: string)
    requires DefaultValue(parms, category, variable).Ok?
    requires var given := DefaultValue(parms, category, variable).value;
      given.Dict? ==> "default" in given.d.entries
    ensures VariableValue(parms, provided, category, variable)
         == MarblDefaults.VariableValue(parms, provided, category, variable)
  {
  }

  /** Any `_order` the checked class accepts is returned alike by this class. */
  lemma SameCategoriesWhenConsistent(parms: Mapping)
    requires MarblDefaults.CategoryNames(parms).Ok?
    ensures Lookup(parms, "_order") == MarblDefaults.CategoryNames(parms)
  {
    MarblDefaults.CategoryNamesIffConsistent(parms);
  }

  class YamlParser {
    var configKeyword: map<string, string>
    var providedKeys: seq<string>
    var parms: Mapping

    /** The parsed file stands in for reading it from disk. */
    constructor (schema: Mapping, grid: string)
      ensures configKeyword == map["grid" := grid]
      ensures providedKeys == ["grid = " + grid]
      ensures parms == schema
    {
      var keywords: map<string, string> := map[];
      keywords := keywords["grid" := grid];
      var keys: seq<string> := [];
      keys := keys + ["grid = " + keywords["grid"]];
      configKeyword := keywords;
      providedKeys := keys;
      parms := schema;
    }

    /** `get_category_names`: `parms["_order"]` as it is, with no check. */
    function GetCategoryNames(): (r: Result<Value>)
      reads this
      ensures r.Ok? <==> "_order" in parms.entries
      ensures r.Ok? ==> r.value == parms.entries["_order"]
      ensures r.Err? ==> r.error == KeyError("_order")
    {
      Lookup(parms, "_order")
    }

    /** `get_variable_names`. */
    function GetVariableNames(category: string): (r: Result<seq<string>>)
      reads this
      ensures r.Ok? <==> category in parms.entries && parms.entries[category].Dict?
      ensures category !in parms.entries ==> r == Err(KeyError(category))
      ensures category in parms.entries && !parms.entries[category].Dict? ==> r == Err(AttributeError)
      ensures r.Ok? ==>
        var names := parms.entries[category].d.keys;
        && Sorted(r.value)
        && multiset(r.value) == multiset(names)
        && forall folded :: WithLower(r.value, folded) == WithLower(names, folded)
    {
      SortedVariableNames(parms, category)
    }

    /** `_get_correct_default`. */
    method GetCorrectDefault(category: string, variable: string) returns (r: Result<Value>)
      ensures r == UncheckedDefault(parms, providedKeys, category, variable)
    {
      var table :- DefaultValue(parms, category, variable);
      var useKey := "default";
      var i := 0;
      while i < |providedKeys|
        invariant 0 <= i <= |providedKeys|
        invariant table.Dict? || i == 0
        invariant table.Dict? ==> useKey == SelectedKey(providedKeys[..i], table.d.entries)
      {
        if !table.Dict? {
          return Err(AttributeError);
        }
        var key := providedKeys[i];
        if key in table.d.entries {
          useKey := key;
        }
        assert providedKeys[..i + 1][..i] == providedKeys[..i];
        i := i + 1;
      }
      assert providedKeys[..i] == providedKeys;
      r := Subscript(table, useKey);
    }

    /** `get_variable_value`. */
    method GetVariableValue(category: string, variable: string) returns (r: Result<Value>)
      ensures r == VariableValue(parms, providedKeys, category, variable)
    {
      var desc :- Descriptor(parms, category, variable);
      var given :- Lookup(desc, "default_value");
      var value: Value;
      if given.Dict? {
        value :- GetCorrectDefault(category, variable);
      } else {
        value := given;
      }
      r := Render(desc, value);
    }
  }
}
