/**
 * The lookups that both defaults classes share: the variable names of a
 * category, the descriptor of a variable, the choice among conditional
 * defaults by the provided keys, and the quoting of string-typed values.
 */
module VariableLookup {
  import opened Schema
  import opened CaseInsensitiveSort

  /**
   * `sorted(parms[category].keys(), key=lambda s: s.lower())`: the names are
   * ordered by lower-case form, no name is added or lost, and names that
   * differ only in case stay in the order the mapping yields them.
   */
  function SortedVariableNames(parms: Mapping, category: string): (r: Result<seq<string>>)
    ensures r.Ok? <==> category in parms.entries && parms.entries[category].Dict?
    ensures category !in parms.entries ==> r == Err(KeyError(category))
    ensures category in parms.entries && !parms.entries[category].Dict? ==> r == Err(AttributeError)
    ensures r.Ok? ==>
      var names := parms.entries[category].d.keys;
      && Sorted(r.value)
      && multiset(r.value) == multiset(names)
      && forall folded :: WithLower(r.value, folded) == WithLower(names, folded)
  {
    var c :- Lookup(parms, category);
    if c.Dict? then Ok(SortByLower(c.d.keys)) else Err(AttributeError)
  }

  /** `parms[category][variable]`, which has to be a mapping for the lookups that follow. */
  function Descriptor(parms: Mapping, category: string, variable: string): (r: Result<Mapping>)
  {
    var c :- Lookup(parms, category);
    var v :- Subscript(c, variable);
    if v.Dict? then Ok(v.d) else Err(TypeError)
  }

  /** `parms[category][variable]["default_value"]`. */
  function DefaultValue(parms: Mapping, category: string, variable: string): (r: Result<Value>)
  {
    var desc :- Descriptor(parms, category, variable);
    Lookup(desc, "default_value")
  }

  /** `provided[i]` is a key of `table` and no later provided key is. */
  predicate IsLastMatch(provided: seq<string>, table: map<string, Value>, i: int)
  {
    && 0 <= i < |provided|
    && provided[i] in table
    && forall j :: i < j < |provided| ==> provided[j] !in table
  }

  /** No provided key is a key of `table`. */
  predicate NoMatch(provided: seq<string>, table: map<string, Value>)
  {
    forall j :: 0 <= j < |provided| ==> provided[j] !in table
  }

  /**
   * The key a scan of `provided` settles on when it starts from "default" and
   * switches to every provided key that `table` has: the last match wins.
   */
  function SelectedKey(provided: seq<string>, table: map<string, Value>): (k: string)
    ensures forall i :: IsLastMatch(provided, table, i) ==> k == provided[i]
    ensures NoMatch(provided, table) ==> k == "default"
    ensures k == "default" || k in table
  {
    if provided == [] then "default"
    else
      var n := |provided| - 1;
      if provided[n] in table then provided[n]
      else
        var k := SelectedKey(provided[..n], table);
        assert forall i :: IsLastMatch(provided, table, i) ==> IsLastMatch(provided[..n], table, i);
        k
  }

  /** Whenever some provided key is in the table, one of them is the last match. */
  lemma {:induction false} LastMatchExists(provided: seq<string>, table: map<string, Value>, i: int)
    requires 0 <= i < |provided| && provided[i] in table
    ensures exists l :: i <= l && IsLastMatch(provided, table, l)
    decreases |provided| - i
  {
    if !IsLastMatch(provided, table, i) {
      var j :| i < j < |provided| && provided[j] in table;
      LastMatchExists(provided, table, j);
    }
  }

  /** `'"%s"' % value`: the value's text inside one pair of double quotes. */
  function Quoted(value: Value): (r: Value)
    ensures r.Text? && |r.s| >= 2 && r.s[0] == '"' && r.s[|r.s| - 1] == '"'
    ensures r.s[1..|r.s| - 1] == Str(value)
  {
    Text("\"" + Str(value) + "\"")
  }

  /** The last step of `get_variable_value`: quote the value when the datatype is "string". */
  function Render(desc: Mapping, value: Value): (r: Result<Value>)
    ensures "datatype" !in desc.entries ==> r == Err(KeyError("datatype"))
    ensures "datatype" in desc.entries && desc.entries["datatype"] == Text("string") ==> r == Ok(Quoted(value))
    ensures "datatype" in desc.entries && desc.entries["datatype"] != Text("string") ==> r == Ok(value)
  {
    var kind :- Lookup(desc, "datatype");
    if kind == Text("string") then Ok(Quoted(value)) else Ok(value)
  }
}
