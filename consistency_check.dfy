/**
 * The schema checker run on a parameter file before it is used:
 *   1. `_order` is a top-level key;
 *   2. everything listed in `_order` is a top-level key;
 *   3. every top-level key not beginning with '_' is listed in `_order`;
 *   4. every variable of such a category has a "datatype" key;
 *   5. a variable whose datatype is not a mapping is a well-defined variable;
 *   6. a variable whose datatype is a mapping has well-defined fields,
 *      fields beginning with '_' aside;
 *   7. a conditional default has a "default" entry (part of well-defined).
 * The run stops at the first violation with a message.
 */
module ConsistencyCheck {
  import opened Schema

  const RequiredKeys: seq<string> := ["longname", "subcategory", "units", "datatype", "default_value"]

  /** The loop of `valid_variable_dict`: whether each of `keys` from index `i` on is in `d`. */
  function AllPresentFrom(d: Mapping, keys: seq<string>, i: nat): (present: bool)
    requires i <= |keys|
    ensures present <==> forall k :: i <= k < |keys| ==> keys[k] in d.entries
    decreases |keys| - i
  {
    i == |keys| || (keys[i] in d.entries && AllPresentFrom(d, keys, i + 1))
  }

  predicate HasDescriptorKeys(d: Mapping)
  {
    && "longname" in d.entries
    && "subcategory" in d.entries
    && "units" in d.entries
    && "datatype" in d.entries
    && "default_value" in d.entries
  }

  /**
   * `valid_variable_dict`: false when any of the five descriptor keys is
   * missing; otherwise true, except that a conditional default must have a
   * "default" entry. A value that is not a mapping has no `.keys()`.
   */
  function ValidVariableDict(v: Value): (r: Result<bool>)
    ensures r.Ok? <==> v.Dict?
    ensures v.Dict? && !HasDescriptorKeys(v.d) ==> r == Ok(false)
    ensures v.Dict? && HasDescriptorKeys(v.d) && v.d.entries["default_value"].Dict? ==>
      r == Ok("default" in v.d.entries["default_value"].d.entries)
    ensures v.Dict? && HasDescriptorKeys(v.d) && !v.d.entries["default_value"].Dict? ==> r == Ok(true)
  {
    match v
    case Dict(d) =>
      assert RequiredKeys[0] == "longname" && RequiredKeys[1] == "subcategory" && RequiredKeys[2] == "units";
      assert RequiredKeys[3] == "datatype" && RequiredKeys[4] == "default_value";
      if !AllPresentFrom(d, RequiredKeys, 0) then Ok(false)
      else if d.entries["default_value"].Dict? then Ok("default" in d.entries["default_value"].d.entries)
      else Ok(true)
    case _ => Err(AttributeError)
  }

  const NoOrderMessage := "ERROR: Can not find _order key"

  function UnknownCategoryMessage(entry: Value): (r: string)
  {
    "ERROR: Can not find " + Str(entry) + " category"
  }

  function UnlistedCategoryMessage(name: string): (r: string)
  {
    "ERROR: " + name + " not included in _order"
  }

  /** The message for a variable without a datatype, as written: its `%s` is never filled in. */
  function MissingDatatypeMessageAsWritten(variable: string): (r: string)
  {
    "ERROR: variable %s does not contain a key for datatype"
  }

  /** The message for a variable without a datatype, naming the variable. */
  function MissingDatatypeMessage(variable: string): (r: string)
  {
    "ERROR: variable " + variable + " does not contain a key for datatype"
  }

  function IllDefinedVariableMessage(variable: string): (r: string)
  {
    "ERROR: " + variable + " is not a well-defined variable in YAML"
  }

  function IllDefinedFieldMessage(variable: string, field: string): (r: string)
  {
    "ERROR: " + variable + "%" + field + " is not a well-defined variable in YAML"
  }

  /** The message as written cannot tell two variables apart. */
  lemma MissingDatatypeMessageAsWrittenOmitsName()
    ensures MissingDatatypeMessageAsWritten("a") == MissingDatatypeMessageAsWritten("b")
  {
  }

  /** The corrected message carries the variable's name right after its fixed prefix. */
  lemma MissingDatatypeMessageNamesVariable(variable: string)
    ensures var m := MissingDatatypeMessage(variable);
      |m| > 16 + |variable| && m[16..16 + |variable|] == variable
  {
    var m := MissingDatatypeMessage(variable);
    assert m == "ERROR: variable " + (variable + " does not contain a key for datatype");
    assert |"ERROR: variable "| == 16;
  }

  /** Rule 2 from index `i` of `_order`. */
  function UnknownCategoryFrom(y: Mapping, order: seq<Value>, i: nat): (r: Outcome)
    requires i <= |order|
    decreases |order| - i
  {
    if i == |order| then Pass
    else if order[i].Text? && order[i].s in y.entries then UnknownCategoryFrom(y, order, i + 1)
    else Fail(Abort(UnknownCategoryMessage(order[i])))
  }

  /** Rule 6 from index `l` of the fields of a derived-type variable. */
  function FieldsFrom(variable: string, fields: Mapping, l: nat): (r: Outcome)
    requires l <= |fields.keys|
    decreases |fields.keys| - l
  {
    if l == |fields.keys| then Pass
    else
      var f := fields.keys[l];
      if |f| == 0 then Fail(IndexError)
      else if f[0] == '_' then FieldsFrom(variable, fields, l + 1)
      else if f !in fields.entries then Fail(KeyError(f))
      else
        var valid := ValidVariableDict(fields.entries[f]);
        if valid.Err? then Fail(valid.error)
        else if !valid.value then Fail(Abort(IllDefinedFieldMessage(variable, f)))
        else FieldsFrom(variable, fields, l + 1)
  }

  /** Rules 4 to 6 for one variable of a category. */
  function VariableCheck(name: string, variable: Value): (r: Outcome)
  {
    if !variable.Dict? then Fail(AttributeError)
    else if "datatype" !in variable.d.entries then Fail(Abort(MissingDatatypeMessage(name)))
    else
      var kind := variable.d.entries["datatype"];
      if !kind.Dict? then
        if ValidVariableDict(variable) == Ok(true) then Pass
        else Fail(Abort(IllDefinedVariableMessage(name)))
      else FieldsFrom(name, kind.d, 0)
  }

  /** Rules 4 to 6 from index `j` of the variables of a category. */
  function VariablesFrom(c: Mapping, j: nat): (r: Outcome)
    requires j <= |c.keys|
    decreases |c.keys| - j
  {
    if j == |c.keys| then Pass
    else
      var name := c.keys[j];
      if name !in c.entries then Fail(KeyError(name))
      else
        var outcome := VariableCheck(name, c.entries[name]);
        if outcome.Fail? then outcome else VariablesFrom(c, j + 1)
  }

  /** Rules 3 to 6 from index `i` of the top-level keys. */
  function CategoriesFrom(y: Mapping, order: seq<Value>, i: nat): (r: Outcome)
    requires i <= |y.keys|
    decreases |y.keys| - i
  {
    if i == |y.keys| then Pass
    else
      var name := y.keys[i];
      if |name| == 0 then Fail(IndexError)
      else if name[0] == '_' then CategoriesFrom(y, order, i + 1)
      else if Text(name) !in order then Fail(Abort(UnlistedCategoryMessage(name)))
      else if name !in y.entries then Fail(KeyError(name))
      else if !y.entries[name].Dict? then Fail(AttributeError)
      else
        var outcome := VariablesFrom(y.entries[name].d, 0);
        if outcome.Fail? then outcome else CategoriesFrom(y, order, i + 1)
  }

  /** The whole check: the first violation found, or `Pass`. */
  function CheckSchema(y: Mapping): (r: Outcome)
  {
    if "_order" !in y.entries then Fail(Abort(NoOrderMessage))
    else if !y.entries["_order"].List? then Fail(TypeError)
    else
      var order := y.entries["_order"].items;
      var outcome := UnknownCategoryFrom(y, order, 0);
      if outcome.Fail? then outcome else CategoriesFrom(y, order, 0)
  }

  /** A field of a derived type passes when it is hidden ('_') or a well-defined variable. */
  predicate FieldConforms(fields: Mapping, f: string)
  {
    |f| > 0 && (f[0] != '_' ==> f in fields.entries && ValidVariableDict(fields.entries[f]) == Ok(true))
  }

  predicate VariableConforms(variable: Value)
  {
    && variable.Dict?
    && "datatype" in variable.d.entries
    && match variable.d.entries["datatype"]
       case Dict(fields) => forall l :: 0 <= l < |fields.keys| ==> FieldConforms(fields, fields.keys[l])
       case _ => ValidVariableDict(variable) == Ok(true)
  }

  predicate CategoryConforms(y: Mapping, order: seq<Value>, name: string)
  {
    |name| > 0 &&
    (name[0] != '_' ==>
      && Text(name) in order
      && name in y.entries
      && y.entries[name].Dict?
      && var c := y.entries[name].d;
         forall j :: 0 <= j < |c.keys| ==> c.keys[j] in c.entries && VariableConforms(c.entries[c.keys[j]]))
  }

  /** Rules 1 to 7, stated all at once. */
  predicate Conforms(y: Mapping)
  {
    && "_order" in y.entries
    && y.entries["_order"].List?
    && var order := y.entries["_order"].items;
       && (forall i :: 0 <= i < |order| ==> order[i].Text? && order[i].s in y.entries)
       && (forall i :: 0 <= i < |y.keys| ==> CategoryConforms(y, order, y.keys[i]))
  }

  lemma {:induction false} UnknownCategoryFromPasses(y: Mapping, order: seq<Value>, i: nat)
    requires i <= |order|
    ensures UnknownCategoryFrom(y, order, i) == Pass
        <==> forall k :: i <= k < |order| ==> order[k].Text? && order[k].s in y.entries
    decreases |order| - i
  {
    if i < |order| {
      UnknownCategoryFromPasses(y, order, i + 1);
    }
  }

  lemma {:induction false} FieldsFromPasses(variable: string, fields: Mapping, l: nat)
    requires l <= |fields.keys|
    ensures FieldsFrom(variable, fields, l) == Pass
        <==> forall k :: l <= k < |fields.keys| ==> FieldConforms(fields, fields.keys[k])
    decreases |fields.keys| - l
  {
    if l < |fields.keys| {
      FieldsFromPasses(variable, fields, l + 1);
    }
  }

  lemma VariableCheckPasses(name: string, variable: Value)
    ensures VariableCheck(name, variable) == Pass <==> VariableConforms(variable)
  {
    if variable.Dict? && "datatype" in variable.d.entries && variable.d.entries["datatype"].Dict? {
      FieldsFromPasses(name, variable.d.entries["datatype"].d, 0);
    }
  }

  lemma {:induction false} VariablesFromPasses(c: Mapping, j: nat)
    requires j <= |c.keys|
    ensures VariablesFrom(c, j) == Pass
        <==> forall k :: j <= k < |c.keys| ==> c.keys[k] in c.entries && VariableConforms(c.entries[c.keys[k]])
    decreases |c.keys| - j
  {
    if j < |c.keys| {
      VariablesFromPasses(c, j + 1);
      if c.keys[j] in c.entries {
        VariableCheckPasses(c.keys[j], c.entries[c.keys[j]]);
      }
    }
  }

  lemma {:induction false} CategoriesFromPasses(y: Mapping, order: seq<Value>, i: nat)
    requires i <= |y.keys|
    ensures CategoriesFrom(y, order, i) == Pass
        <==> forall k :: i <= k < |y.keys| ==> CategoryConforms(y, order, y.keys[k])
    decreases |y.keys| - i
  {
    if i < |y.keys| {
      CategoriesFromPasses(y, order, i + 1);
      var name := y.keys[i];
      if |name| > 0 && name[0] != '_' && name in y.entries && y.entries[name].Dict? {
        VariablesFromPasses(y.entries[name].d, 0);
      }
    }
  }

  /** The check passes exactly on files that meet rules 1 to 7. */
  lemma CheckPassesIffConforms(y: Mapping)
    ensures CheckSchema(y) == Pass <==> Conforms(y)
  {
    if "_order" in y.entries && y.entries["_order"].List? {
      var order := y.entries["_order"].items;
      UnknownCategoryFromPasses(y, order, 0);
      CategoriesFromPasses(y, order, 0);
    }
  }

  /** Rule 1: without an `_order` key the check stops at once. */
  lemma NoOrderFails(y: Mapping)
    requires "_order" !in y.entries
    ensures CheckSchema(y) == Fail(Abort(NoOrderMessage))
  {
  }

  /** Rule 2: an `_order` entry that is not a top-level key fails the check. */
  lemma UnknownCategoryFails(y: Mapping, i: nat)
    requires "_order" in y.entries && y.entries["_order"].List?
    requires var order := y.entries["_order"].items;
      i < |order| && !(order[i].Text? && order[i].s in y.entries)
    ensures CheckSchema(y).Fail?
  {
    CheckPassesIffConforms(y);
  }

  /** Rule 3: a top-level key not beginning with '_' that `_order` does not list fails the check. */
  lemma UnlistedCategoryFails(y: Mapping, i: nat)
    requires i < |y.keys| && |y.keys[i]| > 0 && y.keys[i][0] != '_'
    requires "_order" in y.entries && y.entries["_order"].List?
    requires Text(y.keys[i]) !in y.entries["_order"].items
    ensures CheckSchema(y).Fail?
  {
    CheckPassesIffConforms(y);
    assert !CategoryConforms(y, y.entries["_order"].items, y.keys[i]);
  }

  /** Rule 4: a variable of a checked category without "datatype" fails the check. */
  lemma MissingDatatypeFails(y: Mapping, i: nat, j: nat)
    requires i < |y.keys| && |y.keys[i]| > 0 && y.keys[i][0] != '_'
    requires y.keys[i] in y.entries && y.entries[y.keys[i]].Dict?
    requires var c := y.entries[y.keys[i]].d;
      j < |c.keys| && c.keys[j] in c.entries && c.entries[c.keys[j]].Dict?
      && "datatype" !in c.entries[c.keys[j]].d.entries
    ensures CheckSchema(y).Fail?
  {
    CheckPassesIffConforms(y);
  }

  lemma {:induction false} UnknownCategoryFromSameKeys(y: Mapping, y': Mapping, order: seq<Value>, i: nat)
    requires i <= |order|
    requires y.entries.Keys == y'.entries.Keys
    ensures UnknownCategoryFrom(y, order, i) == UnknownCategoryFrom(y', order, i)
    decreases |order| - i
  {
    if i < |order| {
      UnknownCategoryFromSameKeys(y, y', order, i + 1);
    }
  }

  lemma {:induction false} CategoriesFromIgnoresHidden(y: Mapping, y': Mapping, order: seq<Value>, i: nat, hidden: string)
    requires i <= |y.keys|
    requires |hidden| > 0 && hidden[0] == '_'
    requires y'.keys == y.keys
    requires y'.entries.Keys == y.entries.Keys
    requires forall k :: k in y.entries && k != hidden ==> y'.entries[k] == y.entries[k]
    ensures CategoriesFrom(y, order, i) == CategoriesFrom(y', order, i)
    decreases |y.keys| - i
  {
    if i < |y.keys| {
      CategoriesFromIgnoresHidden(y, y', order, i + 1, hidden);
    }
  }

  /**
   * Top-level keys beginning with '_' are skipped: whatever such a key other
   * than `_order` holds, the check ends the same way.
   */
  lemma HiddenCategoryIgnored(y: Mapping, hidden: string, v: Value)
    requires hidden in y.entries && |hidden| > 0 && hidden[0] == '_' && hidden != "_order"
    ensures CheckSchema(Mapping(y.keys, y.entries[hidden := v])) == CheckSchema(y)
  {
    var y' := Mapping(y.keys, y.entries[hidden := v]);
    if "_order" in y.entries && y.entries["_order"].List? {
      var order := y.entries["_order"].items;
      assert y'.entries["_order"] == y.entries["_order"];
      UnknownCategoryFromSameKeys(y, y', order, 0);
      CategoriesFromIgnoresHidden(y, y', order, 0, hidden);
    }
  }

  lemma {:induction false} FieldsFromIgnoresHidden(variable: string, fields: Mapping, fields': Mapping, l: nat, hidden: string)
    requires l <= |fields.keys|
    requires |hidden| > 0 && hidden[0] == '_'
    requires fields'.keys == fields.keys
    requires fields'.entries.Keys == fields.entries.Keys
    requires forall k :: k in fields.entries && k != hidden ==> fields'.entries[k] == fields.entries[k]
    ensures FieldsFrom(variable, fields, l) == FieldsFrom(variable, fields', l)
    decreases |fields.keys| - l
  {
    if l < |fields.keys| {
      FieldsFromIgnoresHidden(variable, fields, fields', l + 1, hidden);
    }
  }

  /** Fields of a derived type beginning with '_' are never checked, whatever they hold. */
  lemma HiddenFieldIgnored(variable: string, fields: Mapping, hidden: string, v: Value)
    requires hidden in fields.entries && |hidden| > 0 && hidden[0] == '_'
    ensures FieldsFrom(variable, Mapping(fields.keys, fields.entries[hidden := v]), 0) == FieldsFrom(variable, fields, 0)
  {
    FieldsFromIgnoresHidden(variable, fields, Mapping(fields.keys, fields.entries[hidden := v]), 0, hidden);
  }

  /** Rule 6 for one derived-type variable: the loop over its fields. */
  method CheckFields(varName: string, fields: Mapping) returns (r: Outcome)
    ensures r == FieldsFrom(varName, fields, 0)
  {
    var l := 0;
    while l < |fields.keys|
      invariant 0 <= l <= |fields.keys|
      invariant FieldsFrom(varName, fields, 0) == FieldsFrom(varName, fields, l)
    {
      var subName := fields.keys[l];
      if |subName| == 0 {
        return Fail(IndexError);
      }
      if subName[0] != '_' {
        if subName !in fields.entries {
          return Fail(KeyError(subName));
        }
        var valid := ValidVariableDict(fields.entries[subName]);
        if valid.Err? {
          return Fail(valid.error);
        }
        if !valid.value {
          return Fail(Abort(IllDefinedFieldMessage(varName, subName)));
        }
      }
      l := l + 1;
    }
    return Pass;
  }

  /** Rules 4 to 6 for one category: the loop over its variables. */
  method CheckVariables(c: Mapping) returns (r: Outcome)
    ensures r == VariablesFrom(c, 0)
  {
    var j := 0;
    while j < |c.keys|
      invariant 0 <= j <= |c.keys|
      invariant VariablesFrom(c, 0) == VariablesFrom(c, j)
    {
      var varName := c.keys[j];
      if varName !in c.entries {
        return Fail(KeyError(varName));
      }
      var variable := c.entries[varName];
      if !variable.Dict? {
        return Fail(AttributeError);
      }
      // 4. the variable has a datatype
      if "datatype" !in variable.d.entries {
        return Fail(Abort(MissingDatatypeMessage(varName)));
      }
      var kind := variable.d.entries["datatype"];
      if !kind.Dict? {
        // 5. a plain variable is well defined
        if ValidVariableDict(variable) != Ok(true) {
          return Fail(Abort(IllDefinedVariableMessage(varName)));
        }
      } else {
        // 6. so is every field of a derived type that does not begin with '_'
        var outcome := CheckFields(varName, kind.d);
        if outcome.Fail? {
          return outcome;
        }
      }
      j := j + 1;
    }
    return Pass;
  }

  /** The script's top level: rules 1 to 7 as nested loops that stop at the first violation. */
  method Check(y: Mapping) returns (r: Outcome)
    ensures r == CheckSchema(y)
    ensures r == Pass <==> Conforms(y)
  {
    CheckPassesIffConforms(y);
    // 1. _order is a top-level key
    if "_order" !in y.entries {
      return Fail(Abort(NoOrderMessage));
    }
    if !y.entries["_order"].List? {
      return Fail(TypeError);
    }
    var order := y.entries["_order"].items;

    // 2. everything listed in _order is a top-level key
    var i := 0;
    while i < |order|
      invariant 0 <= i <= |order|
      invariant UnknownCategoryFrom(y, order, 0) == UnknownCategoryFrom(y, order, i)
    {
      var name := order[i];
      if !(name.Text? && name.s in y.entries) {
        return Fail(Abort(UnknownCategoryMessage(name)));
      }
      i := i + 1;
    }

    i := 0;
    while i < |y.keys|
      invariant 0 <= i <= |y.keys|
      invariant CheckSchema(y) == CategoriesFrom(y, order, i)
    {
      var catName := y.keys[i];
      if |catName| == 0 {
        return Fail(IndexError);
      }
      if catName[0] != '_' {
        // 3. the category is listed in _order
        if Text(catName) !in order {
          return Fail(Abort(UnlistedCategoryMessage(catName)));
        }
        if catName !in y.entries {
          return Fail(KeyError(catName));
        }
        var category := y.entries[catName];
        if !category.Dict? {
          return Fail(AttributeError);
        }
        var outcome := CheckVariables(category.d);
        if outcome.Fail? {
          return outcome;
        }
      }
      i := i + 1;
    }
    return Pass;
  }
}
