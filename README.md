# MARBL parameter defaults: lookup layer and schema checker

This project models the layer of the MARBL parameter generator that looks up
default values in an already-parsed parameter file. The file is a mapping:
each category maps variable names to descriptors, and a top-level `_order`
list names the categories. The model covers three parts:

- the MARBL defaults class. It checks `_order` against the file before
  returning it. It lists a category's variables, sorted case-insensitively
  and stably. It resolves a variable's default and picks among conditional
  defaults by the provided keys (`"grid = <grid>"`): the last provided key
  found in the table wins, and `"default"` is the fallback. String-typed
  values are wrapped in double quotes.
- the earlier YAML parsing class. It has the same lookups, but returns
  `_order` unchecked. A conditional default without a `"default"` entry
  fails, as a missing-key error rather than an abort, only when no provided
  key matches; otherwise the matching entry is used.
- the consistency checker. Before the file is used, it checks rules 1–7:
  `_order` lists and covers the categories, every variable has a datatype,
  and every variable or derived-type field is well-defined. It stops at the
  first violation.

Files:

- `schema.dfy` (`Schema`): the parsed tree (`Value`, `Mapping` with keys in iteration order), Python's errors as `Error`, `Result`/`Outcome`, `str()`/`repr()`.
- `sorting.dfy` (`CaseInsensitiveSort`): `sorted(..., key=str.lower)` as a stable insertion sort, proved sorted, a permutation and stable.
- `lookup.dfy` (`VariableLookup`): the lookups both classes share: variable names, descriptor, last-match selection, quoting.
- `marbl_defaults.dfy` (`MarblDefaults`): the checked class `Defaults`, its specification functions and lemmas.
- `yaml_parsing.dfy` (`YamlParsing`): the unchecked class `YamlParser`, and lemmas comparing it with the checked one.
- `consistency_check.dfy` (`ConsistencyCheck`): `valid_variable_dict`, the script's nested loops as methods, the first-violation function and the declarative rules.

Each component is written twice. A specification function scans an index and
returns the first error. A method has the source's loops, and its `ensures`
ties its result to that function. Lemmas then connect each function to a
declarative statement of what the source promises.

A Python `sys.exit(msg)` becomes `Err(Abort(msg))` or `Fail(Abort(msg))`.
Exceptions the code would raise become `KeyError(k)`, `TypeError`,
`AttributeError` or `IndexError`. The YAML loader is gone, and the parsed
mapping is a constructor parameter.

The three files do not agree with one another in two places, and each part
is modelled as its own file is written:

- Which top-level keys may be left out of `_order`. The checker's rule 3
  (consistency_check.py:10, 72-73) exempts every key beginning with `_`. The
  defaults class (MARBL_defaults.py:57) exempts only `_order` itself, so any
  other key beginning with `_` aborts there as unlisted.
- Whether a conditional default must have a `"default"` entry. The checker's
  rule 7 (consistency_check.py:15-16) and the defaults class
  (MARBL_defaults.py:111-114) both require one. The YAML parsing class leaves
  this as a TODO (yaml_parsing_class.py:86): it fails only when no provided
  key matches, and then with a missing-key error.

## Model

| member | source | states |
|---|---|---|
| `CaseInsensitiveSort.SortByLower` | MARBL_defaults.py:76 | result is non-decreasing by lower-case form (code-point order), has the same multiset of names, and for every lower-case form lists the names having it in their original order (stability) |
| `VariableLookup.SortedVariableNames` | MARBL_defaults.py:71-76 | succeeds iff the category exists and is a mapping; a missing category is `KeyError(category)`, a category that is not a mapping `AttributeError`; on success the result is the category's keys sorted, permuted and stable as above |
| `VariableLookup.SelectedKey` | MARBL_defaults.py:116-121 | the chosen key is the provided key at the last index whose key the table has (last match wins); with no provided key in the table it is `"default"`; it is always `"default"` or a key of the table |
| `VariableLookup.LastMatchExists` | MARBL_defaults.py:118-120 | if any provided key is in the table, some index at or after it is the last match, so the scan never falls back to `"default"` then |
| `VariableLookup.Quoted` | MARBL_defaults.py:92-94 | the result is text that opens and closes with `"` and whose inside is exactly `str(value)` |
| `VariableLookup.Render` | MARBL_defaults.py:93-95 | a missing `datatype` is `KeyError("datatype")`; `datatype == "string"` gives the quoted value; any other datatype gives the value unchanged |
| `MarblDefaults.CategoryNamesIffConsistent` | MARBL_defaults.py:42-69 | `get_category_names` returns normally iff `_order` is a list whose entries are all top-level keys, which lists every top-level key except `_order`, and has no duplicates; it then returns `_order` itself |
| `MarblDefaults.UnknownEntryAborts` | MARBL_defaults.py:49-52 | the first `_order` entry the file lacks aborts with "ERROR: can not find '<entry>' in YAML file" |
| `MarblDefaults.UnlistedKeyAborts` | MARBL_defaults.py:54-59 | once all entries are known, the first top-level key other than `_order` missing from `_order` aborts with "... is not listed in '_order' and won't be processed" |
| `MarblDefaults.RepeatedEntryAborts` | MARBL_defaults.py:61-67 | once the first two checks pass, the first entry equal to an earlier one aborts with "... appears in '_order' multiple times" |
| `MarblDefaults.MissingDefaultAborts` | MARBL_defaults.py:111-114 | a conditional default without a `"default"` key aborts with the variable's message, whatever the provided keys |
| `MarblDefaults.CheckedDefaultIsLastMatch` | MARBL_defaults.py:116-121 | with `"default"` present, selection yields the table entry of the last matching provided key, or the `"default"` entry when none matches, and never fails |
| `MarblDefaults.ScalarDefault` | MARBL_defaults.py:78-95 | a default that is not a mapping comes back unchanged for a non-string datatype, and as `"` + str(value) + `"` for datatype `string` |
| `MarblDefaults.GridDefault` | MARBL_defaults.py:116-121 | with the constructor's provided keys `["grid = " + grid]`, a conditional default resolves to its `"grid = <grid>"` entry if present, else its `"default"` entry, quoted for strings |
| `MarblDefaults.LaterKeyWins` | MARBL_defaults.py:117-120 | when two provided keys both match, the later one is selected |
| `MarblDefaults.Defaults.constructor` | MARBL_defaults.py:17-27 | `configKeyword == {"grid": grid}`, `providedKeys == ["grid = " + grid]`, `parms` is the parsed file |
| `MarblDefaults.Defaults.GetCategoryNames` | MARBL_defaults.py:42-69 | the three checking loops return what `CategoryNames` specifies: success iff `_order` is consistent, and then `_order` itself; the method modifies nothing |
| `MarblDefaults.Defaults.GetVariableNames` | MARBL_defaults.py:71-76 | same contract as `SortedVariableNames` on the object's file |
| `MarblDefaults.Defaults.GetCorrectDefault` | MARBL_defaults.py:105-121 | the scan reassigning `use_key` returns `CheckedDefault`: abort without `"default"`, else the last-match selection |
| `MarblDefaults.Defaults.GetVariableValue` | MARBL_defaults.py:78-95 | returns `VariableValue`: the scalar default or the selected conditional one, quoted for strings, with the lookup errors in source order |
| `MarblDefaults.CategoryNamesTwice` | MARBL_defaults.py:42-69 | two calls on the same object return identical results, and a successful one is the file's `_order` |
| `YamlParsing.UncheckedDefaultFailsOnlyWithoutFallback` | yaml_parsing_class.py:85-91 | selection fails iff no provided key matches and `"default"` is absent, then with `KeyError("default")`; otherwise it is the last match's entry or the `"default"` entry |
| `YamlParsing.SameSelectionWithFallback` | yaml_parsing_class.py:79-91 | when the table has `"default"`, the unchecked selection equals the checked class's |
| `YamlParsing.VariableValueQuotesStrings` | yaml_parsing_class.py:52-69 | datatype `string` yields `"` + str(chosen) + `"`; any other datatype yields the scalar or selected default unchanged |
| `YamlParsing.SameValueWithFallback` | yaml_parsing_class.py:52-69 | where a conditional default has `"default"`, both classes resolve the variable to the same result |
| `YamlParsing.SameCategoriesWhenConsistent` | yaml_parsing_class.py:35-43 | every `_order` the checked class accepts is returned identically by the unchecked class |
| `YamlParsing.YamlParser.constructor` | yaml_parsing_class.py:11-21 | `configKeyword == {"grid": grid}`, `providedKeys == ["grid = " + grid]`, `parms` is the parsed file |
| `YamlParsing.YamlParser.GetCategoryNames` | yaml_parsing_class.py:35-43 | returns `_order` as it is whenever the key exists, with no consistency check; `KeyError` otherwise |
| `YamlParsing.YamlParser.GetVariableNames` | yaml_parsing_class.py:45-50 | sorted by lower-case form, a permutation of the category's keys, stable; errors as in the checked class |
| `YamlParsing.YamlParser.GetCorrectDefault` | yaml_parsing_class.py:79-91 | the scan returns `UncheckedDefault`: last match wins, `"default"` as fallback, lookup failure when that is absent |
| `YamlParsing.YamlParser.GetVariableValue` | yaml_parsing_class.py:52-69 | returns `YamlParsing.VariableValue`: scalar or selected default, quoted for strings |
| `ConsistencyCheck.AllPresentFrom` | consistency_check.py:37-39 | the early-return loop over the key list is true iff every listed key is present |
| `ConsistencyCheck.ValidVariableDict` | consistency_check.py:28-43 | false if any of longname, subcategory, units, datatype, default_value is missing; with all five and a mapping default, true iff it has `"default"`; with all five and a non-mapping default, true; a non-mapping argument has no `.keys()` |
| `ConsistencyCheck.CheckPassesIffConforms` | consistency_check.py:63-94 | the check passes iff the file meets rules 1–7, stated declaratively: `_order` present and listing only top-level keys; each top-level key non-empty; each one not beginning with `_` listed, a mapping of mappings with `datatype`, each plain variable well-defined, each field of a derived type not beginning with `_` well-defined |
| `ConsistencyCheck.NoOrderFails` | consistency_check.py:63-65 | without `_order` the check stops with "ERROR: Can not find _order key" |
| `ConsistencyCheck.UnknownCategoryFails` | consistency_check.py:67-70 | an `_order` entry that is not a top-level key fails the check |
| `ConsistencyCheck.UnlistedCategoryFails` | consistency_check.py:72-76 | a top-level key not beginning with `_` that `_order` omits fails the check |
| `ConsistencyCheck.MissingDatatypeFails` | consistency_check.py:78-81 | a variable without `datatype` in a checked category fails the check |
| `ConsistencyCheck.HiddenCategoryIgnored` | consistency_check.py:72-73 | replacing what a top-level key beginning with `_` (other than `_order`) holds never changes the check's outcome |
| `ConsistencyCheck.HiddenFieldIgnored` | consistency_check.py:91-93 | replacing what a derived-type field beginning with `_` holds never changes the field check's outcome |
| `ConsistencyCheck.CheckFields` | consistency_check.py:89-94 | the loop over a derived type's fields returns the first ill-defined visible field's abort, or passes |
| `ConsistencyCheck.CheckVariables` | consistency_check.py:78-94 | the loop over a category's variables returns the first violation of rules 4–6, or passes; rule 4 aborts with the corrected message (see Findings) |
| `ConsistencyCheck.Check` | consistency_check.py:63-94 | the script's nested loops return `CheckSchema` (the first violation) and pass iff the file conforms; rule 4 aborts with the corrected message (see Findings) |
| `ConsistencyCheck.MissingDatatypeMessageAsWrittenOmitsName` | consistency_check.py:81 | as written, the rule-4 message is the same for every variable |
| `ConsistencyCheck.MissingDatatypeMessageNamesVariable` | consistency_check.py:81 | the corrected message carries the variable's name right after "ERROR: variable " |

## Findings

| source | as written | input that shows it | evidently intended | confidence | as-written member | corrected member |
|---|---|---|---|---|---|---|
| consistency_check.py:81 | `abort("ERROR: variable %s does not contain a key for datatype")`: the `%s` is never formatted | any variable without a `datatype` key: the message says "variable %s" and does not name it | `... % var_name`, naming the offending variable as every other message does | high; not executed | `ConsistencyCheck.MissingDatatypeMessageAsWritten` (with `MissingDatatypeMessageAsWrittenOmitsName`) | `ConsistencyCheck.MissingDatatypeMessage` (with `MissingDatatypeMessageNamesVariable`), used by `VariableCheck`, `CheckVariables` and through them `CheckSchema` and `Check` |

## Left out

- Reading the parameter file (`open`, `yaml.safe_load`): the parsed mapping is given to the constructors and to `Check`.
- Process termination by `sys.exit`: it is the `Abort(msg)` error carrying the message.
- Command-line handling (argparse) and the PyYAML import guard in consistency_check.py, because neither has logic to model.
- gen_code.py, print_defaults.py, parse_yaml.py, parse_json.py: file output and printing loops over the classes modelled here.
- Real numbers: a `Real` carries the text Python prints for it and passes through unchanged. Nothing in these files computes with reals.
- Lower-casing covers ASCII letters only. String comparison is by code point, as Python's is.
- `Schema.Repr` does not reproduce `repr`'s escaping (backslashes, newlines, non-printable characters) or its choice of quote character, and omits Python 2's `u` prefix on unicode text.
- A mapping's key order is whatever order Python yields when iterating the dict, written as the `keys` sequence. Mapping keys are strings, and the document root is a mapping.
- MarblDefaults.Defaults.GetCategoryNames: an `_order` that is not a list is `TypeError`. Python would iterate a string's characters or a mapping's keys.
- ConsistencyCheck.Check: an `_order` that is not a list is `TypeError`, for the same reason.
- ConsistencyCheck.CheckVariables: for a variable without `datatype` it aborts with `MissingDatatypeMessage(name)`, which names the variable. consistency_check.py:81 prints the text with a literal `%s`, which is `MissingDatatypeMessageAsWritten`. Only the message differs: the outcome's kind and the rule that fails are those of the source.
- ConsistencyCheck.Check: through `CheckVariables` and `CheckSchema` it makes the same substitution for rule 4's message, and for no other rule.
- A mapping's `keys` and `entries` are not tied together. Nothing states that the keys are distinct and are exactly the entries' domain, as a Python dict's always are. So some branches cannot be reached from a real file: the `KeyError` outcomes for a listed key without an entry in `FieldsFrom`, `VariablesFrom` and `CategoriesFrom`, and the `in entries` conjuncts of `CategoryConforms` and `FieldConforms`. Each gives the outcome Python would give if such a dict existed.
- `_config_keyword` is stored but read only to build the provided key, as in the source.
- Array sizes, dimension arithmetic, derived-type expansion, override files and value coercion: they do not occur in these files.
