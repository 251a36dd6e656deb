/** The generated-form panel of a page
    (src/components/workspace/DynamicFormPanel.tsx): the validation schema
    built from the generated fields, the loading of previously saved
    answers, the save request, and which of its four views the panel shows.
    The schema is a map from canonical key to a rule; the form library
    is represented by the panel's `values`. */
module DynamicFormPanel {
  import opened Wrappers
  import opened JsString
  import opened ApiTypes
  import opened FormRenderer

  /** `z.string().optional()`, `z.boolean().optional()`, `z.any().optional()`. */
  datatype Rule = OptionalString | OptionalBoolean | OptionalAny

  type Schema = map<string, Rule>

  /** The `switch (def.type)`: the four text-valued kinds give an optional
      string, a checkbox an optional boolean, anything else an optional
      value of any kind. */
  function RuleFor(fieldType: string): (r: Rule)
    ensures r == OptionalString <==> fieldType in {TextField, MultiLineTextField, RadioField, DropdownField}
    ensures r == OptionalBoolean <==> fieldType == CheckboxField
    ensures r == OptionalAny <==> fieldType !in {TextField, MultiLineTextField, CheckboxField, RadioField, DropdownField}
  {
    if fieldType in {TextField, MultiLineTextField, RadioField, DropdownField} then OptionalString
    else if fieldType == CheckboxField then OptionalBoolean
    else OptionalAny
  }

  /** The schema of a field list, entry by entry in `Object.entries` order. */
  function SchemaOf(fields: GeneratedFormFields): Schema
    decreases |fields|
  {
    if fields == [] then map[]
    else
      var last := fields[|fields| - 1];
      SchemaOf(fields[..|fields| - 1])[NormalizeFieldName(last.0) := RuleFor(last.1.fieldType)]
  }

  /** The keys of a field list's schema. */
  function KeysOf(fields: GeneratedFormFields): set<string> {
    set i | 0 <= i < |fields| :: NormalizeFieldName(fields[i].0)
  }

  /** The schema has exactly one key per normalised field name. */
  lemma {:induction false} SchemaKeys(fields: GeneratedFormFields)
    ensures SchemaOf(fields).Keys == KeysOf(fields)
    decreases |fields|
  {
    if fields != [] {
      var init := fields[..|fields| - 1];
      SchemaKeys(init);
      assert KeysOf(fields) == KeysOf(init) + {NormalizeFieldName(fields[|fields| - 1].0)} by {
        forall k | k in KeysOf(fields) ensures k in KeysOf(init) + {NormalizeFieldName(fields[|fields| - 1].0)} {
          var i :| 0 <= i < |fields| && k == NormalizeFieldName(fields[i].0);
          if i < |fields| - 1 {
            assert init[i] == fields[i];
          }
        }
        forall k | k in KeysOf(init) ensures k in KeysOf(fields) {
          var i :| 0 <= i < |init| && k == NormalizeFieldName(init[i].0);
          assert fields[i] == init[i];
        }
      }
    }
  }

  /** When several names normalise to one key, the last of them in entry
      order gives the key its rule. */
  lemma {:induction false} SchemaLastWins(fields: GeneratedFormFields, i: int)
    requires 0 <= i < |fields|
    requires forall j :: i < j < |fields| ==> NormalizeFieldName(fields[j].0) != NormalizeFieldName(fields[i].0)
    ensures NormalizeFieldName(fields[i].0) in SchemaOf(fields)
    ensures SchemaOf(fields)[NormalizeFieldName(fields[i].0)] == RuleFor(fields[i].1.fieldType)
    decreases |fields|
  {
    if i < |fields| - 1 {
      var init := fields[..|fields| - 1];
      assert init[i] == fields[i];
      forall j | i < j < |init| ensures NormalizeFieldName(init[j].0) != NormalizeFieldName(init[i].0) {
        assert init[j] == fields[j];
      }
      SchemaLastWins(init, i);
    }
  }

  /** `RuleAccepts(r, v)`: a present value `v` passes the rule `r`. */
  predicate RuleAccepts(r: Rule, v: FormValue) {
    match r
    case OptionalString => v.StringValue?
    case OptionalBoolean => v.BoolValue?
    case OptionalAny => true
  }

  /** The values pass the schema: every key of the schema is absent or holds
      a value its rule accepts (keys outside the schema are ignored). */
  predicate Accepts(s: Schema, values: FormValues) {
    forall k :: k in s && k in values ==> RuleAccepts(s[k], values[k])
  }

  /** Setting one key keeps valid values valid exactly when the new value
      passes that key's rule, or the key is outside the schema. */
  lemma {:induction false} EditKeepsAccepted(s: Schema, values: FormValues, key: string, v: FormValue)
    requires Accepts(s, values)
    ensures Accepts(s, values[key := v]) <==> key !in s || RuleAccepts(s[key], v)
  {
    if key in s && !RuleAccepts(s[key], v) {
      assert key in values[key := v];
    }
  }

  /** `createFormSchema`: the `forEach` over the entries assigns one key per
      entry. */
  method CreateFormSchema(fields: GeneratedFormFields) returns (shape: Schema)
    ensures shape == SchemaOf(fields)
    ensures shape.Keys == KeysOf(fields)
  {
    shape := map[];
    var i := 0;
    while i < |fields|
      invariant 0 <= i <= |fields|
      invariant shape == SchemaOf(fields[..i])
    {
      var (name, def) := fields[i];
      var normalizedName := NormalizeFieldName(name);
      shape := shape[normalizedName := RuleFor(def.fieldType)];
      assert fields[..i + 1][..i] == fields[..i];
      i := i + 1;
    }
    assert fields[..i] == fields;
    SchemaKeys(fields);
  }

  /** The renderer names every field by a key of the schema. */
  lemma {:induction false} RenderedNamesAreSchemaKeys(fields: GeneratedFormFields)
    requires |fields| > 0
    ensures Render(fields).FieldList?
    ensures forall i :: 0 <= i < |fields| ==> Render(fields).views[i].name in SchemaOf(fields)
  {
    SchemaKeys(fields);
    var views := Render(fields).views;
    forall i | 0 <= i < |fields| ensures views[i].name in KeysOf(fields) {
      assert views[i].name == NormalizeFieldName(fields[i].0);
    }
  }

  /** The control a field gets agrees with the rule of its kind: text-like
      controls go with a string rule, the checkbox with the boolean rule,
      and a kind with the unconstrained rule gets no control. */
  lemma {:induction false} ControlMatchesRule(def: FieldDefinition, labelText: string)
    ensures var c := ControlFor(def, labelText);
      && (c.TextInput? || c.TextArea? || c.RadioGroup? || c.SelectControl? ==> RuleFor(def.fieldType) == OptionalString)
      && (c.CheckboxControl? <==> RuleFor(def.fieldType) == OptionalBoolean)
      && (RuleFor(def.fieldType) == OptionalAny ==> c == NoControl)
  {
  }

  /** What the saved-data callback does. */
  datatype LoadOutcome = ResetTo(values: FormValues) | LoadFailed

  /** `data?.data` present and parsing: reset to the parsed object as it is;
      absent, null or empty: reset to `{}`; not parsing: no reset and an
      error notice. `parse` stands for `JSON.parse`. */
  function LoadRule(saved: Option<FormDataResponse>, parse: string -> Option<FormValues>): (o: LoadOutcome)
    ensures o.LoadFailed? <==> saved.Some? && saved.value.data != "" && parse(saved.value.data).None?
    ensures saved.None? || saved.value.data == "" ==> o == ResetTo(map[])
    ensures saved.Some? && saved.value.data != "" && parse(saved.value.data).Some? ==>
              o == ResetTo(parse(saved.value.data).value)
  {
    if saved.Some? && saved.value.data != "" then
      match parse(saved.value.data)
      case Some(parsed) => ResetTo(parsed)
      case None => LoadFailed
    else ResetTo(map[])
  }

  /** The saved-data callback as written is handed to `useQuery` as its
      `onSuccess` option, which TanStack Query v5 (the version whose
      `isPending` naming the component uses) no longer has: the query's data
      arrives and the values are left as they were. */
  function LoadAsWritten(values: FormValues, saved: Option<FormDataResponse>): (after: FormValues)
    ensures after == values
  {
    values
  }

  /** Saved answers `{"name":"Ada"}` on a fresh form: the load rule restores
      them, the callback as written does not. */
  lemma {:induction false} SavedAnswersNotRestoredAsWritten()
    ensures var saved := Some(FormDataResponse(1, "{\"name\":\"Ada\"}", 1));
            var parse := (t: string) => if t == "{\"name\":\"Ada\"}" then Some(map["name" := StringValue("Ada")]) else None;
            && LoadRule(saved, parse) == ResetTo(map["name" := StringValue("Ada")])
            && LoadAsWritten(map[], saved) != map["name" := StringValue("Ada")]
  {
    var m: FormValues := map["name" := StringValue("Ada")];
    assert "name" in m;
  }

  /** Saved answers come back: when `parse` inverts `stringify` on the saved
      values, loading the stored text resets the form to those values. */
  lemma {:induction false} SaveThenLoad(values: FormValues, stringify: FormValues -> string, parse: string -> Option<FormValues>, id: int, pageId: int)
    requires stringify(values) != "" && parse(stringify(values)) == Some(values)
    ensures LoadRule(Some(FormDataResponse(id, stringify(values), pageId)), parse) == ResetTo(values)
  {
  }

  const LoadErrorNotice := Notice("Error", "Could not load previously saved form data.", true)
  const SavedNotice := Notice("Form Saved", "Your responses have been saved successfully.", false)
  const SaveFailedFallback := "Could not save form data."
  const GenerationErrorFallback := "Could not generate form fields from API."

  /** A toast: title, description, and whether it is destructive. */
  datatype Notice = Notice(title: string, description: string, destructive: bool)

  /** The four views of the panel. */
  datatype PanelView = PanelLoading | GenerationError(message: string) | NoFields | FormShown(form: RenderedForm)

  /** Loading (any of the three queries) first, then a generation error,
      then no fields (undefined or an empty map), then the form. */
  function ViewOf(isLoadingText: bool, isLoadingFields: bool, isLoadingSaved: bool,
                  fieldsError: Option<string>, fields: Option<GeneratedFormFields>): (v: PanelView)
    ensures isLoadingText || isLoadingFields || isLoadingSaved ==> v == PanelLoading
    ensures v.GenerationError? <==> !(isLoadingText || isLoadingFields || isLoadingSaved) && fieldsError.Some?
    ensures v.GenerationError? ==>
              v.message == if fieldsError.value != "" then fieldsError.value else GenerationErrorFallback
    ensures v == NoFields <==>
              !(isLoadingText || isLoadingFields || isLoadingSaved) && fieldsError.None? && (fields.None? || |fields.value| == 0)
    ensures v.FormShown? ==> fields.Some? && v.form == Render(fields.value) && v.form.FieldList?
  {
    if isLoadingText || isLoadingFields || isLoadingSaved then PanelLoading
    else if fieldsError.Some? then
      GenerationError(if fieldsError.value != "" then fieldsError.value else GenerationErrorFallback)
    else if fields.None? || |fields.value| == 0 then NoFields
    else FormShown(Render(fields.value))
  }

  /** The panel's state: the current schema, the form's values and the
      notices it has raised. */
  class FormPanel {
    var schema: Schema
    var values: FormValues
    var notices: seq<Notice>

    /** `z.object({})` and `defaultValues: {}`. */
    constructor ()
      ensures schema == map[] && values == map[] && notices == []
    {
      schema := map[];
      values := map[];
      notices := [];
    }

    /** The generated fields arrived: the schema is rebuilt from them. */
    method FieldsLoaded(fields: GeneratedFormFields)
      modifies this
      ensures schema == SchemaOf(fields)
      ensures values == old(values) && notices == old(notices)
    {
      schema := CreateFormSchema(fields);
    }

    /** The saved-data query succeeded with `saved` (`null` when there is none). */
    method SavedDataLoaded(saved: Option<FormDataResponse>, parse: string -> Option<FormValues>)
      modifies this
      ensures schema == old(schema)
      ensures match LoadRule(saved, parse)
        case ResetTo(v) => values == v && notices == old(notices)
        case LoadFailed => values == old(values) && notices == old(notices) + [LoadErrorNotice]
    {
      if saved.Some? && saved.value.data != "" {
        var parsedData := parse(saved.value.data);
        if parsedData.Some? {
          values := parsedData.value;
        } else {
          notices := notices + [LoadErrorNotice];
        }
      } else {
        values := map[];
      }
    }

    /** A control's `onChange` sets the value of its field. */
    method Edit(key: string, value: FormValue)
      modifies this
      ensures values == old(values)[key := value]
      ensures schema == old(schema) && notices == old(notices)
    {
      values := values[key := value];
    }

    /** Submitting sends `JSON.stringify` of the current values. */
    method Submit(stringify: FormValues -> string) returns (request: FormDataCreate)
      ensures request.data == stringify(values)
    {
      request := FormDataCreate(stringify(values));
    }

    method SaveSucceeded()
      modifies this
      ensures values == old(values) && schema == old(schema)
      ensures notices == old(notices) + [SavedNotice]
    {
      notices := notices + [SavedNotice];
    }

    /** A failed save only raises a notice; the values stay as they were. */
    method SaveFailed(message: string)
      modifies this
      ensures values == old(values) && schema == old(schema)
      ensures notices == old(notices) + [Notice("Save Failed", if message != "" then message else SaveFailedFallback, true)]
    {
      notices := notices + [Notice("Save Failed", if message != "" then message else SaveFailedFallback, true)];
    }
  }
}
