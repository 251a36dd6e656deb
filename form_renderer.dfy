/** The field renderer of the generated form
    (src/components/workspace/FormRenderer.tsx): the canonical name of a
    field, and which label and which control each field gets. Markup and
    styling are left out; a rendered field is described by its name, its
    label and its control. */
module FormRenderer {
  import opened Wrappers
  import opened JsString
  import opened ApiTypes

  /** `replace(/\s+/g, '_')`: every maximal run of white space becomes one '_'. */
  function CollapseWhitespace(s: string): (r: string)
    ensures NoWhitespace(r)
    decreases |s|
  {
    if s == [] then []
    else if IsWhitespace(s[0]) then "_" + CollapseWhitespace(TrimStart(s[1..]))
    else [s[0]] + CollapseWhitespace(s[1..])
  }

  /** `normalizeFieldName`: white-space runs to '_', then lower case. */
  function NormalizeFieldName(name: string): string {
    ToLower(CollapseWhitespace(name))
  }

  /** A normalised name holds no white space. */
  lemma {:induction false} NormalizedHasNoWhitespace(name: string)
    ensures NoWhitespace(NormalizeFieldName(name))
  {
    var c := CollapseWhitespace(name);
    forall i | 0 <= i < |c| ensures !IsWhitespace(ToLower(c)[i]) {
      assert ToLower(c)[i] == LowerChar(c[i]);
    }
  }

  lemma {:induction false} CollapseKeepsWordText(s: string)
    requires NoWhitespace(s)
    ensures CollapseWhitespace(s) == s
  {
    if s != [] {
      CollapseKeepsWordText(s[1..]);
    }
  }

  lemma {:induction false} LowerTwice(s: string)
    ensures ToLower(ToLower(s)) == ToLower(s)
  {
  }

  /** Normalising twice is normalising once. */
  lemma {:induction false} NormalizeIdempotent(name: string)
    ensures NormalizeFieldName(NormalizeFieldName(name)) == NormalizeFieldName(name)
  {
    var n := NormalizeFieldName(name);
    NormalizedHasNoWhitespace(name);
    CollapseKeepsWordText(n);
    LowerTwice(CollapseWhitespace(name));
  }

  lemma {:induction false} TrimStartOfRun(w: string, rest: string)
    requires AllWhitespace(w)
    requires rest == [] || !IsWhitespace(rest[0])
    ensures TrimStart(w + rest) == rest
    decreases |w|
  {
    if w != [] {
      assert (w + rest)[1..] == w[1..] + rest;
      TrimStartOfRun(w[1..], rest);
    } else {
      assert w + rest == rest;
    }
  }

  /** A word, then a run of white space, then text that does not start with
      white space: the run becomes exactly one '_'. */
  lemma {:induction false} CollapseRun(word: string, run: string, rest: string)
    requires NoWhitespace(word) && run != [] && AllWhitespace(run)
    requires rest == [] || !IsWhitespace(rest[0])
    ensures CollapseWhitespace(word + run + rest) == word + "_" + CollapseWhitespace(rest)
    decreases |word|
  {
    if word == [] {
      var s := run + rest;
      assert word + run + rest == s;
      assert s[1..] == run[1..] + rest;
      TrimStartOfRun(run[1..], rest);
    } else {
      var s := word + run + rest;
      assert s[0] == word[0];
      assert s[1..] == word[1..] + run + rest;
      CollapseRun(word[1..], run, rest);
    }
  }

  /** Lower-casing works character by character, so it distributes over `+`. */
  lemma {:induction false} LowerConcat(a: string, b: string)
    ensures ToLower(a + b) == ToLower(a) + ToLower(b)
  {
    var l, r := ToLower(a + b), ToLower(a) + ToLower(b);
    forall i | 0 <= i < |l| ensures l[i] == r[i] {
      if i < |a| {
        assert (a + b)[i] == a[i];
      } else {
        assert (a + b)[i] == b[i - |a|];
      }
    }
  }

  /** Two words around a run of white space normalise to the lower-cased
      words joined by one '_'. */
  lemma {:induction false} NormalizeTwoWords(first: string, run: string, second: string)
    requires NoWhitespace(first) && NoWhitespace(second)
    requires run != [] && AllWhitespace(run)
    ensures NormalizeFieldName(first + run + second) == ToLower(first) + "_" + ToLower(second)
  {
    CollapseRun(first, run, second);
    CollapseKeepsWordText(second);
    LowerConcat(first + "_", second);
    LowerConcat(first, "_");
  }

  /** "Full Name" normalises to "full_name". */
  lemma {:induction false} FullNameExample()
    ensures NormalizeFieldName("Full Name") == "full_name"
  {
    assert "Full Name" == "Full" + " " + "Name";
    NormalizeTwoWords("Full", " ", "Name");
    assert ToLower("Full") == "full" by {
      assert ToLower("Full")[0] == 'f';
    }
    assert ToLower("Name") == "name" by {
      assert ToLower("Name")[0] == 'n';
    }
    assert "full" + "_" + "name" == "full_name";
  }

  /** "full   name" becomes "full_name" too: the run of three spaces gives one '_'. */
  lemma {:induction false} SpacedNameExample()
    ensures NormalizeFieldName("full   name") == "full_name"
  {
    assert "full   name" == "full" + "   " + "name";
    assert AllWhitespace("   ");
    NormalizeTwoWords("full", "   ", "name");
    assert ToLower("full") == "full";
    assert ToLower("name") == "name";
    assert "full" + "_" + "name" == "full_name";
  }

  /** The control a field gets. */
  datatype Control =
    | TextInput(placeholder: string)
    | TextArea(placeholder: string)
    | CheckboxControl(caption: string)
    | RadioGroup(choices: seq<string>)
    | SelectControl(placeholder: string, choices: seq<string>)
    | NoControl

  datatype FieldView = FieldView(name: string, labelText: string, control: Control)

  datatype RenderedForm = NoFieldsMessage | FieldList(views: seq<FieldView>)

  /** `fieldDef.label || fieldName`. */
  function DisplayLabel(fieldName: string, def: FieldDefinition): (l: string)
    ensures def.labelText.Some? && def.labelText.value != "" ==> l == def.labelText.value
    ensures def.labelText.None? || def.labelText.value == "" ==> l == fieldName
  {
    if def.labelText.Some? && def.labelText.value != "" then def.labelText.value else fieldName
  }

  /** The input control for a field kind, one of the five known kinds; radio
      and dropdown only when `options` is present (even if empty); an
      unknown kind gets no control. */
  function ControlFor(def: FieldDefinition, labelText: string): (c: Control)
    ensures def.fieldType == TextField ==> c == TextInput("Enter " + ToLower(labelText))
    ensures def.fieldType == MultiLineTextField ==> c == TextArea("Enter " + ToLower(labelText))
    ensures def.fieldType == CheckboxField ==>
              c == CheckboxControl(if def.options.Some? && |def.options.value| > 0 then def.options.value[0] else labelText)
    ensures c.RadioGroup? <==> def.fieldType == RadioField && def.options.Some?
    ensures c.RadioGroup? ==> c.choices == def.options.value
    ensures c.SelectControl? <==> def.fieldType == DropdownField && def.options.Some?
    ensures c.SelectControl? ==> c == SelectControl("Select " + ToLower(labelText), def.options.value)
    ensures c == NoControl <==>
              || def.fieldType !in {TextField, MultiLineTextField, CheckboxField, RadioField, DropdownField}
              || (def.fieldType in {RadioField, DropdownField} && def.options.None?)
  {
    var t := def.fieldType;
    if t == TextField then TextInput("Enter " + ToLower(labelText))
    else if t == MultiLineTextField then TextArea("Enter " + ToLower(labelText))
    else if t == CheckboxField then
      CheckboxControl(if def.options.Some? && |def.options.value| > 0 then def.options.value[0] else labelText)
    else if t == RadioField && def.options.Some? then RadioGroup(def.options.value)
    else if t == DropdownField && def.options.Some? then SelectControl("Select " + ToLower(labelText), def.options.value)
    else NoControl
  }

  /** One field: its normalised name, its label and its control. */
  function RenderField(fieldName: string, def: FieldDefinition): (v: FieldView)
    ensures v.name == NormalizeFieldName(fieldName) && NoWhitespace(v.name)
    ensures v.labelText == DisplayLabel(fieldName, def)
    ensures v.control == ControlFor(def, v.labelText)
  {
    NormalizedHasNoWhitespace(fieldName);
    var labelText := DisplayLabel(fieldName, def);
    FieldView(NormalizeFieldName(fieldName), labelText, ControlFor(def, labelText))
  }

  /** The whole form: the "no form fields" message for an empty map, else
      one rendered field per entry, in entry order. */
  function Render(fields: GeneratedFormFields): (f: RenderedForm)
    ensures f.NoFieldsMessage? <==> |fields| == 0
    ensures f.FieldList? ==> |f.views| == |fields|
    ensures f.FieldList? ==> forall i :: 0 <= i < |fields| ==> f.views[i] == RenderField(fields[i].0, fields[i].1)
  {
    if |fields| == 0 then NoFieldsMessage
    else FieldList(seq(|fields|, i requires 0 <= i < |fields| => RenderField(fields[i].0, fields[i].1)))
  }
}
