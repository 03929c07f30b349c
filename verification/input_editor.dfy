/** The text-input editor family (`InputEditor`, here through its password
    variant): the length validator it runs, and how it moves a value between a
    dataset item and its input element (`loadValue`, `serializeValue`,
    `applyValue`), detects a change (`isValueChanged`) and commits (`save`).

    The input element is reduced to the string it holds, the last keydown to
    its key code, and the two commit entry points to the `SaveAction` that
    names which one is called. */
module InputEditor {
  import opened Wrappers
  import opened Text
  import opened Records

  const INVALID_ARGUMENTS_ERROR: string :=
    "[Angular-SlickGrid] Something is wrong with this grid, an Editor must always have valid arguments."
  const VALIDATION_REQUIRED_FIELD: string := "Field is required"
  const KEY_ENTER: int := 13

  datatype OperatorConditionalType = Inclusive | Exclusive

  /** A validator's verdict: `{ valid, msg }`. */
  datatype Validation = Validation(valid: bool, msg: string)

  /** The editor settings of a column (`internalColumnEditor`). */
  datatype ColumnEditor = ColumnEditor(
    required: bool,
    minLength: Option<int>,
    maxLength: Option<int>,
    operatorConditionalType: Option<OperatorConditionalType>,
    errorMessage: Option<string>,
    validator: Option<string -> Validation>,
    alwaysSaveOnEnterKey: bool)

  /** An absent `internalColumnEditor` reads as `{}`. */
  function DefaultColumnEditor(): ColumnEditor {
    ColumnEditor(false, None, None, None, None, None, false)
  }

  datatype EditorColumn = EditorColumn(field: Option<string>, internalColumnEditor: Option<ColumnEditor>)

  /** The editor arguments that matter here: the column and the grid's `autoCommitEdit`. */
  datatype EditorArguments = EditorArguments(column: EditorColumn, autoCommitEdit: bool)

  /** A live editor: its arguments, the input's current text, the value loaded
      from the item (`undefined` until `loadValue`), and the key code of the
      last keydown. */
  datatype Editor = Editor(args: EditorArguments, text: string, originalValue: Value, lastKeyCode: Option<int>)

  /** `columnEditor` getter: the column's editor settings, or `{}`. */
  function Settings(ed: Editor): ColumnEditor {
    ed.args.column.internalColumnEditor.GetOr(DefaultColumnEditor())
  }

  /** The constructor: it throws without arguments, otherwise the input starts empty. */
  function Init(args: Option<EditorArguments>): (r: Result<Editor>)
    ensures args.None? ==> r == Err(INVALID_ARGUMENTS_ERROR)
    ensures args.Some? ==> (r.Ok? && r.value.args == args.value && r.value.text == ""
                           && r.value.originalValue == Undefined && r.value.lastKeyCode.None?)
  {
    if args.None? then Err(INVALID_ARGUMENTS_ERROR) else Ok(Editor(args.value, "", Undefined, None))
  }

  /** `setValue(v)`: the input now holds `v`. */
  function SetValue(ed: Editor, v: string): Editor {
    ed.(text := v)
  }

  /** A keydown on the input; only its key code is remembered. */
  function KeyDown(ed: Editor, keyCode: int): Editor {
    ed.(lastKeyCode := Some(keyCode))
  }

  // ---------------------------------------------------------------------------
  // validate

  function MinLengthMessage(op: OperatorConditionalType, min: int): string {
    match op
    case Inclusive => "Please make sure your text is at least " + IntToString(min) + " character(s)"
    case Exclusive => "Please make sure your text is more than " + IntToString(min) + " character(s)"
  }

  function MaxLengthMessage(op: OperatorConditionalType, max: int): string {
    match op
    case Inclusive => "Please make sure your text is less than or equal to " + IntToString(max) + " characters"
    case Exclusive => "Please make sure your text is less than " + IntToString(max) + " characters"
  }

  function BetweenMessage(min: int, max: int): string {
    "Please make sure your text length is between " + IntToString(min) + " and " + IntToString(max) + " characters"
  }

  /** `errorMessage || fallback`. */
  function MessageOr(s: ColumnEditor, fallback: string): string {
    if s.errorMessage.Some? && s.errorMessage.value != "" then s.errorMessage.value else fallback
  }

  predicate TooShort(op: OperatorConditionalType, len: int, min: int) {
    match op
    case Inclusive => len < min
    case Exclusive => len <= min
  }

  predicate TooLong(op: OperatorConditionalType, len: int, max: int) {
    match op
    case Inclusive => len > max
    case Exclusive => len >= max
  }

  /** `textValidator(text, settings)`: a custom validator decides alone; else
      the first failing rule of required, both bounds, lower bound, upper
      bound gives the message; the operator defaults to inclusive and lengths
      count UTF-16 code units. */
  function Validate(s: ColumnEditor, text: string): Validation {
    var op := s.operatorConditionalType.GetOr(Inclusive);
    var len := Utf16Length(text);
    if s.validator.Some? then
      s.validator.value(text)
    else if s.required && text == "" then
      Validation(false, MessageOr(s, VALIDATION_REQUIRED_FIELD))
    else if s.minLength.Some? && s.maxLength.Some?
         && (TooShort(op, len, s.minLength.value) || TooLong(op, len, s.maxLength.value)) then
      Validation(false, MessageOr(s, BetweenMessage(s.minLength.value, s.maxLength.value)))
    else if s.minLength.Some? && TooShort(op, len, s.minLength.value) then
      Validation(false, MessageOr(s, MinLengthMessage(op, s.minLength.value)))
    else if s.maxLength.Some? && TooLong(op, len, s.maxLength.value) then
      Validation(false, MessageOr(s, MaxLengthMessage(op, s.maxLength.value)))
    else
      Validation(true, "")
  }

  /** Independent statement of what the built-in rules accept: not an empty
      required value, and a length inside each configured bound (boundaries
      included for inclusive, excluded for exclusive). */
  predicate Acceptable(s: ColumnEditor, text: string) {
    var op := s.operatorConditionalType.GetOr(Inclusive);
    && !(s.required && text == "")
    && (s.minLength.None? || match op
                             case Inclusive => Utf16Length(text) >= s.minLength.value
                             case Exclusive => Utf16Length(text) > s.minLength.value)
    && (s.maxLength.None? || match op
                             case Inclusive => Utf16Length(text) <= s.maxLength.value
                             case Exclusive => Utf16Length(text) < s.maxLength.value)
  }

  /** Without a custom validator, `validate` accepts exactly the acceptable
      texts, and an accepted text carries no message. */
  lemma ValidateAcceptsExactly(s: ColumnEditor, text: string)
    requires s.validator.None?
    ensures Validate(s, text).valid <==> Acceptable(s, text)
    ensures Validate(s, text).valid ==> Validate(s, text).msg == ""
    ensures !Validate(s, text).valid ==> Validate(s, text).msg != ""
  {
    var v := Validate(s, text);
    if !v.valid {
      assert MessageOr(s, VALIDATION_REQUIRED_FIELD) != "";
      assert s.minLength.Some? ==> MinLengthMessage(s.operatorConditionalType.GetOr(Inclusive), s.minLength.value) != "";
      assert s.maxLength.Some? ==> MaxLengthMessage(s.operatorConditionalType.GetOr(Inclusive), s.maxLength.value) != "";
      assert s.minLength.Some? && s.maxLength.Some? ==> BetweenMessage(s.minLength.value, s.maxLength.value) != "";
    }
  }

  /** A required field left empty fails with "Field is required"; with no other
      setting any non-empty text passes. */
  lemma RequiredRule(s: ColumnEditor, text: string)
    requires s.validator.None? && s.required && s.errorMessage.None?
    ensures text == "" ==> Validate(s, text) == Validation(false, "Field is required")
    ensures text != "" && s.minLength.None? && s.maxLength.None? ==> Validate(s, text) == Validation(true, "")
  {
  }

  /** Only a lower bound `m`: inclusive rejects shorter than `m` with "at least
      m character(s)", exclusive rejects up to `m` with "more than m character(s)". */
  lemma MinLengthRule(s: ColumnEditor, text: string)
    requires s.validator.None? && !s.required && s.errorMessage.None?
    requires s.minLength.Some? && s.maxLength.None?
    ensures var m := s.minLength.value;
            match s.operatorConditionalType.GetOr(Inclusive)
            case Inclusive =>
              Validate(s, text) == if Utf16Length(text) < m then Validation(false, "Please make sure your text is at least " + IntToString(m) + " character(s)")
                                   else Validation(true, "")
            case Exclusive =>
              Validate(s, text) == if Utf16Length(text) <= m then Validation(false, "Please make sure your text is more than " + IntToString(m) + " character(s)")
                                   else Validation(true, "")
  {
  }

  /** Only an upper bound `M`: inclusive rejects longer than `M`, exclusive
      rejects `M` and longer, each with its own message. */
  lemma MaxLengthRule(s: ColumnEditor, text: string)
    requires s.validator.None? && !s.required && s.errorMessage.None?
    requires s.minLength.None? && s.maxLength.Some?
    ensures var m := s.maxLength.value;
            match s.operatorConditionalType.GetOr(Inclusive)
            case Inclusive =>
              Validate(s, text) == if Utf16Length(text) > m then Validation(false, "Please make sure your text is less than or equal to " + IntToString(m) + " characters")
                                   else Validation(true, "")
            case Exclusive =>
              Validate(s, text) == if Utf16Length(text) >= m then Validation(false, "Please make sure your text is less than " + IntToString(m) + " characters")
                                   else Validation(true, "")
  {
  }

  /** Both bounds: a length outside the range fails with the "between" message;
      inclusive accepts both boundaries and exclusive rejects them. */
  lemma BetweenRule(s: ColumnEditor, text: string)
    requires s.validator.None? && s.errorMessage.None? && !(s.required && text == "")
    requires s.minLength.Some? && s.maxLength.Some?
    ensures var lo := s.minLength.value;
            var hi := s.maxLength.value;
            var msg := "Please make sure your text length is between " + IntToString(lo) + " and " + IntToString(hi) + " characters";
            match s.operatorConditionalType.GetOr(Inclusive)
            case Inclusive =>
              Validate(s, text) == if lo <= Utf16Length(text) <= hi then Validation(true, "") else Validation(false, msg)
            case Exclusive =>
              Validate(s, text) == if lo < Utf16Length(text) < hi then Validation(true, "") else Validation(false, msg)
  {
  }

  /** Lengths are JavaScript lengths: a character outside the Basic
      Multilingual Plane, such as an emoji, is two code units, so on its own it
      already meets an inclusive lower bound of 2. */
  lemma AstralCharacterCountsTwice(s: ColumnEditor)
    requires s.validator.None? && s.minLength == Some(2) && s.maxLength.None?
    requires s.operatorConditionalType.GetOr(Inclusive) == Inclusive
    ensures Validate(s, "\U{1F600}").valid
    ensures |"\U{1F600}"| == 1
  {
    assert Utf16Length("\U{1F600}") == 2 by {
      assert "\U{1F600}"[1..] == "";
    }
  }

  /** The editor's `validate(text)`. */
  function EditorValidate(ed: Editor, text: string): Validation {
    Validate(Settings(ed), text)
  }

  // ---------------------------------------------------------------------------
  // value plumbing

  /** A field such as `address.street` is followed as a path; a leading dot does not count. */
  predicate IsComplexField(field: string) {
    IndexOf(field, '.') > 0
  }

  /** `applyValue(item, state)`: the state when it validates, else `''`, written
      to the column's field (along the dot path for a complex field); nothing is
      written without a field name. */
  function ApplyValue(ed: Editor, item: Record, state: string): (r: Record)
    ensures ed.args.column.field.None? || ed.args.column.field == Some("") ==> r == item
  {
    var field := ed.args.column.field;
    if field.None? then item
    else
      var newValue := if EditorValidate(ed, state).valid then Str(state) else Str("");
      if IsComplexField(field.value) then SetDeepValue(item, field.value, newValue)
      else if field.value != "" then item[field.value := newValue]
      else item
  }

  /** The value `applyValue` writes. */
  function AppliedValue(ed: Editor, state: string): Value {
    if EditorValidate(ed, state).valid then Str(state) else Str("")
  }

  /** A plain field is set to the applied value and every other property is left alone. */
  lemma ApplyValueFlatField(ed: Editor, item: Record, state: string, other: string)
    requires ed.args.column.field.Some? && ed.args.column.field.value != ""
    requires !IsComplexField(ed.args.column.field.value)
    ensures var f := ed.args.column.field.value;
            var r := ApplyValue(ed, item, state);
            && f in r && r[f] == AppliedValue(ed, state)
            && (other != f ==> (other in r <==> other in item) && (other in item ==> r[other] == item[other]))
  {
  }

  /** A dot-path field: reading the path back yields the applied value,
      properties other than the path's first segment are left alone, and so is
      every nested property off the path: a key path `q` that leaves the
      field's path at depth `i` reads the same value as before, wherever the
      objects the path passes through already existed. */
  lemma ApplyValueComplexField(ed: Editor, item: Record, state: string, other: string, q: seq<string>, i: nat)
    requires ed.args.column.field.Some? && IsComplexField(ed.args.column.field.value)
    requires ed.args.column.field.value[|ed.args.column.field.value| - 1] != '.'
    ensures var f := ed.args.column.field.value;
            GetDescendantProperty(Obj(ApplyValue(ed, item, state)), f) == AppliedValue(ed, state)
    ensures var f := ed.args.column.field.value;
            var r := ApplyValue(ed, item, state);
            other != Split(f, '.')[0] ==> (other in r <==> other in item) && (other in item ==> r[other] == item[other])
    ensures var parts := Split(ed.args.column.field.value, '.');
            && i < |parts| && i < |q| && q[..i] == parts[..i] && q[i] != parts[i]
            && (forall j :: 0 < j <= i ==> Walk(Obj(item), parts[..j]).Obj?)
            ==> Walk(Obj(ApplyValue(ed, item, state)), q) == Walk(Obj(item), q)
  {
    var f := ed.args.column.field.value;
    var parts := Split(f, '.');
    GetAfterSetDeepValue(item, f, AppliedValue(ed, state));
    if other != parts[0] {
      SetPathFrame(item, parts, AppliedValue(ed, state), other);
    }
    if && i < |parts| && i < |q| && q[..i] == parts[..i] && q[i] != parts[i]
       && (forall j :: 0 < j <= i ==> Walk(Obj(item), parts[..j]).Obj?) {
      SetPathNestedFrame(item, parts, AppliedValue(ed, state), q, i);
    }
  }

  /** A text the validator rejects is written to the record as `''`: into the
      plain field, or at the end of the dot path. */
  lemma ApplyValueBlanksInvalid(ed: Editor, item: Record, state: string)
    requires ed.args.column.field.Some? && ed.args.column.field.value != ""
    requires IsComplexField(ed.args.column.field.value) ==>
               ed.args.column.field.value[|ed.args.column.field.value| - 1] != '.'
    requires !EditorValidate(ed, state).valid
    ensures var f := ed.args.column.field.value;
            var r := ApplyValue(ed, item, state);
            !IsComplexField(f) ==> f in r && r[f] == Str("")
    ensures var f := ed.args.column.field.value;
            IsComplexField(f) ==> GetDescendantProperty(Obj(ApplyValue(ed, item, state)), f) == Str("")
  {
    var f := ed.args.column.field.value;
    assert AppliedValue(ed, state) == Str("");
    if IsComplexField(f) {
      assert ApplyValue(ed, item, state) == SetDeepValue(item, f, Str(""));
      GetAfterSetDeepValue(item, f, Str(""));
    } else {
      assert ApplyValue(ed, item, state) == item[f := Str("")];
    }
  }

  /** `loadValue(item)`: for a truthy item and a defined field, the field's
      value (followed along the path for a complex field, else the own
      property when truthy, else `''`) becomes the original value and is
      assigned to the input, where `null` shows as `''` and `undefined` as
      `"undefined"`. */
  function LoadValue(ed: Editor, item: Value): (r: Editor)
    ensures r.args == ed.args && r.lastKeyCode == ed.lastKeyCode
    ensures !Truthy(item) || ed.args.column.field.None? ==> r == ed
    ensures Truthy(item) && ed.args.column.field.Some? ==> r.text == InputText(r.originalValue)
  {
    var field := ed.args.column.field;
    if Truthy(item) && field.Some? then
      var value :=
        if IsComplexField(field.value) then GetDescendantProperty(item, field.value)
        else if item.Obj? && field.value in item.fields && Truthy(item.fields[field.value]) then item.fields[field.value]
        else Str("");
      ed.(originalValue := value, text := InputText(value))
    else ed
  }

  /** `serializeValue()`: the input's text. */
  function SerializeValue(ed: Editor): string {
    ed.text
  }

  /** `loadValue` then `serializeValue` on a plain field gives the field's
      string, and `''` when it is missing, null or empty. */
  lemma LoadSerializeFlat(ed: Editor, item: Record)
    requires ed.args.column.field.Some? && !IsComplexField(ed.args.column.field.value)
    ensures var f := ed.args.column.field.value;
            var out := SerializeValue(LoadValue(ed, Obj(item)));
            && (f in item && item[f].Str? ==> out == item[f].s)
            && (f !in item || item[f] == Null || item[f] == Undefined ==> out == "")
  {
  }

  /** `loadValue` then `serializeValue` on a dot-path field gives the string at the end of the path. */
  lemma LoadSerializeComplex(ed: Editor, item: Record, s: string)
    requires ed.args.column.field.Some? && IsComplexField(ed.args.column.field.value)
    requires GetDescendantProperty(Obj(item), ed.args.column.field.value) == Str(s)
    ensures SerializeValue(LoadValue(ed, Obj(item))) == s
  {
  }

  /** A dot path that leads nowhere loads `undefined`: the input then shows
      and serializes `"undefined"`, and the editor reports a change. */
  lemma LoadMissingPathShowsUndefined(ed: Editor, item: Record)
    requires ed.args.column.field.Some? && IsComplexField(ed.args.column.field.value)
    requires GetDescendantProperty(Obj(item), ed.args.column.field.value) == Undefined
    requires !Settings(ed).alwaysSaveOnEnterKey
    ensures SerializeValue(LoadValue(ed, Obj(item))) == "undefined"
    ensures IsValueChanged(LoadValue(ed, Obj(item)))
  {
  }

  /** Round trip: applying a state to an item, loading that item back and
      serializing gives the state when it validates, else `''`. */
  lemma ApplyLoadSerialize(ed: Editor, item: Record, state: string)
    requires ed.args.column.field.Some? && ed.args.column.field.value != ""
    requires ed.args.column.field.value[|ed.args.column.field.value| - 1] != '.'
    ensures SerializeValue(LoadValue(ed, Obj(ApplyValue(ed, item, state))))
            == if EditorValidate(ed, state).valid then state else ""
  {
    var f := ed.args.column.field.value;
    if IsComplexField(f) {
      GetAfterSetDeepValue(item, f, AppliedValue(ed, state));
    }
  }

  /** `isValueChanged()`: true after ENTER when `alwaysSaveOnEnterKey` is set;
      otherwise true when the text differs from the loaded value, except that
      an empty text over a null/undefined value is no change. */
  function IsValueChanged(ed: Editor): bool {
    if Settings(ed).alwaysSaveOnEnterKey && ed.lastKeyCode == Some(KEY_ENTER) then true
    else !(ed.text == "" && (ed.originalValue == Null || ed.originalValue == Undefined))
         && ed.originalValue != Str(ed.text)
  }

  /** Loading a string (or a null/undefined) value and not editing reports no change. */
  lemma LoadedValueUnchanged(ed: Editor, item: Record)
    requires ed.args.column.field.Some? && !IsComplexField(ed.args.column.field.value)
    requires !Settings(ed).alwaysSaveOnEnterKey
    requires ed.args.column.field.value in item ==>
               (item[ed.args.column.field.value].Str? || item[ed.args.column.field.value] == Null)
    ensures !IsValueChanged(LoadValue(ed, Obj(item)))
  {
  }

  /** Without the ENTER shortcut, a change is reported exactly when the text is
      not the loaded string. */
  lemma ValueChangedAfterEdit(ed: Editor, item: Record, s: string, text: string)
    requires ed.args.column.field.Some? && !IsComplexField(ed.args.column.field.value)
    requires ed.args.column.field.value in item && item[ed.args.column.field.value] == Str(s) && s != ""
    requires !(Settings(ed).alwaysSaveOnEnterKey && ed.lastKeyCode == Some(KEY_ENTER))
    ensures IsValueChanged(SetValue(LoadValue(ed, Obj(item)), text)) <==> text != s
  {
  }

  /** With `alwaysSaveOnEnterKey`, an ENTER keydown always counts as a change. */
  lemma EnterAlwaysSaves(ed: Editor)
    requires Settings(ed).alwaysSaveOnEnterKey
    ensures IsValueChanged(KeyDown(ed, KEY_ENTER))
  {
  }

  // ---------------------------------------------------------------------------
  // save

  /** Which commit entry point `save` calls. */
  datatype SaveAction = CommitCurrentEdit | CommitChanges

  /** `save()`: the editor lock's `commitCurrentEdit` when `autoCommitEdit` is
      on and the text validates, else the editor arguments' `commitChanges`. */
  function Save(ed: Editor): (r: SaveAction)
    ensures r == CommitCurrentEdit <==> ed.args.autoCommitEdit && EditorValidate(ed, ed.text).valid
  {
    if ed.args.autoCommitEdit && EditorValidate(ed, ed.text).valid then CommitCurrentEdit else CommitChanges
  }

  /** A required field left empty is never committed through the editor lock. */
  lemma SaveRequiredEmpty(ed: Editor)
    requires Settings(ed).validator.None? && Settings(ed).required && ed.text == ""
    ensures Save(ed) == CommitChanges
  {
  }
}
