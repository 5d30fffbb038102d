/**
 * The `SaveLetterDialog` component (components/ui/save-letter-dialog.tsx):
 * a name field with a Save button, which hands the trimmed name to
 * `onSave` and closes the dialog.
 */
module SaveLetterDialog {
  import opened JsValues
  import opened Strings

  datatype Dialog = Dialog(name: string, open: bool)

  /** The dialog afterwards and the name passed to `onSave`, if any. */
  datatype Save = Save(after: Dialog, saved: Option<string>)

  const EnterKey: string := "Enter"

  /** `handleSave()` */
  function HandleSave(d: Dialog): (r: Save)
    ensures IsBlank(d.name) ==> r == Save(d, None)
    ensures !IsBlank(d.name) ==> r == Save(Dialog([], false), Some(Trim(d.name)))
  {
    var trimmed := Trim(d.name);
    if trimmed == [] then Save(d, None) else Save(Dialog([], false), Some(trimmed))
  }

  /** `disabled={!name.trim()}` on the Save button. */
  predicate SaveDisabled(d: Dialog)
  {
    IsBlank(d.name)
  }

  /** The name's `onKeyDown`: Enter takes the same path as the button. */
  function OnKeyDown(d: Dialog, key: string): (r: Save)
    ensures key == EnterKey ==> r == HandleSave(d)
    ensures key != EnterKey ==> r == Save(d, None)
  {
    if key == EnterKey then HandleSave(d) else Save(d, None)
  }

  /** The button is disabled exactly when pressing it would do nothing. */
  lemma DisabledExactlyWhenNoOp(d: Dialog)
    ensures SaveDisabled(d) <==> HandleSave(d).saved.None?
    ensures SaveDisabled(d) <==> HandleSave(d).after == d && HandleSave(d).saved.None?
  {
  }

  /** The saved name is never empty and never padded. */
  lemma SavedNameIsTrimmed(d: Dialog)
    requires HandleSave(d).saved.Some?
    ensures var n := HandleSave(d).saved.value;
      n != [] && IsTrimmed(n) && Trim(n) == n
  {
    var n := Trim(d.name);
    assert n != [] && IsTrimmed(n);
    TrimOfTrimmed(n);
  }

  /** After a save the field is cleared and the dialog closed, so saving
      again at once does nothing. */
  lemma SecondSaveIsNoOp(d: Dialog)
    requires HandleSave(d).saved.Some?
    ensures HandleSave(d).after == Dialog([], false)
    ensures HandleSave(HandleSave(d).after) == Save(Dialog([], false), None)
  {
  }
}
