/**
 * One row of the list (`TodoItem`): its local edit session and the
 * checkbox that either selects the todo or un-completes it.
 */
module TodoItem {
  import opened Text
  import opened TodoList

  /** The parent callbacks a row can fire. */
  datatype Callback = OnDelete | OnToggleComplete | OnToggleSelect(id: int)

  /** What reaches `saveEdit`: a key press in the edit field, or none when the field loses focus. */
  datatype SaveTrigger = Blur | KeyDown(key: string)

  /** The guard of `saveEdit`: Enter or blur, and an edit buffer that is not blank. */
  predicate SaveAccepted(trigger: SaveTrigger, editText: string) {
    (trigger.Blur? || trigger.key == "Enter") && !IsBlank(editText)
  }

  /** The checkbox's `checked` value. */
  predicate Checked(todo: Todo, isSelected: bool) {
    todo.completed || isSelected
  }

  /** The checkbox's `onChange`: a todo that is not completed is selected or deselected, a completed one is toggled. */
  function CheckboxCallback(todo: Todo): (c: Callback)
    ensures c.OnToggleSelect? <==> !todo.completed
    ensures c.OnToggleComplete? <==> todo.completed
    ensures c.OnToggleSelect? ==> c.id == todo.id
  {
    if !todo.completed then OnToggleSelect(todo.id) else OnToggleComplete
  }

  class TodoRow {
    /** The props: the todo shown and whether the parent has it selected. */
    var todo: Todo
    var isSelected: bool
    /** The local state: the edit buffer and whether the edit field is open. */
    var editText: string
    var isEditing: bool

    /** Mounting a row: not editing, the buffer holds the todo's text. */
    constructor (todo: Todo, isSelected: bool)
      ensures this.todo == todo && this.isSelected == isSelected
      ensures !isEditing && editText == todo.text
    {
      this.todo := todo;
      this.isSelected := isSelected;
      editText := todo.text;
      isEditing := false;
    }

    /** A re-render with new props keeps the local state: it is initialised only on mount. */
    method Rerender(todo: Todo, isSelected: bool)
      modifies this
      ensures this.todo == todo && this.isSelected == isSelected
      ensures editText == old(editText) && isEditing == old(isEditing)
    {
      this.todo := todo;
      this.isSelected := isSelected;
    }

    /** `handleEdit` (double click): opens the edit field on the todo's text, unless it is already open. */
    method HandleEdit()
      modifies this
      ensures todo == old(todo) && isSelected == old(isSelected)
      ensures old(isEditing) ==> isEditing && editText == old(editText)
      ensures !old(isEditing) ==> isEditing && editText == todo.text
    {
      if !isEditing {
        isEditing := true;
        editText := todo.text;
      }
    }

    /** Typing in the edit field replaces the buffer and nothing else. */
    method ChangeEditText(value: string)
      modifies this
      ensures editText == value
      ensures todo == old(todo) && isSelected == old(isSelected) && isEditing == old(isEditing)
    {
      editText := value;
    }

    /**
     * `saveEdit`: closes the edit field when the guard holds. The buffer is
     * not written anywhere and no callback fires, so the edit is discarded.
     */
    method SaveEdit(trigger: SaveTrigger)
      modifies this
      ensures isEditing == (old(isEditing) && !SaveAccepted(trigger, old(editText)))
      ensures editText == old(editText) && todo == old(todo) && isSelected == old(isSelected)
    {
      if SaveAccepted(trigger, editText) {
        isEditing := false;
      }
    }

    /** The edit field's `onKeyDown`: only Enter reaches `saveEdit`. */
    method EditKeyDown(key: string)
      modifies this
      ensures isEditing == (old(isEditing) && !(key == "Enter" && !IsBlank(old(editText))))
      ensures editText == old(editText) && todo == old(todo) && isSelected == old(isSelected)
    {
      if key == "Enter" {
        SaveEdit(KeyDown(key));
      }
    }

    /** The edit field's `onBlur`. */
    method EditBlur()
      modifies this
      ensures isEditing == (old(isEditing) && IsBlank(old(editText)))
      ensures editText == old(editText) && todo == old(todo) && isSelected == old(isSelected)
    {
      SaveEdit(Blur);
    }

    /** A change of the checkbox: the callback it fires; the row itself does not change. */
    method CheckboxChange() returns (c: Callback)
      ensures c == CheckboxCallback(todo)
    {
      c := CheckboxCallback(todo);
    }
  }

  /**
   * An accepted edit is lost: after opening the field, typing a non-blank
   * text and leaving the field, the row shows the todo's own text again,
   * and opening the field again starts from that text, not from the typed one.
   */
  method EditIsDiscarded(todo: Todo, typed: string) returns (editingAfterSave: bool, shown: string, reopened: string)
    requires !IsBlank(typed)
    ensures !editingAfterSave
    ensures shown == todo.text
    ensures reopened == todo.text
  {
    var row := new TodoRow(todo, false);
    row.HandleEdit();
    row.ChangeEditText(typed);
    row.EditBlur();
    editingAfterSave := row.isEditing;
    shown := row.todo.text;
    row.HandleEdit();
    reopened := row.editText;
  }
}
