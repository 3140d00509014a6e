/** src/components/CategoryManager.tsx: the panel's form state and its add,
    edit and escape rules. The callbacks to the parent are returned as values. */
module CategoryManager {

  import opened Wrappers
  import opened TaskTypes
  import opened Text

  const PresetColors: seq<string> := [
    "#3B82F6", "#10B981", "#F59E0B", "#EF4444", "#8B5CF6",
    "#EC4899", "#06B6D4", "#84CC16", "#F97316", "#6366F1"
  ]

  class Manager {
    var isOpen: bool
    var editingId: Option<string>
    var newCategoryName: string
    var newCategoryColor: string
    var editName: string

    constructor()
      ensures !isOpen && editingId == None && newCategoryName == "" &&
              newCategoryColor == PresetColors[0] && editName == ""
    {
      isOpen := false;
      editingId := None;
      newCategoryName := "";
      newCategoryColor := PresetColors[0];
      editName := "";
    }

    /** The "Manage Categories" button. */
    method TogglePanel()
      modifies this
      ensures isOpen == !old(isOpen)
      ensures editingId == old(editingId) && editName == old(editName)
      ensures newCategoryName == old(newCategoryName) && newCategoryColor == old(newCategoryColor)
    {
      isOpen := !isOpen;
    }

    method SetNewCategoryName(text: string)
      modifies this`newCategoryName
      ensures newCategoryName == text
    {
      newCategoryName := text;
    }

    /** A colour swatch's `onClick`. */
    method SelectColor(color: string)
      modifies this`newCategoryColor
      ensures newCategoryColor == color
    {
      newCategoryColor := color;
    }

    /** The edit field's `onChange`; the field is shown only during an edit. */
    method SetEditName(text: string)
      modifies this`editName
      ensures editName == text
    {
      editName := text;
    }

    /** `handleAddCategory`; `id` stands for `Date.now().toString()`. Returns the
        category passed to `onAddCategory`. */
    method HandleAddCategory(id: string) returns (added: Option<Category>)
      modifies this
      ensures IsBlank(old(newCategoryName)) ==>
        added == None && newCategoryName == old(newCategoryName) && newCategoryColor == old(newCategoryColor)
      ensures !IsBlank(old(newCategoryName)) ==>
        added == Some(Category(id, Trim(old(newCategoryName)), old(newCategoryColor))) &&
        newCategoryName == "" && newCategoryColor == PresetColors[0]
      ensures added.Some? ==> !IsBlank(added.value.name) && Trim(added.value.name) == added.value.name
      ensures isOpen == old(isOpen) && editingId == old(editingId) && editName == old(editName)
    {
      if IsBlank(newCategoryName) {
        return None;
      }
      TrimIdempotent(newCategoryName);
      added := Some(Category(id, Trim(newCategoryName), newCategoryColor));
      newCategoryName := "";
      newCategoryColor := PresetColors[0];
    }

    /** `handleUpdateCategory(id)`. Returns the arguments passed to
        `onUpdateCategory`; a blank name only leaves edit mode. */
    method HandleUpdateCategory(id: string) returns (sent: Option<(string, CategoryUpdate)>)
      modifies this
      ensures editingId == None
      ensures IsBlank(old(editName)) ==> sent == None && editName == old(editName)
      ensures !IsBlank(old(editName)) ==>
        sent == Some((id, CategoryUpdate(None, Some(Trim(old(editName))), None))) && editName == ""
      ensures sent.Some? ==> sent.value.1.name.Some? && !IsBlank(sent.value.1.name.value)
      ensures isOpen == old(isOpen)
      ensures newCategoryName == old(newCategoryName) && newCategoryColor == old(newCategoryColor)
    {
      if IsBlank(editName) {
        editingId := None;
        return None;
      }
      TrimIdempotent(editName);
      sent := Some((id, CategoryUpdate(None, Some(Trim(editName)), None)));
      editingId := None;
      editName := "";
    }

    /** `startEdit(category)` */
    method StartEdit(category: Category)
      modifies this
      ensures editingId == Some(category.id) && editName == category.name
      ensures isOpen == old(isOpen)
      ensures newCategoryName == old(newCategoryName) && newCategoryColor == old(newCategoryColor)
    {
      editingId := Some(category.id);
      editName := category.name;
    }

    /** The edit field's Escape key and the Cancel button. */
    method CancelEdit()
      modifies this
      ensures editingId == None && editName == ""
      ensures isOpen == old(isOpen)
      ensures newCategoryName == old(newCategoryName) && newCategoryColor == old(newCategoryColor)
    {
      editingId := None;
      editName := "";
    }

    /** The window keydown listener: Escape cancels an edit in preference to
        closing the panel, and closes the panel only when no edit is open. */
    method HandleEscape(key: string)
      modifies this
      ensures key != "Escape" ==> isOpen == old(isOpen) && editingId == old(editingId) && editName == old(editName)
      ensures key == "Escape" && Truthy(old(editingId)) ==>
        editingId == None && editName == "" && isOpen == old(isOpen)
      ensures key == "Escape" && !Truthy(old(editingId)) ==>
        !isOpen && editingId == old(editingId) && editName == old(editName)
      ensures newCategoryName == old(newCategoryName) && newCategoryColor == old(newCategoryColor)
    {
      if key == "Escape" {
        if Truthy(editingId) {
          editingId := None;
          editName := "";
        } else if isOpen {
          isOpen := false;
        }
      }
    }
  }
}
