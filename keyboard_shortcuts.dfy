/** src/hooks/useKeyboardShortcuts.ts: what the window-level keydown handler
    does with one key event. Registering and removing the listener is not modelled;
    a disabled hook has no listener, so it reacts to nothing. */
module KeyboardShortcuts {

  /** The element that received the key event. */
  datatype Target = TextInput | TextArea | ContentEditable | OtherElement

  datatype KeyEvent = KeyEvent(key: string, ctrlKey: bool, metaKey: bool, shiftKey: bool, target: Target)

  /** Which optional callbacks were supplied, and `enabled` (default true). */
  datatype Config = Config(hasAddTask: bool, hasFocusSearch: bool, hasEscape: bool, enabled: bool)

  /** A callback the handler invokes. */
  datatype Action = AddTask | FocusSearch | Escape

  /** The handler's effect: the callbacks invoked in order, whether it called
      `preventDefault`, and whether it focused the search input. */
  datatype Reaction = Reaction(calls: seq<Action>, preventDefault: bool, focusSearchInput: bool)

  /** `isTyping`: the event comes from an input, a textarea or editable content. */
  predicate IsTyping(t: Target) {
    t == TextInput || t == TextArea || t == ContentEditable
  }

  predicate CtrlOrMeta(e: KeyEvent) {
    e.ctrlKey || e.metaKey
  }

  /** Ctrl/Cmd+K from anywhere, or '/' when not typing. */
  predicate SearchTriggered(e: KeyEvent) {
    (CtrlOrMeta(e) && e.key == "k") || (e.key == "/" && !IsTyping(e.target))
  }

  /** Ctrl/Cmd+Shift+A when not typing. */
  predicate AddTriggered(e: KeyEvent) {
    CtrlOrMeta(e) && e.shiftKey && e.key == "A" && !IsTyping(e.target)
  }

  /** Escape when not typing. */
  predicate EscapeTriggered(e: KeyEvent) {
    e.key == "Escape" && !IsTyping(e.target)
  }

  /** `handleKeyDown`, run only while the hook is enabled. */
  function HandleKeyDown(config: Config, e: KeyEvent): (r: Reaction)
    ensures |r.calls| <= 1
    ensures FocusSearch in r.calls <==> config.enabled && config.hasFocusSearch && SearchTriggered(e)
    ensures AddTask in r.calls <==> config.enabled && config.hasAddTask && AddTriggered(e)
    ensures Escape in r.calls <==> config.enabled && config.hasEscape && EscapeTriggered(e)
    ensures r.focusSearchInput <==> config.enabled && SearchTriggered(e)
    ensures r.preventDefault <==> config.enabled && (SearchTriggered(e) || AddTriggered(e))
  {
    if !config.enabled then Reaction([], false, false)
    else
      var search := SearchTriggered(e);
      var add := AddTriggered(e);
      var escape := EscapeTriggered(e);
      var calls := (if search && config.hasFocusSearch then [FocusSearch] else []) +
                   (if add && config.hasAddTask then [AddTask] else []) +
                   (if escape && config.hasEscape then [Escape] else []);
      Reaction(calls, search || add, search)
  }

  /** While typing, only Ctrl/Cmd+K does anything; it always focuses the search
      and prevents the browser's default. */
  lemma TypingOnlySearch(config: Config, e: KeyEvent)
    requires config.enabled && IsTyping(e.target)
    ensures var r := HandleKeyDown(config, e);
      (CtrlOrMeta(e) && e.key == "k" ==>
         (r.preventDefault && r.focusSearchInput && r.calls == (if config.hasFocusSearch then [FocusSearch] else []))) &&
      (!(CtrlOrMeta(e) && e.key == "k") ==> r == Reaction([], false, false))
  {
    var r := HandleKeyDown(config, e);
    if !(CtrlOrMeta(e) && e.key == "k") {
      assert !SearchTriggered(e) && !AddTriggered(e) && !EscapeTriggered(e);
      assert r.calls == [];
    }
  }

  /** Escape never suppresses the browser's own handling of the key. */
  lemma EscapeKeepsDefault(config: Config, e: KeyEvent)
    requires e.key == "Escape"
    ensures !HandleKeyDown(config, e).preventDefault
  {
    assert !SearchTriggered(e) by {
      assert e.key != "k" && e.key != "/";
    }
    assert !AddTriggered(e) by {
      assert e.key != "A";
    }
  }
}
