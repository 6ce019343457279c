/** The keydown handler of frontend/src/hooks/useKeyboardShortcuts.ts: a chain of
    six independent tests on the event, each of which, when it matches, cancels
    the browser default and calls its callback if the caller supplied one. */
module Shortcuts {
  import opened Common

  datatype Action = Undo | Clear | Generate | OpenGallery | OpenHelp | ToggleMode

  /** The fields of a browser KeyboardEvent the handler reads. `targetIsTextField`
      stands for "the target is an <input> or a <textarea>". */
  datatype KeyEvent = KeyEvent(key: string, metaKey: bool, ctrlKey: bool, targetIsTextField: bool)

  /** What one event did: how many times `preventDefault` was called and which
      callbacks ran, in order. */
  datatype Effects = Effects(preventDefaultCalls: nat, invoked: seq<Action>)

  /** The six tests in source order; each contributes its action when it matches. */
  function Matched(e: KeyEvent): seq<Action>
  {
    var modifier := e.metaKey || e.ctrlKey;
    (if modifier && e.key == "z" then [Undo] else [])
    + (if modifier && e.key == "k" then [Clear] else [])
    + (if modifier && e.key == "Enter" then [Generate] else [])
    + (if e.key == "g" then [OpenGallery] else [])
    + (if e.key == "?" then [OpenHelp] else [])
    + (if e.key == "m" then [ToggleMode] else [])
  }

  /** The actions among `acts` whose callback was supplied (`shortcuts.onX?.()`). */
  function Supplied(acts: seq<Action>, bound: set<Action>): (r: seq<Action>)
    ensures |r| <= |acts|
    ensures forall a :: a in r <==> a in acts && a in bound
  {
    if acts == [] then []
    else (if acts[0] in bound then [acts[0]] else []) + Supplied(acts[1..], bound)
  }

  /** The shortcut table as the help screen states it, written independently of the
      handler: the key chooses the row, the modifier is needed only for z, k and Enter. */
  function ShortcutFor(key: string, modifier: bool): Option<Action>
  {
    match key
    case "z" => if modifier then Some(Undo) else None
    case "k" => if modifier then Some(Clear) else None
    case "Enter" => if modifier then Some(Generate) else None
    case "g" => Some(OpenGallery)
    case "?" => Some(OpenHelp)
    case "m" => Some(ToggleMode)
    case _ => None
  }

  /** The handler. An event aimed at a text field is ignored outright; otherwise
      `preventDefault` is called once exactly when the table has a row for the
      event, and that row's callback runs when the caller supplied it. */
  function HandleKeyPress(e: KeyEvent, bound: set<Action>): (r: Effects)
    ensures e.targetIsTextField ==> r == Effects(0, [])
    ensures !e.targetIsTextField ==>
      var row := ShortcutFor(e.key, e.metaKey || e.ctrlKey);
      && r.preventDefaultCalls == (if row.Some? then 1 else 0)
      && r.invoked == (if row.Some? && row.value in bound then [row.value] else [])
  {
    if e.targetIsTextField then Effects(0, [])
    else
      var acts := Matched(e);
      MatchedFollowsTable(e);
      Effects(|acts|, Supplied(acts, bound))
  }

  /** The if-chain agrees with the table: it matches the table's row and nothing else. */
  lemma MatchedFollowsTable(e: KeyEvent)
    ensures var row := ShortcutFor(e.key, e.metaKey || e.ctrlKey);
      Matched(e) == (if row.Some? then [row.value] else [])
  {
  }

  /** The six tests never match together: each event runs at most one callback. */
  lemma AtMostOneAction(e: KeyEvent, bound: set<Action>)
    ensures HandleKeyPress(e, bound).preventDefaultCalls <= 1
    ensures |HandleKeyPress(e, bound).invoked| <= HandleKeyPress(e, bound).preventDefaultCalls
  {
  }

  /** A missing callback is skipped, but the default is still prevented. */
  lemma MissingCallbackStillPrevents(e: KeyEvent, bound: set<Action>)
    requires !e.targetIsTextField
    requires ShortcutFor(e.key, e.metaKey || e.ctrlKey).Some?
    requires ShortcutFor(e.key, e.metaKey || e.ctrlKey).value !in bound
    ensures HandleKeyPress(e, bound) == Effects(1, [])
  {
  }

  /** Matching is case-sensitive: upper-case letters do nothing, whatever the modifiers. */
  lemma UpperCaseIgnored(e: KeyEvent, bound: set<Action>)
    requires e.key in {"Z", "K", "G", "M"}
    ensures HandleKeyPress(e, bound) == Effects(0, [])
  {
  }

  /** z, k and Enter need Cmd or Ctrl; g, ? and m fire with or without them. */
  lemma ModifierRows(key: string)
    ensures key in {"z", "k", "Enter"} ==> ShortcutFor(key, false).None? && ShortcutFor(key, true).Some?
    ensures key in {"g", "?", "m"} ==> ShortcutFor(key, false) == ShortcutFor(key, true) != None
  {
  }
}
