/**
 * The search-toggle driver: decide from the page whether web search is
 * already on, and if not, open the composer's "+" menu with synthetic pointer
 * events and select the "Web search" radio item. Dispatched events are
 * appended to a log on a `Page` object.
 */
module SearchToggle {
  import opened Wrappers
  import opened Text
  import opened Dom
  import Wait

  /** Menu-item labels that name the web-search feature. */
  const WebSearchKeywords: seq<string> := ["ウェブ検索", "Web search", "Search the web"]

  const ButtonSelector: Selector := TagIs("button")
  const PlusButtonSelector: Selector := AttributeEquals("data-testid", "composer-plus-btn")
  const MenuSelector: Selector := AttributeEquals("role", "menu")
  const MenuItemRadioSelector: Selector := AttributeEquals("role", "menuitemradio")

  /** How long the menu may take to appear after the "+" button is clicked. */
  const MenuTimeoutMs: nat := 2000

  /** A button's `aria-label`, a missing one read as the empty string. */
  function AriaLabel(b: Node): string
  {
    GetAttribute(b, "aria-label").GetOr("")
  }

  /** The label names search: Japanese token as is, English token after lower-casing. */
  predicate HasSearchToken(ariaLabel: string)
  {
    Contains(ariaLabel, "検索") || Contains(AsciiLower(ariaLabel), "search")
  }

  /** The label names removal: Japanese token as is, English token after lower-casing. */
  predicate HasRemoveToken(ariaLabel: string)
  {
    Contains(ariaLabel, "削除") || Contains(AsciiLower(ariaLabel), "remove")
  }

  /**
   * Each English token is matched regardless of the case of its letters: the
   * label names search (removal) iff it holds "検索" ("削除") or "search"
   * ("remove") with any of its letters capitalised.
   */
  lemma {:induction false} TokensIgnoreCase(ariaLabel: string)
    ensures HasSearchToken(ariaLabel) <==>
              Contains(ariaLabel, "検索") || exists i | 0 <= i <= |ariaLabel| :: OccursIgnoringCaseAt(ariaLabel, "search", i)
    ensures HasRemoveToken(ariaLabel) <==>
              Contains(ariaLabel, "削除") || exists i | 0 <= i <= |ariaLabel| :: OccursIgnoringCaseAt(ariaLabel, "remove", i)
  {
    ContainsIgnoringAsciiCase(ariaLabel, "search");
    ContainsIgnoringAsciiCase(ariaLabel, "remove");
  }

  /** The label of the "search is on, click to remove" badge; each half may come from either language. */
  predicate IsSearchBadgeLabel(ariaLabel: string)
  {
    HasSearchToken(ariaLabel) && HasRemoveToken(ariaLabel)
  }

  /** The node carries the badge label. */
  predicate IsSearchBadge(b: Node)
  {
    IsSearchBadgeLabel(AriaLabel(b))
  }

  /** The Japanese badge label names both search and removal. */
  lemma JapaneseBadgeLabel()
    ensures IsSearchBadgeLabel("検索：クリックして削除")
  {
    assert OccursAt("検索：クリックして削除", "検索", 0);
    assert OccursAt("検索：クリックして削除", "削除", 9);
  }

  /** The English badge label is recognised after lower-casing. */
  lemma EnglishBadgeLabel()
    ensures IsSearchBadgeLabel("Search: Click to remove")
  {
    var badge := "Search: Click to remove";
    AsciiLowerSlice(badge, 0, 6);
    assert badge[0..6] == "Search";
    assert AsciiLower("Search") == "search";
    assert OccursAt(AsciiLower(badge), "search", 0);
    AsciiLowerSlice(badge, 17, 23);
    assert badge[17..23] == "remove";
    assert AsciiLower("remove") == "remove";
    assert OccursAt(AsciiLower(badge), "remove", 17);
  }

  /** The search token alone, or a label naming neither, is not the badge. */
  lemma NonBadgeLabels()
    ensures !IsSearchBadgeLabel("検索")
    ensures !IsSearchBadgeLabel("Send")
  {
    MissingCharExcludes("検索", "削除", 0);
    ShorterExcludes(AsciiLower("検索"), "remove");
    MissingCharExcludes("Send", "検索", 0);
    ShorterExcludes(AsciiLower("Send"), "search");
  }

  /** Reference meaning of "web search is enabled": some button on the page carries the badge label. */
  predicate SearchEnabled(doc: Document)
  {
    exists i | 0 <= i < |doc.nodes| :: Matches(doc.nodes[i], ButtonSelector) && IsSearchBadge(doc.nodes[i])
  }

  /** Scans the buttons in document order and stops at the first badge. */
  method IsSearchEnabled(doc: Document) returns (enabled: bool)
    ensures enabled <==> SearchEnabled(doc)
  {
    var buttons := QuerySelectorAll(doc, ButtonSelector);
    var i := 0;
    while i < |buttons|
      invariant 0 <= i <= |buttons|
      invariant forall j :: 0 <= j < i ==> !IsSearchBadge(buttons[j])
    {
      if IsSearchBadge(buttons[i]) {
        assert buttons[i] in doc.nodes;
        return true;
      }
      i := i + 1;
    }
    assert forall b :: b in buttons ==> !IsSearchBadge(b);
    return false;
  }

  /** `findPlusButton`: the composer's "+" button, found by its test id. */
  function FindPlusButton(doc: Document): Option<Node>
  {
    QuerySelector(doc, PlusButtonSelector)
  }

  /**
   * The "+" button found carries the test id `composer-plus-btn` and is on the
   * page; none is found exactly when no element carries that test id.
   */
  lemma {:induction false} PlusButtonLookup(doc: Document)
    ensures FindPlusButton(doc).Some? ==>
              FindPlusButton(doc).value in doc.nodes
              && GetAttribute(FindPlusButton(doc).value, "data-testid") == Some("composer-plus-btn")
    ensures FindPlusButton(doc).None? <==>
              forall n :: n in doc.nodes ==> GetAttribute(n, "data-testid") != Some("composer-plus-btn")
  {
    QuerySelectorFindsFirst(doc, PlusButtonSelector);
  }

  /** The item's trimmed text contains one of the web-search labels (case-sensitive). */
  predicate HasWebSearchKeyword(item: Node)
  {
    exists k | 0 <= k < |WebSearchKeywords| :: Contains(Trim(item.text), WebSearchKeywords[k])
  }

  /**
   * Trimming the text content never changes the verdict: every keyword starts
   * and ends with a character that `trim` keeps.
   */
  lemma {:induction false} KeywordMatchIgnoresTrim(item: Node)
    ensures HasWebSearchKeyword(item) <==>
              exists k | 0 <= k < |WebSearchKeywords| :: Contains(item.text, WebSearchKeywords[k])
  {
    forall k | 0 <= k < |WebSearchKeywords|
      ensures Contains(Trim(item.text), WebSearchKeywords[k]) <==> Contains(item.text, WebSearchKeywords[k])
    {
      TrimKeepsInnerOccurrence(item.text, WebSearchKeywords[k]);
    }
  }

  /** A radio menu item that names web search. */
  predicate IsWebSearchItem(n: Node)
  {
    Matches(n, MenuItemRadioSelector) && HasWebSearchKeyword(n)
  }

  /** Reference meaning of the search: the first radio item among the page's radio items whose text names web search. */
  function WebSearchItem(doc: Document): Option<Node>
  {
    First(QuerySelectorAll(doc, MenuItemRadioSelector), HasWebSearchKeyword)
  }

  /** Scans the radio menu items in document order and stops at the first that names web search. */
  method FindWebSearchMenuItem(doc: Document) returns (item: Option<Node>)
    ensures item == WebSearchItem(doc)
  {
    var items := QuerySelectorAll(doc, MenuItemRadioSelector);
    var i := 0;
    while i < |items|
      invariant 0 <= i <= |items|
      invariant forall j :: 0 <= j < i ==> !HasWebSearchKeyword(items[j])
    {
      if HasWebSearchKeyword(items[i]) {
        assert items[i] in items;
        return Some(items[i]);
      }
      i := i + 1;
    }
    return None;
  }

  /**
   * The item found is the first element of the whole page, in document order,
   * that is a radio menu item naming web search; there is none exactly when
   * no radio menu item names web search.
   */
  lemma {:induction false} WebSearchItemIsFirstInDocument(doc: Document)
    ensures WebSearchItem(doc) == First(doc.nodes, IsWebSearchItem)
    ensures WebSearchItem(doc).Some? ==> WebSearchItem(doc).value in doc.nodes && IsWebSearchItem(WebSearchItem(doc).value)
    ensures WebSearchItem(doc).None? <==> forall n :: n in doc.nodes ==> !IsWebSearchItem(n)
  {
    FirstOfFilter(doc.nodes, MenuItemRadioSelector, HasWebSearchKeyword, IsWebSearchItem);
  }

  /** `isMenuItemChecked`: `aria-checked` is exactly the string "true". */
  predicate IsMenuItemChecked(item: Node)
  {
    GetAttribute(item, "aria-checked") == Some("true")
  }

  /**
   * `aria-checked="true"` marks the item checked; `"false"`, any other value
   * (the comparison is exact, so `"TRUE"` too) and a missing attribute do not.
   */
  lemma MenuItemCheckedCases(item: Node)
    ensures "aria-checked" in item.attributes && item.attributes["aria-checked"] == "true" ==> IsMenuItemChecked(item)
    ensures "aria-checked" in item.attributes && item.attributes["aria-checked"] == "false" ==> !IsMenuItemChecked(item)
    ensures "aria-checked" in item.attributes && item.attributes["aria-checked"] == "TRUE" ==> !IsMenuItemChecked(item)
    ensures "aria-checked" !in item.attributes ==> !IsMenuItemChecked(item)
  {
  }

  datatype EventType = PointerDown | PointerUp | Click | KeyDown(key: string)
  datatype EventTarget = ElementTarget(id: NodeId) | DocumentTarget

  /** A dispatched synthetic event (coordinates and pointer details are not kept). */
  datatype Event = Event(kind: EventType, target: EventTarget, bubbles: bool, cancelable: bool)

  /** The three events of a simulated click on `el`. */
  function ClickSequence(el: Node): (es: seq<Event>)
    ensures |es| == 3
    ensures es[0].kind == PointerDown && es[1].kind == PointerUp && es[2].kind == Click
    ensures forall i :: 0 <= i < 3 ==> es[i].target == ElementTarget(el.id) && es[i].bubbles && es[i].cancelable
  {
    [Event(PointerDown, ElementTarget(el.id), true, true),
     Event(PointerUp, ElementTarget(el.id), true, true),
     Event(Click, ElementTarget(el.id), true, true)]
  }

  /** The Escape key-down sent to the document to close the menu: it bubbles and is not cancelable. */
  const EscapeKeyDown: Event := Event(KeyDown("Escape"), DocumentTarget, true, false)

  /** `waitForElement('[role="menu"]')` started at `start` on the page `doc`, after the page has gone through `es`. */
  function WaitForMenu(doc: Document, start: int, es: seq<PageEvent>): Option<Option<Node>>
  {
    Wait.Outcome(doc, MenuSelector, MenuTimeoutMs, start, es)
  }

  /** A menu that shows up in a batch less than two seconds after the click is the one delivered. */
  lemma {:induction false} MenuAppearsInTime(doc: Document, start: int, before: seq<PageEvent>, menuDoc: Document, after: seq<PageEvent>)
    requires QuerySelector(doc, MenuSelector).None?
    requires Wait.NoMatchIn(MenuSelector, before)
    requires ElapsedIn(before) < MenuTimeoutMs
    requires QuerySelector(menuDoc, MenuSelector).Some?
    ensures WaitForMenu(doc, start, before + [MutationBatch(menuDoc)] + after) == Some(QuerySelector(menuDoc, MenuSelector))
  {
    Wait.FirstMatchingBatchWins(Wait.Begin(doc, MenuSelector, MenuTimeoutMs, start), MenuSelector, before, menuDoc, after);
  }

  /** A menu that has not shown up once two seconds have passed is given up on: the wait delivers `null`. */
  lemma {:induction false} MenuGivenUpAfterTimeout(doc: Document, start: int, es: seq<PageEvent>)
    requires QuerySelector(doc, MenuSelector).None?
    requires Wait.NoMatchIn(MenuSelector, es)
    requires MenuTimeoutMs <= ElapsedIn(es)
    ensures WaitForMenu(doc, start, es) == Some(None)
  {
    Wait.TimeoutResolvesNull(Wait.Begin(doc, MenuSelector, MenuTimeoutMs, start), MenuSelector, es);
  }

  /** What the menu wait delivered: the `[role="menu"]` element or `null`, and the page when it settled. */
  datatype MenuWait = MenuWait(menu: Option<Node>, snapshot: Document)

  /** The exit points of `enableWebSearch`, in the order the procedure reaches them. */
  datatype Exit = AlreadyEnabled | NoPlusButton | MenuNeverAppeared | ItemMissing | AlreadyChecked | ItemSelected

  /** Which exit `enableWebSearch` takes on the page `doc` when the menu wait delivers `wait`. */
  function ExitOf(doc: Document, wait: MenuWait): Exit
  {
    if SearchEnabled(doc) then AlreadyEnabled
    else if FindPlusButton(doc).None? then NoPlusButton
    else if wait.menu.None? then MenuNeverAppeared
    else
      match WebSearchItem(wait.snapshot)
      case None => ItemMissing
      case Some(item) => if IsMenuItemChecked(item) then AlreadyChecked else ItemSelected
  }

  /** The value `enableWebSearch` returns at each exit. */
  predicate Succeeds(e: Exit)
  {
    e == AlreadyEnabled || e == AlreadyChecked || e == ItemSelected
  }

  /** The events `enableWebSearch` dispatches before it takes its exit. */
  function DispatchedBy(doc: Document, wait: MenuWait): seq<Event>
  {
    match ExitOf(doc, wait)
    case AlreadyEnabled => []
    case NoPlusButton => []
    case MenuNeverAppeared => ClickSequence(FindPlusButton(doc).value)
    case ItemMissing => ClickSequence(FindPlusButton(doc).value) + [EscapeKeyDown]
    case AlreadyChecked => ClickSequence(FindPlusButton(doc).value) + [EscapeKeyDown]
    case ItemSelected =>
      ClickSequence(FindPlusButton(doc).value) + ClickSequence(WebSearchItem(wait.snapshot).value)
  }

  /** When web search is already on, the procedure succeeds without dispatching anything. */
  lemma AlreadyEnabledDispatchesNothing(doc: Document, wait: MenuWait)
    requires SearchEnabled(doc)
    ensures Succeeds(ExitOf(doc, wait)) && DispatchedBy(doc, wait) == []
  {
  }

  /**
   * The failure paths: without a "+" button nothing is dispatched; when the
   * menu does not appear only the "+" click is dispatched; when the item is
   * missing the "+" click is followed by Escape.
   */
  lemma FailurePaths(doc: Document, wait: MenuWait)
    requires !Succeeds(ExitOf(doc, wait))
    ensures !SearchEnabled(doc)
    ensures FindPlusButton(doc).None? ==> DispatchedBy(doc, wait) == []
    ensures FindPlusButton(doc).Some? && wait.menu.None? ==>
              DispatchedBy(doc, wait) == ClickSequence(FindPlusButton(doc).value)
    ensures FindPlusButton(doc).Some? && wait.menu.Some? ==>
              WebSearchItem(wait.snapshot).None?
              && DispatchedBy(doc, wait) == ClickSequence(FindPlusButton(doc).value) + [EscapeKeyDown]
  {
  }

  /**
   * The procedure succeeds exactly when web search was already on, or the
   * "+" button existed, the menu appeared and it held the web-search item.
   */
  lemma SucceedsIff(doc: Document, wait: MenuWait)
    ensures Succeeds(ExitOf(doc, wait)) <==>
              SearchEnabled(doc)
              || (FindPlusButton(doc).Some? && wait.menu.Some? && WebSearchItem(wait.snapshot).Some?)
  {
  }

  /**
   * Escape is dispatched exactly when the menu was opened and the web-search
   * item was missing or already checked, and then only once.
   */
  lemma {:induction false} EscapeIffMenuLeftOpen(doc: Document, wait: MenuWait)
    ensures EscapeKeyDown in DispatchedBy(doc, wait) <==>
              !SearchEnabled(doc) && FindPlusButton(doc).Some? && wait.menu.Some?
              && (WebSearchItem(wait.snapshot).None? || IsMenuItemChecked(WebSearchItem(wait.snapshot).value))
    ensures EscapeKeyDown in DispatchedBy(doc, wait) ==>
              DispatchedBy(doc, wait)[|DispatchedBy(doc, wait)| - 1] == EscapeKeyDown
              && EscapeKeyDown !in DispatchedBy(doc, wait)[..|DispatchedBy(doc, wait)| - 1]
  {
    var plusClick := if FindPlusButton(doc).Some? then ClickSequence(FindPlusButton(doc).value) else [];
    assert EscapeKeyDown !in plusClick;
    match ExitOf(doc, wait)
    case ItemSelected =>
      var itemClick := ClickSequence(WebSearchItem(wait.snapshot).value);
      assert EscapeKeyDown !in itemClick;
      assert DispatchedBy(doc, wait) == plusClick + itemClick;
    case ItemMissing =>
      assert DispatchedBy(doc, wait)[..|DispatchedBy(doc, wait)| - 1] == plusClick;
    case AlreadyChecked =>
      assert DispatchedBy(doc, wait)[..|DispatchedBy(doc, wait)| - 1] == plusClick;
    case _ =>
  }

  /**
   * The web-search item receives clicks only when it was found unchecked; an
   * item that is already checked is left alone.
   */
  lemma ItemClickedOnlyWhenUnchecked(doc: Document, wait: MenuWait)
    requires WebSearchItem(wait.snapshot).Some?
    ensures var item := WebSearchItem(wait.snapshot).value;
            (ExitOf(doc, wait) == ItemSelected <==>
              !SearchEnabled(doc) && FindPlusButton(doc).Some? && wait.menu.Some? && !IsMenuItemChecked(item))
            && (IsMenuItemChecked(item) && FindPlusButton(doc).Some? ==>
                  DispatchedBy(doc, wait) <= ClickSequence(FindPlusButton(doc).value) + [EscapeKeyDown])
  {
  }

  /** The page as an event target: every synthetic event dispatched on it is logged in order. */
  class Page {
    var dispatched: seq<Event>

    constructor ()
      ensures dispatched == []
    {
      dispatched := [];
    }

    /** `simulateClick`: pointerdown, pointerup, click on `el`. */
    method SimulateClick(el: Node)
      modifies this
      ensures dispatched == old(dispatched) + ClickSequence(el)
    {
      dispatched := dispatched + [Event(PointerDown, ElementTarget(el.id), true, true)];
      dispatched := dispatched + [Event(PointerUp, ElementTarget(el.id), true, true)];
      dispatched := dispatched + [Event(Click, ElementTarget(el.id), true, true)];
    }

    /** Dismisses an open menu. */
    method PressEscape()
      modifies this
      ensures dispatched == old(dispatched) + [EscapeKeyDown]
    {
      dispatched := dispatched + [EscapeKeyDown];
    }

    /**
     * `enableWebSearch` on the page `doc`; `wait` is what the two-second wait
     * for the menu delivered after the "+" click.
     */
    method EnableWebSearch(doc: Document, wait: MenuWait) returns (ok: bool)
      modifies this
      ensures ok == Succeeds(ExitOf(doc, wait))
      ensures dispatched == old(dispatched) + DispatchedBy(doc, wait)
    {
      var enabled := IsSearchEnabled(doc);
      if enabled {
        assert ExitOf(doc, wait) == AlreadyEnabled;
        return true;
      }
      var plus := FindPlusButton(doc);
      if plus.None? {
        assert ExitOf(doc, wait) == NoPlusButton;
        return false;
      }
      SimulateClick(plus.value);
      if wait.menu.None? {
        assert ExitOf(doc, wait) == MenuNeverAppeared;
        return false;
      }
      var item := FindWebSearchMenuItem(wait.snapshot);
      if item.None? {
        assert ExitOf(doc, wait) == ItemMissing;
        PressEscape();
        return false;
      }
      if IsMenuItemChecked(item.value) {
        assert ExitOf(doc, wait) == AlreadyChecked;
        PressEscape();
        return true;
      }
      assert ExitOf(doc, wait) == ItemSelected;
      SimulateClick(item.value);
      return true;
    }
  }
}
