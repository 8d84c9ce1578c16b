/** libs/pytotray.py: the menu bookkeeping of the tray icon. Options are
    numbered from a counter, actions are looked up by id, and entries are
    edited in place by index. */
module Tray {
  import opened Py

  /** `SysTrayIcon.QUIT`, the one special action. */
  const QuitAction := "QUIT"
  /** `SysTrayIcon.FIRST_ID`, where numbering starts. */
  const FirstId := 1023
  /** The window class name used when none is given. */
  const DefaultWindowClass := "PytoTrayApp"

  /** The value in an option's action slot: a callable (named), a string, a
      tuple or list of further options, or any other value. */
  datatype ActionValue = Callable(name: string) | Str(s: string) | Items(children: seq<MenuOption>) | Scalar(n: int)

  /** A menu option as given: (text, action, enabled). */
  datatype MenuOption = MenuOption(text: string, action: ActionValue, enabled: bool)

  /** The option the constructor appends to the top-level menu. */
  const QuitOption := MenuOption("Quit", Str(QuitAction), true)

  /** One of the two middle slots of a numbered entry. */
  datatype Slot = Act(action: ActionValue) | Flag(on: bool) | Kids(entries: seq<Entry>)

  /** A numbered entry: (text, action, enabled, id) for an action, and
      (text, enabled, children, id) for a submenu. */
  datatype Entry = Entry(text: string, second: Slot, third: Slot, id: int)

  /** `non_string_iterable(obj)`: `iter` succeeds on strings and on option
      tuples, and strings are then excluded. */
  function NonStringIterable(v: ActionValue): (r: bool)
    ensures r <==> v.Items?
    ensures v.Str? ==> !r
  {
    var iterable := v.Str? || v.Items?;
    iterable && !v.Str?
  }

  /** `callable(option_action) or option_action in SPECIAL_ACTIONS` */
  predicate Mapped(v: ActionValue): (r: bool)
    ensures v.Callable? ==> r
    ensures v.Str? ==> (r <==> v.s == QuitAction)
    ensures r ==> !NonStringIterable(v) && !v.Scalar?
  {
    v.Callable? || v == Str(QuitAction)
  }

  // ---------------------------------------------------------------------------
  // Numbering

  /** The number of options the numbering visits: each option, and the
      options inside each submenu. */
  function Size(opts: seq<MenuOption>): nat
  {
    if opts == [] then 0 else Size(opts[..|opts| - 1]) + OptSize(opts[|opts| - 1])
  }

  function OptSize(o: MenuOption): (r: nat)
    ensures r >= 1
  {
    1 + if o.action.Items? then Size(o.action.children) else 0
  }

  /** What numbering produces: the entries, the (id, action) pairs in the
      order they were appended, and the counter afterwards. */
  datatype Numbered = Numbered(entries: seq<Entry>, actions: seq<(int, ActionValue)>, next: int)

  /** `_add_ids_to_menu_options(opts)` with the counter at `first`. */
  function Number(opts: seq<MenuOption>, first: int): Numbered
    decreases Size(opts), 1
  {
    if opts == [] then Numbered([], [], first)
    else NumberOne(opts[|opts| - 1], Number(opts[..|opts| - 1], first))
  }

  /** One turn of the numbering loop on top of what came before it: an action
      takes the counter as its id; a submenu numbers its children first and
      takes the counter after them; anything else is dropped. The counter
      advances by one in every case. */
  function NumberOne(o: MenuOption, p: Numbered): Numbered
    decreases OptSize(o), 0
  {
    if Mapped(o.action) then
      Numbered(p.entries + [Entry(o.text, Act(o.action), Flag(o.enabled), p.next)],
               p.actions + [(p.next, o.action)], p.next + 1)
    else if NonStringIterable(o.action) then
      var c := Number(o.action.children, p.next);
      Numbered(p.entries + [Entry(o.text, Flag(o.enabled), Kids(c.entries), c.next)],
               p.actions + c.actions, c.next + 1)
    else
      Numbered(p.entries, p.actions, p.next + 1)
  }

  /** The (id, action) pairs of a numbered menu, read off its entries in
      order, children of a submenu in place of the submenu. */
  function Leaves(es: seq<Entry>): seq<(int, ActionValue)>
  {
    if es == [] then [] else Leaves(es[..|es| - 1]) + EntryLeaves(es[|es| - 1])
  }

  function EntryLeaves(e: Entry): seq<(int, ActionValue)>
  {
    if e.second.Act? then [(e.id, e.second.action)]
    else if e.third.Kids? then Leaves(e.third.entries)
    else []
  }

  /** Every id in a numbered menu, submenus and their children included. */
  function Ids(es: seq<Entry>): set<int>
  {
    if es == [] then {} else Ids(es[..|es| - 1]) + EntryIds(es[|es| - 1])
  }

  function EntryIds(e: Entry): set<int>
  {
    {e.id} + if e.third.Kids? then Ids(e.third.entries) else {}
  }

  /** Every submenu's id exceeds the ids below it. */
  ghost predicate Nested(es: seq<Entry>)
  {
    forall k :: 0 <= k < |es| ==> EntryNested(es[k])
  }

  ghost predicate EntryNested(e: Entry)
  {
    e.third.Kids? ==> (forall x :: x in Ids(e.third.entries) ==> x < e.id) && Nested(e.third.entries)
  }

  /** The ids of `acts` lie in [lo, hi) and strictly increase. */
  ghost predicate Ascending(acts: seq<(int, ActionValue)>, lo: int, hi: int)
  {
    (forall i :: 0 <= i < |acts| ==> lo <= acts[i].0 < hi)
    && (forall i, j :: 0 <= i < j < |acts| ==> acts[i].0 < acts[j].0)
  }

  lemma LeavesSnoc(es: seq<Entry>, e: Entry)
    ensures Leaves(es + [e]) == Leaves(es) + EntryLeaves(e)
    ensures Ids(es + [e]) == Ids(es) + EntryIds(e)
  {
    assert (es + [e])[..|es|] == es;
  }

  /** The counter advances by one per option visited, and the action table is
      exactly the leaves of the numbered menu, each of them mapped. */
  lemma {:induction false} NumberCounts(opts: seq<MenuOption>, first: int)
    ensures var n := Number(opts, first);
      && n.next == first + Size(opts)
      && n.actions == Leaves(n.entries)
      && forall i :: 0 <= i < |n.actions| ==> Mapped(n.actions[i].1)
    decreases Size(opts), 1
  {
    if opts != [] {
      NumberCounts(opts[..|opts| - 1], first);
      NumberOneCounts(opts[|opts| - 1], Number(opts[..|opts| - 1], first));
    }
  }

  lemma {:induction false} NumberOneCounts(o: MenuOption, p: Numbered)
    requires p.actions == Leaves(p.entries) && forall i :: 0 <= i < |p.actions| ==> Mapped(p.actions[i].1)
    ensures var n := NumberOne(o, p);
      && n.next == p.next + OptSize(o)
      && n.actions == Leaves(n.entries)
      && forall i :: 0 <= i < |n.actions| ==> Mapped(n.actions[i].1)
    decreases OptSize(o), 0
  {
    if Mapped(o.action) {
      LeavesSnoc(p.entries, Entry(o.text, Act(o.action), Flag(o.enabled), p.next));
    } else if NonStringIterable(o.action) {
      var c := Number(o.action.children, p.next);
      NumberCounts(o.action.children, p.next);
      LeavesSnoc(p.entries, Entry(o.text, Flag(o.enabled), Kids(c.entries), c.next));
    }
  }

  /** Every id lies between the counter before and after, and the action ids
      strictly increase, so no two actions share an id. */
  lemma {:induction false} NumberRanges(opts: seq<MenuOption>, first: int)
    ensures var n := Number(opts, first);
      && first <= n.next
      && (forall x :: x in Ids(n.entries) ==> first <= x < n.next)
      && Ascending(n.actions, first, n.next)
    decreases Size(opts), 1
  {
    if opts != [] {
      NumberRanges(opts[..|opts| - 1], first);
      NumberOneRanges(opts[|opts| - 1], Number(opts[..|opts| - 1], first), first);
    }
  }

  lemma {:induction false} NumberOneRanges(o: MenuOption, p: Numbered, first: int)
    requires first <= p.next
    requires forall x :: x in Ids(p.entries) ==> first <= x < p.next
    requires Ascending(p.actions, first, p.next)
    ensures var n := NumberOne(o, p);
      && p.next < n.next
      && (forall x :: x in Ids(n.entries) ==> first <= x < n.next)
      && Ascending(n.actions, first, n.next)
    decreases OptSize(o), 0
  {
    if Mapped(o.action) {
      LeavesSnoc(p.entries, Entry(o.text, Act(o.action), Flag(o.enabled), p.next));
    } else if NonStringIterable(o.action) {
      var c := Number(o.action.children, p.next);
      NumberRanges(o.action.children, p.next);
      LeavesSnoc(p.entries, Entry(o.text, Flag(o.enabled), Kids(c.entries), c.next));
      AscendingAppend(p.actions, c.actions, first, p.next, c.next);
    }
  }

  /** Two ascending runs, the second above the first, ascend together. */
  lemma AscendingAppend(a: seq<(int, ActionValue)>, b: seq<(int, ActionValue)>, lo: int, mid: int, hi: int)
    requires lo <= mid <= hi && Ascending(a, lo, mid) && Ascending(b, mid, hi)
    ensures Ascending(a + b, lo, hi)
  {
    var acts := a + b;
    forall i | 0 <= i < |acts|
      ensures lo <= acts[i].0 < hi
    {
      if i < |a| {
        assert acts[i] == a[i];
      } else {
        assert acts[i] == b[i - |a|];
      }
    }
    forall i, j | 0 <= i < j < |acts|
      ensures acts[i].0 < acts[j].0
    {
      if j < |a| {
        assert acts[i] == a[i] && acts[j] == a[j];
      } else if i >= |a| {
        assert acts[i] == b[i - |a|] && acts[j] == b[j - |a|];
      } else {
        assert acts[i] == a[i] && acts[j] == b[j - |a|];
      }
    }
  }

  /** A submenu's id is taken after its children are numbered, so it exceeds
      every id below it. */
  lemma {:induction false} NumberNests(opts: seq<MenuOption>, first: int)
    ensures Nested(Number(opts, first).entries)
    decreases Size(opts), 1
  {
    if opts != [] {
      NumberNests(opts[..|opts| - 1], first);
      NumberOneNests(opts[|opts| - 1], Number(opts[..|opts| - 1], first));
    }
  }

  lemma {:induction false} NumberOneNests(o: MenuOption, p: Numbered)
    requires Nested(p.entries)
    ensures Nested(NumberOne(o, p).entries)
    decreases OptSize(o), 0
  {
    if Mapped(o.action) {
    } else if NonStringIterable(o.action) {
      var c := Number(o.action.children, p.next);
      NumberRanges(o.action.children, p.next);
      NumberNests(o.action.children, p.next);
      var e := Entry(o.text, Flag(o.enabled), Kids(c.entries), c.next);
      assert EntryNested(e);
      var es := p.entries + [e];
      forall k | 0 <= k < |es|
        ensures EntryNested(es[k])
      {
        if k < |p.entries| {
          assert es[k] == p.entries[k];
        }
      }
    }
  }

  // ---------------------------------------------------------------------------
  // The action table

  /** `OrderedDict(pairs)`: later pairs win. */
  function ToMap(pairs: seq<(int, ActionValue)>): map<int, ActionValue>
  {
    if pairs == [] then map[] else ToMap(pairs[..|pairs| - 1])[pairs[|pairs| - 1].0 := pairs[|pairs| - 1].1]
  }

  /** With distinct ids the table holds exactly the pairs. */
  lemma {:induction false} ToMapHolds(pairs: seq<(int, ActionValue)>, lo: int, hi: int)
    requires Ascending(pairs, lo, hi)
    ensures forall i :: 0 <= i < |pairs| ==> pairs[i].0 in ToMap(pairs) && ToMap(pairs)[pairs[i].0] == pairs[i].1
    ensures forall id :: id in ToMap(pairs) ==> exists i :: 0 <= i < |pairs| && pairs[i].0 == id
  {
    if pairs != [] {
      var init := pairs[..|pairs| - 1];
      assert Ascending(init, lo, hi);
      ToMapHolds(init, lo, hi);
      forall id | id in ToMap(pairs)
        ensures exists i :: 0 <= i < |pairs| && pairs[i].0 == id
      {
        if id != pairs[|pairs| - 1].0 {
          assert id in ToMap(init);
          var i :| 0 <= i < |init| && init[i].0 == id;
          assert pairs[i].0 == id;
        }
      }
    }
  }

  /** The constructor's menu: the Quit option is the last top-level entry,
      numbered after everything the caller gave, and its id maps to QUIT;
      every id in the table maps to a callable or to QUIT. */
  lemma QuitIsLast(options: seq<MenuOption>)
    ensures var n := Number(options + [QuitOption], FirstId);
      && |n.entries| > 0
      && n.entries[|n.entries| - 1] == Entry("Quit", Act(Str(QuitAction)), Flag(true), FirstId + Size(options))
      && FirstId + Size(options) in ToMap(n.actions)
      && ToMap(n.actions)[FirstId + Size(options)] == Str(QuitAction)
      && forall id :: id in ToMap(n.actions) ==> Mapped(ToMap(n.actions)[id])
  {
    var all := options + [QuitOption];
    assert all[..|all| - 1] == options && all[|all| - 1] == QuitOption;
    var p := Number(options, FirstId);
    NumberCounts(options, FirstId);
    var n := Number(all, FirstId);
    assert n == NumberOne(QuitOption, p);
    assert n.actions == p.actions + [(p.next, Str(QuitAction))];
    NumberCounts(all, FirstId);
    NumberRanges(all, FirstId);
    ToMapHolds(n.actions, FirstId, n.next);
    forall id | id in ToMap(n.actions)
      ensures Mapped(ToMap(n.actions)[id])
    {
      var i :| 0 <= i < |n.actions| && n.actions[i].0 == id;
    }
  }

  // ---------------------------------------------------------------------------
  // Editing entries by index

  /** Python indexing of a sequence of length n: negative indices count from
      the end; anything else out of range is an IndexError. */
  function PyIndex(n: nat, index: int): (r: Option<nat>)
    ensures r.Some? <==> 0 <= index + n && index < n
    ensures r.Some? ==> r.value < n && r.value % n == index % n
  {
    if 0 <= index < n then Some(index)
    else if 0 <= index + n && index < 0 then Some(index + n)
    else None
  }

  /** Replacing one entry by another with the same leaves and ids leaves the
      action table of the menu and its ids as they were. */
  lemma {:induction false} ReplaceKeeps(es: seq<Entry>, k: nat, e: Entry)
    requires k < |es| && EntryLeaves(e) == EntryLeaves(es[k]) && EntryIds(e) == EntryIds(es[k])
    ensures Leaves(es[k := e]) == Leaves(es) && Ids(es[k := e]) == Ids(es)
  {
    var init := es[..|es| - 1];
    var upd := es[k := e];
    assert upd[..|upd| - 1] == if k == |es| - 1 then init else init[k := e];
    if k < |es| - 1 {
      ReplaceKeeps(init, k, e);
    }
  }

  /** Retitling an entry keeps the menu's leaves and ids. */
  lemma RetitleKeeps(es: seq<Entry>, k: nat, text: string)
    requires k < |es|
    ensures Leaves(es[k := es[k].(text := text)]) == Leaves(es) && Ids(es[k := es[k].(text := text)]) == Ids(es)
  {
    ReplaceKeeps(es, k, es[k].(text := text));
  }

  /** Setting the state of an action entry keeps the menu's leaves and ids;
      on a submenu entry the flag lands in the children slot and the
      children are gone from the menu. */
  lemma SetStateKeeps(es: seq<Entry>, k: nat, on: bool)
    requires k < |es|
    ensures es[k].second.Act? && es[k].third.Flag? ==>
      Leaves(es[k := es[k].(third := Flag(on))]) == Leaves(es) && Ids(es[k := es[k].(third := Flag(on))]) == Ids(es)
    ensures es[k].second.Flag? ==> EntryLeaves(es[k].(third := Flag(on))) == [] && EntryIds(es[k].(third := Flag(on))) == {es[k].id}
  {
    if es[k].second.Act? && es[k].third.Flag? {
      ReplaceKeeps(es, k, es[k].(third := Flag(on)));
    }
  }

  /** What `execute_menu_option` did. */
  datatype Executed = WindowDestroyed | Called(action: ActionValue)

  /** The tray icon's menu state. The window, the icon image and the message
      loop are outside this model. */
  class SysTrayIcon {
    var icon: string
    var hoverText: string
    var menuOptions: seq<Entry>
    /** `menu_actions_by_id` while it is still a list of pairs. */
    var actionList: seq<(int, ActionValue)>
    /** `menu_actions_by_id` once it is a dictionary. */
    var actionsById: map<int, ActionValue>
    var nextActionId: int
    var defaultMenuIndex: int
    var windowClassName: string
    var destroyed: bool

    /** `__init__`: append the Quit option, number the menu from FIRST_ID and
        turn the pairs into a dictionary. */
    constructor (icon: string, hoverText: string, options: seq<MenuOption>,
                 defaultMenuIndex: Option<int>, windowClassName: Option<string>)
      ensures this.icon == icon && this.hoverText == hoverText && !destroyed
      ensures var n := Number(options + [QuitOption], FirstId);
        menuOptions == n.entries && actionList == n.actions && actionsById == ToMap(n.actions)
      ensures this.defaultMenuIndex == if defaultMenuIndex.Some? then defaultMenuIndex.value else 0
      ensures this.windowClassName ==
        if windowClassName.Some? && windowClassName.value != "" then windowClassName.value else DefaultWindowClass
    {
      this.icon := icon;
      this.hoverText := hoverText;
      nextActionId := FirstId;
      actionList := [];
      menuOptions := [];
      actionsById := map[];
      destroyed := false;
      this.defaultMenuIndex := if defaultMenuIndex.Some? then defaultMenuIndex.value else 0;
      this.windowClassName :=
        if windowClassName.Some? && windowClassName.value != "" then windowClassName.value else DefaultWindowClass;
      new;
      ghost var n := Number(options + [QuitOption], FirstId);
      var menu := AddIds(options + [QuitOption]);
      assert menu == n.entries && actionList == n.actions;
      menuOptions := menu;
      actionsById := ToMap(actionList);
    }

    /** `_add_ids_to_menu_options(menu_options)` */
    method AddIds(options: seq<MenuOption>) returns (result: seq<Entry>)
      modifies this
      decreases Size(options)
      ensures var n := Number(options, old(nextActionId));
        result == n.entries && actionList == old(actionList) + n.actions && nextActionId == n.next
      ensures icon == old(icon) && hoverText == old(hoverText) && menuOptions == old(menuOptions)
      ensures actionsById == old(actionsById) && destroyed == old(destroyed)
      ensures defaultMenuIndex == old(defaultMenuIndex) && windowClassName == old(windowClassName)
    {
      result := [];
      var i := 0;
      while i < |options|
        invariant 0 <= i <= |options|
        invariant var n := Number(options[..i], old(nextActionId));
          result == n.entries && actionList == old(actionList) + n.actions && nextActionId == n.next
        invariant icon == old(icon) && hoverText == old(hoverText) && menuOptions == old(menuOptions)
        invariant actionsById == old(actionsById) && destroyed == old(destroyed)
        invariant defaultMenuIndex == old(defaultMenuIndex) && windowClassName == old(windowClassName)
      {
        var option := options[i];
        assert options[..i + 1][..i] == options[..i];
        SizeBound(options, i);
        if option.action.Callable? || option.action == Str(QuitAction) {
          actionList := actionList + [(nextActionId, option.action)];
          result := result + [Entry(option.text, Act(option.action), Flag(option.enabled), nextActionId)];
        } else if NonStringIterable(option.action) {
          var children := AddIds(option.action.children);
          result := result + [Entry(option.text, Flag(option.enabled), Kids(children), nextActionId)];
        }
        nextActionId := nextActionId + 1;
        i := i + 1;
      }
      assert options[..i] == options;
    }

    /** `change_menu_item_text(index, new_text)` */
    method ChangeMenuItemText(index: int, newText: string) returns (r: Result<()>)
      modifies this
      ensures PyIndex(|old(menuOptions)|, index).None? ==> r == Raised(IndexError) && menuOptions == old(menuOptions)
      ensures PyIndex(|old(menuOptions)|, index).Some? ==>
        var k := PyIndex(|old(menuOptions)|, index).value;
        r == Ok(()) && menuOptions == old(menuOptions)[k := old(menuOptions)[k].(text := newText)]
      ensures icon == old(icon) && actionList == old(actionList) && actionsById == old(actionsById)
      ensures destroyed == old(destroyed)
      ensures hoverText == old(hoverText) && nextActionId == old(nextActionId)
      ensures defaultMenuIndex == old(defaultMenuIndex) && windowClassName == old(windowClassName)
    {
      var k := PyIndex(|menuOptions|, index);
      if k.None? {
        return Raised(IndexError);
      }
      var entry := menuOptions[k.value];
      menuOptions := menuOptions[k.value := Entry(newText, entry.second, entry.third, entry.id)];
      r := Ok(());
    }

    /** `_set_menu_item_state(index, is_enabled)`: the flag goes in the third
        slot, which is the enabled flag of an action entry. */
    method SetMenuItemState(index: int, isEnabled: bool) returns (r: Result<()>)
      modifies this
      ensures PyIndex(|old(menuOptions)|, index).None? ==> r == Raised(IndexError) && menuOptions == old(menuOptions)
      ensures PyIndex(|old(menuOptions)|, index).Some? ==>
        var k := PyIndex(|old(menuOptions)|, index).value;
        r == Ok(()) && menuOptions == old(menuOptions)[k := old(menuOptions)[k].(third := Flag(isEnabled))]
      ensures icon == old(icon) && actionList == old(actionList) && actionsById == old(actionsById)
      ensures destroyed == old(destroyed)
      ensures hoverText == old(hoverText) && nextActionId == old(nextActionId)
      ensures defaultMenuIndex == old(defaultMenuIndex) && windowClassName == old(windowClassName)
    {
      var k := PyIndex(|menuOptions|, index);
      if k.None? {
        return Raised(IndexError);
      }
      var entry := menuOptions[k.value];
      menuOptions := menuOptions[k.value := Entry(entry.text, entry.second, Flag(isEnabled), entry.id)];
      r := Ok(());
    }

    /** `enable_menu_item(index)` */
    method EnableMenuItem(index: int) returns (r: Result<()>)
      modifies this
      ensures PyIndex(|old(menuOptions)|, index).None? ==> r == Raised(IndexError) && menuOptions == old(menuOptions)
      ensures PyIndex(|old(menuOptions)|, index).Some? ==>
        var k := PyIndex(|old(menuOptions)|, index).value;
        r == Ok(()) && menuOptions == old(menuOptions)[k := old(menuOptions)[k].(third := Flag(true))]
      ensures icon == old(icon) && actionList == old(actionList) && actionsById == old(actionsById)
      ensures destroyed == old(destroyed)
      ensures hoverText == old(hoverText) && nextActionId == old(nextActionId)
      ensures defaultMenuIndex == old(defaultMenuIndex) && windowClassName == old(windowClassName)
    {
      r := SetMenuItemState(index, true);
    }

    /** `disable_menu_item(index)` */
    method DisableMenuItem(index: int) returns (r: Result<()>)
      modifies this
      ensures PyIndex(|old(menuOptions)|, index).None? ==> r == Raised(IndexError) && menuOptions == old(menuOptions)
      ensures PyIndex(|old(menuOptions)|, index).Some? ==>
        var k := PyIndex(|old(menuOptions)|, index).value;
        r == Ok(()) && menuOptions == old(menuOptions)[k := old(menuOptions)[k].(third := Flag(false))]
      ensures icon == old(icon) && actionList == old(actionList) && actionsById == old(actionsById)
      ensures destroyed == old(destroyed)
      ensures hoverText == old(hoverText) && nextActionId == old(nextActionId)
      ensures defaultMenuIndex == old(defaultMenuIndex) && windowClassName == old(windowClassName)
    {
      r := SetMenuItemState(index, false);
    }

    /** `execute_menu_option(m_id)`: an unknown id is a KeyError, QUIT's id
        destroys the window, any other id calls its action. */
    method ExecuteMenuOption(mId: int) returns (r: Result<Executed>)
      modifies this
      ensures mId !in actionsById ==> r == Raised(KeyError) && destroyed == old(destroyed)
      ensures mId in actionsById && actionsById[mId] == Str(QuitAction) ==> r == Ok(WindowDestroyed) && destroyed
      ensures mId in actionsById && actionsById[mId].Callable? ==>
        r == Ok(Called(actionsById[mId])) && destroyed == old(destroyed)
      ensures mId in actionsById && !Mapped(actionsById[mId]) ==> r == Raised(TypeError) && destroyed == old(destroyed)
      ensures menuOptions == old(menuOptions) && actionsById == old(actionsById) && actionList == old(actionList)
      ensures icon == old(icon)
      ensures hoverText == old(hoverText) && nextActionId == old(nextActionId)
      ensures defaultMenuIndex == old(defaultMenuIndex) && windowClassName == old(windowClassName)
    {
      if mId !in actionsById {
        return Raised(KeyError);
      }
      var action := actionsById[mId];
      if action == Str(QuitAction) {
        destroyed := true;
        return Ok(WindowDestroyed);
      }
      if !action.Callable? {
        // calling a value that is not callable
        return Raised(TypeError);
      }
      r := Ok(Called(action));
    }
  }

  /** An option's share of the count bounds the count of the whole list. */
  lemma {:induction false} SizeBound(opts: seq<MenuOption>, i: nat)
    requires i < |opts|
    ensures OptSize(opts[i]) <= Size(opts)
    ensures opts[i].action.Items? ==> Size(opts[i].action.children) < Size(opts)
  {
    var init := opts[..|opts| - 1];
    if i < |opts| - 1 {
      assert init[i] == opts[i];
      SizeBound(init, i);
    }
  }
}
