/**
 * The keyboard-driven menu (fedchecker/ui/menu.py): items added in order,
 * a cursor that moves cyclically over the enabled items, case-insensitive
 * shortcut lookup, and the key loop of `run_menu` over a given sequence of
 * key names (what `get_keypress` would have returned).
 */
module Menu {
  import opened Wrappers
  import opened Text

  const IconBullet := "●"
  const IconExit := "[dim]🚪[/]"

  /**
   * `MenuItem` (its `label` is `caption` here). The callable is represented by an identifier: `select`
   * reports which action it would invoke. The nested `submenu` field is
   * never set by the source and is not modelled.
   */
  datatype Item = Item(key: string, caption: string, icon: string, action: Option<nat>, description: string, enabled: bool)

  /** `Menu`: the console it renders to is not modelled. */
  datatype Menu = Menu(title: string, items: seq<Item>, subtitle: string, selected: nat)

  /** `add_item`: the chained `self` is the returned menu. */
  function AddItem(m: Menu, key: string, caption: string, icon: string, action: Option<nat>, description: string, enabled: bool): (r: Menu)
    ensures |r.items| == |m.items| + 1
    ensures r.items[..|m.items|] == m.items
    ensures r.items[|m.items|] == Item(key, caption, icon, action, description, enabled)
    ensures r.title == m.title && r.subtitle == m.subtitle && r.selected == m.selected
  {
    m.(items := m.items + [Item(key, caption, icon, action, description, enabled)])
  }

  predicate SomeEnabled(items: seq<Item>) {
    exists j :: 0 <= j < |items| && items[j].enabled
  }

  // ---------------------------------------------------------------------
  // move_up / move_down

  datatype Dir = Up | Down

  function Opposite(d: Dir): Dir {
    match d
    case Up => Down
    case Down => Up
  }

  /** How many single steps in direction `d` lead from position `a` to position `j` of a cycle of `n`. */
  function Offset(d: Dir, n: nat, a: nat, j: nat): (k: nat)
    requires a < n && j < n
    ensures k < n
  {
    match d
    case Down => if a <= j then j - a else j + n - a
    case Up => if j <= a then a - j else a + n - j
  }

  /** The position `k` single steps in direction `d` from `a`. */
  function Toward(d: Dir, n: nat, a: nat, k: nat): (j: nat)
    requires a < n && k < n
    ensures j < n && Offset(d, n, a, j) == k
  {
    match d
    case Down => if a + k < n then a + k else a + k - n
    case Up => if k <= a then a - k else a + n - k
  }

  /** The neighbour of position `s` in direction `d`, wrapping around at the ends. */
  function Neighbour(d: Dir, n: nat, s: nat): (j: nat)
    requires s < n
    ensures j < n
  {
    match d
    case Down => if s + 1 < n then s + 1 else 0
    case Up => if s > 0 then s - 1 else n - 1
  }

  lemma ModSmall(x: int, n: int)
    requires 0 <= x < n
    ensures x % n == x
  {
  }

  lemma ModWrap(n: int)
    requires n > 0
    ensures n % n == 0 && (-1) % n == n - 1
  {
  }

  /** The first step of a move: `(selected_index ± 1) % len(items)` (a floor modulo, as in Python). */
  function Start(d: Dir, n: nat, s: nat): (a: nat)
    requires n > 0
    ensures a < n
    ensures s < n ==> a == Neighbour(d, n, s)
  {
    if s < n then
      match d
      case Down =>
        assert (s + 1) % n == Neighbour(d, n, s) by {
          if s + 1 < n { ModSmall(s + 1, n); } else { ModWrap(n); }
        }
        (s + 1) % n
      case Up =>
        assert (s - 1) % n == Neighbour(d, n, s) by {
          if s > 0 { ModSmall(s - 1, n); } else { ModWrap(n); }
        }
        (s - 1) % n
    else
      match d
      case Down => (s + 1) % n
      case Up => (s - 1) % n
  }

  /** There is room for one more step: an enabled item lies further on than every item already passed. */
  lemma ScanRoom(items: seq<Item>, d: Dir, a: nat, k: nat)
    requires a < |items| && k < |items| && SomeEnabled(items)
    requires forall j :: 0 <= j < |items| && Offset(d, |items|, a, j) < k ==> !items[j].enabled
    requires !items[Toward(d, |items|, a, k)].enabled
    ensures k + 1 < |items|
  {
    var j :| 0 <= j < |items| && items[j].enabled;
    assert Offset(d, |items|, a, j) > k;
  }

  /**
   * The `while not self.items[self.selected_index].enabled` loop, started
   * at `a` after `k` disabled items: the first enabled item reached by
   * stepping in direction `d`.
   */
  function Scan(items: seq<Item>, d: Dir, a: nat, k: nat): (r: nat)
    requires a < |items| && k < |items| && SomeEnabled(items)
    requires forall j :: 0 <= j < |items| && Offset(d, |items|, a, j) < k ==> !items[j].enabled
    ensures r < |items| && items[r].enabled && Offset(d, |items|, a, r) >= k
    ensures forall j :: 0 <= j < |items| && Offset(d, |items|, a, j) < Offset(d, |items|, a, r) ==> !items[j].enabled
    decreases |items| - k
  {
    var p := Toward(d, |items|, a, k);
    if items[p].enabled then p
    else
      ScanRoom(items, d, a, k);
      Scan(items, d, a, k + 1)
  }

  /**
   * `move_up` (`Up`) and `move_down` (`Down`): the selection lands on the
   * first enabled item met when stepping from the current one, cyclically.
   * The loop ends only when some item is enabled, which is therefore required.
   */
  function Move(m: Menu, d: Dir): (r: Menu)
    requires SomeEnabled(m.items)
    ensures r == m.(selected := r.selected)
    ensures r.selected < |m.items| && m.items[r.selected].enabled
    ensures var n := |m.items|; var a := Start(d, n, m.selected);
            forall j :: 0 <= j < n && m.items[j].enabled ==> Offset(d, n, a, j) >= Offset(d, n, a, r.selected)
    ensures m.selected < |m.items| && (forall j :: 0 <= j < |m.items| && m.items[j].enabled ==> j == m.selected) ==>
              r.selected == m.selected
  {
    m.(selected := Scan(m.items, d, Start(d, |m.items|, m.selected), 0))
  }

  /**
   * Stepping back from the neighbour of `r` reaches `s` after as many steps
   * as stepping from the neighbour of `s` reaches `r`, and whatever it
   * passes on the way lies between `s` and `r` the other way round.
   */
  lemma OffsetFlip(d: Dir, n: nat, s: nat, r: nat, j: nat)
    requires s < n && r < n && j < n
    ensures var a := Neighbour(d, n, s); var b := Neighbour(Opposite(d), n, r);
            && Offset(Opposite(d), n, b, s) == Offset(d, n, a, r)
            && (Offset(Opposite(d), n, b, j) < Offset(Opposite(d), n, b, s) ==> Offset(d, n, a, j) < Offset(d, n, a, r))
  {
  }

  /** Distinct positions lie at distinct offsets. */
  lemma SameOffset(d: Dir, n: nat, a: nat, x: nat, y: nat)
    requires a < n && x < n && y < n && Offset(d, n, a, x) == Offset(d, n, a, y)
    ensures x == y
  {
  }

  /** From an enabled item, a move in one direction and a move back return to it. */
  lemma MoveBack(m: Menu, d: Dir)
    requires SomeEnabled(m.items) && m.selected < |m.items| && m.items[m.selected].enabled
    ensures Move(Move(m, d), Opposite(d)) == m
  {
    var n := |m.items|;
    var s := m.selected;
    var a := Start(d, n, s);
    var r := Move(m, d).selected;
    var e := Opposite(d);
    var b := Start(e, n, r);
    var back := Move(Move(m, d), e).selected;
    assert Offset(e, n, b, s) >= Offset(e, n, b, back);
    assert Offset(e, n, b, back) >= Offset(e, n, b, s) by {
      OffsetFlip(d, n, s, r, back);
    }
    SameOffset(e, n, b, s, back);
  }

  // ---------------------------------------------------------------------
  // select / get_key_action

  /** `select`: the action invoked, if the selected item is enabled and has one. */
  function Select(m: Menu): (r: Option<nat>)
    requires m.selected < |m.items|
    ensures r.Some? <==> m.items[m.selected].enabled && m.items[m.selected].action.Some?
    ensures r.Some? ==> r == m.items[m.selected].action
  {
    var item := m.items[m.selected];
    if item.enabled && item.action.Some? then item.action else None
  }

  /** The item answers to the pressed key: enabled, and equal to it ignoring case. */
  predicate Answers(item: Item, key: string) {
    Lower(item.key) == Lower(key) && item.enabled
  }

  /** `get_key_action`: the position of the first item answering to the key. */
  function KeyAction(items: seq<Item>, key: string): (r: Option<nat>)
    ensures r.Some? ==> r.value < |items| && Answers(items[r.value], key)
    ensures r.Some? ==> forall i :: 0 <= i < r.value ==> !Answers(items[i], key)
    ensures r.None? ==> forall i :: 0 <= i < |items| ==> !Answers(items[i], key)
  {
    FirstIndex(items, (item: Item) => Answers(item, key), 0)
  }

  // ---------------------------------------------------------------------
  // run_menu

  /** Keys the loop handles itself before looking for a shortcut. */
  predicate Navigation(key: string) {
    key == "up" || key == "down" || key == "enter"
  }

  predicate Quitting(key: string) {
    key == "escape" || key == "q" || key == "ctrl+c"
  }

  /** A menu `run_menu` can be given: a valid selection, and an enabled item for the moves to land on. */
  predicate Ready(m: Menu) {
    m.selected < |m.items| && SomeEnabled(m.items)
  }

  /** What the key loop comes to: a returned key with the menu at that point, or still waiting for keys. */
  datatype Outcome = Chosen(key: string, menu: Menu) | Waiting(menu: Menu)

  /** The first item whose key is exactly `key`, which the shortcut branch selects. */
  function Exactly(items: seq<Item>, key: string): Option<nat> {
    FirstIndex(items, (item: Item) => item.key == key, 0)
  }

  /** The shortcut branch: the item found by `get_key_action` is selected through its stored key. */
  function Shortcut(m: Menu, i: nat): (r: Menu)
    requires i < |m.items|
    ensures r == m.(selected := r.selected)
    ensures r.selected <= i && m.items[r.selected].key == m.items[i].key
    ensures forall j :: 0 <= j < r.selected ==> m.items[j].key != m.items[i].key
  {
    var e := Exactly(m.items, m.items[i].key);
    assert e.Some? by {
      assert ((item: Item) => item.key == m.items[i].key)(m.items[i]);
    }
    m.(selected := e.value)
  }

  /** `run_menu` over the keys pressed, in order. */
  function RunMenu(m: Menu, keys: seq<string>): (o: Outcome)
    requires Ready(m)
    ensures o.menu.items == m.items && o.menu.title == m.title && o.menu.subtitle == m.subtitle
    ensures Ready(o.menu)
    ensures o.Chosen? ==> o.key == "0" || exists i :: 0 <= i < |m.items| && m.items[i].key == o.key
    decreases |keys|
  {
    if |keys| == 0 then Waiting(m)
    else
      var key := keys[0];
      if key == "up" then RunMenu(Move(m, Up), keys[1..])
      else if key == "down" then RunMenu(Move(m, Down), keys[1..])
      else if key == "enter" then Chosen(m.items[m.selected].key, m)
      else if Quitting(key) then Chosen("0", m)
      else
        match KeyAction(m.items, key)
        case None => RunMenu(m, keys[1..])
        case Some(i) => Chosen(m.items[i].key, Shortcut(m, i))
  }

  /** The quitting keys answer "0" whatever the items, so an item keyed "q" cannot be reached by its shortcut. */
  lemma QuitKeys(m: Menu, key: string, rest: seq<string>)
    requires Ready(m) && Quitting(key)
    ensures RunMenu(m, [key] + rest) == Chosen("0", m)
  {
    assert ([key] + rest)[0] == key;
  }

  /** Enter returns the selected item's key, enabled or not. */
  lemma EnterKey(m: Menu, rest: seq<string>)
    requires Ready(m)
    ensures RunMenu(m, ["enter"] + rest) == Chosen(m.items[m.selected].key, m)
  {
    assert (["enter"] + rest)[0] == "enter";
  }

  /**
   * Any other key answered by an enabled item returns the stored key of the
   * first such item, and selects the first item with exactly that key.
   */
  lemma ShortcutKey(m: Menu, key: string, rest: seq<string>, i: nat)
    requires Ready(m) && !Navigation(key) && !Quitting(key)
    requires i < |m.items| && Answers(m.items[i], key)
    requires forall j :: 0 <= j < i ==> !Answers(m.items[j], key)
    ensures var o := RunMenu(m, [key] + rest);
            && o.Chosen? && o.key == m.items[i].key
            && m.items[o.menu.selected].key == o.key
  {
    assert ([key] + rest)[0] == key;
    assert KeyAction(m.items, key) == Some(i);
  }

  /** A key no enabled item answers to, and that is not a navigation or quitting key, is ignored. */
  lemma IgnoredKey(m: Menu, key: string, rest: seq<string>)
    requires Ready(m) && !Navigation(key) && !Quitting(key)
    requires forall i :: 0 <= i < |m.items| ==> !Answers(m.items[i], key)
    ensures RunMenu(m, [key] + rest) == RunMenu(m, rest)
  {
    assert ([key] + rest)[0] == key && ([key] + rest)[1..] == rest;
  }

  /** Moving and coming back is invisible to the rest of the loop. */
  lemma {:induction false} DownUp(m: Menu, rest: seq<string>)
    requires Ready(m) && m.items[m.selected].enabled
    ensures RunMenu(m, ["down", "up"] + rest) == RunMenu(m, rest)
  {
    var keys := ["down", "up"] + rest;
    assert keys[0] == "down" && keys[1..][0] == "up" && keys[1..][1..] == rest;
    MoveBack(m, Down);
  }

  // ---------------------------------------------------------------------
  // show_submenu

  /** The items added for the `(key, label, description)` options, in order. */
  function AddOptions(m: Menu, options: seq<(string, string, string)>): (r: Menu)
    ensures r.title == m.title && r.subtitle == m.subtitle && r.selected == m.selected
    ensures |r.items| == |m.items| + |options|
    ensures r.items[..|m.items|] == m.items
    ensures forall i :: 0 <= i < |options| ==>
              r.items[|m.items| + i] == Item(options[i].0, options[i].1, IconBullet, None, options[i].2, true)
    decreases |options|
  {
    if |options| == 0 then m
    else
      var o := options[0];
      var r := AddOptions(AddItem(m, o.0, o.1, IconBullet, None, o.2, true), options[1..]);
      assert r.items[..|m.items|] == m.items by {
        assert r.items[..|m.items| + 1][..|m.items|] == r.items[..|m.items|];
      }
      r
  }

  /** The menu `show_submenu` runs: the options, then the "0"/Back item last. */
  function Submenu(title: string, options: seq<(string, string, string)>): (m: Menu)
    ensures |m.items| == |options| + 1 && m.selected == 0
    ensures m.items[|options|] == Item("0", "Back", IconExit, None, "Return to main menu", true)
    ensures forall i :: 0 <= i < |options| ==>
              m.items[i] == Item(options[i].0, options[i].1, IconBullet, None, options[i].2, true)
    ensures Ready(m)
  {
    var m := AddItem(AddOptions(Menu(title, [], "", 0), options), "0", "Back", IconExit, None, "Return to main menu", true);
    assert m.items[|options|].enabled;
    m
  }

  /** `show_submenu` over the keys pressed. */
  function ShowSubmenu(title: string, options: seq<(string, string, string)>, keys: seq<string>): Outcome {
    RunMenu(Submenu(title, options), keys)
  }

  /** Only "0" lowercases to "0". */
  lemma LowerZero(s: string)
    requires Lower(s) == Lower("0")
    ensures s == "0"
  {
    assert Lower("0")[0] == LowerChar('0') == '0';
    assert |s| == 1;
    assert LowerChar(s[0]) == Lower(s)[0] == '0';
  }

  /** Pressing "0" in a submenu always goes back, whatever the options. */
  lemma SubmenuBack(title: string, options: seq<(string, string, string)>, rest: seq<string>)
    ensures ShowSubmenu(title, options, ["0"] + rest).Chosen?
    ensures ShowSubmenu(title, options, ["0"] + rest).key == "0"
  {
    var m := Submenu(title, options);
    assert Answers(m.items[|options|], "0");
    var r := KeyAction(m.items, "0");
    assert r.Some?;
    LowerZero(m.items[r.value].key);
    assert (["0"] + rest)[0] == "0";
  }
}
