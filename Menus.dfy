// Menu items, separators and menus as objects (src/Menu.cpp).  A menu
// owns an ordered container of entries and keeps each entry's parent
// pointer; items draw their IDs from one process-wide counter.  The
// native menu handle and every Win32 call on it are not modelled.
//
// The searches are proved against the value view of the MenuTrees
// module: `Reflects(n, t)` says that the tree value `t` is what the heap
// holds under `n`, and each edit states how it changes that tree.

module Menus {
  import opened Wrappers
  import opened Containers
  import opened MenuTrees
  import Keys

  /**
   * `menuIdCounter`, which starts at VACA_FIRST_AUTOID; IDs handed out
   * automatically must stay below VACA_FIRST_MDICHILD.  The two bounds
   * come from a header that is not part of this model, so they are
   * fields here.
   */
  class IdCounter {
    const firstAuto: int
    const firstMdiChild: int
    var next: int
    /** The IDs handed out so far. */
    ghost var issued: set<int>

    ghost predicate Valid()
      reads this
    {
      firstAuto <= next < firstMdiChild && forall x :: x in issued ==> firstAuto <= x < next
    }

    constructor (firstAuto: int, firstMdiChild: int)
      requires firstAuto < firstMdiChild
      ensures Valid() && this.firstAuto == firstAuto && this.firstMdiChild == firstMdiChild
      ensures next == firstAuto && issued == {}
    {
      this.firstAuto, this.firstMdiChild := firstAuto, firstMdiChild;
      next, issued := firstAuto, {};
    }

    /**
     * The ID part of the MenuItem constructor: a negative request takes
     * the next automatic ID, which is new; an explicit ID is accepted only
     * while no automatic ID has been handed out; the counter must stay
     * below VACA_FIRST_MDICHILD.
     */
    method Assign(requested: int) returns (id: int)
      requires Valid()
      requires requested < 0 ==> next + 1 < firstMdiChild
      requires requested >= 0 ==> next == firstAuto
      modifies this
      ensures Valid()
      ensures requested >= 0 ==> id == requested && next == old(next) && issued == old(issued)
      ensures requested < 0 ==> id == old(next) && next == id + 1 && issued == old(issued) + {id}
      ensures requested < 0 ==> id !in old(issued) && firstAuto <= id < firstMdiChild
    {
      if requested < 0 {
        id := next;
        next := next + 1;
        issued := issued + {id};
      } else {
        id := requested;
      }
    }
  }

  /** Every entry object of a tree. */
  ghost function Refs(t: MenuTree<MenuItem>): (r: set<MenuItem>)
    ensures t.ref in r && RefsAll(t.children) <= r
    decreases t, 1
  {
    {t.ref} + RefsAll(t.children)
  }

  /** Every entry object of a run of trees. */
  ghost function RefsAll(ts: seq<MenuTree<MenuItem>>): (r: set<MenuItem>)
    ensures forall i :: 0 <= i < |ts| ==> Refs(ts[i]) <= r
    decreases ts, 0
  {
    if ts == [] then {}
    else
      assert forall i :: 1 <= i < |ts| ==> ts[i] == ts[1..][i - 1];
      Refs(ts[0]) + RefsAll(ts[1..])
  }

  /** An object of a run of trees is an object of one of them. */
  lemma {:induction false} RefsAllHas(ts: seq<MenuTree<MenuItem>>, m: MenuItem)
    requires m in RefsAll(ts)
    ensures exists i :: 0 <= i < |ts| && m in Refs(ts[i])
  {
    if m !in Refs(ts[0]) {
      RefsAllHas(ts[1..], m);
      var i :| 0 <= i < |ts[1..]| && m in Refs(ts[1..][i]);
      assert ts[1..][i] == ts[i + 1];
    }
  }

  /**
   * `t` is what the heap holds under `n`: the same ID, kind and
   * shortcuts, and one subtree per entry of `n`'s container, in order.
   * Only a finite, cycle-free structure has such a `t`, and then exactly
   * one (ReflectsUnique).
   */
  ghost predicate Reflects(n: MenuItem, t: MenuTree<MenuItem>)
    reads Refs(t)`container, Refs(t)`shortcuts
    decreases t, 1
  {
    t.ref == n && t.id == n.id && t.kind == n.kind && t.shortcuts == n.shortcuts &&
    AllReflect(n.container, t.children)
  }

  /** Each entry of `c` is reflected by the tree at the same position of `ts`. */
  ghost predicate AllReflect(c: seq<MenuItem>, ts: seq<MenuTree<MenuItem>>)
    reads RefsAll(ts)`container, RefsAll(ts)`shortcuts
    decreases ts, 0
  {
    |c| == |ts| && forall i :: 0 <= i < |ts| ==> Reflects(c[i], ts[i])
  }

  ghost function Size(t: MenuTree<MenuItem>): nat
    decreases t, 1
  {
    1 + SizeAll(t.children)
  }

  ghost function SizeAll(ts: seq<MenuTree<MenuItem>>): nat
    decreases ts, 0
  {
    if ts == [] then 0 else Size(ts[0]) + SizeAll(ts[1..])
  }

  lemma {:induction false} SizeAllBound(ts: seq<MenuTree<MenuItem>>, i: int)
    requires 0 <= i < |ts|
    ensures Size(ts[i]) <= SizeAll(ts)
  {
    if i > 0 {
      SizeAllBound(ts[1..], i - 1);
    }
  }

  /** The heap determines the tree: two trees that both reflect `n` are equal. */
  lemma {:induction false} ReflectsUnique(n: MenuItem, t1: MenuTree<MenuItem>, t2: MenuTree<MenuItem>)
    requires Reflects(n, t1) && Reflects(n, t2)
    ensures t1 == t2
    decreases t1
  {
    assert AllReflect(n.container, t1.children) && AllReflect(n.container, t2.children);
    forall i | 0 <= i < |t1.children|
      ensures t1.children[i] == t2.children[i]
    {
      ReflectsUnique(n.container[i], t1.children[i], t2.children[i]);
    }
    assert t1.children == t2.children;
  }

  /** Every entry object of a reflected tree heads a reflected subtree no larger than the tree. */
  lemma {:induction false} EntriesReflect(m: MenuItem, n: MenuItem, t: MenuTree<MenuItem>)
    requires Reflects(n, t) && m in Refs(t)
    ensures exists s :: Reflects(m, s) && Size(s) <= Size(t)
    decreases t
  {
    if m != n {
      assert AllReflect(n.container, t.children);
      RefsAllHas(t.children, m);
      var i :| 0 <= i < |t.children| && m in Refs(t.children[i]);
      EntriesReflect(m, n.container[i], t.children[i]);
      var s :| Reflects(m, s) && Size(s) <= Size(t.children[i]);
      SizeAllBound(t.children, i);
    }
  }

  /** A reflected menu is not an entry of any of its own subtrees: the structure has no cycle. */
  lemma NotOwnEntry(n: MenuItem, t: MenuTree<MenuItem>)
    requires Reflects(n, t)
    ensures n !in RefsAll(t.children)
  {
    assert AllReflect(n.container, t.children);
    if n in RefsAll(t.children) {
      RefsAllHas(t.children, n);
    }
    forall i | 0 <= i < |t.children|
      ensures n !in Refs(t.children[i])
    {
      if n in Refs(t.children[i]) {
        EntriesReflect(n, n.container[i], t.children[i]);
        var s :| Reflects(n, s) && Size(s) <= Size(t.children[i]);
        SizeAllBound(t.children, i);
        ReflectsUnique(n, s, t);
        assert false;
      }
    }
  }

  /** The objects of a reflected tree are reachable from allocated fields, so they are allocated. */
  lemma {:induction false} ReflectsAlloc(n: MenuItem, t: MenuTree<MenuItem>)
    requires Reflects(n, t)
    ensures forall o :: o in Refs(t) ==> allocated(o)
    decreases t, 1
  {
    AllReflectAlloc(n.container, t.children);
  }

  lemma {:induction false} AllReflectAlloc(c: seq<MenuItem>, ts: seq<MenuTree<MenuItem>>)
    requires AllReflect(c, ts)
    ensures forall o :: o in RefsAll(ts) ==> allocated(o)
    decreases ts, 0
  {
    if ts != [] {
      ReflectsAlloc(c[0], ts[0]);
      assert AllReflect(c[1..], ts[1..]) by {
        assert forall i :: 0 <= i < |ts| - 1 ==> c[1..][i] == c[i + 1] && ts[1..][i] == ts[i + 1];
      }
      AllReflectAlloc(c[1..], ts[1..]);
    }
  }

  /** Inserting an entry and its tree at the same position keeps a reflected run in step. */
  lemma AllReflectInsert(c: seq<MenuItem>, ts: seq<MenuTree<MenuItem>>, index: nat, x: MenuItem, tx: MenuTree<MenuItem>)
    requires AllReflect(c, ts) && Reflects(x, tx) && index <= |c|
    ensures AllReflect(InsertAt(c, index, x), InsertAt(ts, index, tx))
  {
  }

  /** A run reflects its trees exactly when both of its parts do. */
  lemma AllReflectConcat(c1: seq<MenuItem>, ts1: seq<MenuTree<MenuItem>>, c2: seq<MenuItem>, ts2: seq<MenuTree<MenuItem>>)
    requires |c1| == |ts1|
    ensures AllReflect(c1 + c2, ts1 + ts2) <==> AllReflect(c1, ts1) && AllReflect(c2, ts2)
  {
    if AllReflect(c1 + c2, ts1 + ts2) {
      assert forall i :: 0 <= i < |c1| ==> (c1 + c2)[i] == c1[i] && (ts1 + ts2)[i] == ts1[i];
      assert forall i :: 0 <= i < |c2| ==> (c1 + c2)[|c1| + i] == c2[i] && (ts1 + ts2)[|c1| + i] == ts2[i];
    }
  }

  /** Taking every occurrence of `x` out of a reflected run and its trees keeps them in step. */
  lemma {:induction false} AllReflectWithout(c: seq<MenuItem>, ts: seq<MenuTree<MenuItem>>, x: MenuItem)
    requires AllReflect(c, ts)
    ensures AllReflect(Without(c, x), WithoutEntry(ts, x))
  {
    if c != [] {
      assert AllReflect(c[1..], ts[1..]) by {
        assert forall i :: 0 <= i < |c| - 1 ==> c[1..][i] == c[i + 1] && ts[1..][i] == ts[i + 1];
      }
      AllReflectWithout(c[1..], ts[1..], x);
      var w := Without(c[1..], x);
      var wt := WithoutEntry(ts[1..], x);
      if c[0] != x {
        assert Without(c, x) == [c[0]] + w && WithoutEntry(ts, x) == [ts[0]] + wt;
        assert forall k :: 1 <= k < |w| + 1 ==> ([c[0]] + w)[k] == w[k - 1] && ([ts[0]] + wt)[k] == wt[k - 1];
      } else {
        assert Without(c, x) == w && WithoutEntry(ts, x) == wt;
      }
    }
  }

  /** What `CheckMenuRadioItem` is asked to do: check `checked` among the positions `first..last`. */
  datatype RadioCheck = RadioCheck(first: int, last: int, checked: int)

  /**
   * A `MenuItem`, a `MenuSeparator` or a `Menu`: the kind says which of
   * the classes' virtual answers (`isSeparator`, `isMenu`, the shortcut
   * search) the entry gives.  Only a menu has entries in `container`.
   */
  class MenuItem {
    const id: int
    const kind: ItemKind
    var text: string
    var shortcuts: seq<Keys.Key>
    var parent: MenuItem?
    var container: seq<MenuItem>

    /** Only a menu has entries, and every entry of a menu points back to it. */
    ghost predicate Valid()
      reads this, container
    {
      (kind != SubMenu ==> container == []) &&
      forall x :: x in container ==> x.parent == this
    }

    /** `MenuItem(text, defaultShortcut, id)`: a plain item, with an automatic ID when `requested` is negative. */
    constructor (text: string, defaultShortcut: Keys.Key, requested: int, counter: IdCounter)
      requires counter.Valid()
      requires requested < 0 ==> counter.next + 1 < counter.firstMdiChild
      requires requested >= 0 ==> counter.next == counter.firstAuto
      modifies counter
      ensures Valid() && kind == Plain && parent == null && container == [] && this.text == text
      ensures shortcuts == if defaultShortcut != Keys.None then [defaultShortcut] else []
      ensures Reflects(this, Node(this, id, Plain, shortcuts, []))
      ensures counter.Valid()
      ensures requested >= 0 ==> id == requested && counter.next == old(counter.next)
      ensures requested < 0 ==> id == old(counter.next) && counter.next == id + 1 && id !in old(counter.issued)
    {
      var newId := counter.Assign(requested);
      id, kind := newId, Plain;
      this.text, shortcuts, parent, container := text, [], null, [];
      new;
      if defaultShortcut != Keys.None {
        AddShortcut(defaultShortcut);
      }
    }

    /** `Menu(text)`: a pop-up menu, which takes an automatic ID. */
    constructor Popup(text: string, counter: IdCounter)
      requires counter.Valid() && counter.next + 1 < counter.firstMdiChild
      modifies counter
      ensures Valid() && kind == SubMenu && parent == null && container == [] && shortcuts == []
      ensures this.text == text && counter.Valid() && Reflects(this, Node(this, id, SubMenu, [], []))
      ensures id == old(counter.next) && counter.next == id + 1 && id !in old(counter.issued)
    {
      var newId := counter.Assign(-1);
      id, kind := newId, SubMenu;
      this.text, shortcuts, parent, container := text, [], null, [];
    }

    /** `Menu()` (and `MenuBar()`): a menu with ID 0 that takes nothing from the counter. */
    constructor Bar()
      ensures Valid() && kind == SubMenu && id == 0 && parent == null && container == [] && shortcuts == []
      ensures Reflects(this, Node(this, 0, SubMenu, [], []))
    {
      id, kind := 0, SubMenu;
      text, shortcuts, parent, container := "", [], null, [];
    }

    /** `MenuSeparator()`: ID 0, no text, no shortcuts. */
    constructor Separator()
      ensures Valid() && kind == MenuTrees.Separator && id == 0 && parent == null && container == [] && shortcuts == []
      ensures Reflects(this, Node(this, 0, MenuTrees.Separator, [], []))
    {
      id, kind := 0, MenuTrees.Separator;
      text, shortcuts, parent, container := "", [], null, [];
    }

    /**
     * `MenuItem::addShortcut`: `Keys::None` is refused; anything else is
     * appended, and the entry's tree gains it.
     */
    method AddShortcut(shortcut: Keys.Key)
      requires shortcut != Keys.None
      modifies this`shortcuts
      ensures shortcuts == old(shortcuts) + [shortcut]
      ensures forall t: MenuTree<MenuItem> :: old(allocated(t)) && old(Reflects(this, t)) ==> Reflects(this, t.(shortcuts := shortcuts))
    {
      forall t: MenuTree<MenuItem> | Reflects(this, t)
        ensures this !in RefsAll(t.children)
      {
        NotOwnEntry(this, t);
      }
      shortcuts := shortcuts + [shortcut];
      forall t: MenuTree<MenuItem> | old(allocated(t)) && old(Reflects(this, t))
        ensures Reflects(this, t.(shortcuts := shortcuts))
      {
        assert old(AllReflect(container, t.children));
        assert AllReflect(container, t.children);
      }
    }

    /** `Menu::getMenuItemIndex`: the position of `item`, or -1. */
    method GetMenuItemIndex(item: MenuItem?) returns (r: int)
      ensures r == IndexOf(container, item)
    {
      var c := 0;
      while c < |container|
        invariant 0 <= c <= |container| && item !in container[..c]
      {
        if container[c] == item {
          return c;
        }
        assert container[..c + 1] == container[..c] + [container[c]];
        c := c + 1;
      }
      assert container[..c] == container;
      return -1;
    }

    /** `Menu::getItemCount`. */
    function ItemCount(): nat
      reads this
    {
      |container|
    }

    /** `Menu::getMenuItemByIndex`: no range check, so the index must be in range. */
    function GetMenuItemByIndex(index: int): MenuItem
      requires 0 <= index < |container|
      reads this
    {
      container[index]
    }

    /**
     * `Menu::insert(index, item)`: the item goes before position `index`
     * and the menu becomes its parent.  Nothing is asked of the item; when
     * it does not already contain this menu, the menu's tree gains the
     * item's tree at `index`.
     */
    method Insert(index: int, item: MenuItem) returns (r: MenuItem)
      requires Valid() && kind == SubMenu && 0 <= index <= |container|
      modifies this`container, item`parent
      ensures r == item && item.parent == this && Valid()
      ensures container == InsertAt(old(container), index, item)
      ensures forall t: MenuTree<MenuItem>, ti: MenuTree<MenuItem> :: old(allocated(t)) && old(allocated(ti)) && old(Reflects(this, t)) && old(Reflects(item, ti)) && this !in Refs(ti) && index <= |t.children| ==>
                Reflects(this, t.(children := InsertAt(t.children, index, ti)))
    {
      forall t: MenuTree<MenuItem> | Reflects(this, t)
        ensures this !in RefsAll(t.children)
      {
        NotOwnEntry(this, t);
      }
      container := InsertAt(container, index, item);
      item.parent := this;
      forall t: MenuTree<MenuItem>, ti: MenuTree<MenuItem> | old(allocated(t)) && old(allocated(ti)) && old(Reflects(this, t)) && old(Reflects(item, ti)) && this !in Refs(ti) && index <= |t.children|
        ensures Reflects(this, t.(children := InsertAt(t.children, index, ti)))
      {
        assert old(AllReflect(container, t.children));
        assert AllReflect(old(container), t.children) && Reflects(item, ti);
        AllReflectInsert(old(container), t.children, index, item, ti);
      }
      return item;
    }

    /** `Menu::add(item)`: insertion at the end. */
    method Add(item: MenuItem) returns (r: MenuItem)
      requires Valid() && kind == SubMenu
      modifies this`container, item`parent
      ensures r == item && item.parent == this && Valid()
      ensures container == old(container) + [item]
      ensures forall t: MenuTree<MenuItem>, ti: MenuTree<MenuItem> :: old(allocated(t)) && old(allocated(ti)) && old(Reflects(this, t)) && old(Reflects(item, ti)) && this !in Refs(ti) ==>
                Reflects(this, t.(children := t.children + [ti]))
    {
      ghost var n := |container|;
      forall t: MenuTree<MenuItem> | Reflects(this, t)
        ensures |t.children| == n
      {
        assert AllReflect(container, t.children);
      }
      r := Insert(|container|, item);
      assert old(container)[n..] == [];
      assert forall ts: seq<MenuTree<MenuItem>>, ti :: |ts| == n ==> InsertAt(ts, n, ti) == ts + [ti];
    }

    /** `Menu::add(text, defaultShortcut)`: a new plain item with an automatic ID, at the end. */
    method AddText(text: string, defaultShortcut: Keys.Key, counter: IdCounter) returns (r: MenuItem)
      requires Valid() && kind == SubMenu
      requires counter.Valid() && counter.next + 1 < counter.firstMdiChild
      modifies this`container, counter
      ensures fresh(r) && r.parent == this && r.kind == Plain && r.text == text && Valid()
      ensures r.shortcuts == if defaultShortcut != Keys.None then [defaultShortcut] else []
      ensures container == old(container) + [r]
      ensures counter.Valid() && r.id == old(counter.next) && counter.next == r.id + 1
      ensures forall t: MenuTree<MenuItem> :: old(allocated(t)) && old(Reflects(this, t)) ==>
                Reflects(this, t.(children := t.children + [Node(r, r.id, Plain, r.shortcuts, [])]))
    {
      forall t: MenuTree<MenuItem> | Reflects(this, t)
        ensures |t.children| == |container| && forall o :: o in Refs(t) ==> allocated(o)
      {
        ReflectsAlloc(this, t);
        assert AllReflect(container, t.children);
      }
      var item := new MenuItem(text, defaultShortcut, -1, counter);
      r := Add(item);
    }

    /** `Menu::addSeparator`. */
    method AddSeparator() returns (ghost r: MenuItem)
      requires Valid() && kind == SubMenu
      modifies this`container
      ensures fresh(r) && r.kind == MenuTrees.Separator && r.parent == this && Valid()
      ensures container == old(container) + [r]
      ensures forall t: MenuTree<MenuItem> :: old(allocated(t)) && old(Reflects(this, t)) ==>
                Reflects(this, t.(children := t.children + [Node(r, 0, MenuTrees.Separator, [], [])]))
    {
      forall t: MenuTree<MenuItem> | Reflects(this, t)
        ensures |t.children| == |container| && forall o :: o in Refs(t) ==> allocated(o)
      {
        ReflectsAlloc(this, t);
        assert AllReflect(container, t.children);
      }
      var item := new MenuItem.Separator();
      var _ := Add(item);
      r := item;
    }

    /** `Menu::insert(index, text)`: a new plain item with an automatic ID and no shortcut, at `index`. */
    method InsertText(index: int, text: string, counter: IdCounter) returns (r: MenuItem)
      requires Valid() && kind == SubMenu && 0 <= index <= |container|
      requires counter.Valid() && counter.next + 1 < counter.firstMdiChild
      modifies this`container, counter
      ensures fresh(r) && r.parent == this && r.kind == Plain && r.text == text && r.shortcuts == [] && Valid()
      ensures container == InsertAt(old(container), index, r)
      ensures counter.Valid() && r.id == old(counter.next) && counter.next == r.id + 1
      ensures forall t: MenuTree<MenuItem> :: old(allocated(t)) && old(Reflects(this, t)) && index <= |t.children| ==>
                Reflects(this, t.(children := InsertAt(t.children, index, Node(r, r.id, Plain, [], []))))
    {
      forall t: MenuTree<MenuItem> | Reflects(this, t)
        ensures |t.children| == |container| && forall o :: o in Refs(t) ==> allocated(o)
      {
        ReflectsAlloc(this, t);
        assert AllReflect(container, t.children);
      }
      var item := new MenuItem(text, Keys.None, -1, counter);
      ghost var ti := Node(item, item.id, Plain, [], []);
      assert Reflects(item, ti) && this !in Refs(ti);
      label Made:
      r := Insert(index, item);
      forall t: MenuTree<MenuItem> | old(allocated(t)) && old(Reflects(this, t)) && index <= |t.children|
        ensures Reflects(this, t.(children := InsertAt(t.children, index, ti)))
      {
        assert old@Made(allocated(t) && allocated(ti) && Reflects(this, t) && Reflects(item, ti));
      }
    }

    /** `Menu::insertSeparator(index)`. */
    method InsertSeparator(index: int) returns (ghost r: MenuItem)
      requires Valid() && kind == SubMenu && 0 <= index <= |container|
      modifies this`container
      ensures fresh(r) && r.kind == MenuTrees.Separator && r.parent == this && Valid()
      ensures container == InsertAt(old(container), index, r)
      ensures forall t: MenuTree<MenuItem> :: old(allocated(t)) && old(Reflects(this, t)) && index <= |t.children| ==>
                Reflects(this, t.(children := InsertAt(t.children, index, Node(r, 0, MenuTrees.Separator, [], []))))
    {
      forall t: MenuTree<MenuItem> | Reflects(this, t)
        ensures |t.children| == |container| && forall o :: o in Refs(t) ==> allocated(o)
      {
        ReflectsAlloc(this, t);
        assert AllReflect(container, t.children);
      }
      var item := new MenuItem.Separator();
      ghost var ti := Node(item, 0, MenuTrees.Separator, [], []);
      assert Reflects(item, ti) && this !in Refs(ti);
      label Made:
      var _ := Insert(index, item);
      forall t: MenuTree<MenuItem> | old(allocated(t)) && old(Reflects(this, t)) && index <= |t.children|
        ensures Reflects(this, t.(children := InsertAt(t.children, index, ti)))
      {
        assert old@Made(allocated(t) && allocated(ti) && Reflects(this, t) && Reflects(item, ti));
      }
      r := item;
    }

    /**
     * `Menu::remove(item)`: clears the item's parent and takes every
     * occurrence of it out of the container; the same item is returned.
     * The menu's tree loses the item's subtree.
     */
    method Remove(item: MenuItem) returns (r: MenuItem)
      requires Valid() && kind == SubMenu
      modifies this`container, item`parent
      ensures r == item && item.parent == null && Valid()
      ensures container == Without(old(container), item)
      ensures forall t: MenuTree<MenuItem> :: old(allocated(t)) && old(Reflects(this, t)) ==> Reflects(this, t.(children := WithoutEntry(t.children, item)))
    {
      forall t: MenuTree<MenuItem> | Reflects(this, t)
        ensures this !in RefsAll(t.children)
      {
        NotOwnEntry(this, t);
      }
      var rest := Without(container, item);
      container := rest;
      WithoutMembers(old(container), item);
      item.parent := null;
      forall t: MenuTree<MenuItem> | old(allocated(t)) && old(Reflects(this, t))
        ensures Reflects(this, t.(children := WithoutEntry(t.children, item)))
      {
        assert old(AllReflect(container, t.children));
        assert AllReflect(old(container), t.children);
        AllReflectWithout(old(container), t.children, item);
      }
      return item;
    }

    /**
     * `Menu::remove(index)`: takes out and returns the entry at `index`;
     * when the container holds no entry twice, exactly that position goes.
     */
    method RemoveAt(index: int) returns (r: MenuItem)
      requires Valid() && kind == SubMenu && 0 <= index < |container|
      modifies this`container, {container[index]}`parent
      ensures r == old(container[index]) && r.parent == null && Valid()
      ensures container == Without(old(container), r)
      ensures NoDups(old(container)) ==> container == old(container[..index] + container[index + 1..])
      ensures forall t: MenuTree<MenuItem> :: old(allocated(t)) && old(Reflects(this, t)) ==> Reflects(this, t.(children := WithoutEntry(t.children, r)))
    {
      var item := GetMenuItemByIndex(index);
      if NoDups(container) {
        WithoutAt(container, index);
      }
      r := Remove(item);
    }

    /**
     * `Menu::getMenuItemById`: a depth-first search with an explicit
     * stack; an entry's own ID is compared before its entries are pushed.
     * The search ends only on a finite, cycle-free menu, which is what
     * the ghost tree `t` stands for.
     */
    method GetMenuItemById(id: int, ghost t: MenuTree<MenuItem>) returns (r: MenuItem?)
      requires Reflects(this, t)
      ensures r == null <==> FindById(t, id) == None
      ensures r != null ==> FindById(t, id) == Some(r)
    {
      if id == 0 {
        return null;
      }
      var stack := [this];
      ghost var trees := [t];
      assert VisitAll(trees) == Visit(t) by {
        assert trees[..0] == [];
      }
      assert AllReflect(stack, trees);
      while stack != []
        invariant AllReflect(stack, trees)
        invariant First(Visit(t), WithId(id)) == First(VisitAll(trees), WithId(id))
        decreases |VisitAll(trees)|
      {
        var top := stack[|stack| - 1];
        ghost var tt := trees[|trees| - 1];
        var rest := stack[..|stack| - 1];
        ghost var restTrees := trees[..|trees| - 1];
        assert tt.ref == top && tt.id == top.id && tt.kind == top.kind && AllReflect(top.container, tt.children) &&
               AllReflect(rest, restTrees) by {
          assert stack == rest + [top] && trees == restTrees + [tt];
          AllReflectConcat(rest, restTrees, [top], [tt]);
          assert Reflects(top, tt);
        }
        assert First(VisitAll(trees), WithId(id)) ==
                 (if top.id == id then Some(top) else First(VisitAll(restTrees + Pushed(tt)), WithId(id))) &&
               |VisitAll(restTrees + Pushed(tt))| < |VisitAll(trees)| by {
          assert trees == restTrees + [tt];
          PopStep(restTrees, tt, WithId(id));
        }
        if top.id == id {
          return top;
        }
        stack := rest;
        trees := restTrees;
        if top.kind == SubMenu {
          var subMenus := top.container;
          for j := 0 to |subMenus|
            invariant stack == rest + subMenus[..j]
          {
            stack := stack + [subMenus[j]];
          }
          assert subMenus[..|subMenus|] == subMenus;
          trees := restTrees + tt.children;
          assert AllReflect(stack, trees) by {
            AllReflectConcat(rest, restTrees, subMenus, tt.children);
          }
        } else {
          assert restTrees + Pushed(tt) == restTrees;
        }
      }
      return null;
    }

    /**
     * `checkShortcuts`: a menu asks its entries in order (the call is
     * virtual, so an entry that is a menu searches its own entries); any
     * other entry answers itself when one of its shortcuts is the key.
     */
    method CheckShortcuts(pressedKey: Keys.Key, ghost t: MenuTree<MenuItem>) returns (r: MenuItem?)
      requires Reflects(this, t)
      ensures r == null <==> ShortcutOwner(t, pressedKey) == None
      ensures r != null ==> ShortcutOwner(t, pressedKey) == Some(r)
      decreases t
    {
      if kind != SubMenu {
        for i := 0 to |shortcuts|
          invariant pressedKey !in shortcuts[..i]
        {
          if shortcuts[i] == pressedKey {
            return this;
          }
          assert shortcuts[..i + 1] == shortcuts[..i] + [shortcuts[i]];
        }
        assert shortcuts[..|shortcuts|] == shortcuts;
        return null;
      }
      ReflectsAlloc(this, t);
      assert RefsAll(t.children) <= Refs(t);
      assert AllReflect(container, t.children);
      for i := 0 to |container|
        invariant forall o :: o in RefsAll(t.children) ==> allocated(o)
        invariant AllReflect(container, t.children)
        invariant FirstOwner(t.children, pressedKey) == FirstOwner(t.children[i..], pressedKey)
      {
        var found := container[i].CheckShortcuts(pressedKey, t.children[i]);
        assert t.children[i..][0] == t.children[i] && t.children[i..][1..] == t.children[i + 1..];
        if found != null {
          return found;
        }
      }
      return null;
    }

    /**
     * `setRadio`: with `true`, the radio group around this item runs
     * from just after the nearest separator above it to just before the
     * nearest separator below it, or to the ends of the menu; the native
     * call that checks it is returned.  With `false` the item is only
     * unchecked, a native call that is not modelled.
     */
    method SetRadio(state: bool) returns (r: Option<RadioCheck>)
      requires state ==> parent != null && this in parent.container
      ensures !state ==> r == None
      ensures state ==> r.Some? && RadioGroup(parent.container, this, r.value)
    {
      if !state {
        return None;
      }
      var index := parent.GetMenuItemIndex(this);
      var count := parent.ItemCount();
      var first := index - 1;
      while first >= 0 && parent.GetMenuItemByIndex(first).kind != MenuTrees.Separator
        invariant -1 <= first < index
        invariant forall k :: first < k < index ==> parent.container[k].kind != MenuTrees.Separator
      {
        first := first - 1;
      }
      first := first + 1;
      var last := index + 1;
      while last < count && parent.GetMenuItemByIndex(last).kind != MenuTrees.Separator
        invariant index < last <= count
        invariant forall k :: index < k < last ==> parent.container[k].kind != MenuTrees.Separator
      {
        last := last + 1;
      }
      last := last - 1;
      return Some(RadioCheck(first, last, index));
    }
  }

  /**
   * `g` checks `item` at its first position in `items` and spans the
   * largest run of positions around it holding no separator, the item's
   * own position aside.
   */
  ghost predicate RadioGroup(items: seq<MenuItem>, item: MenuItem, g: RadioCheck)
    reads set x | x in items
  {
    0 <= g.first <= g.checked <= g.last < |items| &&
    g.checked == IndexOf(items, item) &&
    (forall k :: g.first <= k <= g.last && k != g.checked ==> items[k].kind != MenuTrees.Separator) &&
    (g.first == 0 || items[g.first - 1].kind == MenuTrees.Separator) &&
    (g.last == |items| - 1 || items[g.last + 1].kind == MenuTrees.Separator)
  }

  /** An item's radio group is determined by the menu: there is only one. */
  lemma RadioGroupUnique(items: seq<MenuItem>, item: MenuItem, g: RadioCheck, h: RadioCheck)
    requires RadioGroup(items, item, g) && RadioGroup(items, item, h)
    ensures g == h
  {
  }
}
