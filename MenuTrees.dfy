// The value view of a menu: every entry with its ID, kind, shortcuts
// and, for a (sub)menu, its entries in container order.  The two
// searches of src/Menu.cpp are specified here, on values: the
// stack-driven search by ID and the shortcut search.  Each comes with
// an independent description of what it finds.

module MenuTrees {
  import opened Wrappers
  import Keys

  /** What an entry is: a plain `MenuItem`, a `MenuSeparator` or a `Menu`. */
  datatype ItemKind = Plain | Separator | SubMenu

  /** An entry and, when it is a menu, its entries; `ref` is the entry itself. */
  datatype MenuTree<R> = Node(ref: R, id: int, kind: ItemKind, shortcuts: seq<Keys.Key>, children: seq<MenuTree<R>>)

  /**
   * The order in which getMenuItemById looks at the entries: an entry,
   * then, if it is a menu, what its pushed entries yield.  The entries
   * are pushed first to last and popped last to first.
   */
  function Visit<R>(t: MenuTree<R>): seq<MenuTree<R>> {
    [t] + if t.kind == SubMenu then VisitAll(t.children) else []
  }

  /** What a stack holding `ts` (its top at the end) yields, top first. */
  function VisitAll<R>(ts: seq<MenuTree<R>>): seq<MenuTree<R>> {
    if ts == [] then [] else Visit(ts[|ts| - 1]) + VisitAll(ts[..|ts| - 1])
  }

  /** `n` is `t` itself or an entry of one of its menus, at any depth. */
  predicate Within<R(==)>(n: MenuTree<R>, t: MenuTree<R>) {
    n == t || (t.kind == SubMenu && exists i :: 0 <= i < |t.children| && Within(n, t.children[i]))
  }

  /** The two things an entry is searched for. */
  datatype Criterion = WithId(id: int) | WithShortcut(key: Keys.Key)

  predicate Matches<R>(n: MenuTree<R>, c: Criterion) {
    match c
    case WithId(id) => n.id == id
    case WithShortcut(key) => key in n.shortcuts
  }

  /** The entry of the first element of `ns` that matches `c`. */
  function First<R>(ns: seq<MenuTree<R>>, c: Criterion): Option<R> {
    if ns == [] then None
    else if Matches(ns[0], c) then Some(ns[0].ref)
    else First(ns[1..], c)
  }

  /** Menu::getMenuItemById as a value: ID 0 finds nothing, otherwise the first entry the stack meets. */
  function FindById<R>(t: MenuTree<R>, id: int): Option<R> {
    if id == 0 then None else First(Visit(t), WithId(id))
  }

  /**
   * Menu::checkShortcuts and MenuItem::checkShortcuts: a menu asks its
   * entries in container order and returns the first answer; any other
   * entry answers itself when the key is among its shortcuts.  A menu's
   * own shortcuts are not looked at.
   */
  function ShortcutOwner<R>(t: MenuTree<R>, key: Keys.Key): Option<R> {
    if t.kind == SubMenu then FirstOwner(t.children, key)
    else if key in t.shortcuts then Some(t.ref)
    else None
  }

  function FirstOwner<R>(ts: seq<MenuTree<R>>, key: Keys.Key): Option<R> {
    if ts == [] then None
    else if ShortcutOwner(ts[0], key).Some? then ShortcutOwner(ts[0], key)
    else FirstOwner(ts[1..], key)
  }

  /** A menu's entries after every entry standing for `x` has been taken out. */
  function WithoutEntry<R(==)>(ts: seq<MenuTree<R>>, x: R): seq<MenuTree<R>> {
    if ts == [] then []
    else (if ts[0].ref == x then [] else [ts[0]]) + WithoutEntry(ts[1..], x)
  }

  /** The entries that are not menus, in container order, depth first. */
  function Leaves<R>(t: MenuTree<R>): seq<MenuTree<R>> {
    if t.kind == SubMenu then LeavesAll(t.children) else [t]
  }

  function LeavesAll<R>(ts: seq<MenuTree<R>>): seq<MenuTree<R>> {
    if ts == [] then [] else Leaves(ts[0]) + LeavesAll(ts[1..])
  }

  /** `First` finds the first match, and finds nothing exactly when nothing matches. */
  lemma {:induction false} FirstIsFirst<R>(ns: seq<MenuTree<R>>, c: Criterion)
    ensures First(ns, c).None? <==> forall k :: 0 <= k < |ns| ==> !Matches(ns[k], c)
    ensures First(ns, c).Some? ==>
              exists k :: 0 <= k < |ns| && Matches(ns[k], c) && ns[k].ref == First(ns, c).value &&
                forall j :: 0 <= j < k ==> !Matches(ns[j], c)
  {
    if ns != [] && !Matches(ns[0], c) {
      FirstIsFirst(ns[1..], c);
      if First(ns, c).Some? {
        var k :| 0 <= k < |ns[1..]| && Matches(ns[1..][k], c) && ns[1..][k].ref == First(ns, c).value &&
                 forall j :: 0 <= j < k ==> !Matches(ns[1..][j], c);
        assert ns[k + 1] == ns[1..][k];
        forall j | 0 <= j < k + 1 ensures !Matches(ns[j], c) {
          if j > 0 {
            assert ns[j] == ns[1..][j - 1];
          }
        }
      } else {
        forall k | 0 <= k < |ns| ensures !Matches(ns[k], c) {
          if k > 0 {
            assert ns[k] == ns[1..][k - 1];
          }
        }
      }
    }
  }

  /** What the stack search pushes after looking at `t`: a menu's entries, first to last. */
  function Pushed<R>(t: MenuTree<R>): seq<MenuTree<R>> {
    if t.kind == SubMenu then t.children else []
  }

  /**
   * One step of the stack search: popping `t` either finds it or leaves
   * the stack with its entries pushed, which yields the same entries
   * after `t` and fewer entries in all.
   */
  lemma PopStep<R>(rest: seq<MenuTree<R>>, t: MenuTree<R>, c: Criterion)
    ensures First(VisitAll(rest + [t]), c) == if Matches(t, c) then Some(t.ref) else First(VisitAll(rest + Pushed(t)), c)
    ensures |VisitAll(rest + Pushed(t))| < |VisitAll(rest + [t])|
  {
    var p := Pushed(t);
    assert (rest + [t])[..|rest|] == rest;
    assert VisitAll(rest + [t]) == Visit(t) + VisitAll(rest);
    assert Visit(t) == [t] + VisitAll(p);
    VisitAllConcat(rest, p);
    FirstConcat([t], VisitAll(p) + VisitAll(rest), c);
    assert [t] + VisitAll(p) + VisitAll(rest) == [t] + (VisitAll(p) + VisitAll(rest));
  }

  /** Searching two runs one after the other: the second is searched only when the first has no match. */
  lemma {:induction false} FirstConcat<R>(x: seq<MenuTree<R>>, y: seq<MenuTree<R>>, c: Criterion)
    ensures First(x + y, c) == if First(x, c).Some? then First(x, c) else First(y, c)
  {
    if x == [] {
      assert x + y == y;
    } else {
      FirstConcat(x[1..], y, c);
      assert (x + y)[0] == x[0] && (x + y)[1..] == x[1..] + y;
    }
  }

  /** A stack split in two yields its upper part first. */
  lemma {:induction false} VisitAllConcat<R>(a: seq<MenuTree<R>>, b: seq<MenuTree<R>>)
    ensures VisitAll(a + b) == VisitAll(b) + VisitAll(a)
  {
    if b == [] {
      assert a + b == a;
    } else {
      var n := |b| - 1;
      VisitAllConcat(a, b[..n]);
      assert (a + b)[..|a + b| - 1] == a + b[..n];
      assert (a + b)[|a + b| - 1] == b[n];
    }
  }

  /** The stack search meets every entry of the tree and nothing else. */
  lemma {:induction false} VisitIsWithin<R>(t: MenuTree<R>, n: MenuTree<R>)
    ensures n in Visit(t) <==> Within(n, t)
    decreases t, 1
  {
    if t.kind == SubMenu {
      VisitAllIsWithin(t.children, n);
    }
  }

  lemma {:induction false} VisitAllIsWithin<R>(ts: seq<MenuTree<R>>, n: MenuTree<R>)
    ensures n in VisitAll(ts) <==> exists i :: 0 <= i < |ts| && Within(n, ts[i])
    decreases ts, 0
  {
    if ts != [] {
      var k := |ts| - 1;
      var front := ts[..k];
      VisitIsWithin(ts[k], n);
      VisitAllIsWithin(front, n);
      assert VisitAll(ts) == Visit(ts[k]) + VisitAll(front);
      if n in VisitAll(ts) {
        assert exists i :: 0 <= i < |ts| && Within(n, ts[i]) by {
          if n in Visit(ts[k]) {
            assert Within(n, ts[k]);
          } else {
            var i :| 0 <= i < k && Within(n, front[i]);
            assert front[i] == ts[i];
          }
        }
      } else {
        forall i | 0 <= i < |ts| ensures !Within(n, ts[i]) {
          if i < k {
            assert front[i] == ts[i];
          }
        }
      }
    }
  }

  /**
   * getMenuItemById finds nothing for ID 0; otherwise it finds an entry
   * with that ID somewhere in the tree, and it finds nothing only when no
   * entry of the tree has that ID.
   */
  lemma FindByIdFinds<R>(t: MenuTree<R>, id: int)
    ensures FindById(t, id).Some? ==> id != 0 && exists n :: Within(n, t) && n.id == id && n.ref == FindById(t, id).value
    ensures FindById(t, id).None? <==> id == 0 || forall n :: Within(n, t) ==> n.id != id
  {
    if id != 0 {
      var vs := Visit(t);
      FirstIsFirst(vs, WithId(id));
      forall n ensures n in vs <==> Within(n, t) {
        VisitIsWithin(t, n);
      }
      if FindById(t, id).Some? {
        var k :| 0 <= k < |vs| && Matches(vs[k], WithId(id)) && vs[k].ref == FindById(t, id).value;
        assert vs[k] in vs && Within(vs[k], t);
      } else {
        forall n | Within(n, t) ensures n.id != id {
          var k :| 0 <= k < |vs| && vs[k] == n;
        }
      }
    }
  }

  /** The shortcut search is a search of the non-menu entries in container order. */
  lemma {:induction false} OwnerIsFirstLeaf<R>(t: MenuTree<R>, key: Keys.Key)
    ensures ShortcutOwner(t, key) == First(Leaves(t), WithShortcut(key))
    decreases t, 1
  {
    if t.kind == SubMenu {
      FirstOwnerIsFirstLeaf(t.children, key);
    } else {
      assert [t][1..] == [];
    }
  }

  lemma {:induction false} FirstOwnerIsFirstLeaf<R>(ts: seq<MenuTree<R>>, key: Keys.Key)
    ensures FirstOwner(ts, key) == First(LeavesAll(ts), WithShortcut(key))
    decreases ts, 0
  {
    if ts != [] {
      OwnerIsFirstLeaf(ts[0], key);
      FirstOwnerIsFirstLeaf(ts[1..], key);
      FirstConcat(Leaves(ts[0]), LeavesAll(ts[1..]), WithShortcut(key));
    }
  }

  /** The non-menu entries are exactly the entries of the tree that are not menus. */
  lemma {:induction false} LeavesAreWithin<R>(t: MenuTree<R>, n: MenuTree<R>)
    ensures n in Leaves(t) <==> Within(n, t) && n.kind != SubMenu
    decreases t, 1
  {
    if t.kind == SubMenu {
      LeavesAllAreWithin(t.children, n);
    }
  }

  lemma {:induction false} LeavesAllAreWithin<R>(ts: seq<MenuTree<R>>, n: MenuTree<R>)
    ensures n in LeavesAll(ts) <==> n.kind != SubMenu && exists i :: 0 <= i < |ts| && Within(n, ts[i])
    decreases ts, 0
  {
    if ts != [] {
      LeavesAreWithin(ts[0], n);
      LeavesAllAreWithin(ts[1..], n);
      if n in LeavesAll(ts) && n !in Leaves(ts[0]) {
        var i :| 0 <= i < |ts[1..]| && Within(n, ts[1..][i]);
        assert ts[1..][i] == ts[i + 1];
      }
      if n.kind != SubMenu && n !in Leaves(ts[0]) && exists i :: 0 <= i < |ts| && Within(n, ts[i]) {
        var i :| 0 <= i < |ts| && Within(n, ts[i]);
        assert i > 0;
        assert ts[1..][i - 1] == ts[i];
      }
    }
  }

  /**
   * checkShortcuts returns the first non-menu entry, in container order,
   * whose shortcuts hold the key, searching nested menus too; it returns
   * nothing only when no such entry exists anywhere in the tree.
   */
  lemma ShortcutOwnerFinds<R>(t: MenuTree<R>, key: Keys.Key)
    ensures ShortcutOwner(t, key).Some? ==>
              exists n :: Within(n, t) && n.kind != SubMenu && key in n.shortcuts && n.ref == ShortcutOwner(t, key).value
    ensures ShortcutOwner(t, key).None? <==> forall n :: Within(n, t) && n.kind != SubMenu ==> key !in n.shortcuts
  {
    var ls := Leaves(t);
    OwnerIsFirstLeaf(t, key);
    FirstIsFirst(ls, WithShortcut(key));
    forall n ensures n in ls <==> Within(n, t) && n.kind != SubMenu {
      LeavesAreWithin(t, n);
    }
    if ShortcutOwner(t, key).Some? {
      var k :| 0 <= k < |ls| && Matches(ls[k], WithShortcut(key)) && ls[k].ref == ShortcutOwner(t, key).value;
      assert ls[k] in ls && Within(ls[k], t);
    } else {
      forall n | Within(n, t) && n.kind != SubMenu ensures key !in n.shortcuts {
        var k :| 0 <= k < |ls| && ls[k] == n;
      }
    }
  }

  /** An entry that is given a shortcut answers that key itself. */
  lemma AddedShortcutAnswers<R>(t: MenuTree<R>, key: Keys.Key)
    requires t.kind != SubMenu
    ensures ShortcutOwner(t.(shortcuts := t.shortcuts + [key]), key) == Some(t.ref)
  {
    assert (t.shortcuts + [key])[|t.shortcuts|] == key;
  }
}
