// The list view's own bookkeeping: the items and columns it keeps in
// order (the native control only asks for them by position, since the
// view is created with LVS_OWNERDATA), and the view type, which lives
// in the two LVS_TYPEMASK bits of the window style.

/** Window styles: the regular and the extended style words, and the list-view style bits. */
module Styles {
  /** A `Style`: the regular and the extended style words of a window. */
  datatype Style = Style(regular: bv32, extended: bv32)

  /** `r` has every bit of `y` set and the other bits of `x`. */
  predicate SetsBits(r: bv32, x: bv32, y: bv32) {
    r & y == y && r & !y == x & !y
  }

  /** `r` has every bit of `y` clear and the other bits of `x`. */
  predicate ClearsBits(r: bv32, x: bv32, y: bv32) {
    r & y == 0 && r & !y == x & !y
  }

  /** `a + b`: every bit of either style, in both words. */
  function Plus(a: Style, b: Style): (r: Style)
    ensures SetsBits(r.regular, a.regular, b.regular)
    ensures SetsBits(r.extended, a.extended, b.extended)
  {
    var regular, extended := a.regular | b.regular, a.extended | b.extended;
    SetBits(a.regular, b.regular, regular);
    SetBits(a.extended, b.extended, extended);
    Style(regular, extended)
  }

  /** `a - b`: the bits of `a` that `b` does not name, in both words. */
  function Minus(a: Style, b: Style): (r: Style)
    ensures ClearsBits(r.regular, a.regular, b.regular)
    ensures ClearsBits(r.extended, a.extended, b.extended)
  {
    var regular, extended := a.regular & !b.regular, a.extended & !b.extended;
    ClearBits(a.regular, b.regular, regular);
    ClearBits(a.extended, b.extended, extended);
    Style(regular, extended)
  }

  lemma SetBits(x: bv32, y: bv32, r: bv32)
    requires r == x | y
    ensures SetsBits(r, x, y)
  {
    assert r & y == y;
    assert r & !y == x & !y;
  }

  lemma ClearBits(x: bv32, y: bv32, r: bv32)
    requires r == x & !y
    ensures ClearsBits(r, x, y)
  {
    assert r & y == 0;
    assert r & !y == x & !y;
  }

  const LVS_ICON: bv32 := 0x0000
  const LVS_REPORT: bv32 := 0x0001
  const LVS_SMALLICON: bv32 := 0x0002
  const LVS_LIST: bv32 := 0x0003
  const LVS_TYPEMASK: bv32 := 0x0003
  const LVS_SHAREIMAGELISTS: bv32 := 0x0040
  const LVS_OWNERDATA: bv32 := 0x1000
}

module ListViews {
  import opened Styles
  import Containers

  /** How the items are shown: `ListViewType`. */
  datatype ListViewType = Icon | Report | SmallIcon | List

  /** The style bits `setType` writes for each view type. */
  function TypeBits(t: ListViewType): (b: bv32)
    ensures b & LVS_TYPEMASK == b
  {
    match t
    case Icon => LVS_ICON
    case Report => LVS_REPORT
    case SmallIcon => LVS_SMALLICON
    case List => LVS_LIST
  }

  /**
   * `getType`: the view type the LVS_TYPEMASK bits of a regular style
   * word name.  The two bits take exactly the four values the switch
   * lists, so its fall-through (`assert(false)`) is never reached.
   */
  function TypeOf(regular: bv32): ListViewType {
    var bits := regular & LVS_TYPEMASK;
    if bits == LVS_ICON then Icon
    else if bits == LVS_REPORT then Report
    else if bits == LVS_SMALLICON then SmallIcon
    else List
  }

  /** The style `setType(t)` sets: the type bits replaced, everything else kept. */
  function WithType(s: Style, t: ListViewType): Style {
    Plus(Minus(s, Style(LVS_TYPEMASK, 0)), Style(TypeBits(t), 0))
  }

  /** Every style word names one of the four types through its own bits. */
  lemma TypeOfCovers(regular: bv32)
    ensures TypeBits(TypeOf(regular)) == regular & LVS_TYPEMASK
  {
  }

  /** `setType(t)` then `getType()` gives back `t`. */
  lemma SetThenGet(s: Style, t: ListViewType)
    ensures TypeOf(WithType(s, t).regular) == t
  {
    var r := WithType(s, t).regular;
    assert r & LVS_TYPEMASK == TypeBits(t);
  }

  /** `setType` touches only the LVS_TYPEMASK bits of the regular style word. */
  lemma SetTypeKeepsOtherBits(s: Style, t: ListViewType)
    ensures WithType(s, t).regular & !LVS_TYPEMASK == s.regular & !LVS_TYPEMASK
    ensures WithType(s, t).extended == s.extended
  {
  }

  /** Setting the type a style already has leaves the style as it was. */
  lemma GetThenSet(s: Style)
    ensures WithType(s, TypeOf(s.regular)) == s
  {
    TypeOfCovers(s.regular);
    assert WithType(s, TypeOf(s.regular)).regular == (s.regular & !LVS_TYPEMASK) | (s.regular & LVS_TYPEMASK);
  }

  /** Different types are told apart by their style bits. */
  lemma TypeBitsInjective(t: ListViewType, u: ListViewType)
    ensures TypeBits(t) == TypeBits(u) <==> t == u
  {
  }

  /** A row of the view; `m_index` is its position as `addItem` assigned it. */
  class ListItem {
    var index: int
  }

  /** A column of the view, in report mode. */
  class ListColumn {
    var index: int
  }

  class ListView {
    var style: Style
    var items: seq<ListItem>
    var columns: seq<ListColumn>

    /** Every item's `m_index` is its position in the list. */
    ghost predicate IndexesMatch()
      reads this, set x | x in items
    {
      forall k :: 0 <= k < |items| ==> items[k].index == k
    }

    /**
     * `ListView(parent, style)`: the requested style plus
     * LVS_SHAREIMAGELISTS and LVS_OWNERDATA, which leave the view type
     * as requested; no items and no columns.
     */
    constructor (requested: Style)
      ensures style == Plus(requested, Style(LVS_SHAREIMAGELISTS | LVS_OWNERDATA, 0))
      ensures GetType() == TypeOf(requested.regular)
      ensures items == [] && columns == [] && IndexesMatch()
    {
      style := Plus(requested, Style(LVS_SHAREIMAGELISTS | LVS_OWNERDATA, 0));
      items, columns := [], [];
    }

    /** `getType`. */
    function GetType(): ListViewType
      reads this
    {
      TypeOf(style.regular)
    }

    /** `setType`: only the view-type bits of the style change. */
    method SetType(t: ListViewType)
      modifies this`style
      ensures style == WithType(old(style), t)
      ensures GetType() == t
      ensures style.regular & !LVS_TYPEMASK == old(style.regular) & !LVS_TYPEMASK
    {
      style := Plus(Minus(style, Style(LVS_TYPEMASK, 0)), Style(TypeBits(t), 0));
      SetThenGet(old(style), t);
      SetTypeKeepsOtherBits(old(style), t);
    }

    /** `getItemCount`. */
    function ItemCount(): nat
      reads this
    {
      |items|
    }

    /** `getColumnCount`. */
    function ColumnCount(): nat
      reads this
    {
      |columns|
    }

    /** `getItem`: the caller must pass a position in range. */
    function GetItem(index: int): ListItem
      requires 0 <= index < |items|
      reads this
    {
      items[index]
    }

    /** `getColumn`: the caller must pass a position in range. */
    function GetColumn(index: int): ListColumn
      requires 0 <= index < |columns|
      reads this
    {
      columns[index]
    }

    /**
     * The item a change notification (LVN_ITEMCHANGING, LVN_ITEMCHANGED)
     * names: the item at that position, or none when it is out of range.
     */
    function NotifiedItem(i: int): (r: ListItem?)
      reads this
      ensures r != null <==> 0 <= i < |items|
      ensures r != null ==> r == items[i] && r in items
    {
      if 0 <= i < |items| then items[i] else null
    }

    /** The column LVN_COLUMNCLICK names, or none when it is out of range. */
    function NotifiedColumn(i: int): (r: ListColumn?)
      reads this
      ensures r != null <==> 0 <= i < |columns|
      ensures r != null ==> r == columns[i] && r in columns
    {
      if 0 <= i < |columns| then columns[i] else null
    }

    /**
     * `addItem`: the item's index is the count before the call, the
     * item goes last, and the index is returned.  A list whose indexes
     * matched positions still does, unless the item was already in it.
     */
    method AddItem(item: ListItem) returns (r: int)
      modifies this`items, item`index
      ensures r == item.index == old(|items|)
      ensures items == old(items) + [item]
      ensures ItemCount() == old(ItemCount()) + 1 && NotifiedItem(r) == item
      ensures old(IndexesMatch()) && item !in old(items) ==> IndexesMatch()
    {
      item.index := |items|;
      items := items + [item];
      return item.index;
    }

    /**
     * `removeItem`: every entry for the item leaves the list and the
     * other items keep their order; nobody's index is renumbered.
     */
    method RemoveItem(item: ListItem)
      modifies this`items
      ensures items == Containers.Without(old(items), item)
      ensures item !in items && forall x :: x in items <==> x in old(items) && x != item
      ensures Containers.NoDups(old(items)) && item in old(items) ==>
                var k := Containers.IndexOf(old(items), item);
                items == old(items)[..k] + old(items)[k + 1..]
    {
      items := Containers.Without(items, item);
      Containers.WithoutMembers(old(items), item);
      if Containers.NoDups(old(items)) && item in old(items) {
        Containers.WithoutAt(old(items), Containers.IndexOf(old(items), item));
      }
    }

    /** `removeAllItems`: the list is left empty. */
    method RemoveAllItems()
      modifies this`items
      ensures items == [] && ItemCount() == 0 && IndexesMatch()
    {
      items := [];
    }

    /**
     * `addColumn`: the column goes last and the index the column holds
     * is returned.
     */
    method AddColumn(column: ListColumn) returns (r: int)
      modifies this`columns
      ensures columns == old(columns) + [column] && r == column.index
      ensures ColumnCount() == old(ColumnCount()) + 1 && NotifiedColumn(old(ColumnCount())) == column
    {
      columns := columns + [column];
      return column.index;
    }

    /** `removeAllColumns`: no columns are left. */
    method RemoveAllColumns()
      modifies this`columns
      ensures columns == [] && ColumnCount() == 0
    {
      columns := [];
    }
  }
}
