# Vaca core, modelled in Dafny

Vaca is a C++ GUI toolkit over Win32. This project models five parts of it and proves what
they promise:

- **Signals and `Bind`** (`tests/test_bind.cpp`). A signal keeps its slots in connection order
  and calls each of them once when it fires. A slot is a direct connection or a `Bind` adapter
  that carries its own arguments. The tests' eighteen hit counters and the instrumented `Int`
  class are modelled too. Each `TEST_F` is a method whose postconditions are the test's
  `EXPECT_EQ`s.
- **Menus** (`src/Menu.cpp`). Menu items, separators and menus are heap objects: a menu owns
  an ordered container of entries and keeps each entry's parent pointer. IDs come from one
  process-wide counter. Three searches are proved against a value view of the menu tree
  (`MenuTrees`):
  - the depth-first search by ID, with its explicit stack;
  - the keyboard-shortcut search;
  - the radio-group search.
- **List views** (`src/ListView.cpp`). The view keeps its own ordered items and columns, and
  keeps the view type in the `LVS_TYPEMASK` bits of the window style.
- **Link labels** (`src/LinkLabel.cpp`). This covers:
  - the URL test of the constructor;
  - where the link is drawn;
  - the hover state machine driven by mouse events;
  - opening the link by click or key.
- **Graphics** (`src/Graphics.cpp`). This covers:
  - how `renderPath` turns a path's type and point arrays into path commands;
  - how gradient colours are widened to 16 bits;
  - which strips `drawGradientRect` and `drawXorFrame` paint;
  - the "was painted" flag;
  - the colour that `drawDisabledString` must restore.

  What reaches the device is recorded as a trace of calls.

Files:
- `Containers.dfy`: `Option`/`Result` and the sequence helpers.
- `Geometry.dfy`: points, sizes, rectangles, C's truncating halving, and the key codes.
- `Signals.dfy` and `BindScenarios.dfy`.
- `MenuTrees.dfy` and `Menus.dfy`.
- `ListViews.dfy`.
- `LinkLabels.dfy`.
- `Graphics.dfy`.

## Model

| member | source | states |
|---|---|---|
| Containers.WithoutMembers | src/Menu.cpp:538-550 | after removing an entry, the container holds exactly the other entries |
| Containers.WithoutMultiset | src/ListView.cpp:329-339 | removal drops every copy of the item and keeps every other item's count |
| Containers.WithoutAt | src/Menu.cpp:574-579 | for a container without duplicates, removing the entry at `index` leaves the entries before and after it, in order |
| Containers.WithoutNoDups | src/ListView.cpp:329-339 | removal keeps a duplicate-free list duplicate-free |
| Containers.InsertAt | src/Menu.cpp:486-487 | `insert` puts the entry at the requested position, keeps the ones before it, and shifts the ones after it by one |
| Containers.IndexOf | src/Menu.cpp:615-625 | `getMenuItemIndex` is the first position holding the item, or -1 exactly when the item is absent |
| Containers.InsertThenRemove | src/Menu.cpp:447-502 | inserting a new entry and then removing it restores the container; the entry is found where it was inserted |
| Containers.InsertNoDups | src/Menu.cpp:447-502 | inserting a new entry keeps the container free of duplicates |
| Geometry.Half | src/LinkLabel.cpp:322-328 | C's `/ 2` truncates toward zero: the remainder is 0 or 1 for non-negative values and 0 or -1 for negative ones |
| Signals.Tally.constructor | tests/test_bind.cpp:345-351 | `SetUp` clears `ctor_hits` and `copy_ctor_hits` |
| Signals.Int.constructor | tests/test_bind.cpp:359 | `Int(int)` holds the value and counts one construction, no copy |
| Signals.Int.Copy | tests/test_bind.cpp:360 | the copy constructor holds the same value and counts one copy, no construction |
| Signals.Hold | tests/test_bind.cpp:359-360 | storing a bound `Int`: by value makes one new copy and counts it; through `Ref(n)` it is `n` itself and nothing is counted |
| Signals.HoldAll | tests/test_bind.cpp:359-360 | storing `count` bound arguments: each holds `n`'s value; through `Ref` each is `n` and there are no copies, by value there are `count` copies |
| Signals.Values | tests/test_bind.cpp:361 | the values that the targets see are the arguments' values, one for one |
| Signals.CallsInOrder | tests/test_bind.cpp:85-106 | firing a signal calls each connected slot once, in connection order |
| Signals.CountForIsSlotCount | tests/test_bind.cpp:108-125 | after one firing, a counter reads the number of slots whose target bumps it |
| Signals.CountForAppend | tests/test_bind.cpp:85-105 | connecting one more slot adds one hit for that slot's target and none for any other |
| Signals.CountForConcat | tests/test_bind.cpp:85-105 | slots connected in two runs are counted run by run |
| Signals.BindIgnoresCallArgs | tests/test_bind.cpp:398-417 | an adapter passes on its bound arguments whatever the signal is called with, and returns nothing exactly when it was declared `void` |
| Signals.DirectReceivesCallArgs | tests/test_bind.cpp:398-417 | a direct connection passes on the signal's own arguments and returns what its target returns |
| Signals.Hits.constructor | tests/test_bind.cpp:26-42 | `SetUp` sets all eighteen counters to 0 |
| Signals.Hits.Read | tests/test_bind.cpp:108-125 | the `EXPECT_EQ` reads give the counters in the order listed |
| Signals.Hits.Hit | tests/test_bind.cpp:44-81 | a target's body adds one to its own counter and leaves the others alone |
| Signals.Signal.constructor | tests/test_bind.cpp:85 | a new signal has no slots |
| Signals.Signal.Connect | tests/test_bind.cpp:86-105 | `connect` appends the slot and keeps the earlier ones |
| Signals.Signal.Fire | tests/test_bind.cpp:106 | firing returns the calls of every slot in order, and adds each slot's hit to its counter |
| Signals.Bind | tests/test_bind.cpp:87-92 | a `Bind` adapter reaches its target and fits any signal whose return type it provides |
| BindScenarios.BindRunCount | tests/test_bind.cpp:87-92 | the adapters of one family bump each of its counters at most once, for the arities bound |
| BindScenarios.FamilySlotsCount | tests/test_bind.cpp:85-105 | one family's slots bump its counters by exactly `ExpectedHits` and leave the other families alone |
| BindScenarios.TestSlotsCount | tests/test_bind.cpp:108-125 | every counter of a binding test reads `ExpectedHits` |
| BindScenarios.CountsByFamily | tests/test_bind.cpp:108-125 | the eighteen expected counts are the same six-counter row for each of the three families |
| BindScenarios.BindRunFit | tests/test_bind.cpp:87-92 | every adapter of a run fits the signal and passes on only the bound argument |
| BindScenarios.FamilySlotsFit | tests/test_bind.cpp:85-105 | every slot of a family fits the signal and hands its target only the test's argument |
| BindScenarios.TestSlotsFit | tests/test_bind.cpp:85-105 | every slot a test connects fits the signal and hands its target only the test's argument |
| BindScenarios.CallsSee | tests/test_bind.cpp:49-81 | every target sees only the test's value (the targets' `EXPECT_EQ(5, a)` and `a == b`) |
| BindScenarios.ConnectAll | tests/test_bind.cpp:86-105 | the run of `connect` calls leaves the slots in the test's order |
| BindScenarios.ConnectAndFire | tests/test_bind.cpp:85-106 | connecting and firing once gives the slot counts on the counters and the calls in order |
| BindScenarios.Run | tests/test_bind.cpp:83-128 | a binding test body: the counters read `ExpectedHits`, and every target sees only the argument |
| BindScenarios.Test0Void | tests/test_bind.cpp:83-128 | test0_void: the eighteen expected counts, 21 calls, every argument 5 |
| BindScenarios.Test0Int | tests/test_bind.cpp:130-166 | test0_int: the expected counts, 12 calls, every argument 5 |
| BindScenarios.Test1Void | tests/test_bind.cpp:168-213 | test1_void: the expected counts, 21 calls, every argument 5 |
| BindScenarios.Test1Int | tests/test_bind.cpp:215-251 | test1_int: the expected counts, 12 calls, every argument 5 |
| BindScenarios.Test2Void | tests/test_bind.cpp:253-298 | test2_void: the expected counts, 21 calls, every argument 5 |
| BindScenarios.Test2Int | tests/test_bind.cpp:300-336 | test2_int: the expected counts, 12 calls, every argument 5 |
| BindScenarios.BoundArgs | tests/test_bind.cpp:401-415 | the arguments the adapters hold, in connection order |
| BindScenarios.BoundArgsAre | tests/test_bind.cpp:401-415 | when every adapter binds only `Ref(n)`, every held argument is `n` |
| BindScenarios.BindByRef | tests/test_bind.cpp:401-415 | storing every bound argument as `Ref(n)` gives exactly what the adapters hold, and constructs and copies nothing |
| BindScenarios.RefRun | tests/test_bind.cpp:398-434 | a RefTest body: one `Int` built, its bound arguments stored through `Ref`, so no copy; the counters read `ExpectedHits` and every target sees 5 |
| BindScenarios.RefTest1Void | tests/test_bind.cpp:398-434 | RefTest test1_void: the expected counts; one `Int` built and never copied |
| BindScenarios.RefTest1Int | tests/test_bind.cpp:436-466 | RefTest test1_int: the expected counts; one `Int` built and never copied |
| BindScenarios.RefTest2Void | tests/test_bind.cpp:468-504 | RefTest test2_void: the expected counts; one `Int` built and never copied |
| BindScenarios.RefTest2Int | tests/test_bind.cpp:506-536 | RefTest test2_int: the expected counts; one `Int` built and never copied |
| MenuTrees.FirstIsFirst | src/Menu.cpp:586-613 | the first entry matching a criterion is found, and none is found exactly when no entry matches |
| MenuTrees.PopStep | src/Menu.cpp:596-610 | popping the top of the stack either answers it or replaces it by its children, and strictly less remains to visit |
| MenuTrees.FirstConcat | src/Menu.cpp:596-610 | searching two runs in turn is searching the first and then the second |
| MenuTrees.VisitAllConcat | src/Menu.cpp:596-610 | the stack order visits the later trees first |
| MenuTrees.VisitIsWithin | src/Menu.cpp:586-613 | the search visits exactly the entries of the tree |
| MenuTrees.VisitAllIsWithin | src/Menu.cpp:586-613 | a stack of trees visits exactly the entries of its trees |
| MenuTrees.FindByIdFinds | src/Menu.cpp:586-613 | `getMenuItemById` finds an entry with that ID exactly when one exists, and never finds ID 0 |
| MenuTrees.OwnerIsFirstLeaf | src/Menu.cpp:638-647 | the shortcut search answers the first item, in menu order, that owns the key |
| MenuTrees.FirstOwnerIsFirstLeaf | src/Menu.cpp:638-647 | the same holds over a run of entries |
| MenuTrees.LeavesAreWithin | src/Menu.cpp:223-231 | the items that can own shortcuts are exactly the entries that are not submenus |
| MenuTrees.LeavesAllAreWithin | src/Menu.cpp:638-647 | the same holds over a run of entries |
| MenuTrees.ShortcutOwnerFinds | src/Menu.cpp:638-647 | `checkShortcuts` answers an item that owns the key, and answers nothing exactly when no item owns it |
| MenuTrees.AddedShortcutAnswers | src/Menu.cpp:216-231 | after `addShortcut(k)`, the item answers `k` |
| Menus.IdCounter.constructor | src/Menu.cpp:72-85 | the counter starts at the first automatic ID, and nothing has been issued yet |
| Menus.IdCounter.Assign | src/Menu.cpp:72-85 | a negative request takes the next automatic ID, which is new and below the MDI-child range; an explicit ID is used as given |
| Menus.Refs | src/Menu.cpp:586-613 | an entry's objects include the entry and those of its children |
| Menus.RefsAll | src/Menu.cpp:586-613 | a run's objects include those of each tree in it |
| Menus.RefsAllHas | src/Menu.cpp:586-613 | an object of a run belongs to one of its trees |
| Menus.SizeAllBound | src/Menu.cpp:586-613 | each tree of a run is no larger than the run |
| Menus.ReflectsUnique | src/Menu.cpp:586-613 | the heap under an entry determines one tree value |
| Menus.EntriesReflect | src/Menu.cpp:586-613 | every entry under a menu has its own tree value, no larger than the menu's |
| Menus.NotOwnEntry | src/Menu.cpp:447-502 | a menu is not among its own descendants |
| Menus.ReflectsAlloc | src/Menu.cpp:586-613 | every object of a menu tree is allocated |
| Menus.AllReflectAlloc | src/Menu.cpp:586-613 | the same holds for a container of entries |
| Menus.AllReflectInsert | src/Menu.cpp:486-487 | inserting an entry into the container inserts its tree at the same position |
| Menus.AllReflectConcat | src/Menu.cpp:596-610 | a container reflects a run of trees exactly when each part reflects its own part |
| Menus.AllReflectWithout | src/Menu.cpp:538-550 | removing an entry from the container removes its tree |
| Menus.MenuItem.constructor | src/Menu.cpp:69-92 | a new item has no parent, its text, its ID from the counter, and its default shortcut unless that is `Keys::None` |
| Menus.MenuItem.Popup | src/Menu.cpp:69-92 | a new menu is an empty submenu with an automatic ID |
| Menus.MenuItem.Bar | src/Menu.cpp:69-92 | a menu bar is an empty submenu with ID 0 |
| Menus.MenuItem.Separator | src/Menu.cpp:69-92 | a separator has ID 0 and no shortcuts |
| Menus.MenuItem.AddShortcut | src/Menu.cpp:216-221 | the shortcut is appended, and the item's tree value gains it |
| Menus.MenuItem.GetMenuItemIndex | src/Menu.cpp:615-625 | the position of the first occurrence, or -1 |
| Menus.MenuItem.Insert | src/Menu.cpp:447-502 | the entry is inserted at `index` and gets this menu as its parent; the menu's tree gains the entry's tree at that position |
| Menus.MenuItem.Add | src/Menu.cpp:406-410 | the entry goes last, with this menu as parent; the tree gains it last |
| Menus.MenuItem.AddText | src/Menu.cpp:425-429 | a new item with the text and an automatic ID goes last |
| Menus.MenuItem.AddSeparator | src/Menu.cpp:436-439 | a new separator goes last |
| Menus.MenuItem.InsertText | src/Menu.cpp:516-520 | a new item with the text goes at `index` |
| Menus.MenuItem.InsertSeparator | src/Menu.cpp:525-528 | a new separator goes at `index` |
| Menus.MenuItem.Remove | src/Menu.cpp:538-550 | the entry leaves the container, loses its parent, and leaves the tree |
| Menus.MenuItem.RemoveAt | src/Menu.cpp:574-579 | the entry at `index` is removed and returned |
| Menus.MenuItem.GetMenuItemById | src/Menu.cpp:586-613 | the stack search answers exactly `FindById` on the menu's tree: the first match in pre-order, each menu's entries taken last to first, and null when there is none |
| Menus.MenuItem.CheckShortcuts | src/Menu.cpp:638-647 | the recursive search answers exactly `ShortcutOwner` on the menu's tree, and null when no item owns the key |
| Menus.MenuItem.SetRadio | src/Menu.cpp:189-214 | turning radio on checks this item, at its own position in the parent, over the largest run of entries around it that holds no separator; turning it off makes no radio call |
| Menus.RadioGroupUnique | src/Menu.cpp:186-209 | an item's radio group is determined by the menu: any two groups that check it are the same |
| Styles.Plus | src/ListView.cpp:54-62 | `a + b` sets every bit of `b` and keeps the other bits of `a`, in both the regular and the extended word |
| Styles.Minus | src/ListView.cpp:122-143 | `a - b` clears every bit of `b` and keeps the other bits of `a`, in both the regular and the extended word |
| ListViews.TypeBits | src/ListView.cpp:122-143 | the type bits lie within `LVS_TYPEMASK` |
| ListViews.SetThenGet | src/ListView.cpp:106-143 | `getType` after `setType(t)` gives `t` |
| ListViews.GetThenSet | src/ListView.cpp:106-143 | setting the type a style already has leaves the style as it was |
| ListViews.SetTypeKeepsOtherBits | src/ListView.cpp:122-143 | `setType` changes only the `LVS_TYPEMASK` bits of the regular style |
| ListViews.TypeOfCovers | src/ListView.cpp:106-120 | the switch of `getType` covers every value of the two bits |
| ListViews.TypeBitsInjective | src/ListView.cpp:122-143 | different types write different bits |
| ListViews.ListView.constructor | src/ListView.cpp:54-62 | the view adds `LVS_SHAREIMAGELISTS` and `LVS_OWNERDATA` to the style, keeps the requested type, and starts empty |
| ListViews.ListView.SetType | src/ListView.cpp:122-143 | the new style is the old one with the type replaced, and `getType` then answers the new type |
| ListViews.ListView.NotifiedItem | src/ListView.cpp:483-505 | a notification's item is the one at that position, and there is none exactly when the position is out of range |
| ListViews.ListView.NotifiedColumn | src/ListView.cpp:512-521 | a column-click's column is the one at that position, and there is none exactly when the position is out of range |
| ListViews.ListView.AddItem | src/ListView.cpp:285-298 | the item goes last, its index is the old count and is returned; indexes that matched positions still do |
| ListViews.ListView.RemoveItem | src/ListView.cpp:329-339 | the item leaves the list and the others keep their order |
| ListViews.ListView.RemoveAllItems | src/ListView.cpp:346-359 | no items are left |
| ListViews.ListView.AddColumn | src/ListView.cpp:184-194 | the column goes last and its index is returned |
| ListViews.ListView.RemoveAllColumns | src/ListView.cpp:215-226 | no columns are left |
| LinkLabels.UrlAsWrittenExactly | src/LinkLabel.cpp:69-71 | the test as written accepts exactly the texts holding a `w`, `:`, `/` or `@` somewhere |
| LinkLabels.FindFirstOf | src/LinkLabel.cpp:69-71 | `find_first_of` is the first position holding any of the characters, or -1 exactly when there is none |
| LinkLabels.OccursShift | src/LinkLabel.cpp:69-71 | a substring one position further on is one position further on in the tail |
| LinkLabels.Find | src/LinkLabel.cpp:69-71 | substring search gives the first position where the marker occurs, or -1 exactly when it occurs nowhere |
| LinkLabels.IsUrlExactly | src/LinkLabel.cpp:68-73 | the corrected test accepts exactly the texts that hold "www", "://" or "@" |
| LinkLabels.UrlAsWrittenAcceptsUrls | src/LinkLabel.cpp:69-71 | the test as written accepts every real URL |
| LinkLabels.HelloWorldIsNotAUrl | src/LinkLabel.cpp:69-71 | the test as written accepts "Hello world", which the corrected test rejects |
| LinkLabels.LinkBounds | src/LinkLabel.cpp:310-338 | the link area has the image's size, or the text's size on the top row, flush left or right as aligned |
| LinkLabels.CentredWithinOne | src/LinkLabel.cpp:322-328 | centring with truncating halves is off by at most one pixel |
| LinkLabels.LinkBoundsCentred | src/LinkLabel.cpp:310-338 | a centred link (image, or centred text) sits within half a pixel of the middle |
| LinkLabels.RunFromOutside | src/LinkLabel.cpp:176-210 | from the start, the label is outside exactly when the last crossing was not an entry, and hovers exactly when it entered and the last move was over the link |
| LinkLabels.LinkLabel.constructor | src/LinkLabel.cpp:65-74 | the text is shown, and it is also the URL exactly when it passes the test as written (any `w`, `:`, `/` or `@`) |
| LinkLabels.LinkLabel.Corrected | src/LinkLabel.cpp:51-53 | with the documented test, the text is the URL only when it holds "www", "://" or "@" |
| LinkLabels.ClickHelloWorld | src/LinkLabel.cpp:65-74 | clicking a label made from "Hello world" opens that text as written, and opens nothing with the corrected test |
| LinkLabels.LinkLabel.WithText | src/LinkLabel.cpp:76-81 | the URL and the caption are kept apart |
| LinkLabels.LinkLabel.WithImage | src/LinkLabel.cpp:83-88 | an image link has no text |
| LinkLabels.LinkLabel.Click | src/LinkLabel.cpp:296-303 | a click opens the URL when there is one, and is counted |
| LinkLabels.LinkLabel.OnMouseEnter | src/LinkLabel.cpp:176-180 | entering makes the label inside |
| LinkLabels.LinkLabel.OnMouseMove | src/LinkLabel.cpp:182-201 | moving over the link makes it hover, moving off makes it inside; it repaints only when the state changed |
| LinkLabels.LinkLabel.OnMouseLeave | src/LinkLabel.cpp:203-210 | leaving makes the label outside, and repaints only when it was hovering |
| LinkLabels.LinkLabel.OnMouseDown | src/LinkLabel.cpp:215-225 | a press is consumed exactly when hovering; it then takes the focus and clicks, and otherwise nothing changes |
| LinkLabels.LinkLabel.CursorFor | src/LinkLabel.cpp:230-243 | the hand cursor is shown exactly when hovering, and no cursor is set when the event was consumed |
| LinkLabels.LinkLabel.OnKeyDown | src/LinkLabel.cpp:257-266 | Space or Enter clicks exactly when the label has the focus, and otherwise nothing changes |
| Graphics.DecodeEncoded | src/Graphics.cpp:1039-1062 | reading back the type and point arrays that a path holds for its elements draws exactly those elements, each closing its figure when it was meant to |
| Graphics.DecodeAt | src/Graphics.cpp:1039-1062 | decoding from an entry draws that entry, then decodes from the entry after it (three entries on for a Bezier) |
| Graphics.Advance | src/Graphics.cpp:1039-1062 | drawing one entry keeps "what is drawn plus what is left" unchanged |
| Graphics.Graphics.DrawEntry | src/Graphics.cpp:1040-1061 | one loop turn draws the entry's commands and moves one entry on, or three for a Bezier |
| Graphics.Graphics.RenderPath | src/Graphics.cpp:1025-1094 | `renderPath` opens a path at `pt`, draws the decoded commands, ends the path, and fills or strokes it |
| Graphics.Graphics.Stroke | src/Graphics.cpp:308-311 | `strokePath` renders the path and strokes it |
| Graphics.Graphics.Fill | src/Graphics.cpp:313-316 | `fillPath` renders the path and fills it |
| Graphics.WidenScales | src/Graphics.cpp:852-861 | `c \| (c << 8)` multiplies the channel by 257, so 0 stays 0 and 255 becomes 0xFFFF; its high and low bytes are `c` |
| Graphics.VertexColor | src/Graphics.cpp:850-862 | a gradient vertex gives back the colour it was made from |
| Graphics.GradientColors | src/Graphics.cpp:840-880 | a gradient's start vertex has the start colour and its end vertex the end colour |
| Graphics.GradientFrame | src/Graphics.cpp:896-904 | the frame is four gradient fills |
| Graphics.GradientFrameIsBorder | src/Graphics.cpp:896-904 | `drawGradientRect` paints exactly the border pixels of the rectangle |
| Graphics.GradientFrameCorners | src/Graphics.cpp:896-904 | the two strips meeting at each corner agree on that corner's colour |
| Graphics.XorFrameInvertsOnce | src/Graphics.cpp:911-927 | when the border fits twice across, `drawXorFrame` inverts every frame pixel exactly once and nothing else, so a second call erases it |
| Graphics.Graphics.constructor | src/Graphics.cpp:76-128 | a new context has not been told `noPaint`, and has the widget's colour |
| Graphics.Graphics.NoPaint | src/Graphics.cpp:147-150 | after `noPaint`, `wasPainted` is false |
| Graphics.Graphics.SetColor | src/Graphics.cpp:239-242 | the colour is replaced |
| Graphics.Graphics.DrawString | src/Graphics.cpp:338-353 | the text is drawn in the current colour |
| Graphics.Graphics.DrawDisabledString | src/Graphics.cpp:355-366 | the text is drawn in the highlight colour one pixel down and to the right, then in grey in place, and the current colour is restored |
| Graphics.Graphics.FillGradientRect | src/Graphics.cpp:840-880 | one gradient fill from (x, y) to (x+w, y+h) with the widened colours and alpha 0xff00 |
| Graphics.Graphics.DrawGradientRect | src/Graphics.cpp:896-904 | the four strips of `GradientFrame`, in order |
| Graphics.Graphics.DrawXorFrame | src/Graphics.cpp:911-927 | the four pattern inversions of `XorStrips`, in order |

## Left out

- The Win32 calls are not modelled. Handles, messages, the native menu and list-view
  controls, `SelectObject` of pens, brushes and fonts, and the pattern bitmap appear only as the
  calls recorded in a trace, or not at all.
- Destructors and deletion (`delete item`, `~MenuItem`, `removeAllItems` deleting items) are not
  modelled. Objects are never freed.
- The `Bind` header is not part of this model. A by-value bound `Int` is taken to be copied
  once into its adapter (`Signals.Hold`); the header may copy it more often.
- Signal slots are not copied. Disconnection, partial binding and result aggregation are not
  modelled, because the tests never use them.
- `Menu::remove` calls `remove_element_from_container` and `ListView::removeItem` calls
  `remove_from_container`. Both helpers come from a header that is not part of this model.
  Both are modelled as `Without`, which removes every occurrence of the element.
- `VACA_FIRST_AUTOID` and `VACA_FIRST_MDICHILD` come from a header that is not part of this
  model. They are fields of `IdCounter`.
- The counter's mutex is not modelled, because the model is single-threaded.
- Menus.MenuItem.Insert: the edits state how the edited menu's own tree value changes. The
  tree values of that menu's ancestors are not restated.
- The MDI window list (`MdiListMenu`) is not modelled.
- `Menu::checkShortcuts` is taken to override the item's version, as the header is not part of
  this model. It therefore searches submenus recursively.
- Style.h, ListItem.cpp and ListColumn.cpp are not part of this model:
  - `addToListView` and `removeFromListView` are not modelled;
  - `addColumn` returns the index that the column holds.
- ListViews.ListView.RemoveItem: the item indexes are not renumbered after a removal, as in the
  source. So `IndexesMatch` is not claimed after `removeItem`.
- ListViews.ListView.SetType: the column-width reconfiguration for report mode is not modelled.
- LinkLabels: the text measurement and the focus are inputs:
  - `measureString` is the `measured` parameter;
  - `hasFocus` is the `focused` field.
- LinkLabels: opening the URL in a browser is recorded as an entry in `launched`.
- Painting, fonts and colours of the label are not modelled.
- Geometry: coordinates are unbounded integers, not 32-bit `LONG`s.
- Graphics: `System::getColor` is an input (`highlight`, `grayText`), and so are the colours
  of the widget.
- Graphics: fonts, pens, brushes, the poly-fill mode, images, regions and text drawing beyond
  the colour are not modelled.
- Graphics: only the path arrays that `renderPath` reads are modelled. The building of
  `GraphicsPath` is stated as the encoding `EncodeTypes`/`EncodePoints`. A path is required to
  hold whole Bezier triples and as many points as types, as the source assumes.

## Findings

| source | as written | input that shows it | evidently intended | confidence | as-written member | corrected member |
|---|---|---|---|---|---|---|
| src/LinkLabel.cpp:69-71 | `find_first_of(L"www")` looks for any one of the characters `w`, `:`, `/`, `@` | `LinkLabel("Hello world")` is taken as a URL, because it holds a `w` | the text is a URL when it contains the substring "www", "://" or "@" (`find`) | high; not executed | LinkLabels.HelloWorldIsNotAUrl | LinkLabels.IsUrlExactly |
