// The link label: a label that opens its URL, or fires Click, when it
// is clicked over its link area.  It keeps a three-state record of where
// the mouse is (outside the widget, inside it, or over the link itself),
// decides from its text whether that text is a URL, and places the link
// area inside the client bounds by integer arithmetic.

module LinkLabels {
  import opened Wrappers
  import opened Geometry
  import Keys

  /** `m_state`: where the mouse is. */
  datatype State = Outside | Inside | Hover

  /** The label's text alignment. */
  datatype TextAlign = Left | Center | Right

  /** The system cursors `onSetCursor` picks from. */
  datatype Cursor = Hand | Arrow

  // ---------------------------------------------------------------
  // The URL test of the one-string constructor

  /**
   * `String::find_first_of(chars)`: the first position of `s` holding
   * any one of the characters of `chars`, or -1 (`npos`).
   */
  function FindFirstOf(s: string, chars: string): (r: int)
    ensures -1 <= r < |s|
    ensures r == -1 <==> forall i :: 0 <= i < |s| ==> s[i] !in chars
    ensures r >= 0 ==> s[r] in chars && forall i :: 0 <= i < r ==> s[i] !in chars
  {
    if s == [] then -1
    else if s[0] in chars then 0
    else
      var k := FindFirstOf(s[1..], chars);
      assert forall i :: 1 <= i < |s| ==> s[i] == s[1..][i - 1];
      if k == -1 then -1 else k + 1
  }

  /**
   * The constructor's test as written: it asks `find_first_of`, so the
   * text counts as a URL when it holds any single one of the characters
   * `w`, `:`, `/` or `@`.
   */
  predicate UrlAsWritten(text: string) {
    FindFirstOf(text, "www") != -1 || FindFirstOf(text, "://") != -1 || FindFirstOf(text, "@") != -1
  }

  /** The test as written accepts exactly the texts holding a `w`, `:`, `/` or `@` anywhere. */
  lemma UrlAsWrittenExactly(text: string)
    ensures UrlAsWritten(text) <==> exists i :: 0 <= i < |text| && text[i] in "w:/@"
  {
    if UrlAsWritten(text) {
      var k := if FindFirstOf(text, "www") != -1 then FindFirstOf(text, "www")
               else if FindFirstOf(text, "://") != -1 then FindFirstOf(text, "://")
               else FindFirstOf(text, "@");
      assert text[k] in "w:/@";
    }
  }

  /** `sub` occurs in `s` starting at position `i`. */
  predicate OccursAt(s: string, sub: string, i: int) {
    0 <= i && i + |sub| <= |s| && s[i..i + |sub|] == sub
  }

  /** Occurrences in `s` one place on are occurrences in `s` without its first character. */
  lemma OccursShift(s: string, sub: string, i: int)
    requires s != [] && 0 <= i
    ensures OccursAt(s, sub, i + 1) <==> OccursAt(s[1..], sub, i)
  {
    if i + 1 + |sub| <= |s| {
      assert s[i + 1..i + 1 + |sub|] == s[1..][i..i + |sub|];
    }
  }

  /** `String::find(sub)`: the first position where `sub` occurs in `s`, or -1 (`npos`). */
  function Find(s: string, sub: string): (r: int)
    ensures -1 <= r <= |s|
    ensures r == -1 <==> forall i :: !OccursAt(s, sub, i)
    ensures r >= 0 ==> OccursAt(s, sub, r) && forall i :: 0 <= i < r ==> !OccursAt(s, sub, i)
    decreases |s|
  {
    if |sub| <= |s| && s[..|sub|] == sub then
      assert s[0..|sub|] == s[..|sub|] && OccursAt(s, sub, 0);
      0
    else if |s| <= |sub| then
      assert forall i :: !OccursAt(s, sub, i) by {
        assert s[0..|s|] == s[..|s|];
      }
      -1
    else
      var k := Find(s[1..], sub);
      assert !OccursAt(s, sub, 0) by {
        assert s[0..|sub|] == s[..|sub|];
      }
      assert forall i :: 0 <= i ==> (OccursAt(s, sub, i + 1) <==> OccursAt(s[1..], sub, i)) by {
        forall i | 0 <= i {
          OccursShift(s, sub, i);
        }
      }
      assert forall i :: OccursAt(s, sub, i) ==> 1 <= i && OccursAt(s[1..], sub, i - 1);
      if k == -1 then -1 else k + 1
  }

  /**
   * The URL test the documentation describes: the text holds "www",
   * "://" or "@" as a whole.  The constructor uses this one.
   */
  predicate IsUrl(text: string) {
    Find(text, "www") != -1 || Find(text, "://") != -1 || Find(text, "@") != -1
  }

  /** The intended test accepts exactly the texts that hold one of the three markers. */
  lemma IsUrlExactly(text: string)
    ensures IsUrl(text) <==> exists i :: OccursAt(text, "www", i) || OccursAt(text, "://", i) || OccursAt(text, "@", i)
  {
  }

  /** Every text the intended test accepts is accepted by the test as written. */
  lemma UrlAsWrittenAcceptsUrls(text: string)
    requires IsUrl(text)
    ensures UrlAsWritten(text)
  {
    var i :| OccursAt(text, "www", i) || OccursAt(text, "://", i) || OccursAt(text, "@", i);
    if OccursAt(text, "www", i) {
      assert text[i] == text[i..i + 3][0] == 'w';
    } else if OccursAt(text, "://", i) {
      assert text[i] == text[i..i + 3][0] == ':';
    } else {
      assert |"@"| == 1 && OccursAt(text, "@", i);
      assert text[i] == text[i..i + 1][0] == '@';
    }
  }

  /** The test as written takes the plain text "Hello world" for a URL; the intended test does not. */
  lemma HelloWorldIsNotAUrl()
    ensures UrlAsWritten("Hello world")
    ensures !IsUrl("Hello world")
  {
    var s := "Hello world";
    assert s[6] == 'w';
    assert forall j :: 0 <= j < |s| ==> s[j] != ':' && s[j] != '@' && (s[j] == 'w' ==> j == 6) by {
      assert s == ['H', 'e', 'l', 'l', 'o', ' ', 'w', 'o', 'r', 'l', 'd'];
    }
    forall i ensures !OccursAt(s, "www", i) && !OccursAt(s, "://", i) && !OccursAt(s, "@", i) {
      if 0 <= i && i + 3 <= |s| {
        assert s[i..i + 3][0] == s[i] && s[i..i + 3][1] == s[i + 1];
      }
      if 0 <= i && i + 1 <= |s| {
        assert s[i..i + 1][0] == s[i];
      }
    }
  }

  // ---------------------------------------------------------------
  // Placing the link

  /**
   * `getLinkBounds`: an image is centred in the client bounds on both
   * axes; a text of the measured size is moved right by half the free
   * width when centred and by all of it when right-aligned.  The halves
   * are C++ integer divisions.
   */
  function LinkBounds(client: Rect, image: Option<Size>, measured: Size, align: TextAlign): (r: Rect)
    ensures image.Some? ==> r.GetSize() == image.value
    ensures image.None? ==> r.GetSize() == measured && r.y == client.y
    ensures image.None? && align == Left ==> r.x == client.x
    ensures image.None? && align == Right ==> r.x + r.w == client.x + client.w
  {
    match image
    case Some(sz) =>
      Rect(client.x + (Half(client.w) - Half(sz.w)), client.y + (Half(client.h) - Half(sz.h)), sz.w, sz.h)
    case None =>
      var dx := match align
        case Center => Half(client.w) - Half(measured.w)
        case Right => client.w - measured.w
        case Left => 0;
      Rect(client.x + dx, client.y, measured.w, measured.h)
  }

  /**
   * Centring leaves margins on the two sides that differ by at most one
   * pixel, when both lengths are not negative.
   */
  lemma CentredWithinOne(outer: int, inner: int)
    requires 0 <= outer && 0 <= inner
    ensures -1 <= 2 * (Half(outer) - Half(inner)) - (outer - inner) <= 1
  {
  }

  /** A centred link, text or image, has margins that differ by at most one pixel. */
  lemma LinkBoundsCentred(client: Rect, image: Option<Size>, measured: Size, align: TextAlign)
    requires image.Some? || align == Center
    requires 0 <= client.w && 0 <= client.h
    requires image.Some? ==> 0 <= image.value.w && 0 <= image.value.h
    requires image.None? ==> 0 <= measured.w
    ensures var r := LinkBounds(client, image, measured, align);
            var left := r.x - client.x;
            var right := client.x + client.w - (r.x + r.w);
            -1 <= left - right <= 1
    ensures image.Some? ==>
              var r := LinkBounds(client, image, measured, align);
              -1 <= (r.y - client.y) - (client.y + client.h - (r.y + r.h)) <= 1
  {
    var r := LinkBounds(client, image, measured, align);
    var sz := if image.Some? then image.value else measured;
    CentredWithinOne(client.w, sz.w);
    if image.Some? {
      CentredWithinOne(client.h, sz.h);
    }
  }

  // ---------------------------------------------------------------
  // The hover machine

  /** `onMouseEnter`. */
  function AfterEnter(s: State): State { Inside }

  /** `onMouseMove`, given whether the point lies in the link bounds. */
  function AfterMove(s: State, inLink: bool): State {
    if s == Inside && inLink then Hover
    else if s == Hover && !inLink then Inside
    else s
  }

  /** `onMouseLeave`. */
  function AfterLeave(s: State): State { Outside }

  /** What the label reacts to; `Down` and `Key` leave the state alone. */
  datatype Event = Enter | Move(inLink: bool) | Leave | Down | Key

  function Step(s: State, e: Event): State {
    match e
    case Enter => AfterEnter(s)
    case Move(b) => AfterMove(s, b)
    case Leave => AfterLeave(s)
    case Down => s
    case Key => s
  }

  /** The state after a run of events, the last one last. */
  function Run(s: State, evs: seq<Event>): State {
    if evs == [] then s else Step(Run(s, evs[..|evs| - 1]), evs[|evs| - 1])
  }

  /** The last `Enter` or `Leave` of a run. */
  function LastCrossing(evs: seq<Event>): Option<Event> {
    if evs == [] then None
    else if evs[|evs| - 1].Enter? || evs[|evs| - 1].Leave? then Some(evs[|evs| - 1])
    else LastCrossing(evs[..|evs| - 1])
  }

  /** The last `Enter`, `Move` or `Leave` of a run. */
  function LastMotion(evs: seq<Event>): Option<Event> {
    if evs == [] then None
    else if evs[|evs| - 1].Down? || evs[|evs| - 1].Key? then LastMotion(evs[..|evs| - 1])
    else Some(evs[|evs| - 1])
  }

  /**
   * Starting outside, as `init` leaves it, the label is outside exactly
   * when the mouse has not entered since it last left, and over the link
   * exactly when it has entered and its last motion was a move onto the
   * link.
   */
  lemma {:induction false} RunFromOutside(evs: seq<Event>)
    ensures Run(Outside, evs) == Outside <==> LastCrossing(evs) != Some(Enter)
    ensures Run(Outside, evs) == Hover <==> LastCrossing(evs) == Some(Enter) && LastMotion(evs) == Some(Move(true))
  {
    if evs != [] {
      RunFromOutside(evs[..|evs| - 1]);
    }
  }

  // ---------------------------------------------------------------
  // The widget

  class LinkLabel {
    var state: State
    var url: string
    var text: string
    /** The size of the image, for a label that shows one instead of text. */
    var image: Option<Size>
    var align: TextAlign
    /** Whether the label has the keyboard focus. */
    var focused: bool
    /** The URLs handed to the shell to open, in order. */
    var launched: seq<string>
    /** How many times the Click signal has been fired. */
    var clicks: nat
    /** How many times the label asked to be repainted. */
    var repaints: nat

    /**
     * `LinkLabel(urlOrText, ...)`: the text is kept as the URL when it
     * passes the test as written (`UrlAsWritten`), so a text holding any
     * `w`, `:`, `/` or `@` becomes the URL.
     */
    constructor (urlOrText: string, textAlign: TextAlign)
      ensures url == (if UrlAsWritten(urlOrText) then urlOrText else [])
      ensures text == urlOrText && image == None && align == textAlign
      ensures state == Outside && !focused && launched == [] && clicks == 0 && repaints == 0
    {
      url := if UrlAsWritten(urlOrText) then urlOrText else [];
      text, image, align := urlOrText, None, textAlign;
      state := Outside;
      focused, launched, clicks, repaints := false, [], 0, 0;
    }

    /**
     * The one-string constructor with the test its documentation
     * describes (`IsUrl`): the text is the URL only when it holds "www",
     * "://" or "@".
     */
    constructor Corrected(urlOrText: string, textAlign: TextAlign)
      ensures url == (if IsUrl(urlOrText) then urlOrText else [])
      ensures text == urlOrText && image == None && align == textAlign
      ensures state == Outside && !focused && launched == [] && clicks == 0 && repaints == 0
    {
      url := if IsUrl(urlOrText) then urlOrText else [];
      text, image, align := urlOrText, None, textAlign;
      state := Outside;
      focused, launched, clicks, repaints := false, [], 0, 0;
    }

    /** `LinkLabel(url, text, ...)`. */
    constructor WithText(link: string, caption: string, textAlign: TextAlign)
      ensures url == link && text == caption && image == None && align == textAlign
      ensures state == Outside && !focused && launched == [] && clicks == 0 && repaints == 0
    {
      url, text, image, align := link, caption, None, textAlign;
      state := Outside;
      focused, launched, clicks, repaints := false, [], 0, 0;
    }

    /** `LinkLabel(url, image, ...)`: the text is empty. */
    constructor WithImage(link: string, imageSize: Size, textAlign: TextAlign)
      ensures url == link && text == [] && image == Some(imageSize) && align == textAlign
      ensures state == Outside && !focused && launched == [] && clicks == 0 && repaints == 0
    {
      url, text, image, align := link, [], Some(imageSize), textAlign;
      state := Outside;
      focused, launched, clicks, repaints := false, [], 0, 0;
    }

    /** `getLinkBounds`, with the text's measured size as an input. */
    function Bounds(client: Rect, measured: Size): Rect
      reads this
    {
      LinkBounds(client, image, measured, align)
    }

    /** `click`: the URL, when there is one, goes to the shell; then Click fires. */
    method Click()
      modifies this`launched, this`clicks
      ensures launched == old(launched) + (if url == [] then [] else [url])
      ensures clicks == old(clicks) + 1
    {
      if url != [] {
        launched := launched + [url];
      }
      clicks := clicks + 1;
    }

    /** `onMouseEnter`. */
    method OnMouseEnter()
      modifies this`state
      ensures state == AfterEnter(old(state)) == Inside
    {
      state := Inside;
    }

    /**
     * `onMouseMove`: the label switches between inside and hover as the
     * point enters or leaves the link bounds, repainting when it does.
     */
    method OnMouseMove(p: Point, client: Rect, measured: Size)
      modifies this`state, this`repaints
      ensures state == AfterMove(old(state), Bounds(client, measured).Contains(p))
      ensures repaints == old(repaints) + (if state != old(state) then 1 else 0)
    {
      var rc := Bounds(client, measured);
      if state == Inside {
        if rc.Contains(p) {
          repaints := repaints + 1;
          state := Hover;
        }
      } else if state == Hover {
        if !rc.Contains(p) {
          repaints := repaints + 1;
          state := Inside;
        }
      }
    }

    /** `onMouseLeave`: a hovered link is repainted. */
    method OnMouseLeave()
      modifies this`state, this`repaints
      ensures state == AfterLeave(old(state)) == Outside
      ensures repaints == old(repaints) + (if old(state) == Hover then 1 else 0)
    {
      if state == Hover {
        repaints := repaints + 1;
      }
      state := Outside;
    }

    /**
     * `onMouseDown`: over the link, the label takes the focus, clicks
     * and consumes the event; anywhere else nothing happens.
     */
    method OnMouseDown() returns (consumed: bool)
      modifies this`focused, this`launched, this`clicks
      ensures consumed <==> old(state) == Hover
      ensures consumed ==> focused && clicks == old(clicks) + 1
      ensures consumed ==> launched == old(launched) + (if url == [] then [] else [url])
      ensures !consumed ==> focused == old(focused) && clicks == old(clicks) && launched == old(launched)
    {
      consumed := false;
      if state == Hover {
        focused := true;
        Click();
        consumed := true;
      }
    }

    /** `onSetCursor`: an unconsumed event gets the hand over the link and the arrow elsewhere. */
    function CursorFor(consumed: bool): (r: Option<Cursor>)
      reads this
      ensures r == None <==> consumed
      ensures r == Some(Hand) <==> !consumed && state == Hover
    {
      if consumed then None
      else if state == Hover then Some(Hand)
      else Some(Arrow)
    }

    /** `onKeyDown`: Space or Enter clicks a focused label and consumes the event. */
    method OnKeyDown(key: Keys.Key) returns (consumed: bool)
      modifies this`launched, this`clicks
      ensures consumed <==> focused && (key == Keys.Space || key == Keys.Enter)
      ensures consumed ==> clicks == old(clicks) + 1 && launched == old(launched) + (if url == [] then [] else [url])
      ensures !consumed ==> clicks == old(clicks) && launched == old(launched)
    {
      consumed := false;
      if focused && (key == Keys.Space || key == Keys.Enter) {
        Click();
        consumed := true;
      }
    }
  }

  /**
   * Clicking a label made from the plain text "Hello world": as written
   * the text goes to the shell to be opened; with the corrected test
   * nothing is opened and only Click fires.
   */
  method ClickHelloWorld() returns (asWritten: seq<string>, corrected: seq<string>)
    ensures asWritten == ["Hello world"]
    ensures corrected == []
  {
    HelloWorldIsNotAUrl();
    var a := new LinkLabel("Hello world", Left);
    a.Click();
    var c := new LinkLabel.Corrected("Hello world", Left);
    c.Click();
    asWritten, corrected := a.launched, c.launched;
  }
}
