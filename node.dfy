/**
 * The base node of the node editor (FK.Editor.NodeEditor.Node): a rectangle
 * with fixed-length arrays of in and out connection points, a selection and
 * drag state driven by mouse and key events, a context menu whose entries are
 * registered first-come-first-served, a removal notification, and a height that
 * every repaint recomputes from the heights of the controls drawn inside it.
 *
 * Coordinates are integers; IMGUI (drawing, control heights, skin margins,
 * focus) is outside the model and enters as parameters.
 */
module NodeEditor {
  import opened Wrappers

  datatype Vec2 = Vec2(x: int, y: int)

  /** Unity's Rect: position (x, y) and size (width, height). */
  datatype Rect = Rect(x: int, y: int, width: int, height: int) {
    /** `Rect.Contains`: the left and top edges are inside, the right and bottom ones are not. */
    predicate Contains(p: Vec2) {
      x <= p.x < x + width && y <= p.y < y + height
    }
  }

  /** `NodeRect.position += delta`. */
  function Translate(r: Rect, delta: Vec2): Rect {
    r.(x := r.x + delta.x, y := r.y + delta.y)
  }

  function Negate(v: Vec2): Vec2 {
    Vec2(-v.x, -v.y)
  }

  /** A GUIStyle, by identity. */
  type Style = nat
  /** A delegate, by identity. */
  type Callback = nat

  /** ConnectionPointType. */
  datatype PointKind = In | Out

  /** The record a ConnectionPoint is built from: owner, kind, index among its siblings, sibling count, style, click callback. */
  datatype ConnectionPoint = ConnectionPoint(owner: Node, kind: PointKind, index: nat, siblings: nat, style: Style, onClick: Callback)

  /** A context-menu action: the built-in removal of a node, or one a node kind registers. */
  datatype MenuAction = RemoveNode(target: Node) | Custom(id: nat)

  const RemoveNodeLabel: string := "Remove Node"

  /** One invocation of a removal subscriber, with the node it was given. */
  datatype Removal = Removal(subscriber: Callback, node: Node)

  /** The invocations of a multicast `OnRemoveNode(node)`: every subscriber, in order. */
  function Notices(subscribers: seq<Callback>, node: Node): (r: seq<Removal>)
    ensures |r| == |subscribers|
    ensures forall i :: 0 <= i < |r| ==> r[i] == Removal(subscribers[i], node)
  {
    seq(|subscribers|, i requires 0 <= i < |subscribers| => Removal(subscribers[i], node))
  }

  // ---------------------------------------------------------------------------
  // Events

  datatype EventType = MouseDown | MouseUp | MouseDrag | KeyDown | Repaint | Layout | OtherEvent

  datatype KeyCode = Delete | OtherKey(code: int)

  /** The parts of a Unity Event the node reads. */
  datatype Event = Event(kind: EventType, button: int, mousePosition: Vec2, delta: Vec2, keyCode: KeyCode)

  /** The part of a node's state that event handling reads and writes. */
  datatype NodeState = NodeState(rect: Rect, selected: bool, dragged: bool, style: Option<Style>)

  /** What handling one event does: the new state, whether the event is consumed, and the effects. */
  datatype Reaction = Reaction(next: NodeState, consumed: bool, showsMenu: bool, requestsRemoval: bool)

  /** `ProcessEvents` as a function of the state, the node's two styles and the event. */
  function React(s: NodeState, defaultStyle: Option<Style>, selectedStyle: Option<Style>, e: Event): Reaction {
    match e.kind
    case MouseDown =>
      if e.button == 0 then
        if s.rect.Contains(e.mousePosition) then
          Reaction(s.(selected := true, dragged := true, style := selectedStyle), false, false, false)
        else
          Reaction(s.(selected := false, style := defaultStyle), false, false, false)
      else if e.button == 1 && s.rect.Contains(e.mousePosition) then
        Reaction(s.(selected := true, style := selectedStyle), true, true, false)
      else
        Reaction(s, false, false, false)
    case MouseUp =>
      Reaction(s.(dragged := false), false, false, false)
    case MouseDrag =>
      if e.button == 0 && s.dragged then
        Reaction(s.(rect := Translate(s.rect, e.delta)), true, false, false)
      else
        Reaction(s, false, false, false)
    case KeyDown =>
      Reaction(s, false, false, e.keyCode == Delete && s.selected)
    case _ =>
      Reaction(s, false, false, false)
  }

  /** The node is drawn in the selected style exactly when it is selected. */
  predicate StyleFollowsSelection(s: NodeState, defaultStyle: Option<Style>, selectedStyle: Option<Style>) {
    s.style == if s.selected then selectedStyle else defaultStyle
  }

  /** Dragging back by the opposite delta restores the rectangle. */
  lemma TranslateRoundTrip(r: Rect, delta: Vec2)
    ensures Translate(Translate(r, delta), Negate(delta)) == r
  {
  }

  /** Two drags move the node as one drag by the summed delta, and neither changes its size. */
  lemma TranslateCompose(r: Rect, d1: Vec2, d2: Vec2)
    ensures Translate(Translate(r, d1), d2) == Translate(r, Vec2(d1.x + d2.x, d1.y + d2.y))
    ensures Translate(r, d1).width == r.width && Translate(r, d1).height == r.height
  {
  }

  /** No event changes the node's size, and only a consumed drag moves it. */
  lemma ReactMovesOnlyOnDrag(s: NodeState, defaultStyle: Option<Style>, selectedStyle: Option<Style>, e: Event)
    ensures var r := React(s, defaultStyle, selectedStyle, e);
      && r.next.rect.width == s.rect.width && r.next.rect.height == s.rect.height
      && (r.next.rect != s.rect ==> e.kind == MouseDrag && r.consumed && r.next.rect == Translate(s.rect, e.delta))
  {
  }

  /** An event is consumed exactly when it is a right press inside the node or a left drag of a dragged node. */
  lemma ReactConsumes(s: NodeState, defaultStyle: Option<Style>, selectedStyle: Option<Style>, e: Event)
    ensures React(s, defaultStyle, selectedStyle, e).consumed <==>
      || (e.kind == MouseDown && e.button == 1 && s.rect.Contains(e.mousePosition))
      || (e.kind == MouseDrag && e.button == 0 && s.dragged)
  {
  }

  /** The context menu opens exactly on a right press inside the node, which also selects it. */
  lemma ReactShowsMenu(s: NodeState, defaultStyle: Option<Style>, selectedStyle: Option<Style>, e: Event)
    ensures var r := React(s, defaultStyle, selectedStyle, e);
      && (r.showsMenu <==> e.kind == MouseDown && e.button == 1 && s.rect.Contains(e.mousePosition))
      && (r.showsMenu ==> r.next.selected && r.next.style == selectedStyle && r.next.dragged == s.dragged)
  {
  }

  /** Removal is requested exactly on Delete pressed while selected, and the node's state stays as it is. */
  lemma ReactRemoves(s: NodeState, defaultStyle: Option<Style>, selectedStyle: Option<Style>, e: Event)
    ensures var r := React(s, defaultStyle, selectedStyle, e);
      && (r.requestsRemoval <==> e.kind == KeyDown && e.keyCode == Delete && s.selected)
      && (r.requestsRemoval ==> r.next == s && !r.consumed && !r.showsMenu)
  {
  }

  /** A left press selects the node exactly when it lands inside it, and draws it in the matching style. */
  lemma ReactLeftPressSelects(s: NodeState, defaultStyle: Option<Style>, selectedStyle: Option<Style>, e: Event)
    requires e.kind == MouseDown && e.button == 0
    ensures var r := React(s, defaultStyle, selectedStyle, e);
      && r.next.selected == s.rect.Contains(e.mousePosition)
      && r.next.dragged == (s.rect.Contains(e.mousePosition) || s.dragged)
      && r.next.style == (if s.rect.Contains(e.mousePosition) then selectedStyle else defaultStyle)
      && r.next.rect == s.rect && !r.consumed && !r.showsMenu
  {
  }

  /** What each event leaves alone. */
  lemma ReactFrame(s: NodeState, defaultStyle: Option<Style>, selectedStyle: Option<Style>, e: Event)
    ensures var r := React(s, defaultStyle, selectedStyle, e);
      && (e.kind == MouseUp ==> r.next == s.(dragged := false) && !r.consumed && !r.showsMenu && !r.requestsRemoval)
      && (e.kind == KeyDown ==> r.next == s && !r.consumed && !r.showsMenu)
      && (e.kind == MouseDown && e.button != 0 && !(e.button == 1 && s.rect.Contains(e.mousePosition)) ==>
            r == Reaction(s, false, false, false))
      && (e.kind == MouseDrag && !r.consumed ==> r == Reaction(s, false, false, false))
  {
  }

  /** Repaint, layout and every other event type change nothing and are not consumed. */
  lemma ReactIgnoresOtherEvents(s: NodeState, defaultStyle: Option<Style>, selectedStyle: Option<Style>, e: Event)
    requires e.kind !in {MouseDown, MouseUp, MouseDrag, KeyDown}
    ensures React(s, defaultStyle, selectedStyle, e) == Reaction(s, false, false, false)
  {
  }

  /** Dragging starts only with a left press inside the node, and any release ends it. */
  lemma ReactDragStartsInside(s: NodeState, defaultStyle: Option<Style>, selectedStyle: Option<Style>, e: Event)
    ensures var r := React(s, defaultStyle, selectedStyle, e);
      && (!s.dragged && r.next.dragged ==> e.kind == MouseDown && e.button == 0 && s.rect.Contains(e.mousePosition))
      && (e.kind == MouseUp ==> !r.next.dragged)
  {
  }

  /** Every event keeps the node drawn in the selected style exactly when it is selected. */
  lemma ReactKeepsStyle(s: NodeState, defaultStyle: Option<Style>, selectedStyle: Option<Style>, e: Event)
    requires StyleFollowsSelection(s, defaultStyle, selectedStyle)
    ensures StyleFollowsSelection(React(s, defaultStyle, selectedStyle, e).next, defaultStyle, selectedStyle)
  {
  }

  /**
   * A left press inside the node, one left drag by `delta` and a release leave
   * the node selected, no longer dragged, and moved by exactly `delta`.
   */
  lemma DragGesture(s: NodeState, defaultStyle: Option<Style>, selectedStyle: Option<Style>, down: Event, drag: Event, up: Event)
    requires down.kind == MouseDown && down.button == 0 && s.rect.Contains(down.mousePosition)
    requires drag.kind == MouseDrag && drag.button == 0
    requires up.kind == MouseUp
    ensures var r1 := React(s, defaultStyle, selectedStyle, down);
      var r2 := React(r1.next, defaultStyle, selectedStyle, drag);
      var r3 := React(r2.next, defaultStyle, selectedStyle, up);
      && r2.consumed
      && r3.next.rect == Translate(s.rect, drag.delta)
      && r3.next.selected && !r3.next.dragged
  {
  }

  // ---------------------------------------------------------------------------
  // Layout

  /** The controls a node kind can draw with the layout primitives. */
  datatype Control = Button | HorizontalSlider | Label | RepeatButton | TextArea | TextField | Toggle | Toolbar | VerticalSlider

  /** The bottom margins of the GUI skin's styles. */
  datatype Skin = Skin(button: int, horizontalSlider: int, labelStyle: int, textArea: int, textField: int, toggle: int, verticalSlider: int)

  /** The skin style whose bottom margin follows a control (the toolbar and repeat button use the button's). */
  function Margin(skin: Skin, c: Control): int {
    match c
    case Button => skin.button
    case RepeatButton => skin.button
    case Toolbar => skin.button
    case HorizontalSlider => skin.horizontalSlider
    case Label => skin.labelStyle
    case TextArea => skin.textArea
    case TextField => skin.textField
    case Toggle => skin.toggle
    case VerticalSlider => skin.verticalSlider
  }

  /** One call a node kind's content makes: a control with the height IMGUI gave it, or a `Space`. */
  datatype Element = Widget(control: Control, height: int) | Gap(pixels: int)

  /** What one element adds to the node's height on a repaint. */
  function Contribution(skin: Skin, e: Element): int {
    match e
    case Widget(c, h) => h + Margin(skin, c)
    case Gap(p) => p
  }

  /** The sum of the contributions of a node kind's content. */
  function ContentHeight(skin: Skin, content: seq<Element>): int {
    if content == [] then 0 else Contribution(skin, content[0]) + ContentHeight(skin, content[1..])
  }

  /** The space `Draw` puts after the title label. */
  const TitleSpacing: int := 12

  /** The height a repaint gives a node: top border, title, spacing, content, bottom border. */
  function DrawnHeight(border: Rect, skin: Skin, titleHeight: int, content: seq<Element>): int {
    border.y + (titleHeight + skin.labelStyle) + TitleSpacing + ContentHeight(skin, content) + border.height
  }

  /** Heights accumulate: the content drawn in two parts adds up to the content drawn at once. */
  lemma {:induction false} ContentHeightAppend(skin: Skin, a: seq<Element>, b: seq<Element>)
    ensures ContentHeight(skin, a + b) == ContentHeight(skin, a) + ContentHeight(skin, b)
  {
    if a == [] {
      assert a + b == b;
    } else {
      assert (a + b)[1..] == a[1..] + b;
      ContentHeightAppend(skin, a[1..], b);
    }
  }

  /** Every element adds exactly its own contribution, wherever in the content it stands. */
  lemma ContentHeightInsert(skin: Skin, a: seq<Element>, e: Element, b: seq<Element>)
    ensures ContentHeight(skin, a + [e] + b) == ContentHeight(skin, a + b) + Contribution(skin, e)
  {
    ContentHeightAppend(skin, a + [e], b);
    ContentHeightAppend(skin, a, [e]);
    ContentHeightAppend(skin, a, b);
  }

  // ---------------------------------------------------------------------------
  // The context menu

  /** `AddContextMenuEntrie` on the table: a name already present keeps its action. */
  function WithEntry(menu: map<string, MenuAction>, name: string, action: MenuAction): map<string, MenuAction> {
    if name in menu then menu else menu[name := action]
  }

  /** Registering a sequence of entries one after another. */
  function RegisterAll(menu: map<string, MenuAction>, entries: seq<(string, MenuAction)>): map<string, MenuAction>
    decreases |entries|
  {
    if entries == [] then menu else RegisterAll(WithEntry(menu, entries[0].0, entries[0].1), entries[1..])
  }

  /** Registering again under a name changes nothing: the first registration stays. */
  lemma WithEntryIdempotent(menu: map<string, MenuAction>, name: string, first: MenuAction, second: MenuAction)
    ensures WithEntry(WithEntry(menu, name, first), name, second) == WithEntry(menu, name, first)
    ensures name in WithEntry(menu, name, first)
  {
  }

  /** A registration leaves every other name, and its action, as it was. */
  lemma WithEntryOthers(menu: map<string, MenuAction>, name: string, action: MenuAction, other: string)
    requires other != name
    ensures other in WithEntry(menu, name, action) <==> other in menu
    ensures other in menu ==> WithEntry(menu, name, action)[other] == menu[other]
  {
  }

  /** Whatever is registered later, a name already in the table keeps its action. */
  lemma {:induction false} RegisterAllKeeps(menu: map<string, MenuAction>, entries: seq<(string, MenuAction)>, name: string)
    requires name in menu
    ensures name in RegisterAll(menu, entries) && RegisterAll(menu, entries)[name] == menu[name]
    decreases |entries|
  {
    if entries != [] {
      RegisterAllKeeps(WithEntry(menu, entries[0].0, entries[0].1), entries[1..], name);
    }
  }

  /** For a new name, the table ends up with the action of the name's first registration. */
  lemma {:induction false} RegisterAllFirstWins(menu: map<string, MenuAction>, entries: seq<(string, MenuAction)>, i: nat)
    requires i < |entries| && entries[i].0 !in menu
    requires forall j :: 0 <= j < i ==> entries[j].0 != entries[i].0
    ensures entries[i].0 in RegisterAll(menu, entries) && RegisterAll(menu, entries)[entries[i].0] == entries[i].1
    decreases i
  {
    var next := WithEntry(menu, entries[0].0, entries[0].1);
    if i == 0 {
      RegisterAllKeeps(next, entries[1..], entries[0].0);
    } else {
      RegisterAllFirstWins(next, entries[1..], i - 1);
    }
  }

  // ---------------------------------------------------------------------------
  // The node

  class Node {
    var id: string
    var title: string
    var nodeRect: Rect
    var border: Rect
    var inPoints: array<Option<ConnectionPoint>>
    var outPoints: array<Option<ConnectionPoint>>
    var onRemoveNode: seq<Callback>                    // the subscribers of the OnRemoveNode multicast
    var contextMenu: Option<map<string, MenuAction>>  // _contextMenuEntries, None while null
    var style: Option<Style>                          // _style, None while null
    var defaultStyle: Option<Style>
    var selectedStyle: Option<Style>
    var isDragged: bool
    var isSelected: bool
    ghost var shownMenus: seq<map<string, MenuAction>>  // every context menu shown, with its entries
    ghost var removals: seq<Removal>                    // every invocation of a removal subscriber

    /** The state event handling works on. */
    function State(): NodeState
      reads this
    {
      NodeState(nodeRect, isSelected, isDragged, style)
    }

    /** Slot i of each array holds the point with this owner, the array's kind, index i and the array's length. */
    ghost predicate PointsWellFormed()
      reads this, inPoints, outPoints
    {
      && (forall i :: 0 <= i < inPoints.Length ==> PointAt(inPoints[i], In, i, inPoints.Length))
      && (forall i :: 0 <= i < outPoints.Length ==> PointAt(outPoints[i], Out, i, outPoints.Length))
    }

    /** A slot holding a point of this node, of the given kind, at index i of n. */
    predicate PointAt(slot: Option<ConnectionPoint>, kind: PointKind, i: nat, n: nat)
      reads this
    {
      slot.Some? && slot.value.owner == this && slot.value.kind == kind && slot.value.index == i && slot.value.siblings == n
    }

    /** Every slot holds a point; before `Init` the slots are null. */
    ghost predicate PointsCreated()
      reads this, inPoints, outPoints
    {
      && (forall i :: 0 <= i < inPoints.Length ==> inPoints[i].Some?)
      && (forall i :: 0 <= i < outPoints.Length ==> outPoints[i].Some?)
    }

    /** `Node(editor, position, width, height, numOfInPoints, numOfOutPoints)`: the point arrays are sized but empty. */
    constructor(position: Vec2, width: int, height: int, numOfInPoints: nat, numOfOutPoints: nat)
      ensures nodeRect == Rect(position.x, position.y, width, height)
      ensures fresh(inPoints) && fresh(outPoints)
      ensures inPoints.Length == numOfInPoints && outPoints.Length == numOfOutPoints
      ensures forall i :: 0 <= i < numOfInPoints ==> inPoints[i].None?
      ensures forall i :: 0 <= i < numOfOutPoints ==> outPoints[i].None?
      ensures id == "ID" && title == "Title" && border == Rect(12, 12, 12, 12)
      ensures onRemoveNode == [] && contextMenu.None?
      ensures style.None? && defaultStyle.None? && selectedStyle.None?
      ensures !isDragged && !isSelected && shownMenus == [] && removals == []
    {
      id := "ID";
      title := "Title";
      border := Rect(12, 12, 12, 12);
      nodeRect := Rect(position.x, position.y, width, height);
      inPoints := new Option<ConnectionPoint>[numOfInPoints](_ => None);
      outPoints := new Option<ConnectionPoint>[numOfOutPoints](_ => None);
      onRemoveNode := [];
      contextMenu := None;
      style, defaultStyle, selectedStyle := None, None, None;
      isDragged, isSelected := false, false;
      shownMenus, removals := [], [];
    }

    /** `MemberwiseClone`: every field copied, the point arrays and so the points themselves shared. */
    constructor Copy(other: Node)
      ensures id == other.id && title == other.title && nodeRect == other.nodeRect && border == other.border
      ensures inPoints == other.inPoints && outPoints == other.outPoints
      ensures onRemoveNode == other.onRemoveNode && contextMenu == other.contextMenu
      ensures style == other.style && defaultStyle == other.defaultStyle && selectedStyle == other.selectedStyle
      ensures isDragged == other.isDragged && isSelected == other.isSelected
      ensures shownMenus == [] && removals == []
    {
      id, title, nodeRect, border := other.id, other.title, other.nodeRect, other.border;
      inPoints, outPoints := other.inPoints, other.outPoints;
      onRemoveNode, contextMenu := other.onRemoveNode, other.contextMenu;
      style, defaultStyle, selectedStyle := other.style, other.defaultStyle, other.selectedStyle;
      isDragged, isSelected := other.isDragged, other.isSelected;
      shownMenus, removals := [], [];
    }

    /**
     * `Clone`: a new node sharing this node's point arrays, whose points still
     * name this node as their owner, and whose menu still removes this node.
     */
    method Clone() returns (c: Node)
      ensures fresh(c) && c != this
      ensures c.State() == State() && c.id == id && c.title == title && c.border == border
      ensures c.inPoints == inPoints && c.outPoints == outPoints
      ensures c.onRemoveNode == onRemoveNode && c.contextMenu == contextMenu
      ensures c.defaultStyle == defaultStyle && c.selectedStyle == selectedStyle
      ensures PointsWellFormed() ==> forall i :: 0 <= i < c.inPoints.Length ==> c.inPoints[i].value.owner == this
      ensures PointsWellFormed() ==> forall i :: 0 <= i < c.outPoints.Length ==> c.outPoints[i].value.owner == this
    {
      c := new Node.Copy(this);
    }

    /**
     * `Init`: places the node, sets its styles, subscribes `onRemove` (once
     * more on every call), starts a fresh menu holding only "Remove Node", and
     * fills new point arrays of the old lengths. The node kind's own `Init()`
     * hook is a no-op here.
     */
    method Init(position: Vec2, nodeStyle: Style, selected: Style, inPointStyle: Style, outPointStyle: Style,
                onClickInPoint: Callback, onClickOutPoint: Callback, onRemove: Callback)
      modifies this`nodeRect, this`defaultStyle, this`selectedStyle, this`style, this`onRemoveNode
      modifies this`contextMenu, this`inPoints, this`outPoints
      ensures nodeRect == old(nodeRect).(x := position.x, y := position.y)
      ensures defaultStyle == Some(nodeStyle) && selectedStyle == Some(selected) && style == Some(nodeStyle)
      ensures onRemoveNode == old(onRemoveNode) + [onRemove]
      ensures contextMenu == Some(map[RemoveNodeLabel := RemoveNode(this)])
      ensures fresh(inPoints) && fresh(outPoints)
      ensures inPoints.Length == old(inPoints.Length) && outPoints.Length == old(outPoints.Length)
      ensures forall i :: 0 <= i < inPoints.Length ==>
        inPoints[i] == Some(ConnectionPoint(this, In, i, inPoints.Length, inPointStyle, onClickInPoint))
      ensures forall i :: 0 <= i < outPoints.Length ==>
        outPoints[i] == Some(ConnectionPoint(this, Out, i, outPoints.Length, outPointStyle, onClickOutPoint))
      ensures PointsWellFormed() && PointsCreated()
      ensures !isSelected ==> StyleFollowsSelection(State(), defaultStyle, selectedStyle)
    {
      nodeRect := nodeRect.(x := position.x, y := position.y);

      defaultStyle := Some(nodeStyle);
      selectedStyle := Some(selected);
      style := defaultStyle;

      onRemoveNode := onRemoveNode + [onRemove];

      contextMenu := Some(map[]);
      AddContextMenuEntry(RemoveNodeLabel, RemoveNode(this));

      var ins := NewPoints(In, inPoints.Length, inPointStyle, onClickInPoint);
      var outs := NewPoints(Out, outPoints.Length, outPointStyle, onClickOutPoint);
      inPoints, outPoints := ins, outs;
    }

    /** The loop of `Init` that fills a new array of `n` points of one kind. */
    method NewPoints(kind: PointKind, n: nat, pointStyle: Style, onClick: Callback) returns (a: array<Option<ConnectionPoint>>)
      ensures fresh(a) && a.Length == n
      ensures forall i :: 0 <= i < n ==> a[i] == Some(ConnectionPoint(this, kind, i, n, pointStyle, onClick))
    {
      a := new Option<ConnectionPoint>[n](_ => None);
      for i := 0 to n
        invariant forall k :: 0 <= k < i ==> a[k] == Some(ConnectionPoint(this, kind, k, n, pointStyle, onClick))
      {
        a[i] := Some(ConnectionPoint(this, kind, i, n, pointStyle, onClick));
      }
    }

    /** `Drag`: moves the node by `delta`, keeping its size. */
    method Drag(delta: Vec2)
      modifies this`nodeRect
      ensures nodeRect == Translate(old(nodeRect), delta)
    {
      nodeRect := nodeRect.(x := nodeRect.x + delta.x, y := nodeRect.y + delta.y);
    }

    /**
     * A layout primitive (`Button`, `HorizontalSlider`, `Label`, `RepeatButton`,
     * `TextArea`, `TextField`, `Toggle`, `Toolbar`, `VerticalSlider`): on a
     * repaint the node grows by the control's height and its style's margin.
     */
    method Place(repaint: bool, control: Control, lastRectHeight: int, skin: Skin)
      modifies this`nodeRect
      ensures repaint ==> nodeRect == old(nodeRect).(height := old(nodeRect).height + Contribution(skin, Widget(control, lastRectHeight)))
      ensures !repaint ==> nodeRect == old(nodeRect)
    {
      if repaint {
        nodeRect := nodeRect.(height := nodeRect.height + lastRectHeight + Margin(skin, control));
      }
    }

    /** `Space(pixels)`: on a repaint the node grows by `pixels`. */
    method Space(repaint: bool, pixels: int)
      modifies this`nodeRect
      ensures repaint ==> nodeRect == old(nodeRect).(height := old(nodeRect).height + pixels)
      ensures !repaint ==> nodeRect == old(nodeRect)
    {
      if repaint {
        nodeRect := nodeRect.(height := nodeRect.height + pixels);
      }
    }

    /**
     * `Draw`: on a repaint the height restarts at the top border, grows with the
     * title label, the spacing and every content element, and ends with the
     * bottom border; on any other event it is left alone. `content` is what the
     * node kind's `DrawContent` draws, `titleHeight` the title label's height.
     */
    method Draw(repaint: bool, skin: Skin, titleHeight: int, content: seq<Element>)
      requires PointsCreated()
      modifies this`nodeRect
      ensures repaint ==> nodeRect == old(nodeRect).(height := DrawnHeight(border, skin, titleHeight, content))
      ensures !repaint ==> nodeRect == old(nodeRect)
    {
      if repaint {
        nodeRect := nodeRect.(height := border.y);
      }
      Place(repaint, Label, titleHeight, skin);
      Space(repaint, TitleSpacing);
      ghost var top := border.y + (titleHeight + skin.labelStyle) + TitleSpacing;
      for i := 0 to |content|
        invariant repaint ==> nodeRect == old(nodeRect).(height := top + ContentHeight(skin, content[..i]))
        invariant !repaint ==> nodeRect == old(nodeRect)
      {
        ContentHeightAppend(skin, content[..i], [content[i]]);
        assert content[..i + 1] == content[..i] + [content[i]];
        match content[i]
        case Widget(c, h) => Place(repaint, c, h, skin);
        case Gap(p) => Space(repaint, p);
      }
      assert content[..|content|] == content;
      if repaint {
        nodeRect := nodeRect.(height := nodeRect.height + border.height);
      }
    }

    /** `ProcessContextMenu`: shows a menu holding the table's entries. */
    method ProcessContextMenu()
      requires contextMenu.Some?
      modifies this`shownMenus
      ensures shownMenus == old(shownMenus) + [contextMenu.value]
    {
      shownMenus := shownMenus + [contextMenu.value];
    }

    /** `OnClickRemoveNode`: every removal subscriber is called with this node; none are called when there are none. */
    method OnClickRemoveNode()
      modifies this`removals
      ensures removals == old(removals) + Notices(onRemoveNode, this)
    {
      removals := removals + Notices(onRemoveNode, this);
    }

    /** `AddContextMenuEntrie`: the first registration of a name wins. */
    method AddContextMenuEntry(displayName: string, action: MenuAction)
      requires contextMenu.Some?
      modifies this`contextMenu
      ensures contextMenu == Some(WithEntry(old(contextMenu).value, displayName, action))
    {
      if displayName in contextMenu.value {
        return;
      }
      contextMenu := Some(contextMenu.value[displayName := action]);
    }

    /**
     * `ProcessEvents`: the new state and the answer are those `React` gives; a
     * shown menu holds the table's entries, a removal request reaches every
     * subscriber. The menu table is null before `Init`, where a right click
     * inside the node would throw.
     */
    method ProcessEvents(e: Event) returns (consumed: bool)
      requires contextMenu.None? ==> !(e.kind == MouseDown && e.button == 1 && nodeRect.Contains(e.mousePosition))
      modifies this`isSelected, this`isDragged, this`style, this`nodeRect, this`shownMenus, this`removals
      ensures var r := React(old(State()), defaultStyle, selectedStyle, e);
        && State() == r.next
        && consumed == r.consumed
        && shownMenus == old(shownMenus) + (if r.showsMenu then [contextMenu.value] else [])
        && removals == old(removals) + (if r.requestsRemoval then Notices(onRemoveNode, this) else [])
    {
      match e.kind {
        case MouseDown =>
          if e.button == 0 {
            if nodeRect.Contains(e.mousePosition) {
              isSelected := true;
              isDragged := true;
              style := selectedStyle;
            } else {
              isSelected := false;
              style := defaultStyle;
            }
          }
          if e.button == 1 {
            if nodeRect.Contains(e.mousePosition) {
              isSelected := true;
              style := selectedStyle;
              ProcessContextMenu();
              return true;
            }
          }
        case MouseUp =>
          isDragged := false;
        case MouseDrag =>
          if e.button == 0 && isDragged {
            Drag(e.delta);
            return true;
          }
        case KeyDown =>
          if e.keyCode == Delete && isSelected {
            OnClickRemoveNode();
          }
        case _ =>
      }
      return false;
    }
  }
}
