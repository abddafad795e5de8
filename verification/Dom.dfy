/** The DOM builder (xml.rs parse_dom): a stack machine over the reader's events, and what documents it
    accepts. */
module Dom {
  import opened Wrappers
  import Paths

  datatype Node = Node(name: string, attributes: map<string, string>, children: seq<Node>, text: string)

  /** The reader's events with names, attributes and text already decoded; Malformed stands for an event
      that the reader or a decoder rejects. */
  datatype Event =
    | Start(name: string, attributes: map<string, string>)
    | Empty(name: string, attributes: map<string, string>)
    | End
    | Text(text: string)
    | CData(text: string)
    | Reference(text: string)
    | DocType
    | Misc
    | Malformed

  datatype Limits = Limits(maxNodes: nat, maxDepth: nat)

  // ---- the machine -----------------------------------------------------------------------------

  datatype Machine = Machine(stack: seq<Node>, root: Option<Node>, nodes: nat)

  const INITIAL := Machine([], None, 0)

  predicate Blank(text: string) { forall c <- text :: Paths.IsSpace(c) }

  /** A finished element goes to its parent, or becomes the root if there is none yet. */
  function Attach(m: Machine, node: Node): Option<Machine> {
    if m.stack != [] then
      var top := m.stack[|m.stack| - 1];
      Some(m.(stack := m.stack[..|m.stack| - 1] + [top.(children := top.children + [node])]))
    else if m.root.Some? then None
    else Some(m.(root := Some(node)))
  }

  function AddText(m: Machine, text: string): Machine
    requires m.stack != []
  {
    var top := m.stack[|m.stack| - 1];
    m.(stack := m.stack[..|m.stack| - 1] + [top.(text := top.text + text)])
  }

  predicate Admits(m: Machine, limits: Limits) { m.nodes < limits.maxNodes && |m.stack| < limits.maxDepth }

  /** The reaction to one event; nothing where the source returns an error. */
  function Step(m: Machine, e: Event, limits: Limits): Option<Machine> {
    match e
    case Start(name, attributes) =>
      if !Admits(m, limits) then None
      else Some(m.(nodes := m.nodes + 1, stack := m.stack + [Node(name, attributes, [], "")]))
    case Empty(name, attributes) =>
      if !Admits(m, limits) then None
      else Attach(m.(nodes := m.nodes + 1), Node(name, attributes, [], ""))
    case End =>
      if m.stack == [] then None
      else Attach(m.(stack := m.stack[..|m.stack| - 1]), m.stack[|m.stack| - 1])
    case Text(text) => if m.stack != [] then Some(AddText(m, text)) else if Blank(text) then Some(m) else None
    case CData(text) => if m.stack != [] then Some(AddText(m, text)) else Some(m)
    case Reference(text) => if m.stack != [] then Some(AddText(m, text)) else None
    case Misc => Some(m)
    case DocType => None
    case Malformed => None
  }

  function Run(m: Machine, events: seq<Event>, limits: Limits): Option<Machine>
    decreases |events|
  {
    if events == [] then Some(m)
    else
      var next := Step(m, events[0], limits);
      if next.None? then None else Run(next.value, events[1..], limits)
  }

  function Outcome(m: Option<Machine>): Option<Node> {
    if m.Some? && m.value.stack == [] then m.value.root else None
  }

  function Parsed(events: seq<Event>, limits: Limits): Option<Node> { Outcome(Run(INITIAL, events, limits)) }

  /** The run from one event on, and from behind the last one. */
  lemma RunAt(m: Machine, events: seq<Event>, i: nat, limits: Limits)
    requires i <= |events|
    ensures i < |events| ==>
              Run(m, events[i..], limits)
              == (if Step(m, events[i], limits).None? then None
                  else Run(Step(m, events[i], limits).value, events[i + 1..], limits))
    ensures i == |events| ==> Run(m, events[i..], limits) == Some(m)
  {
    hide Step;
    assert i < |events| ==> events[i..][1..] == events[i + 1..];
  }

  /** parse_dom. */
  method ParseDom(events: seq<Event>, limits: Limits) returns (result: Option<Node>)
    ensures result == Parsed(events, limits)
  {
    hide Run;
    var stack: seq<Node> := [];
    var root: Option<Node> := None;
    var nodes := 0;
    for i := 0 to |events|
      invariant Run(INITIAL, events, limits) == Run(Machine(stack, root, nodes), events[i..], limits)
    {
      ghost var before := Machine(stack, root, nodes);
      RunAt(before, events, i, limits);
      match events[i] {
        case Start(name, attributes) =>
          nodes := nodes + 1;
          if nodes > limits.maxNodes || |stack| >= limits.maxDepth {
            return None;
          }
          stack := stack + [Node(name, attributes, [], "")];
        case Empty(name, attributes) =>
          nodes := nodes + 1;
          if nodes > limits.maxNodes || |stack| >= limits.maxDepth {
            return None;
          }
          var attached := Attach(Machine(stack, root, nodes), Node(name, attributes, [], ""));
          if attached.None? {
            return None;
          }
          stack, root := attached.value.stack, attached.value.root;
        case End =>
          if stack == [] {
            return None;
          }
          var node := stack[|stack| - 1];
          var attached := Attach(Machine(stack[..|stack| - 1], root, nodes), node);
          if attached.None? {
            return None;
          }
          stack, root := attached.value.stack, attached.value.root;
        case Text(text) =>
          if stack != [] {
            stack := AddText(Machine(stack, root, nodes), text).stack;
          } else if !Blank(text) {
            return None;
          }
        case CData(text) =>
          if stack != [] {
            stack := AddText(Machine(stack, root, nodes), text).stack;
          }
        case Reference(text) =>
          if stack == [] {
            return None;
          }
          stack := AddText(Machine(stack, root, nodes), text).stack;
        case Misc =>
        case DocType =>
          return None;
        case Malformed =>
          return None;
      }
      assert Step(before, events[i], limits) == Some(Machine(stack, root, nodes));
    }
    RunAt(Machine(stack, root, nodes), events, |events|, limits);
    result := if stack != [] then None else root;
  }

  // ---- documents ---------------------------------------------------------------------------------

  datatype Style = Plain | Section | Entity

  /** Marked-up text with its structure, in order. */
  datatype Item =
    | Words(style: Style, text: string)
    | Noise
    | Single(name: string, attributes: map<string, string>)
    | Element(name: string, attributes: map<string, string>, items: seq<Item>)

  predicate IsElement(item: Item) { item.Single? || item.Element? }

  function WordsEvent(style: Style, text: string): Event {
    match style
    case Plain => Text(text)
    case Section => CData(text)
    case Entity => Reference(text)
  }

  function EventsOf(item: Item): seq<Event>
    decreases item
  {
    match item
    case Words(style, text) => [WordsEvent(style, text)]
    case Noise => [Misc]
    case Single(name, attributes) => [Empty(name, attributes)]
    case Element(name, attributes, items) => [Start(name, attributes)] + Flatten(items) + [End]
  }

  /** The events of a sequence of items. */
  function Flatten(items: seq<Item>): seq<Event>
    decreases items
  {
    if items == [] then [] else EventsOf(items[0]) + Flatten(items[1..])
  }

  function TextOf(items: seq<Item>): string {
    if items == [] then "" else (if items[0].Words? then items[0].text else "") + TextOf(items[1..])
  }

  /** The trees of the elements among the items. */
  function Trees(items: seq<Item>): seq<Node>
    decreases items
  {
    if items == [] then [] else (if IsElement(items[0]) then [Tree(items[0])] else []) + Trees(items[1..])
  }

  function Tree(item: Item): Node
    requires IsElement(item)
    decreases item
  {
    match item
    case Single(name, attributes) => Node(name, attributes, [], "")
    case Element(name, attributes, items) => Node(name, attributes, Trees(items), TextOf(items))
  }

  function Count(items: seq<Item>): nat
    decreases items
  {
    if items == [] then 0 else CountOne(items[0]) + Count(items[1..])
  }

  function CountOne(item: Item): nat
    decreases item
  {
    match item
    case Single(_, _) => 1
    case Element(_, _, items) => 1 + Count(items)
    case _ => 0
  }

  function Max(a: nat, b: nat): nat { if a < b then b else a }

  function Depth(items: seq<Item>): nat
    decreases items
  {
    if items == [] then 0 else Max(DepthOne(items[0]), Depth(items[1..]))
  }

  function DepthOne(item: Item): nat
    decreases item
  {
    match item
    case Single(_, _) => 1
    case Element(_, _, items) => 1 + Depth(items)
    case _ => 0
  }

  /** What may stand beside the root element. */
  predicate Outside(item: Item) {
    item.Noise? || (item.Words? && (item.style.Section? || (item.style.Plain? && Paths.TrimStart(item.text) == "")))
  }

  /** One root element, with nothing beside it but comments, declarations, blanks and CDATA sections. */
  ghost predicate IsDocument(items: seq<Item>, root: Node) {
    Trees(items) == [root] && forall item <- items :: IsElement(item) || Outside(item)
  }

  lemma {:induction false} BlankIsTrimmedAway(text: string)
    ensures Blank(text) <==> Paths.TrimStart(text) == ""
  {
    if text != "" {
      Paths.WhiteSpaceExactly(text[0]);
      BlankIsTrimmedAway(text[1..]);
      assert text == [text[0]] + text[1..];
    }
  }

  // ---- every document within the limits is accepted ----------------------------------------------------

  /** A node that has taken in one more item. */
  function Grown(top: Node, item: Item): Node {
    top.(children := top.children + (if IsElement(item) then [Tree(item)] else []),
         text := top.text + (if item.Words? then item.text else ""))
  }

  function GrownAll(top: Node, items: seq<Item>): Node {
    top.(children := top.children + Trees(items), text := top.text + TextOf(items))
  }

  lemma GrownStep(top: Node, items: seq<Item>)
    requires items != []
    ensures GrownAll(Grown(top, items[0]), items[1..]) == GrownAll(top, items)
  {
    var head := if IsElement(items[0]) then [Tree(items[0])] else [];
    assert (top.children + head) + Trees(items[1..]) == top.children + (head + Trees(items[1..]));
    var word := if items[0].Words? then items[0].text else "";
    assert (top.text + word) + TextOf(items[1..]) == top.text + (word + TextOf(items[1..]));
  }

  lemma RunStep(m: Machine, e: Event, rest: seq<Event>, limits: Limits)
    ensures Run(m, [e] + rest, limits)
            == (if Step(m, e, limits).None? then None else Run(Step(m, e, limits).value, rest, limits))
  {
    assert ([e] + rest)[1..] == rest;
  }

  /** The machine inside an element: the enclosing elements, the innermost one, and the rest. */
  function Inside(below: seq<Node>, top: Node, root: Option<Node>, nodes: nat): Machine {
    Machine(below + [top], root, nodes)
  }

  lemma InsideIsStacked(below: seq<Node>, top: Node, root: Option<Node>, nodes: nat)
    ensures var m := Inside(below, top, root, nodes);
      m.stack != [] && m.stack[|m.stack| - 1] == top && m.stack[..|m.stack| - 1] == below
  {
  }

  /** The events of an element, the element as it is opened, and as it is once its items have been taken in. */
  lemma ElementUnfolds(item: Item, rest: seq<Event>)
    requires item.Element?
    ensures EventsOf(item) + rest == [Start(item.name, item.attributes)] + (Flatten(item.items) + ([End] + rest))
    ensures GrownAll(Node(item.name, item.attributes, [], ""), item.items) == Tree(item)
    ensures CountOne(item) == 1 + Count(item.items) && DepthOne(item) == 1 + Depth(item.items)
  {
    hide Flatten, Trees, TextOf, Count, Depth;
    assert EventsOf(item) == [Start(item.name, item.attributes)] + Flatten(item.items) + [End];
    Regroup([Start(item.name, item.attributes)], Flatten(item.items), [End]);
    Regroup([Start(item.name, item.attributes)], Flatten(item.items) + [End], rest);
    Regroup(Flatten(item.items), [End], rest);
    assert [] + Trees(item.items) == Trees(item.items) && "" + TextOf(item.items) == TextOf(item.items);
  }

  lemma OpeningSteps(below: seq<Node>, root: Option<Node>, nodes: nat, name: string,
                     attributes: map<string, string>, limits: Limits)
    requires nodes < limits.maxNodes && |below| < limits.maxDepth
    ensures Step(Machine(below, root, nodes), Start(name, attributes), limits)
            == Some(Inside(below, Node(name, attributes, [], ""), root, nodes + 1))
  {
  }

  lemma ClosingSteps(below: seq<Node>, top: Node, root: Option<Node>, nodes: nat, limits: Limits)
    ensures Step(Inside(below, top, root, nodes), End, limits) == Attach(Machine(below, root, nodes), top)
  {
    InsideIsStacked(below, top, root, nodes);
  }

  lemma {:induction false} ElementRuns(below: seq<Node>, root: Option<Node>, nodes: nat, item: Item,
                                       rest: seq<Event>, limits: Limits)
    requires item.Element? && nodes + CountOne(item) <= limits.maxNodes
    requires |below| + DepthOne(item) <= limits.maxDepth
    ensures Run(Machine(below, root, nodes), EventsOf(item) + rest, limits)
            == (var attached := Attach(Machine(below, root, nodes + CountOne(item)), Tree(item));
                if attached.None? then None else Run(attached.value, rest, limits))
    decreases item, 0
  {
    hide Run, Step, Attach, Inside, EventsOf, Flatten, GrownAll, Tree, CountOne, DepthOne, Count, Depth;
    var hollow := Node(item.name, item.attributes, [], "");
    var inner := Flatten(item.items);
    ElementUnfolds(item, rest);
    OpeningSteps(below, root, nodes, item.name, item.attributes, limits);
    RunStep(Machine(below, root, nodes), Start(item.name, item.attributes), inner + ([End] + rest), limits);
    ItemsRun(below, hollow, root, nodes + 1, item.items, [End] + rest, limits);
    ClosingSteps(below, Tree(item), root, nodes + CountOne(item), limits);
    RunStep(Inside(below, Tree(item), root, nodes + CountOne(item)), End, rest, limits);
  }

  /** Taking in words or an empty element, and taking in a finished one. */
  lemma WordsStep(below: seq<Node>, top: Node, root: Option<Node>, nodes: nat, item: Item, limits: Limits)
    requires item.Words?
    ensures EventsOf(item) == [WordsEvent(item.style, item.text)]
    ensures Step(Inside(below, top, root, nodes), WordsEvent(item.style, item.text), limits)
            == Some(Inside(below, Grown(top, item), root, nodes))
  {
    InsideIsStacked(below, top, root, nodes);
    assert top.children + [] == top.children;
  }

  lemma SingleStep(below: seq<Node>, top: Node, root: Option<Node>, nodes: nat, item: Item, limits: Limits)
    requires item.Single? && nodes < limits.maxNodes && |below| + 1 < limits.maxDepth
    ensures EventsOf(item) == [Empty(item.name, item.attributes)]
    ensures Step(Inside(below, top, root, nodes), Empty(item.name, item.attributes), limits)
            == Some(Inside(below, Grown(top, item), root, nodes + 1))
  {
    AttachingGrows(below, top, root, nodes + 1, item);
  }

  lemma AttachingGrows(below: seq<Node>, top: Node, root: Option<Node>, nodes: nat, item: Item)
    requires IsElement(item)
    ensures Attach(Inside(below, top, root, nodes), Tree(item)) == Some(Inside(below, Grown(top, item), root, nodes))
  {
    hide Tree;
    InsideIsStacked(below, top, root, nodes);
    assert top.text + "" == top.text;
  }

  lemma {:induction false} ItemRuns(below: seq<Node>, top: Node, root: Option<Node>, nodes: nat, item: Item,
                                    rest: seq<Event>, limits: Limits)
    requires nodes + CountOne(item) <= limits.maxNodes && |below| + 1 + DepthOne(item) <= limits.maxDepth
    ensures Run(Inside(below, top, root, nodes), EventsOf(item) + rest, limits)
            == Run(Inside(below, Grown(top, item), root, nodes + CountOne(item)), rest, limits)
    decreases item, 1
  {
    hide Run, Step, Attach, Grown;
    var m := Inside(below, top, root, nodes);
    match item {
      case Words(style, text) =>
        WordsStep(below, top, root, nodes, item, limits);
        RunStep(m, WordsEvent(style, text), rest, limits);
      case Noise => NoiseRuns(below, top, root, nodes, rest, limits);
      case Single(name, attributes) =>
        SingleStep(below, top, root, nodes, item, limits);
        RunStep(m, Empty(name, attributes), rest, limits);
      case Element(_, _, _) =>
        ElementRuns(below + [top], root, nodes, item, rest, limits);
        AttachingGrows(below, top, root, nodes + CountOne(item), item);
    }
  }

  lemma NoiseRuns(below: seq<Node>, top: Node, root: Option<Node>, nodes: nat, rest: seq<Event>, limits: Limits)
    ensures Grown(top, Noise) == top && EventsOf(Noise) == [Misc]
    ensures Run(Inside(below, top, root, nodes), [Misc] + rest, limits) == Run(Inside(below, top, root, nodes), rest, limits)
  {
    assert top.children + [] == top.children && top.text + "" == top.text;
    RunStep(Inside(below, top, root, nodes), Misc, rest, limits);
    hide Run;
  }

  lemma {:induction false} ItemsRun(below: seq<Node>, top: Node, root: Option<Node>, nodes: nat, items: seq<Item>,
                                    rest: seq<Event>, limits: Limits)
    requires nodes + Count(items) <= limits.maxNodes && |below| + 1 + Depth(items) <= limits.maxDepth
    ensures Run(Inside(below, top, root, nodes), Flatten(items) + rest, limits)
            == Run(Inside(below, GrownAll(top, items), root, nodes + Count(items)), rest, limits)
    decreases items
  {
    hide Run, Inside, Grown, GrownAll, EventsOf, Flatten, Count, Depth, CountOne, DepthOne, Trees, Tree, TextOf;
    if items == [] {
      NoItems(top, rest);
    } else {
      var item, others := items[0], items[1..];
      UnfoldEvents(items, rest);
      UnfoldSizes(items);
      ItemRuns(below, top, root, nodes, item, Flatten(others) + rest, limits);
      ItemsRun(below, Grown(top, item), root, nodes + CountOne(item), others, rest, limits);
      GrownStep(top, items);
    }
  }

  lemma NoItems(top: Node, rest: seq<Event>)
    ensures Flatten([]) + rest == rest && GrownAll(top, []) == top
    ensures Count([]) == 0 && Trees([]) == []
  {
    assert top.children + [] == top.children && top.text + "" == top.text;
  }

  lemma Regroup<T>(a: seq<T>, b: seq<T>, c: seq<T>)
    ensures (a + b) + c == a + (b + c)
  {
  }

  lemma FlattenHead(items: seq<Item>)
    requires items != []
    ensures Flatten(items) == EventsOf(items[0]) + Flatten(items[1..])
  {
  }

  lemma UnfoldEvents(items: seq<Item>, rest: seq<Event>)
    requires items != []
    ensures Flatten(items) + rest == EventsOf(items[0]) + (Flatten(items[1..]) + rest)
  {
    hide EventsOf, Flatten;
    FlattenHead(items);
    Regroup(EventsOf(items[0]), Flatten(items[1..]), rest);
  }

  lemma UnfoldSizes(items: seq<Item>)
    requires items != []
    ensures Count(items) == CountOne(items[0]) + Count(items[1..])
    ensures DepthOne(items[0]) <= Depth(items) && Depth(items[1..]) <= Depth(items)
    ensures Trees(items) == (if IsElement(items[0]) then [Tree(items[0])] else []) + Trees(items[1..])
  {
  }

  /** At top level: elements become the root, once, and what may stand outside is passed over. */
  lemma {:induction false} OutsideRuns(root: Option<Node>, nodes: nat, items: seq<Item>, rest: seq<Event>, limits: Limits)
    requires forall item <- items :: IsElement(item) || Outside(item)
    requires nodes + Count(items) <= limits.maxNodes && Depth(items) <= limits.maxDepth
    requires |Trees(items)| + (if root.Some? then 1 else 0) <= 1
    ensures Run(Machine([], root, nodes), Flatten(items) + rest, limits)
            == Run(Machine([], if Trees(items) == [] then root else Some(Trees(items)[0]), nodes + Count(items)), rest, limits)
    decreases items
  {
    hide Run, Count, Depth, Flatten, Trees, Tree, CountOne, DepthOne, EventsOf, Outside;
    if items == [] {
      NoItems(Node("", map[], [], ""), rest);
    } else {
      var item, others := items[0], items[1..];
      assert forall x <- others :: x in items;
      UnfoldEvents(items, rest);
      UnfoldSizes(items);
      OutsideItemRuns(root, nodes, item, Flatten(others) + rest, limits);
      OutsideRuns(if IsElement(item) then Some(Tree(item)) else root, nodes + CountOne(item), others, rest, limits);
    }
  }

  lemma OutsideWordsRun(root: Option<Node>, nodes: nat, style: Style, text: string, rest: seq<Event>, limits: Limits)
    requires Outside(Words(style, text))
    ensures Run(Machine([], root, nodes), [WordsEvent(style, text)] + rest, limits)
            == Run(Machine([], root, nodes), rest, limits)
  {
    hide Blank, Run;
    BlankIsTrimmedAway(text);
    RunStep(Machine([], root, nodes), WordsEvent(style, text), rest, limits);
  }

  lemma OutsideItemRuns(root: Option<Node>, nodes: nat, item: Item, rest: seq<Event>, limits: Limits)
    requires IsElement(item) || Outside(item)
    requires nodes + CountOne(item) <= limits.maxNodes && DepthOne(item) <= limits.maxDepth
    requires IsElement(item) ==> root.None?
    ensures Run(Machine([], root, nodes), EventsOf(item) + rest, limits)
            == Run(Machine([], if IsElement(item) then Some(Tree(item)) else root, nodes + CountOne(item)), rest, limits)
  {
    match item {
      case Words(style, text) => OutsideWordsRun(root, nodes, style, text, rest, limits);
      case Noise => RunStep(Machine([], root, nodes), Misc, rest, limits);
      case Single(name, attributes) => RunStep(Machine([], root, nodes), Empty(name, attributes), rest, limits);
      case Element(_, _, _) => ElementRuns([], root, nodes, item, rest, limits);
    }
  }

  lemma DocumentIsAccepted(items: seq<Item>, root: Node, limits: Limits)
    requires IsDocument(items, root) && Count(items) <= limits.maxNodes && Depth(items) <= limits.maxDepth
    ensures Parsed(Flatten(items), limits) == Some(root)
  {
    hide Flatten, Trees, Count, Depth, Step, IsElement, Outside;
    OutsideRuns(None, 0, items, [], limits);
    assert Flatten(items) + [] == Flatten(items);
  }

  // ---- and nothing else is ------------------------------------------------------------------------------------

  /** An element that has been opened, with what it holds so far. */
  datatype Frame = Frame(name: string, attributes: map<string, string>, items: seq<Item>)

  /** How the events so far are structured: the items at top level, then the open elements. */
  datatype Trace = Trace(outer: seq<Item>, frames: seq<Frame>)

  function FrameNode(f: Frame): Node { Node(f.name, f.attributes, Trees(f.items), TextOf(f.items)) }

  function FrameEvents(f: Frame): seq<Event> { [Start(f.name, f.attributes)] + Flatten(f.items) }

  function FramesEvents(frames: seq<Frame>): seq<Event> {
    if frames == [] then [] else FramesEvents(frames[..|frames| - 1]) + FrameEvents(frames[|frames| - 1])
  }

  function FramesCount(frames: seq<Frame>): nat {
    if frames == [] then 0 else FramesCount(frames[..|frames| - 1]) + 1 + Count(frames[|frames| - 1].items)
  }

  function TraceEvents(t: Trace): seq<Event> { Flatten(t.outer) + FramesEvents(t.frames) }

  ghost predicate Explains(t: Trace, m: Machine, limits: Limits) {
    && |m.stack| == |t.frames|
    && (forall k :: 0 <= k < |t.frames| ==>
          m.stack[k] == FrameNode(t.frames[k]) && k + 1 + Depth(t.frames[k].items) <= limits.maxDepth)
    && Trees(t.outer) == (if m.root.None? then [] else [m.root.value])
    && (forall item <- t.outer :: IsElement(item) || Outside(item))
    && m.nodes == Count(t.outer) + FramesCount(t.frames) && m.nodes <= limits.maxNodes
    && Depth(t.outer) <= limits.maxDepth
  }

  /** One more item where the trace ends. */
  function Took(t: Trace, item: Item): Trace {
    if t.frames == [] then t.(outer := t.outer + [item])
    else
      var n := |t.frames| - 1;
      t.(frames := t.frames[..n] + [t.frames[n].(items := t.frames[n].items + [item])])
  }

  lemma {:induction false} AppendedEvents(items: seq<Item>, item: Item)
    ensures Flatten(items + [item]) == Flatten(items) + EventsOf(item)
  {
    if items == [] {
      assert items + [item] == [item] && [item][1..] == [];
      assert EventsOf(item) + [] == EventsOf(item) == [] + EventsOf(item);
    } else {
      assert (items + [item])[1..] == items[1..] + [item];
      AppendedEvents(items[1..], item);
      var a, b, c := EventsOf(items[0]), Flatten(items[1..]), EventsOf(item);
      hide EventsOf;
      assert a + (b + c) == (a + b) + c;
    }
  }

  lemma {:induction false} AppendedTrees(items: seq<Item>, item: Item)
    ensures Trees(items + [item]) == Trees(items) + (if IsElement(item) then [Tree(item)] else [])
  {
    if items == [] {
      assert items + [item] == [item] && [item][1..] == [];
    } else {
      assert (items + [item])[1..] == items[1..] + [item];
      AppendedTrees(items[1..], item);
      hide Tree;
      var a, b := if IsElement(items[0]) then [Tree(items[0])] else [], Trees(items[1..]);
      var c := if IsElement(item) then [Tree(item)] else [];
      assert a + (b + c) == (a + b) + c;
    }
  }

  lemma {:induction false} AppendedText(items: seq<Item>, item: Item)
    ensures TextOf(items + [item]) == TextOf(items) + (if item.Words? then item.text else "")
  {
    if items == [] {
      assert items + [item] == [item] && [item][1..] == [];
    } else {
      assert (items + [item])[1..] == items[1..] + [item];
      AppendedText(items[1..], item);
      var a, b := if items[0].Words? then items[0].text else "", TextOf(items[1..]);
      var c := if item.Words? then item.text else "";
      assert a + (b + c) == (a + b) + c;
    }
  }

  lemma {:induction false} AppendedSizes(items: seq<Item>, item: Item)
    ensures Count(items + [item]) == Count(items) + CountOne(item)
    ensures Depth(items + [item]) == Max(Depth(items), DepthOne(item))
  {
    if items == [] {
      assert items + [item] == [item] && [item][1..] == [];
    } else {
      assert (items + [item])[1..] == items[1..] + [item];
      AppendedSizes(items[1..], item);
      hide CountOne, DepthOne;
      UnfoldSizes(items);
    }
  }

  /** The machine after a whole item. */
  function Taken(m: Machine, item: Item): Option<Machine> {
    if m.stack != [] then
      var n := |m.stack| - 1;
      Some(m.(stack := m.stack[..n] + [Grown(m.stack[n], item)], nodes := m.nodes + CountOne(item)))
    else if !IsElement(item) then (if Outside(item) then Some(m.(nodes := m.nodes + CountOne(item))) else None)
    else if m.root.Some? then None
    else Some(m.(root := Some(Tree(item)), nodes := m.nodes + CountOne(item)))
  }

  lemma FramesLast(init: seq<Frame>, last: Frame)
    ensures FramesEvents(init + [last]) == FramesEvents(init) + ([Start(last.name, last.attributes)] + Flatten(last.items))
  {
    assert (init + [last])[..|init|] == init;
  }

  lemma TookEvents(t: Trace, item: Item)
    ensures TraceEvents(Took(t, item)) == TraceEvents(t) + EventsOf(item)
  {
    hide Flatten, EventsOf, FramesEvents;
    if t.frames == [] {
      AppendedEvents(t.outer, item);
      NoFrames();
      assert Flatten(t.outer) + EventsOf(item) + [] == Flatten(t.outer) + [] + EventsOf(item);
    } else {
      var n := |t.frames| - 1;
      var init, last := t.frames[..n], t.frames[n];
      var more := last.(items := last.items + [item]);
      assert t.frames == init + [last];
      AppendedEvents(last.items, item);
      FramesLast(init, last);
      FramesLast(init, more);
      var a, b, c := Flatten(t.outer), FramesEvents(init), [Start(last.name, last.attributes)];
      FourParts(a, b, c, Flatten(last.items), EventsOf(item));
    }
  }

  lemma NoFrames()
    ensures FramesEvents([]) == []
  {
  }

  lemma FourParts<T>(a: seq<T>, b: seq<T>, c: seq<T>, d: seq<T>, x: seq<T>)
    ensures a + (b + (c + (d + x))) == a + (b + (c + d)) + x
  {
  }

  lemma TookCount(t: Trace, item: Item)
    ensures var t' := Took(t, item);
      Count(t'.outer) + FramesCount(t'.frames) == Count(t.outer) + FramesCount(t.frames) + CountOne(item)
  {
    if t.frames == [] {
      AppendedSizes(t.outer, item);
    } else {
      var n := |t.frames| - 1;
      AppendedSizes(t.frames[n].items, item);
      hide Count, CountOne;
      assert Took(t, item).frames[..n] == t.frames[..n];
    }
  }

  lemma TookInFrame(t: Trace, m: Machine, item: Item, limits: Limits)
    requires Explains(t, m, limits) && t.frames != []
    requires m.nodes + CountOne(item) <= limits.maxNodes && |t.frames| + DepthOne(item) <= limits.maxDepth
    ensures Explains(Took(t, item), Taken(m, item).value, limits)
  {
    hide Count, CountOne, Depth, DepthOne, Trees, Tree, TextOf, FramesCount, Grown, FrameNode, IsElement, Outside;
    var n := |t.frames| - 1;
    TookCount(t, item);
    AppendedSizes(t.frames[n].items, item);
    var t', m' := Took(t, item), Taken(m, item).value;
    var more := t.frames[n].(items := t.frames[n].items + [item]);
    GrownFrame(t.frames[n], item);
    assert t'.frames == t.frames[..n] + [more] && m'.stack == m.stack[..n] + [Grown(m.stack[n], item)];
    forall k | 0 <= k < |t'.frames|
      ensures m'.stack[k] == FrameNode(t'.frames[k]) && k + 1 + Depth(t'.frames[k].items) <= limits.maxDepth
    {
      if k < n {
        assert m'.stack[k] == m.stack[k] && t'.frames[k] == t.frames[k];
      }
    }
  }

  lemma GrownFrame(f: Frame, item: Item)
    ensures Grown(FrameNode(f), item) == FrameNode(f.(items := f.items + [item]))
  {
    AppendedTrees(f.items, item);
    AppendedText(f.items, item);
    hide Trees, TextOf, Tree;
  }

  lemma TookOutside(t: Trace, m: Machine, item: Item, limits: Limits)
    requires Explains(t, m, limits) && t.frames == [] && Taken(m, item).Some?
    requires m.nodes + CountOne(item) <= limits.maxNodes && DepthOne(item) <= limits.maxDepth
    ensures Explains(Took(t, item), Taken(m, item).value, limits)
  {
    TookCount(t, item);
    AppendedTrees(t.outer, item);
    AppendedSizes(t.outer, item);
    hide Count, CountOne, Depth, DepthOne, Trees, Tree, FramesCount;
  }

  lemma TookExplains(t: Trace, m: Machine, item: Item, limits: Limits)
    requires Explains(t, m, limits) && Taken(m, item).Some?
    requires m.nodes + CountOne(item) <= limits.maxNodes && |t.frames| + DepthOne(item) <= limits.maxDepth
    ensures Explains(Took(t, item), Taken(m, item).value, limits)
  {
    hide Explains, Taken;
    if t.frames == [] {
      TookOutside(t, m, item, limits);
    } else {
      TookInFrame(t, m, item, limits);
    }
  }

  /** A frame that has just been opened. */
  lemma FreshFrame(name: string, attributes: map<string, string>)
    ensures var frame := Frame(name, attributes, []);
      && FrameNode(frame) == Node(name, attributes, [], "") && FrameEvents(frame) == [Start(name, attributes)]
      && Depth(frame.items) == 0 && Count(frame.items) == 0
  {
  }

  lemma FramesGrow(frames: seq<Frame>, frame: Frame)
    ensures FramesEvents(frames + [frame]) == FramesEvents(frames) + FrameEvents(frame)
    ensures FramesCount(frames + [frame]) == FramesCount(frames) + 1 + Count(frame.items)
  {
    assert (frames + [frame])[..|frames|] == frames;
  }

  lemma OpeningExplains(t: Trace, m: Machine, e: Event, limits: Limits) returns (t': Trace)
    requires Explains(t, m, limits) && e.Start? && Step(m, e, limits).Some?
    ensures Explains(t', Step(m, e, limits).value, limits) && TraceEvents(t') == TraceEvents(t) + [e]
  {
    hide Flatten, FramesEvents, FrameEvents, FramesCount, FrameNode, Count, Depth, Trees, Outside, IsElement;
    var frame := Frame(e.name, e.attributes, []);
    t' := t.(frames := t.frames + [frame]);
    FreshFrame(e.name, e.attributes);
    FramesGrow(t.frames, frame);
    Regroup(Flatten(t.outer), FramesEvents(t.frames), [e]);
  }

  lemma ClosingExplains(t: Trace, m: Machine, limits: Limits) returns (t': Trace)
    requires Explains(t, m, limits) && Step(m, End, limits).Some?
    ensures Explains(t', Step(m, End, limits).value, limits) && TraceEvents(t') == TraceEvents(t) + [End]
  {
    var n := |t.frames| - 1;
    var frame := t.frames[n];
    var item := Element(frame.name, frame.attributes, frame.items);
    var before := t.(frames := t.frames[..n]);
    var m0 := m.(stack := m.stack[..n], nodes := m.nodes - CountOne(item));
    t' := Took(before, item);
    ClosingIsTaking(t, m, item, limits);
    hide Explains, Step, Taken, Took;
    TookExplains(before, m0, item, limits);
    TookEvents(before, item);
    ClosingEvents(t, item);
  }

  /** Closing an element is taking it as a whole where it was opened. */
  lemma ClosingIsTaking(t: Trace, m: Machine, item: Item, limits: Limits)
    requires Explains(t, m, limits) && Step(m, End, limits).Some? && item.Element?
    requires var f := t.frames[|t.frames| - 1]; item == Element(f.name, f.attributes, f.items)
    ensures var n := |t.frames| - 1;
      m.nodes >= CountOne(item)
      && var m0 := m.(stack := m.stack[..n], nodes := m.nodes - CountOne(item));
         Explains(t.(frames := t.frames[..n]), m0, limits) && Taken(m0, item) == Step(m, End, limits)
         && m0.nodes + CountOne(item) <= limits.maxNodes && n + DepthOne(item) <= limits.maxDepth
  {
    hide Count, Depth, Trees, TextOf;
    var n := |t.frames| - 1;
    assert Tree(item) == FrameNode(t.frames[n]) == m.stack[n];
    if n > 0 {
      var top := m.stack[n - 1];
      assert top.text + "" == top.text;
    }
  }

  lemma ClosingEvents(t: Trace, item: Item)
    requires t.frames != [] && item.Element?
    requires var f := t.frames[|t.frames| - 1]; item == Element(f.name, f.attributes, f.items)
    ensures TraceEvents(t.(frames := t.frames[..|t.frames| - 1])) + EventsOf(item) == TraceEvents(t) + [End]
  {
    var f := t.frames[|t.frames| - 1];
    var a, b, c := Flatten(t.outer), FramesEvents(t.frames[..|t.frames| - 1]), FrameEvents(f);
    assert EventsOf(item) == c + [End];
    assert FramesEvents(t.frames) == b + c;
    hide Flatten, FramesEvents, FrameEvents, EventsOf;
    assert (a + b) + (c + [End]) == (a + (b + c)) + [End];
  }

  /** The item an event stands for when it opens and closes nothing. */
  function Lone(e: Event): Item
    requires e.Empty? || e.Text? || e.CData? || e.Reference? || e.Misc?
  {
    match e
    case Empty(name, attributes) => Single(name, attributes)
    case Text(text) => Words(Plain, text)
    case CData(text) => Words(Section, text)
    case Reference(text) => Words(Entity, text)
    case Misc => Noise
  }

  lemma LoneIsTaken(m: Machine, e: Event, limits: Limits)
    requires e.Empty? || e.Text? || e.CData? || e.Reference? || e.Misc?
    requires Step(m, e, limits).Some?
    ensures Taken(m, Lone(e)) == Step(m, e, limits) && EventsOf(Lone(e)) == [e]
    ensures m.nodes + CountOne(Lone(e)) <= limits.maxNodes || CountOne(Lone(e)) == 0
    ensures |m.stack| + DepthOne(Lone(e)) <= limits.maxDepth || DepthOne(Lone(e)) == 0
  {
    if e.Text? {
      BlankIsTrimmedAway(e.text);
    }
    if m.stack != [] {
      var n := |m.stack| - 1;
      var top := m.stack[n];
      assert top.text + "" == top.text && top.children + [] == top.children;
      assert m.stack[..n] + [top] == m.stack;
    }
  }

  lemma StepExplains(t: Trace, m: Machine, e: Event, limits: Limits) returns (t': Trace)
    requires Explains(t, m, limits) && Step(m, e, limits).Some?
    ensures Explains(t', Step(m, e, limits).value, limits) && TraceEvents(t') == TraceEvents(t) + [e]
  {
    if e.Start? {
      t' := OpeningExplains(t, m, e, limits);
    } else if e.End? {
      t' := ClosingExplains(t, m, limits);
    } else {
      LoneIsTaken(m, e, limits);
      DepthIsBounded(t, m, limits);
      t' := Took(t, Lone(e));
      hide Explains, Step, TraceEvents, Taken, EventsOf, CountOne, DepthOne;
      TookExplains(t, m, Lone(e), limits);
      TookEvents(t, Lone(e));
    }
  }

  lemma DepthIsBounded(t: Trace, m: Machine, limits: Limits)
    requires Explains(t, m, limits)
    ensures |m.stack| == |t.frames| <= limits.maxDepth && m.nodes <= limits.maxNodes
  {
    if t.frames != [] {
      var k := |t.frames| - 1;
      assert m.stack[k] == FrameNode(t.frames[k]) && k + 1 + Depth(t.frames[k].items) <= limits.maxDepth;
    }
  }

  lemma {:induction false} RunExplains(t: Trace, m: Machine, events: seq<Event>, limits: Limits) returns (t': Trace)
    requires Explains(t, m, limits) && Run(m, events, limits).Some?
    ensures Explains(t', Run(m, events, limits).value, limits) && TraceEvents(t') == TraceEvents(t) + events
    decreases |events|
  {
    hide Explains, Step, TraceEvents;
    if events == [] {
      t' := t;
      assert TraceEvents(t) + [] == TraceEvents(t);
    } else {
      var t1 := StepExplains(t, m, events[0], limits);
      t' := RunExplains(t1, Step(m, events[0], limits).value, events[1..], limits);
      assert (TraceEvents(t) + [events[0]]) + events[1..] == TraceEvents(t) + events;
    }
  }

  /** parse_dom accepts an event stream with a given tree exactly when the stream is a document with that
      one root, of at most maxNodes elements nested at most maxDepth deep. */
  lemma ParsedExactly(events: seq<Event>, limits: Limits, root: Node)
    ensures Parsed(events, limits) == Some(root)
            <==> exists items ::
                   Flatten(items) == events && IsDocument(items, root)
                   && Count(items) <= limits.maxNodes && Depth(items) <= limits.maxDepth
  {
    if Parsed(events, limits) == Some(root) {
      assert Explains(Trace([], []), INITIAL, limits);
      var t := RunExplains(Trace([], []), INITIAL, events, limits);
      assert t.frames == [];
      assert TraceEvents(Trace([], [])) + events == events;
      assert Flatten(t.outer) + [] == Flatten(t.outer);
      assert Flatten(t.outer) == events && IsDocument(t.outer, root);
    }
    if items :| Flatten(items) == events && IsDocument(items, root)
                && Count(items) <= limits.maxNodes && Depth(items) <= limits.maxDepth {
      DocumentIsAccepted(items, root, limits);
    }
  }

  // ---- sizes of trees -----------------------------------------------------------------------------------

  function NodeCount(node: Node): nat
    decreases node
  {
    1 + NodesCount(node.children)
  }

  function NodesCount(nodes: seq<Node>): nat
    decreases nodes
  {
    if nodes == [] then 0 else NodeCount(nodes[0]) + NodesCount(nodes[1..])
  }

  function NodeDepth(node: Node): nat
    decreases node
  {
    1 + NodesDepth(node.children)
  }

  function NodesDepth(nodes: seq<Node>): nat
    decreases nodes
  {
    if nodes == [] then 0 else Max(NodeDepth(nodes[0]), NodesDepth(nodes[1..]))
  }

  lemma SizesHead(node: Node, nodes: seq<Node>)
    ensures NodesCount([node] + nodes) == NodeCount(node) + NodesCount(nodes)
    ensures NodesDepth([node] + nodes) == Max(NodeDepth(node), NodesDepth(nodes))
  {
    assert ([node] + nodes)[1..] == nodes;
  }

  lemma {:induction false} TreeSizes(items: seq<Item>)
    ensures Count(items) == NodesCount(Trees(items)) && Depth(items) == NodesDepth(Trees(items))
    decreases items
  {
    if items != [] {
      TreeSizes(items[1..]);
      if items[0].Element? {
        TreeSizes(items[0].items);
      }
      if IsElement(items[0]) {
        SizesHead(Tree(items[0]), Trees(items[1..]));
      } else {
        assert Trees(items) == Trees(items[1..]);
      }
    }
  }

  /** No tree comes back that is larger or deeper than the limits allow. */
  lemma ParsedWithinLimits(events: seq<Event>, limits: Limits)
    ensures Parsed(events, limits).Some? ==>
      NodeCount(Parsed(events, limits).value) <= limits.maxNodes
      && NodeDepth(Parsed(events, limits).value) <= limits.maxDepth
  {
    if Parsed(events, limits).Some? {
      var root := Parsed(events, limits).value;
      ParsedExactly(events, limits, root);
      var items :| Flatten(items) == events && IsDocument(items, root)
                   && Count(items) <= limits.maxNodes && Depth(items) <= limits.maxDepth;
      TreeSizes(items);
      SizesHead(root, []);
      assert [root] + [] == [root];
    }
  }

  // ---- the round trip with node_to_xml ----------------------------------------------------------------------

  predicate IsWords(e: Event) { e.Text? || e.CData? || e.Reference? }

  predicate AllWords(events: seq<Event>) { forall i :: 0 <= i < |events| ==> IsWords(events[i]) }

  /** The text that a stretch of text, CDATA and reference events adds up to. */
  function Spelled(words: seq<Event>): string
    requires AllWords(words)
  {
    if words == [] then "" else words[0].text + Spelled(words[1..])
  }

  /** The events may be what is read of what node_to_xml writes: text first, then the children.  The text may
      come in any number of pieces, however it is escaped. */
  ghost predicate Writing(events: seq<Event>, node: Node)
    decreases node
  {
    if node.children == [] && node.text == "" then events == [Empty(node.name, node.attributes)]
    else
      && |events| >= 2 && events[0] == Start(node.name, node.attributes) && events[|events| - 1] == End
      && exists k :: 1 <= k < |events| && TextFirst(events[1..k], node.text)
                     && WritingAll(events[k..|events| - 1], node.children)
  }

  predicate TextFirst(words: seq<Event>, text: string) { AllWords(words) && Spelled(words) == text }

  ghost predicate WritingAll(events: seq<Event>, nodes: seq<Node>)
    decreases nodes
  {
    if nodes == [] then events == []
    else exists k :: 0 <= k <= |events| && Writing(events[..k], nodes[0]) && WritingAll(events[k..], nodes[1..])
  }

  function ItemsOfWords(words: seq<Event>): seq<Item>
    requires AllWords(words)
  {
    if words == [] then [] else [WordsOf(words[0])] + ItemsOfWords(words[1..])
  }

  function WordsOf(e: Event): (item: Item)
    requires IsWords(e)
    ensures item.Words? && WordsEvent(item.style, item.text) == e && item.text == e.text
  {
    Words(if e.Text? then Plain else if e.CData? then Section else Entity, e.text)
  }

  lemma ItemsHead(item: Item, items: seq<Item>)
    ensures Flatten([item] + items) == EventsOf(item) + Flatten(items)
    ensures Trees([item] + items) == (if IsElement(item) then [Tree(item)] else []) + Trees(items)
    ensures TextOf([item] + items) == (if item.Words? then item.text else "") + TextOf(items)
  {
    assert ([item] + items)[1..] == items;
  }

  /** Words in front of other items only add their text. */
  lemma {:induction false} WordsInFront(words: seq<Event>, items: seq<Item>)
    requires AllWords(words)
    ensures Flatten(ItemsOfWords(words) + items) == words + Flatten(items)
    ensures Trees(ItemsOfWords(words) + items) == Trees(items)
    ensures TextOf(ItemsOfWords(words) + items) == Spelled(words) + TextOf(items)
  {
    hide Flatten, Trees, TextOf;
    if words == [] {
      assert [] + items == items && [] + Flatten(items) == Flatten(items) && "" + TextOf(items) == TextOf(items);
    } else {
      var head, rest := WordsOf(words[0]), ItemsOfWords(words[1..]);
      WordsInFront(words[1..], items);
      ItemsHead(head, rest + items);
      Regroup([head], rest, items);
      WordsRegroup(words, Flatten(items), TextOf(items));
      assert [] + Trees(items) == Trees(items);
    }
  }

  lemma WordsRegroup(words: seq<Event>, events: seq<Event>, text: string)
    requires words != [] && AllWords(words)
    ensures EventsOf(WordsOf(words[0])) + (words[1..] + events) == words + events
    ensures words[0].text + (Spelled(words[1..]) + text) == Spelled(words) + text
  {
    Regroup([words[0]], words[1..], events);
    Regroup(words[0].text, Spelled(words[1..]), text);
    assert [words[0]] + words[1..] == words;
  }

  lemma WritingUnfolds(events: seq<Event>, node: Node) returns (words: seq<Event>, inner: seq<Event>)
    requires Writing(events, node) && !(node.children == [] && node.text == "")
    ensures events == [Start(node.name, node.attributes)] + (words + inner) + [End]
    ensures TextFirst(words, node.text) && WritingAll(inner, node.children)
  {
    hide TextFirst, WritingAll;
    var k :| 1 <= k < |events| && TextFirst(events[1..k], node.text)
             && WritingAll(events[k..|events| - 1], node.children);
    words, inner := events[1..k], events[k..|events| - 1];
    assert words + inner == events[1..|events| - 1];
  }

  /** The element that begins with these words and goes on with these items. */
  function ElementOf(node: Node, words: seq<Event>, items: seq<Item>): Item
    requires AllWords(words)
  {
    Element(node.name, node.attributes, ItemsOfWords(words) + items)
  }

  lemma ElementIsNode(node: Node, words: seq<Event>, items: seq<Item>)
    requires TextFirst(words, node.text) && Trees(items) == node.children && TextOf(items) == ""
    ensures var item := ElementOf(node, words, items);
      && EventsOf(item) == [Start(node.name, node.attributes)] + (words + Flatten(items)) + [End]
      && IsElement(item) && Tree(item) == node
  {
    hide Flatten, Trees, TextOf, Spelled, ItemsOfWords, AllWords;
    WordsInFront(words, items);
    assert node.text + "" == node.text;
  }

  lemma {:induction false} WritingIsItem(events: seq<Event>, node: Node) returns (item: Item)
    requires Writing(events, node)
    ensures EventsOf(item) == events && IsElement(item) && Tree(item) == node
    decreases node, 0
  {
    if node.children == [] && node.text == "" {
      item := Single(node.name, node.attributes);
    } else {
      hide Writing, WritingAll, ElementOf, EventsOf, Tree, IsElement, Flatten, Trees, TextOf, Spelled, AllWords;
      var words, inner := WritingUnfolds(events, node);
      var items := WritingsAreItems(inner, node.children);
      ElementIsNode(node, words, items);
      item := ElementOf(node, words, items);
    }
  }

  lemma WritingsUnfold(events: seq<Event>, nodes: seq<Node>) returns (first: seq<Event>, rest: seq<Event>)
    requires WritingAll(events, nodes) && nodes != []
    ensures events == first + rest && Writing(first, nodes[0]) && WritingAll(rest, nodes[1..])
  {
    hide Writing;
    var k :| 0 <= k <= |events| && Writing(events[..k], nodes[0]) && WritingAll(events[k..], nodes[1..]);
    first, rest := events[..k], events[k..];
  }

  lemma {:induction false} WritingsAreItems(events: seq<Event>, nodes: seq<Node>) returns (items: seq<Item>)
    requires WritingAll(events, nodes)
    ensures Flatten(items) == events && Trees(items) == nodes && TextOf(items) == ""
    decreases nodes
  {
    if nodes == [] {
      items := [];
    } else {
      hide Writing, WritingAll, EventsOf, Tree, Flatten, Trees, TextOf;
      var first, tail := WritingsUnfold(events, nodes);
      var item := WritingIsItem(first, nodes[0]);
      var rest := WritingsAreItems(tail, nodes[1..]);
      ItemsHead(item, rest);
      items := [item] + rest;
      assert nodes == [nodes[0]] + nodes[1..];
    }
  }

  /** The round trip: a tree that is written and read again, its text in whatever pieces, comes back exactly if it
      is within the limits. */
  lemma WrittenIsParsed(events: seq<Event>, node: Node, limits: Limits)
    requires Writing(events, node)
    ensures Parsed(events, limits) == Some(node)
            <==> NodeCount(node) <= limits.maxNodes && NodeDepth(node) <= limits.maxDepth
  {
    hide Parsed, Writing;
    var item := WritingIsItem(events, node);
    var items := [item];
    ItemsHead(item, []);
    assert [item] + [] == items && events + [] == events && [node] + [] == [node];
    TreeSizes(items);
    SizesHead(node, []);
    if NodeCount(node) <= limits.maxNodes && NodeDepth(node) <= limits.maxDepth {
      DocumentIsAccepted(items, node, limits);
    }
    ParsedWithinLimits(events, limits);
  }

  lemma OnePiece(text: string)
    ensures TextFirst(if text == "" then [] else [Text(text)], text)
  {
    assert text + "" == text;
  }

  /** Every tree has a writing: its text in one piece. */
  lemma {:induction false} EveryTreeIsWritten(node: Node) returns (events: seq<Event>)
    ensures Writing(events, node)
    decreases node, 0
  {
    if node.children == [] && node.text == "" {
      events := [Empty(node.name, node.attributes)];
    } else {
      var inner := EveryTreesAreWritten(node.children);
      var words := if node.text == "" then [] else [Text(node.text)];
      events := [Start(node.name, node.attributes)] + words + inner + [End];
      assert events[1..1 + |words|] == words && events[1 + |words|..|events| - 1] == inner;
      OnePiece(node.text);
      assert TextFirst(events[1..1 + |words|], node.text);
    }
  }

  lemma {:induction false} EveryTreesAreWritten(nodes: seq<Node>) returns (events: seq<Event>)
    ensures WritingAll(events, nodes)
    decreases nodes
  {
    if nodes == [] {
      events := [];
    } else {
      var first := EveryTreeIsWritten(nodes[0]);
      var rest := EveryTreesAreWritten(nodes[1..]);
      events := first + rest;
      assert events[..|first|] == first && events[|first|..] == rest;
    }
  }
}
