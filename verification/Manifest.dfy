/**
 * `_ParseManifestFromApk`: a manifest listing, whose nesting is its indentation, is read with a stack of
 * dictionaries into a tree of dictionaries.
 *
 * The source's dictionaries are mutable and shared by the stack and by their parents; here they stand in a
 * table and are referred to by their number. A line is what the two patterns make of it.
 */
module Manifest {
  import opened Wrappers

  datatype Line = Blank | Line(depth: nat, content: LineContent)

  datatype LineContent = Element(name: string) | Attribute(name: string, value: string) | Other

  /** What is parsed: a dictionary from names to a text or to the list of the elements of that name. */
  datatype Dict = Dict(entries: map<string, Value>)

  datatype Value = Text(text: string) | Nodes(nodes: seq<Dict>)

  // ---------------------------------------------------------------------------------------------
  // The parser

  datatype Slot = TextSlot(text: string) | NodeSlot(ids: seq<nat>)

  type Cell = map<string, Slot>

  /** The dictionaries made so far, and the stack, by number. */
  datatype State = State(cells: seq<Cell>, stack: seq<nat>)
  {
    predicate Valid() {
      stack != [] && forall i :: 0 <= i < |stack| ==> stack[i] < |cells|
    }
  }

  function Start(namespaced: bool): (s: State)
    ensures s.Valid()
  {
    if namespaced then State([map[], map[]], [0, 1]) else State([map[]], [0])
  }

  function RootOf(namespaced: bool): nat {
    if namespaced then 1 else 0
  }

  /** The stack, cut down to a line of this depth. */
  function Cut(stack: seq<nat>, depth: nat): (r: seq<nat>)
    requires stack != []
    ensures r != [] && r <= stack
  {
    if depth + 1 < |stack| then stack[..depth + 1] else stack
  }

  function Top(stack: seq<nat>): nat
    requires stack != []
  {
    stack[|stack| - 1]
  }

  /** One line; no result is an exception. */
  function Step(s: State, line: Line): (r: Option<State>)
    requires s.Valid()
    ensures r.Some? ==> r.value.Valid()
  {
    if line.Blank? then Some(s)
    else
      var stack := Cut(s.stack, line.depth);
      var top := Top(stack);
      var cell := s.cells[top];
      match line.content
      case Element(name) =>
        if name in cell && cell[name].TextSlot? then None
        else
          var ids := if name in cell then cell[name].ids else [];
          Some(State(s.cells[top := cell[name := NodeSlot(ids + [|s.cells|])]] + [map[]], stack + [|s.cells|]))
      case Attribute(name, value) =>
        if name in cell then None else Some(State(s.cells[top := cell[name := TextSlot(value)]], stack))
      case Other => Some(State(s.cells, stack))
  }

  function Run(s: State, lines: seq<Line>): (r: Option<State>)
    requires s.Valid()
    ensures r.Some? ==> r.value.Valid()
    decreases |lines|
  {
    if lines == [] then Some(s)
    else
      var before := Run(s, lines[..|lines| - 1]);
      if before.None? then None else Step(before.value, lines[|lines| - 1])
  }

  /** Dictionaries refer to later ones only. */
  predicate Forward(cells: seq<Cell>) {
    forall i, k, j :: 0 <= i < |cells| && k in cells[i] && cells[i][k].NodeSlot? && 0 <= j < |cells[i][k].ids| ==>
      i < cells[i][k].ids[j] < |cells|
  }

  /** The tree below a dictionary. */
  function TreeOf(cells: seq<Cell>, id: nat): Dict
    requires Forward(cells) && id < |cells|
    decreases |cells| - id
  {
    Dict(map k | k in cells[id] :: SlotTree(cells, id, k))
  }

  function SlotTree(cells: seq<Cell>, id: nat, k: string): Value
    requires Forward(cells) && id < |cells| && k in cells[id]
    decreases |cells| - id, 0
  {
    match cells[id][k]
    case TextSlot(text) => Text(text)
    case NodeSlot(ids) => Nodes(seq(|ids|, j requires 0 <= j < |ids| => TreeOf(cells, ids[j])))
  }

  lemma {:induction false} RunIsForward(s: State, lines: seq<Line>)
    requires s.Valid() && Forward(s.cells) && Run(s, lines).Some?
    ensures Forward(Run(s, lines).value.cells) && |s.cells| <= |Run(s, lines).value.cells|
    decreases |lines|
  {
    if lines != [] {
      var n := |lines| - 1;
      RunIsForward(s, lines[..n]);
      StepIsForward(Run(s, lines[..n]).value, lines[n]);
    }
  }

  lemma {:induction false} StepIsForward(s: State, line: Line)
    requires s.Valid() && Forward(s.cells) && Step(s, line).Some?
    ensures Forward(Step(s, line).value.cells) && |s.cells| <= |Step(s, line).value.cells|
  {
  }

  function Parsed(namespaced: bool, lines: seq<Line>): Option<Dict> {
    var end := Run(Start(namespaced), lines);
    if end.None? then None
    else
      RunIsForward(Start(namespaced), lines);
      Some(TreeOf(end.value.cells, RootOf(namespaced)))
  }

  /** The loop of the source. */
  method ParseManifest(namespaced: bool, lines: seq<Line>) returns (manifest: Option<Dict>)
    ensures manifest == Parsed(namespaced, lines)
  {
    var cells: seq<Cell>, stack: seq<nat> := [map[]], [0];
    var root := 0;
    if namespaced {
      cells, stack, root := [map[], map[]], [0, 1], 1;
    }
    for i := 0 to |lines|
      invariant State(cells, stack).Valid()
      invariant Run(Start(namespaced), lines[..i]) == Some(State(cells, stack))
    {
      assert lines[..i + 1][..i] == lines[..i];
      var ok;
      ok, cells, stack := ParseLine(cells, stack, lines[i]);
      if !ok {
        PrefixFails(Start(namespaced), lines, i + 1);
        return None;
      }
    }
    assert lines[..|lines|] == lines;
    RunIsForward(Start(namespaced), lines);
    return Some(TreeOf(cells, root));
  }

  /** The body of the loop. */
  method ParseLine(cells: seq<Cell>, stack: seq<nat>, line: Line)
    returns (ok: bool, newCells: seq<Cell>, newStack: seq<nat>)
    requires State(cells, stack).Valid()
    ensures Step(State(cells, stack), line) == if ok then Some(State(newCells, newStack)) else None
  {
    ok, newCells, newStack := true, cells, stack;
    if line.Line? {
      newStack := Cut(stack, line.depth);
      var top := Top(newStack);
      var cell := cells[top];
      match line.content {
        case Element(name) =>
          if name in cell {
            if cell[name].TextSlot? {
              return false, cells, stack;
            }
            newCells := newCells[top := cell[name := NodeSlot(cell[name].ids + [|cells|])]];
          } else {
            assert [] + [|cells|] == [|cells|];
            newCells := newCells[top := cell[name := NodeSlot([|cells|])]];
          }
          newCells, newStack := newCells + [map[]], newStack + [|cells|];
        case Attribute(name, value) =>
          if name in cell {
            return false, cells, stack;
          }
          newCells := newCells[top := cell[name := TextSlot(value)]];
        case Other =>
      }
    }
  }

  lemma {:induction false} PrefixFails(s: State, lines: seq<Line>, n: nat)
    requires s.Valid() && n <= |lines| && Run(s, lines[..n]).None?
    ensures Run(s, lines).None?
    decreases |lines|
  {
    if n < |lines| {
      assert lines[..|lines| - 1][..n] == lines[..n];
      PrefixFails(s, lines[..|lines| - 1], n);
    } else {
      assert lines[..n] == lines;
    }
  }

  lemma {:induction false} RunJoins(s: State, a: seq<Line>, b: seq<Line>)
    requires s.Valid()
    ensures Run(s, a + b) == if Run(s, a).None? then None else Run(Run(s, a).value, b)
    decreases |b|
  {
    if b == [] {
      assert a + b == a;
    } else {
      var n := |b| - 1;
      assert (a + b)[..|a + b| - 1] == a + b[..n];
      RunJoins(s, a, b[..n]);
    }
  }

  // ---------------------------------------------------------------------------------------------
  // The stack and the indentation

  /** No line is deeper than the line before it allows: one level below an element, the same level otherwise. */
  predicate WellIndented(base: nat, lines: seq<Line>)
    decreases |lines|
  {
    lines != [] ==>
      var last := lines[|lines| - 1];
      && WellIndented(base, lines[..|lines| - 1])
      && last.Line? && last.depth < Height(base, lines[..|lines| - 1])
  }

  /** The height the stack should have: the depth of the last line, its node, and one more for an element. */
  function Height(base: nat, lines: seq<Line>): nat {
    if lines == [] || lines[|lines| - 1].Blank? then base
    else
      var last := lines[|lines| - 1];
      last.depth + if last.content.Element? then 2 else 1
  }

  lemma {:induction false} HeightIsIndentation(namespaced: bool, lines: seq<Line>)
    requires WellIndented(|Start(namespaced).stack|, lines) && Run(Start(namespaced), lines).Some?
    ensures |Run(Start(namespaced), lines).value.stack| == Height(|Start(namespaced).stack|, lines)
    decreases |lines|
  {
    if lines != [] {
      HeightIsIndentation(namespaced, lines[..|lines| - 1]);
    }
  }

  // ---------------------------------------------------------------------------------------------
  // Listings

  /** What stands in an element: attributes and elements, in the order of the listing. */
  datatype Item = Attr(name: string, value: string) | Elem(name: string, items: seq<Item>)

  function Listing(items: seq<Item>, depth: nat): seq<Line> {
    if items == [] then []
    else Listing(items[..|items| - 1], depth) + ItemLines(items[|items| - 1], depth)
  }

  function ItemLines(item: Item, depth: nat): seq<Line> {
    match item
    case Attr(name, value) => [Line(depth, Attribute(name, value))]
    case Elem(name, items) => [Line(depth, Element(name))] + Listing(items, depth + 1)
  }

  /** The dictionary with one more item, if there is no clash of names. */
  function AddItem(d: Dict, item: Item): Option<Dict>
    decreases item
  {
    match item
    case Attr(name, value) =>
      if name in d.entries then None else Some(Dict(d.entries[name := Text(value)]))
    case Elem(name, items) =>
      var sub := Build(items);
      if sub.None? || (name in d.entries && d.entries[name].Text?) then None
      else
        var others := if name in d.entries then d.entries[name].nodes else [];
        Some(Dict(d.entries[name := Nodes(others + [sub.value])]))
  }

  function BuildFrom(d: Dict, items: seq<Item>): Option<Dict>
    decreases items, 0
  {
    if items == [] then Some(d)
    else
      var before := BuildFrom(d, items[..|items| - 1]);
      if before.None? then None else AddItem(before.value, items[|items| - 1])
  }

  function Build(items: seq<Item>): Option<Dict>
    decreases items, 1
  {
    BuildFrom(Dict(map[]), items)
  }

  /** Only the dictionary `t` and new ones differ. */
  predicate OnlyGrows(before: seq<Cell>, after: seq<Cell>, t: nat) {
    && |before| <= |after|
    && forall i :: 0 <= i < |before| && i != t ==> after[i] == before[i]
  }

  lemma {:induction false} TreeStays(before: seq<Cell>, after: seq<Cell>, id: nat)
    requires Forward(before) && Forward(after) && id < |before| <= |after|
    requires forall i :: id <= i < |before| ==> after[i] == before[i]
    ensures TreeOf(before, id) == TreeOf(after, id)
    decreases |before| - id
  {
    forall k | k in before[id] ensures SlotTree(before, id, k) == SlotTree(after, id, k) {
      match before[id][k] {
        case TextSlot(_) =>
        case NodeSlot(ids) =>
          forall j | 0 <= j < |ids| ensures TreeOf(before, ids[j]) == TreeOf(after, ids[j]) {
            TreeStays(before, after, ids[j]);
          }
      }
    }
  }

  /** When one name of a dictionary changes, so does that name of its tree, and nothing else. */
  lemma {:induction false} OneNameChanges(before: seq<Cell>, after: seq<Cell>, t: nat, name: string)
    requires Forward(before) && Forward(after) && t < |before| && OnlyGrows(before, after, t)
    requires name in after[t] && after[t] == before[t][name := after[t][name]]
    ensures TreeOf(after, t) == Dict(TreeOf(before, t).entries[name := SlotTree(after, t, name)])
  {
    forall k | k in before[t] && k != name ensures SlotTree(before, t, k) == SlotTree(after, t, k) {
      assert after[t][k] == before[t][k];
      match before[t][k] {
        case TextSlot(_) =>
        case NodeSlot(ids) =>
          forall j | 0 <= j < |ids| ensures TreeOf(before, ids[j]) == TreeOf(after, ids[j]) {
            TreeStays(before, after, ids[j]);
          }
      }
    }
    assert TreeOf(after, t).entries.Keys == after[t].Keys == before[t].Keys + {name};
  }

  /** Where the parser stands at depth `d`: the dictionary there has the tree `dict`. */
  ghost predicate At(s: State, d: nat, dict: Dict) {
    && s.Valid() && Forward(s.cells) && d < |s.stack|
    && TreeOf(s.cells, s.stack[d]) == dict
  }

  /** From `s` to `e`, only the dictionary at depth `d` and new ones changed. */
  ghost predicate Fills(s: State, e: State, d: nat) {
    && d < |s.stack| && d < |e.stack| && e.stack[..d + 1] == s.stack[..d + 1]
    && OnlyGrows(s.cells, e.cells, s.stack[d])
  }

  ghost predicate Follows(s: State, end: Option<State>, d: nat, built: Option<Dict>) {
    && (end.None? <==> built.None?)
    && (end.Some? ==> At(end.value, d, built.value) && Fills(s, end.value, d))
  }

  lemma {:induction false} KindsMatch(cells: seq<Cell>, t: nat, name: string)
    requires Forward(cells) && t < |cells|
    ensures var d := TreeOf(cells, t);
      && (name in d.entries <==> name in cells[t])
      && (name in cells[t] ==> d.entries[name] == SlotTree(cells, t, name))
      && (name in cells[t] ==> (d.entries[name].Text? <==> cells[t][name].TextSlot?))
  {
  }

  lemma {:induction false} FillsJoin(s: State, mid: State, e: State, d: nat)
    requires s.Valid() && Fills(s, mid, d) && Fills(mid, e, d)
    ensures Fills(s, e, d)
  {
    assert mid.stack[d] == mid.stack[..d + 1][d] == s.stack[d];
  }

  /** The listing of some items adds them to the dictionary at its depth. */
  lemma {:induction false} ListingBuilds(s: State, items: seq<Item>, d: nat, dict: Dict)
    requires At(s, d, dict)
    ensures Follows(s, Run(s, Listing(items, d)), d, BuildFrom(dict, items))
    decreases items
  {
    if items != [] {
      var n := |items| - 1;
      ListingBuilds(s, items[..n], d, dict);
      RunJoins(s, Listing(items[..n], d), ItemLines(items[n], d));
      if BuildFrom(dict, items[..n]).Some? {
        var mid := Run(s, Listing(items[..n], d)).value;
        ItemAdds(mid, items[n], d, BuildFrom(dict, items[..n]).value);
        var end := Run(mid, ItemLines(items[n], d));
        if end.Some? {
          FillsJoin(s, mid, end.value, d);
        }
      }
    }
  }

  lemma {:induction false} ItemAdds(s: State, item: Item, d: nat, dict: Dict)
    requires At(s, d, dict)
    ensures Follows(s, Run(s, ItemLines(item, d)), d, AddItem(dict, item))
    decreases item
  {
    assert Top(Cut(s.stack, d)) == s.stack[d];
    KindsMatch(s.cells, s.stack[d], item.name);
    match item {
      case Attr(name, value) =>
        RunOne(s, Line(d, Attribute(name, value)));
        if name !in dict.entries {
          AttributeAdds(s, name, value, d);
        }
      case Elem(name, items) =>
        var line := Line(d, Element(name));
        RunOne(s, line);
        RunJoins(s, [line], Listing(items, d + 1));
        if name !in dict.entries || !dict.entries[name].Text? {
          ElementOpens(s, name, d);
          ListingBuilds(Step(s, line).value, items, d + 1, Dict(map[]));
        }
        ElementFollows(s, name, items, d, dict, Run(s, ItemLines(item, d)));
    }
  }

  /** When what follows an element line builds the element one level down, the element is added. */
  lemma {:induction false} ElementFollows(s: State, name: string, items: seq<Item>, d: nat, dict: Dict,
                                          end: Option<State>)
    requires At(s, d, dict)
    requires var s1 := Step(s, Line(d, Element(name)));
      if s1.None? then end.None? else Follows(s1.value, end, d + 1, Build(items))
    ensures Follows(s, end, d, AddItem(dict, Elem(name, items)))
  {
    assert Top(Cut(s.stack, d)) == s.stack[d];
    KindsMatch(s.cells, s.stack[d], name);
    var s1 := Step(s, Line(d, Element(name)));
    if s1.Some? && Build(items).Some? {
      ElementAdds(s, name, items, d, end.value);
    }
  }

  lemma {:induction false} RunOne(s: State, line: Line)
    requires s.Valid()
    ensures Run(s, [line]) == Step(s, line)
  {
    assert Run(s, [line][..0]) == Some(s);
  }

  lemma {:induction false} AttributeAdds(s: State, name: string, value: string, d: nat)
    requires s.Valid() && Forward(s.cells) && d < |s.stack| && name !in s.cells[s.stack[d]]
    ensures var e := Step(s, Line(d, Attribute(name, value)));
      && e.Some? && Fills(s, e.value, d)
      && At(e.value, d, Dict(TreeOf(s.cells, s.stack[d]).entries[name := Text(value)]))
  {
    var t := s.stack[d];
    assert Top(Cut(s.stack, d)) == t;
    var e := Step(s, Line(d, Attribute(name, value))).value;
    OneNameChanges(s.cells, e.cells, t, name);
  }

  /** An element line puts an empty dictionary one level down. */
  lemma {:induction false} ElementOpens(s: State, name: string, d: nat)
    requires s.Valid() && Forward(s.cells) && d < |s.stack|
    requires name in s.cells[s.stack[d]] ==> s.cells[s.stack[d]][name].NodeSlot?
    ensures var e := Step(s, Line(d, Element(name)));
      && e.Some? && Fills(s, e.value, d) && At(e.value, d + 1, Dict(map[])) && e.value.stack[d + 1] == |s.cells|
  {
    assert Top(Cut(s.stack, d)) == s.stack[d];
  }

  /** Once the element is filled, its tree is the last of its name. */
  lemma {:induction false} ElementAdds(s: State, name: string, items: seq<Item>, d: nat, e: State)
    requires s.Valid() && Forward(s.cells) && d < |s.stack|
    requires name in s.cells[s.stack[d]] ==> s.cells[s.stack[d]][name].NodeSlot?
    requires Build(items).Some? && At(e, d + 1, Build(items).value)
    requires Step(s, Line(d, Element(name))).Some? && Fills(Step(s, Line(d, Element(name))).value, e, d + 1)
    ensures Fills(s, e, d)
    ensures var added := AddItem(TreeOf(s.cells, s.stack[d]), Elem(name, items));
      added.Some? && At(e, d, added.value)
  {
    KindsMatch(s.cells, s.stack[d], name);
    var t, n := s.stack[d], |s.cells|;
    assert Top(Cut(s.stack, d)) == t;
    ElementOpens(s, name, d);
    var s1 := Step(s, Line(d, Element(name))).value;
    assert e.stack[d + 1] == s1.stack[d + 1] == n;
    assert e.stack[..d + 1] == e.stack[..d + 2][..d + 1] == s1.stack[..d + 2][..d + 1] == s.stack[..d + 1];
    assert e.cells[t] == s1.cells[t];
    OneNameChanges(s.cells, e.cells, t, name);
    var ids := if name in s.cells[t] then s.cells[t][name].ids else [];
    forall j | 0 <= j < |ids| ensures TreeOf(s.cells, ids[j]) == TreeOf(e.cells, ids[j]) {
      TreeStays(s.cells, e.cells, ids[j]);
    }
    var others := if name in s.cells[t] then SlotTree(s.cells, t, name).nodes else [];
    assert SlotTree(e.cells, t, name).nodes == others + [Build(items).value];
  }

  // ---------------------------------------------------------------------------------------------
  // What a listing means

  function Names(items: seq<Item>): set<string> {
    set i | 0 <= i < |items| :: items[i].name
  }

  function Texts(items: seq<Item>, name: string): seq<string> {
    if items == [] then []
    else
      var last := items[|items| - 1];
      Texts(items[..|items| - 1], name) + if last.Attr? && last.name == name then [last.value] else []
  }

  /** The elements of one name, in order. */
  function Named(items: seq<Item>, name: string): seq<Dict>
    decreases items, 0
  {
    if items == [] then []
    else
      var last := items[|items| - 1];
      Named(items[..|items| - 1], name) + if last.Elem? && last.name == name then [Meaning(last.items)] else []
  }

  /** Every attribute is its text, and every other name the list of the elements of that name. */
  function Meaning(items: seq<Item>): Dict
    decreases items, 2
  {
    Dict(map name | name in Names(items) :: MeaningOf(items, name))
  }

  function MeaningOf(items: seq<Item>, name: string): Value
    decreases items, 1
  {
    if Texts(items, name) != [] then Text(Texts(items, name)[0]) else Nodes(Named(items, name))
  }

  /** In every element, an attribute shares its name with no other attribute and no element. */
  predicate Fine(items: seq<Item>)
    decreases items
  {
    && (forall i, j :: 0 <= i < j < |items| && items[i].name == items[j].name ==> items[i].Elem? && items[j].Elem?)
    && forall i :: 0 <= i < |items| && items[i].Elem? ==> Fine(items[i].items)
  }

  lemma {:induction false} TextsAre(items: seq<Item>, name: string)
    ensures Texts(items, name) != [] <==> exists i :: 0 <= i < |items| && items[i].Attr? && items[i].name == name
    decreases items
  {
    if items != [] {
      var init := items[..|items| - 1];
      TextsAre(init, name);
      if i :| 0 <= i < |items| && items[i].Attr? && items[i].name == name {
        assert i < |init| ==> init[i] == items[i];
      }
    }
  }

  lemma {:induction false} TextsHaveNames(items: seq<Item>, name: string)
    requires Texts(items, name) != []
    ensures name in Names(items) && MeaningOf(items, name).Text?
  {
    TextsAre(items, name);
    var i :| 0 <= i < |items| && items[i].Attr? && items[i].name == name;
    assert items[i].name in Names(items);
  }

  lemma {:induction false} NamedNeedsName(items: seq<Item>, name: string)
    requires name !in Names(items)
    ensures Named(items, name) == [] && Texts(items, name) == []
    decreases items
  {
    if items != [] {
      var init := items[..|items| - 1];
      assert items[|items| - 1].name in Names(items);
      assert forall i :: 0 <= i < |init| ==> init[i].name == items[i].name && items[i].name in Names(items);
      NamedNeedsName(init, name);
    }
  }

  lemma {:induction false} NamesGrow(items: seq<Item>)
    requires items != []
    ensures Names(items) == Names(items[..|items| - 1]) + {items[|items| - 1].name}
  {
    var init, last := items[..|items| - 1], items[|items| - 1];
    forall name ensures name in Names(items) <==> name in Names(init) + {last.name} {
      if name in Names(items) {
        var i :| 0 <= i < |items| && items[i].name == name;
        assert i < |init| ==> init[i].name == name;
      }
      if name in Names(init) {
        var i :| 0 <= i < |init| && init[i].name == name;
        assert items[i].name == name;
      }
      assert items[|items| - 1].name in Names(items);
    }
  }

  /** Items are fine exactly if all but the last are, and the last clashes with none of them. */
  lemma {:induction false} FineGrows(items: seq<Item>)
    requires items != []
    ensures var init, last := items[..|items| - 1], items[|items| - 1];
      Fine(items) <==>
        && Fine(init)
        && (last.Elem? ==> Fine(last.items) && Texts(init, last.name) == [])
        && (last.Attr? ==> last.name !in Names(init))
  {
    var n := |items| - 1;
    var init, last := items[..n], items[n];
    TextsAre(init, last.name);
    assert forall i :: 0 <= i < n ==> init[i] == items[i];
    if Fine(items) {
      assert Fine(init);
    }
    if && Fine(init)
       && (last.Elem? ==> Fine(last.items) && Texts(init, last.name) == [])
       && (last.Attr? ==> last.name !in Names(init))
    {
      forall i, j | 0 <= i < j < |items| && items[i].name == items[j].name ensures items[i].Elem? && items[j].Elem? {
        if j == n {
          assert init[i].name in Names(init);
        } else {
          assert init[i] == items[i] && init[j] == items[j];
        }
      }
    }
  }

  lemma {:induction false} AttributeMeans(items: seq<Item>)
    requires items != [] && Fine(items) && items[|items| - 1].Attr?
    ensures AddItem(Meaning(items[..|items| - 1]), items[|items| - 1]) == Some(Meaning(items))
  {
    var init, last := items[..|items| - 1], items[|items| - 1];
    FineGrows(items);
    NamedNeedsName(init, last.name);
    assert MeaningOf(items, last.name) == Text(last.value);
    LastNameChanges(items);
  }

  lemma {:induction false} LastNameChanges(items: seq<Item>)
    requires items != []
    ensures var name := items[|items| - 1].name;
      Meaning(items).entries == Meaning(items[..|items| - 1]).entries[name := MeaningOf(items, name)]
  {
    var init, last := items[..|items| - 1], items[|items| - 1];
    NamesGrow(items);
    EntriesAre(items);
    EntriesAre(init);
    forall name | name in Names(init) && name != last.name ensures MeaningOf(items, name) == MeaningOf(init, name) {
      OtherNameStays(items, name);
    }
    OneEntryChanges(Meaning(init).entries, Meaning(items).entries, last.name);
  }

  lemma {:induction false} EntriesAre(items: seq<Item>)
    ensures Meaning(items).entries.Keys == Names(items)
    ensures forall name :: name in Names(items) ==> Meaning(items).entries[name] == MeaningOf(items, name)
  {
  }

  lemma {:induction false} OneEntryChanges(before: map<string, Value>, after: map<string, Value>, name: string)
    requires after.Keys == before.Keys + {name}
    requires forall k :: k in before && k != name ==> after[k] == before[k]
    ensures after == before[name := after[name]]
  {
  }

  lemma {:induction false} OtherNameStays(items: seq<Item>, name: string)
    requires items != [] && name != items[|items| - 1].name
    ensures MeaningOf(items, name) == MeaningOf(items[..|items| - 1], name)
  {
  }

  lemma {:induction false} ElementMeans(items: seq<Item>)
    requires items != [] && Fine(items) && items[|items| - 1].Elem?
    requires Build(items[|items| - 1].items) == Some(Meaning(items[|items| - 1].items))
    ensures AddItem(Meaning(items[..|items| - 1]), items[|items| - 1]) == Some(Meaning(items))
  {
    var init, last := items[..|items| - 1], items[|items| - 1];
    FineGrows(items);
    if last.name !in Names(init) {
      NamedNeedsName(init, last.name);
    }
    assert MeaningOf(items, last.name) == Nodes(Named(init, last.name) + [Meaning(last.items)]);
    LastNameChanges(items);
  }

  lemma {:induction false} BuildIsMeaning(items: seq<Item>)
    ensures Build(items) == if Fine(items) then Some(Meaning(items)) else None
    decreases items
  {
    if items == [] {
      assert Meaning(items) == Dict(map[]);
    } else {
      var init, last := items[..|items| - 1], items[|items| - 1];
      BuildIsMeaning(init);
      FineGrows(items);
      assert Build(items) == if Build(init).None? then None else AddItem(Build(init).value, last);
      if last.Elem? {
        BuildIsMeaning(last.items);
        if Fine(items) {
          ElementMeans(items);
        } else if Texts(init, last.name) != [] {
          TextsHaveNames(init, last.name);
        }
      } else if Fine(items) {
        AttributeMeans(items);
      }
    }
  }

  /** The listing of any items, indented as the first line says, parses to their meaning, or raises if names clash. */
  lemma {:induction false} ListingParses(namespaced: bool, items: seq<Item>)
    ensures Parsed(namespaced, Listing(items, RootOf(namespaced))) == if Fine(items) then Some(Meaning(items)) else None
  {
    var s, d := Start(namespaced), RootOf(namespaced);
    assert TreeOf(s.cells, s.stack[d]) == Dict(map[]);
    ListingBuilds(s, items, d, Dict(map[]));
    BuildIsMeaning(items);
    var end := Run(s, Listing(items, d));
    if end.Some? {
      assert end.value.stack[d] == end.value.stack[..d + 1][d] == s.stack[d] == d;
    }
  }

  lemma {:induction false} OneMoreLine(base: nat, before: seq<Line>, d: nat, content: LineContent)
    requires WellIndented(base, before) && d < Height(base, before)
    ensures WellIndented(base, before + [Line(d, content)])
    ensures Height(base, before + [Line(d, content)]) == d + if content.Element? then 2 else 1
  {
    var all := before + [Line(d, content)];
    assert all[..|all| - 1] == before;
  }

  /** Lines of a listing are well indented, so the stack has the height the indentation says. */
  lemma {:induction false} ListingIsWellIndented(base: nat, before: seq<Line>, items: seq<Item>, d: nat)
    requires WellIndented(base, before) && d < Height(base, before)
    ensures WellIndented(base, before + Listing(items, d)) && d < Height(base, before + Listing(items, d))
    decreases items
  {
    if items == [] {
      assert before + Listing(items, d) == before;
    } else {
      var n := |items| - 1;
      var mid := before + Listing(items[..n], d);
      ListingIsWellIndented(base, before, items[..n], d);
      ItemIsWellIndented(base, mid, items[n], d);
      assert before + Listing(items, d) == mid + ItemLines(items[n], d);
    }
  }

  lemma {:induction false} ItemIsWellIndented(base: nat, before: seq<Line>, item: Item, d: nat)
    requires WellIndented(base, before) && d < Height(base, before)
    ensures WellIndented(base, before + ItemLines(item, d)) && d < Height(base, before + ItemLines(item, d))
    decreases item
  {
    match item {
      case Attr(name, value) => OneMoreLine(base, before, d, Attribute(name, value));
      case Elem(name, items) =>
        var line := Line(d, Element(name));
        OneMoreLine(base, before, d, Element(name));
        ListingIsWellIndented(base, before + [line], items, d + 1);
        assert (before + [line]) + Listing(items, d + 1) == before + ItemLines(item, d);
    }
  }

  // ---------------------------------------------------------------------------------------------
  // A second namespace line

  /**
   * A manifest below two namespace lines, of which only the first is accounted for. The second has no text after
   * its address: with such text it passes for an element, see `SecondNamespaceAsElement`.
   */
  function BelowTwoNamespaces(items: seq<Item>): seq<Line> {
    [Line(1, Other)] + Listing(items, 2)
  }

  /** In every list, what stands after the first element is moved into that element, behind its own items. */
  function Nest(items: seq<Item>): seq<Item>
    decreases items
  {
    if items == [] then []
    else if items[0].Attr? then [items[0]] + Nest(items[1..])
    else [Elem(items[0].name, Nest(items[0].items) + items[1..])]
  }

  /** In every list, an element is only ever the last item. */
  predicate LastOnly(items: seq<Item>)
    decreases items
  {
    forall i :: 0 <= i < |items| && items[i].Elem? ==> i == |items| - 1 && LastOnly(items[i].items)
  }

  lemma {:induction false} ListingFront(items: seq<Item>, d: nat)
    requires items != []
    ensures Listing(items, d) == ItemLines(items[0], d) + Listing(items[1..], d)
    decreases |items|
  {
    var n := |items| - 1;
    if n == 0 {
      assert items[..0] == [] && items[1..] == [];
      assert Listing(items, d) == [] + ItemLines(items[0], d);
    } else {
      var middle := items[1..n];
      ListingFront(items[..n], d);
      assert items[..n][1..] == middle && items[1..][..n - 1] == middle && items[1..][n - 1] == items[n];
      assert Listing(items[1..], d) == Listing(middle, d) + ItemLines(items[n], d);
      LinesJoin(ItemLines(items[0], d), Listing(middle, d), ItemLines(items[n], d));
    }
  }

  lemma {:induction false} LinesJoin(a: seq<Line>, b: seq<Line>, c: seq<Line>)
    ensures (a + b) + c == a + (b + c)
  {
  }

  lemma {:induction false} BuildJoins(d: Dict, a: seq<Item>, b: seq<Item>)
    ensures BuildFrom(d, a + b) == if BuildFrom(d, a).None? then None else BuildFrom(BuildFrom(d, a).value, b)
    decreases |b|
  {
    if b == [] {
      assert a + b == a;
    } else {
      var n := |b| - 1;
      assert (a + b)[..|a + b| - 1] == a + b[..n];
      BuildJoins(d, a, b[..n]);
    }
  }

  lemma {:induction false} BuildOne(d: Dict, item: Item)
    ensures BuildFrom(d, [item]) == AddItem(d, item)
  {
    assert [item][..0] == [];
  }

  /** A line one level too deep is taken where the stack ends. */
  lemma {:induction false} TooDeep(s: State, d: nat, content: LineContent)
    requires s.Valid() && |s.stack| == d + 1
    ensures Step(s, Line(d + 1, content)) == Step(s, Line(d, content))
  {
    assert Cut(s.stack, d) == s.stack;
  }

  /** Where the stack ends, a listing one level too deep builds the nested items. */
  lemma {:induction false} DeepListingNests(s: State, items: seq<Item>, d: nat, dict: Dict)
    requires At(s, d, dict) && |s.stack| == d + 1
    ensures Follows(s, Run(s, Listing(items, d + 1)), d, BuildFrom(dict, Nest(items)))
    decreases items
  {
    if items != [] {
      ListingFront(items, d + 1);
      RunJoins(s, ItemLines(items[0], d + 1), Listing(items[1..], d + 1));
      match items[0] {
        case Attr(name, value) => DeepAttribute(s, items, d, dict);
        case Elem(name, sub) => DeepElement(s, items, d, dict, Run(s, Listing(items, d + 1)));
      }
    }
  }

  lemma {:induction false} DeepAttribute(s: State, items: seq<Item>, d: nat, dict: Dict)
    requires At(s, d, dict) && |s.stack| == d + 1 && items != [] && items[0].Attr?
    requires Run(s, Listing(items, d + 1)) ==
      var mid := Run(s, ItemLines(items[0], d + 1));
      if mid.None? then None else Run(mid.value, Listing(items[1..], d + 1))
    ensures Follows(s, Run(s, Listing(items, d + 1)), d, BuildFrom(dict, Nest(items)))
    decreases items, 0
  {
    var item, rest := items[0], items[1..];
    BuildJoins(dict, [item], Nest(rest));
    BuildOne(dict, item);
    KindsMatch(s.cells, s.stack[d], item.name);
    TooDeep(s, d, Attribute(item.name, item.value));
    RunOne(s, Line(d + 1, Attribute(item.name, item.value)));
    if item.name !in dict.entries {
      AttributeAdds(s, item.name, item.value, d);
      var mid := Step(s, Line(d, Attribute(item.name, item.value))).value;
      assert |mid.stack| == d + 1;
      DeepListingNests(mid, rest, d, AddItem(dict, item).value);
      var end := Run(mid, Listing(rest, d + 1));
      if end.Some? {
        FillsJoin(s, mid, end.value, d);
      }
    }
  }

  lemma {:induction false} DeepElementLines(s: State, name: string, sub: seq<Item>, d: nat)
    requires s.Valid() && |s.stack| == d + 1
    ensures Run(s, ItemLines(Elem(name, sub), d + 1)) ==
      var s1 := Step(s, Line(d, Element(name)));
      if s1.None? then None else Run(s1.value, Listing(sub, d + 2))
  {
    var lines := ItemLines(Elem(name, sub), d + 1);
    assert lines == [Line(d + 1, Element(name))] + Listing(sub, d + 2);
    TooDeep(s, d, Element(name));
    FirstLineGives(s, Line(d + 1, Element(name)), Listing(sub, d + 2), Step(s, Line(d, Element(name))));
  }

  lemma {:induction false} FirstLineGives(s: State, line: Line, rest: seq<Line>, s1: Option<State>)
    requires s.Valid() && s1 == Step(s, line)
    ensures Run(s, [line] + rest) == if s1.None? then None else Run(s1.value, rest)
  {
    FirstLine(s, line, rest);
  }

  lemma {:induction false} FirstLine(s: State, line: Line, rest: seq<Line>)
    requires s.Valid()
    ensures Run(s, [line] + rest) == if Step(s, line).None? then None else Run(Step(s, line).value, rest)
  {
    RunOne(s, line);
    RunJoins(s, [line], rest);
  }

  lemma {:induction false} DeepElement(s: State, items: seq<Item>, d: nat, dict: Dict, end: Option<State>)
    requires At(s, d, dict) && |s.stack| == d + 1 && items != [] && items[0].Elem?
    requires end ==
      var mid := Run(s, ItemLines(items[0], d + 1));
      if mid.None? then None else Run(mid.value, Listing(items[1..], d + 1))
    ensures Follows(s, end, d, BuildFrom(dict, Nest(items)))
    decreases items, 0
  {
    var name, sub, rest := items[0].name, items[0].items, items[1..];
    DeepElementLines(s, name, sub, d);
    KindsMatch(s.cells, s.stack[d], name);
    if name !in dict.entries || !dict.entries[name].Text? {
      ElementOpens(s, name, d);
      var s1 := Step(s, Line(d, Element(name))).value;
      assert |s1.stack| == d + 2;
      DeepListingNests(s1, sub, d + 1, Dict(map[]));
      RestGoesInside(s1, sub, rest, d + 1);
    }
    ElementFollows(s, name, Nest(sub) + rest, d, dict, end);
    BuildOne(dict, Elem(name, Nest(sub) + rest));
  }

  /** Behind the nested items of an element, the items that follow it are built at its depth. */
  lemma {:induction false} RestGoesInside(s: State, sub: seq<Item>, rest: seq<Item>, d: nat)
    requires At(s, d, Dict(map[])) && Follows(s, Run(s, Listing(sub, d + 1)), d, BuildFrom(Dict(map[]), Nest(sub)))
    ensures var mid := Run(s, Listing(sub, d + 1));
      Follows(s, if mid.None? then None else Run(mid.value, Listing(rest, d)), d, Build(Nest(sub) + rest))
  {
    BuildJoins(Dict(map[]), Nest(sub), rest);
    var mid := Run(s, Listing(sub, d + 1));
    if mid.Some? {
      ListingBuilds(mid.value, rest, d, Build(Nest(sub)).value);
      var end := Run(mid.value, Listing(rest, d));
      if end.Some? {
        FillsJoin(s, mid.value, end.value, d);
      }
    }
  }

  lemma {:induction false} SecondLineChangesNothing(lines: seq<Line>)
    ensures Run(Start(true), [Line(1, Other)] + lines) == Run(Start(true), lines)
  {
    FirstLine(Start(true), Line(1, Other), lines);
  }

  lemma {:induction false} StartIsEmpty()
    ensures At(Start(true), 1, Dict(map[]))
  {
    assert TreeOf(Start(true).cells, 1) == Dict(map[]);
  }

  /** What becomes of a manifest below two namespace lines. */
  lemma {:induction false} SecondNamespaceNests(items: seq<Item>)
    ensures Parsed(true, BelowTwoNamespaces(items)) == if Fine(Nest(items)) then Some(Meaning(Nest(items))) else None
  {
    var s := Start(true);
    SecondLineChangesNothing(Listing(items, 2));
    StartIsEmpty();
    DeepListingNests(s, items, 1, Dict(map[]));
    BuildIsMeaning(Nest(items));
    var end := Run(s, Listing(items, 2));
    if end.Some? {
      assert end.value.stack[1] == end.value.stack[..2][1] == s.stack[1] == 1;
    }
  }

  lemma {:induction false} LastOnlyNestsToItself(items: seq<Item>)
    requires LastOnly(items)
    ensures Nest(items) == items
    decreases items
  {
    if items != [] {
      var rest := items[1..];
      if items[0].Attr? {
        assert forall i :: 0 <= i < |rest| ==> rest[i] == items[i + 1];
        LastOnlyNestsToItself(rest);
      } else {
        assert rest == [];
        LastOnlyNestsToItself(items[0].items);
        assert Nest(items[0].items) + rest == items[0].items;
      }
      assert items == [items[0]] + rest;
    }
  }

  /** The nested items are the attributes before the first element, and that element. */
  lemma {:induction false} NestShape(items: seq<Item>, k: nat)
    requires k < |items| && items[k].Elem? && forall i :: 0 <= i < k ==> items[i].Attr?
    ensures Nest(items) == items[..k] + [Elem(items[k].name, Nest(items[k].items) + items[k + 1..])]
    decreases k
  {
    if k > 0 {
      var rest := items[1..];
      assert forall i :: 0 <= i < |rest| ==> rest[i] == items[i + 1];
      NestShape(rest, k - 1);
      assert [items[0]] + rest[..k - 1] == items[..k] && rest[k..] == items[k + 1..];
    }
  }

  lemma {:induction false} NamedJoins(a: seq<Item>, b: seq<Item>, name: string)
    ensures Named(a + b, name) == Named(a, name) + Named(b, name)
    decreases |b|
  {
    if b == [] {
      assert a + b == a;
    } else {
      assert (a + b)[..|a + b| - 1] == a + b[..|b| - 1];
      NamedJoins(a, b[..|b| - 1], name);
    }
  }

  lemma {:induction false} NamedOfAttributes(items: seq<Item>, name: string)
    requires forall i :: 0 <= i < |items| ==> items[i].Attr?
    ensures Named(items, name) == []
    decreases |items|
  {
    if items != [] {
      NamedOfAttributes(items[..|items| - 1], name);
    }
  }

  /** The elements of one name, after attributes and one element of that name. */
  lemma {:induction false} NamedAfterFirst(items: seq<Item>, k: nat)
    requires k < |items| && items[k].Elem? && forall i :: 0 <= i < k ==> items[i].Attr?
    ensures Named(items, items[k].name) == [Meaning(items[k].items)] + Named(items[k + 1..], items[k].name)
  {
    var name := items[k].name;
    assert items == (items[..k] + [items[k]]) + items[k + 1..];
    NamedJoins(items[..k] + [items[k]], items[k + 1..], name);
    NamedJoins(items[..k], [items[k]], name);
    NamedOfAttributes(items[..k], name);
    assert [items[k]][..0] == [];
    assert Named([items[k]], name) == [Meaning(items[k].items)];
  }

  lemma {:induction false} NamedIsThere(items: seq<Item>, i: nat)
    requires i < |items| && items[i].Elem?
    ensures Named(items, items[i].name) != []
    decreases |items|
  {
    if i < |items| - 1 {
      NamedIsThere(items[..|items| - 1], i);
    }
  }

  /** In fine items, the name of an element means its list. */
  lemma {:induction false} ElementsMeanTheirList(items: seq<Item>, i: nat)
    requires Fine(items) && i < |items| && items[i].Elem?
    ensures items[i].name in Meaning(items).entries
    ensures Meaning(items).entries[items[i].name] == Nodes(Named(items, items[i].name))
  {
    EntriesAre(items);
    TextsAre(items, items[i].name);
    assert items[i].name in Names(items);
    assert Texts(items, items[i].name) == [];
  }

  /** Another name behind the first element is lost. */
  lemma {:induction false} NestingLosesNames(items: seq<Item>, k: nat, j: nat)
    requires Fine(items) && k < j < |items| && items[k].Elem? && items[j].name != items[k].name
    requires forall i :: 0 <= i < k ==> items[i].Attr?
    ensures Meaning(Nest(items)) != Meaning(items)
  {
    var nested, name := Nest(items), items[j].name;
    NestShape(items, k);
    assert name !in Names(nested) by {
      forall i | 0 <= i < |nested| ensures nested[i].name != name {
        assert i < k ==> nested[i] == items[i];
      }
    }
    assert name in Names(items);
    EntriesAre(items);
    EntriesAre(nested);
  }

  lemma {:induction false} SeveralOfOneName(items: seq<Item>, k: nat, j: nat)
    requires k < j < |items| && items[k].Elem? && items[j].Elem? && items[j].name == items[k].name
    requires forall i :: 0 <= i < k ==> items[i].Attr?
    ensures |Named(items, items[k].name)| > 1
  {
    NamedAfterFirst(items, k);
    assert items[k + 1..][j - k - 1] == items[j];
    NamedIsThere(items[k + 1..], j - k - 1);
  }

  lemma {:induction false} OneOfItsName(items: seq<Item>, k: nat)
    requires k + 1 == |items| && items[k].Elem? && forall i :: 0 <= i < k ==> items[i].Attr?
    ensures |Named(items, items[k].name)| == 1
  {
    NamedAfterFirst(items, k);
    assert items[k + 1..] == [];
  }

  lemma {:induction false} ListsDiffer(items: seq<Item>, nested: seq<Item>, k: nat)
    requires Fine(items) && Fine(nested) && k < |items| && k < |nested|
    requires items[k].Elem? && nested[k].Elem? && nested[k].name == items[k].name
    requires |Named(items, items[k].name)| != |Named(nested, items[k].name)|
    ensures Meaning(nested) != Meaning(items)
  {
    ElementsMeanTheirList(items, k);
    ElementsMeanTheirList(nested, k);
  }

  /** Another element of the same name is missing from the list of that name. */
  lemma {:induction false} NestingShortensList(items: seq<Item>, k: nat, j: nat)
    requires Fine(items) && Fine(Nest(items)) && k < j < |items|
    requires items[k].Elem? && items[j].Elem? && items[j].name == items[k].name
    requires forall i :: 0 <= i < k ==> items[i].Attr?
    ensures Meaning(Nest(items)) != Meaning(items)
  {
    NestShape(items, k);
    SeveralOfOneName(items, k, j);
    OneOfItsName(Nest(items), k);
    ListsDiffer(items, Nest(items), k);
  }

  function FirstElement(items: seq<Item>): (k: nat)
    ensures k <= |items| && (k < |items| ==> items[k].Elem?) && forall i :: 0 <= i < k ==> items[i].Attr?
  {
    if items == [] || items[0].Elem? then 0
    else
      assert forall i :: 0 < i < |items| ==> items[i] == items[1..][i - 1];
      FirstElement(items[1..]) + 1
  }

  lemma {:induction false} SameMeaningIsLastOnly(items: seq<Item>)
    requires Fine(items) && Fine(Nest(items)) && Meaning(Nest(items)) == Meaning(items)
    ensures LastOnly(items)
    decreases items
  {
    var k := FirstElement(items);
    if k < |items| {
      if k + 1 < |items| {
        if items[k + 1].name == items[k].name {
          NestingShortensList(items, k, k + 1);
        } else {
          NestingLosesNames(items, k, k + 1);
        }
      }
      assert k + 1 == |items|;
      LastElementMeans(items, k);
      SameMeaningIsLastOnly(items[k].items);
    }
  }

  /** When the first element is the last item, what is inside it means the same as well. */
  lemma {:induction false} LastElementMeans(items: seq<Item>, k: nat)
    requires Fine(items) && Fine(Nest(items)) && Meaning(Nest(items)) == Meaning(items)
    requires k + 1 == |items| && items[k].Elem? && forall i :: 0 <= i < k ==> items[i].Attr?
    ensures var sub := items[k].items;
      Fine(sub) && Fine(Nest(sub)) && Meaning(Nest(sub)) == Meaning(sub)
  {
    var nested, sub := Nest(items), items[k].items;
    NestShape(items, k);
    assert items[k + 1..] == [] && Nest(sub) + [] == Nest(sub) && nested[k].items == Nest(sub);
    assert nested[k + 1..] == [];
    NamedAfterFirst(items, k);
    NamedAfterFirst(nested, k);
    ElementsMeanTheirList(items, k);
    ElementsMeanTheirList(nested, k);
    assert Meaning(sub) == Named(items, items[k].name)[0] == Named(nested, items[k].name)[0] == Meaning(Nest(sub));
  }

  /**
   * A manifest without clashes is read right below a second namespace line exactly if in every list an
   * element is only ever the last item.
   */
  lemma {:induction false} SecondNamespaceReadsIff(items: seq<Item>)
    requires Fine(items)
    ensures Parsed(true, BelowTwoNamespaces(items)) == Some(Meaning(items)) <==> LastOnly(items)
  {
    SecondNamespaceNests(items);
    if LastOnly(items) {
      LastOnlyNestsToItself(items);
    } else if Fine(Nest(items)) && Meaning(Nest(items)) == Meaning(items) {
      SameMeaningIsLastOnly(items);
    }
  }

  /** So any root with two elements in it is misread. */
  lemma {:induction false} SecondNamespaceMisplaces(root: string, sub: seq<Item>)
    requires Fine(sub) && |sub| == 2 && sub[0].Elem? && sub[1].Elem?
    ensures Fine([Elem(root, sub)])
    ensures Parsed(true, BelowTwoNamespaces([Elem(root, sub)])) != Some(Meaning([Elem(root, sub)]))
  {
    var items := [Elem(root, sub)];
    assert items[0].Elem? && items[0].items == sub;
    SecondNamespaceReadsIff(items);
  }

  /** A second namespace line with text after its address is read as an element with all of the manifest in it. */
  lemma {:induction false} SecondNamespaceAsElement(prefix: string, items: seq<Item>)
    ensures Parsed(true, [Line(1, Element(prefix))] + Listing(items, 2)) ==
      if Fine(items) then Some(Dict(map[prefix := Nodes([Meaning(items)])])) else None
  {
    var all := [Elem(prefix, items)];
    assert all[..0] == [];
    assert Listing(all, 1) == [Line(1, Element(prefix))] + Listing(items, 2);
    ListingParses(true, all);
    OneElementMeans(prefix, items);
    assert Fine(all) <==> Fine(items) by {
      assert all[0].Elem? && all[0].items == items;
    }
  }

  lemma {:induction false} OneElementMeans(name: string, items: seq<Item>)
    ensures Meaning([Elem(name, items)]) == Dict(map[name := Nodes([Meaning(items)])])
  {
    var all := [Elem(name, items)];
    EntriesAre(all);
    TextsAre(all, name);
    NamedAfterFirst(all, 0);
    assert all[1..] == [] && Names(all) == {name};
    assert Texts(all, name) == [];
    var one := map[name := Nodes([Meaning(items)])];
    assert Named(all, name) == [Meaning(items)] + [];
    assert Meaning(all).entries[name] == one[name];
    assert Meaning(all).entries == one;
  }

  // ---------------------------------------------------------------------------------------------
  // Lines that are neither elements nor attributes

  lemma {:induction false} SameRunSameParse(namespaced: bool, a: seq<Line>, b: seq<Line>)
    requires Run(Start(namespaced), a) == Run(Start(namespaced), b)
    ensures Parsed(namespaced, a) == Parsed(namespaced, b)
  {
  }

  /** An empty line can stand anywhere. */
  lemma {:induction false} BlankChangesNothing(namespaced: bool, before: seq<Line>, after: seq<Line>)
    ensures Parsed(namespaced, before + ([Blank] + after)) == Parsed(namespaced, before + after)
  {
    var s := Start(namespaced);
    RunJoins(s, before, [Blank] + after);
    RunJoins(s, before, after);
    if Run(s, before).Some? {
      FirstLine(Run(s, before).value, Blank, after);
    }
    SameRunSameParse(namespaced, before + ([Blank] + after), before + after);
  }

  /** Any other line can stand before a line that is not indented more. */
  lemma {:induction false} OtherChangesNothing(namespaced: bool, before: seq<Line>, d: nat, line: Line,
                                               after: seq<Line>)
    requires line.Line? && line.depth <= d
    ensures Parsed(namespaced, before + ([Line(d, Other)] + ([line] + after)))
         == Parsed(namespaced, before + ([line] + after))
  {
    var s := Start(namespaced);
    RunJoins(s, before, [Line(d, Other)] + ([line] + after));
    RunJoins(s, before, [line] + after);
    if Run(s, before).Some? {
      var s1 := Run(s, before).value;
      FirstLine(s1, Line(d, Other), [line] + after);
      FirstLine(s1, line, after);
      FirstLine(Step(s1, Line(d, Other)).value, line, after);
      CutTwice(s1, d, line);
    }
    SameRunSameParse(namespaced, before + ([Line(d, Other)] + ([line] + after)), before + ([line] + after));
  }

  lemma {:induction false} CutTwice(s: State, d: nat, line: Line)
    requires s.Valid() && line.Line? && line.depth <= d
    ensures Step(Step(s, Line(d, Other)).value, line) == Step(s, line)
  {
    assert Cut(Cut(s.stack, d), line.depth) == Cut(s.stack, line.depth);
  }
}
