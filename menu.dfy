/** `Menu`: a tree of menu entries walked by hotkeys. The tree is the caller's
    configuration; the current entry is a place in it, the path the list of
    ids that names that place. Rendering gives children without a hotkey the
    number of their position and writes that hotkey into the configuration. */
module Menus {
  import opened Common
  import opened Serial
  import opened Input
  import Editor
  import PromptLine

  /** One configuration entry. `getsValue` says whether it has a callable
      `get_value`; `children` is `Absent` when it has no "childs" key. */
  datatype Node = Node(id: string, caption: string, hotkey: Option<string>, getsValue: bool,
                       children: Childs)

  /** A "childs" list, or no "childs" key at all. */
  datatype Childs = Absent | Listed(list: seq<Node>)

  function Kids(n: Node): seq<Node> {
    if n.children.Listed? then n.children.list else []
  }

  // ---------------------------------------------------------------------
  // Places in the tree

  /** A place: the child index taken at each level, from the root. */
  predicate ValidLoc(n: Node, loc: seq<nat>)
    decreases |loc|
  {
    loc == [] || (n.children.Listed? && loc[0] < |n.children.list| && ValidLoc(n.children.list[loc[0]], loc[1..]))
  }

  function NodeAt(n: Node, loc: seq<nat>): Node
    requires ValidLoc(n, loc)
    decreases |loc|
  {
    if loc == [] then n else NodeAt(n.children.list[loc[0]], loc[1..])
  }

  /** One level below a place. */
  lemma {:induction false} LocAppend(n: Node, loc: seq<nat>, i: nat)
    requires ValidLoc(n, loc) && i < |Kids(NodeAt(n, loc))|
    ensures ValidLoc(n, loc + [i]) && NodeAt(n, loc + [i]) == Kids(NodeAt(n, loc))[i]
    decreases |loc|
  {
    if loc != [] {
      LocAppend(n.children.list[loc[0]], loc[1..], i);
      assert (loc + [i])[1..] == loc[1..] + [i];
    }
  }

  /** The tree with the entry at a place replaced. */
  function ReplaceAt(n: Node, loc: seq<nat>, m: Node): (r: Node)
    requires ValidLoc(n, loc)
    ensures ValidLoc(r, loc) && NodeAt(r, loc) == m
    decreases |loc|
  {
    if loc == [] then m
    else
      var kids := n.children.list;
      n.(children := Listed(kids[loc[0] := ReplaceAt(kids[loc[0]], loc[1..], m)]))
  }

  /** The ids met on the way down to a place, the root's excluded. */
  function IdsAlong(n: Node, loc: seq<nat>): seq<string>
    requires ValidLoc(n, loc)
    decreases |loc|
  {
    if loc == [] then [] else [n.children.list[loc[0]].id] + IdsAlong(n.children.list[loc[0]], loc[1..])
  }

  /** Two trees that differ at most in hotkeys, labels and values. */
  predicate SameIds(a: Node, b: Node)
    decreases a
  {
    a.id == b.id && a.children.Listed? == b.children.Listed?
    && (a.children.Listed? ==>
          |a.children.list| == |b.children.list|
          && forall i :: 0 <= i < |a.children.list| ==> SameIds(a.children.list[i], b.children.list[i]))
  }

  lemma {:induction false} SameIdsReflexive(a: Node)
    ensures SameIds(a, a)
    decreases a
  {
    if a.children.Listed? {
      forall i | 0 <= i < |a.children.list| ensures SameIds(a.children.list[i], a.children.list[i]) {
        SameIdsReflexive(a.children.list[i]);
      }
    }
  }

  /** Replacing an entry by one with the same ids keeps the ids of the tree. */
  lemma {:induction false} ReplaceKeepsIds(n: Node, loc: seq<nat>, m: Node)
    requires ValidLoc(n, loc) && SameIds(NodeAt(n, loc), m)
    ensures SameIds(n, ReplaceAt(n, loc, m))
    decreases |loc|
  {
    if loc != [] {
      var kids := n.children.list;
      var r := ReplaceAt(n, loc, m);
      ReplaceKeepsIds(kids[loc[0]], loc[1..], m);
      forall i | 0 <= i < |kids| ensures SameIds(kids[i], r.children.list[i]) {
        if i != loc[0] {
          SameIdsReflexive(kids[i]);
        }
      }
    }
  }

  /** Every entry's children have distinct ids, none equal to its own. */
  predicate WellFormed(n: Node)
    decreases n
  {
    n.children.Listed? ==>
      (forall i, j :: 0 <= i < j < |n.children.list| ==> n.children.list[i].id != n.children.list[j].id)
      && (forall i :: 0 <= i < |n.children.list| ==> n.children.list[i].id != n.id)
      && (forall i :: 0 <= i < |n.children.list| ==> WellFormed(n.children.list[i]))
  }

  lemma {:induction false} SameIdsWellFormed(a: Node, b: Node)
    requires SameIds(a, b) && WellFormed(a)
    ensures WellFormed(b)
    decreases a
  {
    if a.children.Listed? {
      forall i | 0 <= i < |a.children.list| ensures WellFormed(b.children.list[i]) {
        SameIdsWellFormed(a.children.list[i], b.children.list[i]);
      }
    }
  }

  // ---------------------------------------------------------------------
  // Finding entries

  /** `_path_to_list(path)`: a string is split on "."; a list is taken as it is. */
  datatype PathArg = Dotted(text: string) | Segments(parts: seq<string>)

  function PathToList(p: PathArg): (r: seq<string>)
    ensures p.Dotted? ==> |r| >= 1 && Join(r, ".") == p.text && forall i :: 0 <= i < |r| ==> '.' !in r[i]
    ensures p.Segments? ==> r == p.parts
  {
    match p
    case Dotted(text) => Split(text, '.')
    case Segments(parts) => parts
  }

  /** The keys `_get_child_by` is called with. */
  datatype Field = ById | ByHotkey

  function FieldOf(n: Node, f: Field): Option<string> {
    if f == ById then Some(n.id) else n.hotkey
  }

  /** The first of `kids` whose field holds `value`. */
  function FirstWith(kids: seq<Node>, f: Field, value: string): (r: Option<nat>)
    ensures r.Some? ==> r.value < |kids| && FieldOf(kids[r.value], f) == Some(value)
                        && forall j :: 0 <= j < r.value ==> FieldOf(kids[j], f) != Some(value)
    ensures r.None? ==> forall j :: 0 <= j < |kids| ==> FieldOf(kids[j], f) != Some(value)
    decreases |kids|
  {
    if kids == [] then None
    else if FieldOf(kids[0], f) == Some(value) then Some(0)
    else match FirstWith(kids[1..], f, value)
         case Some(k) => Some(k + 1)
         case None => None
  }

  /** `_get_child_by(menu, key, value)`. */
  function ChildBy(n: Node, f: Field, value: string): (r: Option<nat>)
    ensures r.Some? ==> n.children.Listed? && r.value < |n.children.list|
  {
    if n.children.Listed? then FirstWith(n.children.list, f, value) else None
  }

  /** With distinct sibling ids, a child is found by its own id. */
  lemma ChildById(n: Node, i: nat)
    requires WellFormed(n) && n.children.Listed? && i < |n.children.list|
    ensures ChildBy(n, ById, n.children.list[i].id) == Some(i)
  {
  }

  /** What `_get_item_by_path` gives: a place, None, or the empty-path error. */
  datatype Lookup = Found(loc: seq<nat>) | Missing | EmptyPath

  /** `_get_item_by_path(menu, path)` on the split path: a first segment equal
      to the entry's own id is skipped, the next one names a child. */
  function Resolve(n: Node, path: seq<string>): (r: Lookup)
    ensures r.Found? ==> ValidLoc(n, r.loc)
    ensures r == EmptyPath <==> path == []
    decreases |path|
  {
    if path == [] then EmptyPath
    else if path[0] == n.id && |path| == 1 then Found([])
    else
      var p := if path[0] == n.id then path[1..] else path;
      match ChildBy(n, ById, p[0])
      case None => Missing
      case Some(i) =>
        if |p| == 1 then Found([i])
        else match Resolve(n.children.list[i], p[1..])
             case Found(l) => Found([i] + l)
             case _ => Missing
  }

  /** A found entry carries the id the path ends with. */
  lemma {:induction false} ResolveEndsAtLastId(n: Node, path: seq<string>)
    requires Resolve(n, path).Found?
    ensures NodeAt(n, Resolve(n, path).loc).id == path[|path| - 1]
    decreases |path|
  {
    if path[0] == n.id && |path| == 1 {
    } else {
      var p := if path[0] == n.id then path[1..] else path;
      var i := ChildBy(n, ById, p[0]).value;
      if |p| > 1 {
        ResolveEndsAtLastId(n.children.list[i], p[1..]);
      }
    }
  }

  /** In a well-formed tree every place is found from the ids on the way to
      it, with or without the root's own id in front. */
  lemma {:induction false} ResolveIdsAlong(n: Node, loc: seq<nat>)
    requires WellFormed(n) && ValidLoc(n, loc) && loc != []
    ensures Resolve(n, IdsAlong(n, loc)) == Found(loc)
    ensures Resolve(n, [n.id] + IdsAlong(n, loc)) == Found(loc)
    decreases |loc|
  {
    var i := loc[0];
    var c := n.children.list[i];
    ChildById(n, i);
    if loc[1..] != [] {
      ResolveIdsAlong(c, loc[1..]);
    }
    assert loc == [i] + loc[1..];
    assert ([n.id] + IdsAlong(n, loc))[1..] == IdsAlong(n, loc);
  }

  /** In a well-formed tree, one more id on a path that finds an entry finds
      that entry's child. */
  lemma {:induction false} ResolveExtend(n: Node, path: seq<string>, i: nat)
    requires WellFormed(n) && Resolve(n, path).Found?
    requires i < |Kids(NodeAt(n, Resolve(n, path).loc))|
    ensures Resolve(n, path + [Kids(NodeAt(n, Resolve(n, path).loc))[i].id]) == Found(Resolve(n, path).loc + [i])
    decreases |path|, 1
  {
    var l := Resolve(n, path).loc;
    var k := Kids(NodeAt(n, l))[i];
    var ext := path + [k.id];
    if path[0] == n.id && |path| == 1 {
      ChildById(n, i);
      assert ext[1..] == [k.id];
    } else {
      var p := if path[0] == n.id then path[1..] else path;
      var j := ChildBy(n, ById, p[0]).value;
      var c := n.children.list[j];
      assert ext[0] == path[0];
      var q := if ext[0] == n.id then ext[1..] else ext;
      assert q == p + [k.id];
      if |p| == 1 {
        assert l == [j];
        ChildById(c, i);
        assert q[1..] == [k.id];
      } else {
        ResolveExtendDeep(n, path, i, p, j);
      }
    }
  }

  lemma {:induction false} ResolveExtendDeep(n: Node, path: seq<string>, i: nat, p: seq<string>, j: nat)
    requires WellFormed(n) && Resolve(n, path).Found?
    requires i < |Kids(NodeAt(n, Resolve(n, path).loc))|
    requires p == (if path[0] == n.id then path[1..] else path) && |p| > 1
    requires ChildBy(n, ById, p[0]) == Some(j)
    ensures Resolve(n, path + [Kids(NodeAt(n, Resolve(n, path).loc))[i].id]) == Found(Resolve(n, path).loc + [i])
    decreases |path|, 0
  {
    var l := Resolve(n, path).loc;
    var k := Kids(NodeAt(n, l))[i];
    var ext := path + [k.id];
    var c := n.children.list[j];
    assert ext[0] == path[0];
    var q := if ext[0] == n.id then ext[1..] else ext;
    assert q == p + [k.id];
    var l' := Resolve(c, p[1..]).loc;
    assert l == [j] + l';
    assert NodeAt(c, l') == NodeAt(n, l);
    ResolveExtend(c, p[1..], i);
    assert q[1..] == p[1..] + [k.id];
    assert Resolve(c, q[1..]) == Found(l' + [i]);
    assert [j] + (l' + [i]) == l + [i];
  }

  /** A path that finds an entry still finds one without its last segment. */
  lemma {:induction false} ResolvePrefix(n: Node, path: seq<string>)
    requires Resolve(n, path).Found? && |path| >= 2
    ensures Resolve(n, path[..|path| - 1]).Found?
    decreases |path|
  {
    var pre := path[..|path| - 1];
    var p := if path[0] == n.id then path[1..] else path;
    if |p| > 1 {
      var i := ChildBy(n, ById, p[0]).value;
      var q := if pre[0] == n.id then pre[1..] else pre;
      assert q == p[..|p| - 1];
      if |q| > 1 {
        assert q[1..] == p[1..][..|p[1..]| - 1];
        ResolvePrefix(n.children.list[i], p[1..]);
      }
    }
  }

  lemma FirstWithSameIds(ka: seq<Node>, kb: seq<Node>, value: string)
    requires |ka| == |kb| && forall j :: 0 <= j < |ka| ==> ka[j].id == kb[j].id
    ensures FirstWith(ka, ById, value) == FirstWith(kb, ById, value)
  {
    var ra := FirstWith(ka, ById, value);
    var rb := FirstWith(kb, ById, value);
    assert ra.Some? ==> FieldOf(kb[ra.value], ById) == Some(value);
    assert rb.Some? ==> FieldOf(ka[rb.value], ById) == Some(value);
  }

  /** Lookups read ids only, so hotkeys written into the tree change none. */
  lemma {:induction false} ResolveSameIds(a: Node, b: Node, path: seq<string>)
    requires SameIds(a, b)
    ensures Resolve(a, path) == Resolve(b, path)
    decreases |path|
  {
    if path != [] && !(path[0] == a.id && |path| == 1) {
      var p := if path[0] == a.id then path[1..] else path;
      var ra := ChildBy(a, ById, p[0]);
      if a.children.Listed? {
        forall j | 0 <= j < |a.children.list| ensures a.children.list[j].id == b.children.list[j].id {
          assert SameIds(a.children.list[j], b.children.list[j]);
        }
        FirstWithSameIds(a.children.list, b.children.list, p[0]);
      }
      if ra.Some? && |p| > 1 {
        ResolveSameIds(a.children.list[ra.value], b.children.list[ra.value], p[1..]);
      }
    }
  }

  /** `_get_path_labels(path)`: each segment is looked up below the entry the
      previous one found, and the labels are collected until one is missing. */
  function PathLabels(n: Node, parts: seq<string>): seq<string>
    decreases |parts|
  {
    if parts == [] then []
    else match Resolve(n, Split(parts[0], '.'))
         case Found(l) => [NodeAt(n, l).caption] + PathLabels(NodeAt(n, l), parts[1..])
         case _ => []
  }

  // ---------------------------------------------------------------------
  // Rendering

  function Line(text: string): string {
    text + "\r\n"
  }

  function Dashes(n: nat): (r: string)
    ensures |r| == n && forall i :: 0 <= i < n ==> r[i] == '-'
  {
    if n == 0 then "" else Dashes(n - 1) + "-"
  }

  /** `_menu_delimiter`. */
  const Delimiter: string := "+" + Dashes(50) + "+"

  /** `_print_menu_line(line)`: the text padded to 50 columns between bars. */
  function MenuLine(text: string): string {
    Line("|" + PadRight(text, 50) + "|")
  }

  /** `_get_value(item, format)`: the callback's value after the format's
      prefix, or nothing without a callback. */
  function ValueText(n: Node, valueOf: Node -> string, prefix: string): string {
    if n.getsValue then prefix + valueOf(n) else ""
  }

  /** The hotkeys `render` writes: a child without one gets its 1-based position. */
  function WithHotkeys(kids: seq<Node>): (r: seq<Node>)
    ensures |r| == |kids|
    ensures forall j :: 0 <= j < |kids| ==> r[j] == Keyed(kids[j], j + 1)
    decreases |kids|
  {
    if kids == [] then [] else WithHotkeys(kids[..|kids| - 1]) + [Keyed(kids[|kids| - 1], |kids|)]
  }

  /** A child keeps its own hotkey, or gets its position. */
  function Keyed(c: Node, position: nat): Node {
    c.(hotkey := Some(c.hotkey.GetOr(NatToString(position))))
  }

  function ChildLine(c: Node, valueOf: Node -> string): string {
    MenuLine(" " + PadLeft(c.hotkey.GetOr(""), 2) + ". " + PadRight(c.caption, 20) + " "
             + (if c.children.Listed? then " >> " else "") + ValueText(c, valueOf, " val: "))
  }

  function ChildLines(kids: seq<Node>, valueOf: Node -> string): (r: seq<string>)
    ensures |r| == |kids|
    decreases |kids|
  {
    if kids == [] then [] else ChildLines(kids[..|kids| - 1], valueOf) + [ChildLine(kids[|kids| - 1], valueOf)]
  }

  /** Numbering one more child. */
  lemma WithHotkeysStep(kids: seq<Node>, i: nat)
    requires i < |kids|
    ensures WithHotkeys(kids[..i + 1]) == WithHotkeys(kids[..i]) + [Keyed(kids[i], i + 1)]
  {
    assert kids[..i + 1][..i] == kids[..i];
  }

  /** Writing one more child line. */
  lemma ChildLinesSnoc(kids: seq<Node>, c: Node, valueOf: Node -> string)
    ensures ChildLines(kids + [c], valueOf) == ChildLines(kids, valueOf) + [ChildLine(c, valueOf)]
  {
    assert (kids + [c])[..|kids|] == kids;
  }

  /** "Back" below the top level, "Exit" at the top when exit is enabled. */
  function BackLine(path: seq<string>, exitEnabled: bool): seq<string> {
    if |path| > 1 then [MenuLine("  0. Back")]
    else if exitEnabled then [MenuLine("  0. Exit")]
    else []
  }

  /** The menu's fields: the configuration, the place of the current entry
      (`_actual_menu`), the path and whether exit is enabled. */
  datatype MenuState = MenuState(config: Node, loc: seq<nat>, path: seq<string>, exitEnabled: bool)

  predicate ValidState(m: MenuState) {
    ValidLoc(m.config, m.loc)
  }

  function Actual(m: MenuState): Node
    requires ValidState(m)
  {
    NodeAt(m.config, m.loc)
  }

  /** The path names the current entry (or is empty at the root, as after
      `set_config`). */
  predicate Consistent(m: MenuState) {
    (m.path == [] ==> m.loc == []) && (m.path != [] ==> Resolve(m.config, m.path) == Found(m.loc))
  }

  datatype Effect = Effect(st: MenuState, out: seq<string>)

  /** The lines `render` writes above the children. */
  function Header(m: MenuState, valueOf: Node -> string): seq<string>
    requires ValidState(m)
  {
    [Line(Delimiter), MenuLine(" " + Join(PathLabels(m.config, m.path), " / ") + ValueText(Actual(m), valueOf, ", value: ")),
     Line(Delimiter)]
  }

  /** The lines `render` writes below the children. */
  function Footer(m: MenuState): seq<string> {
    BackLine(m.path, m.exitEnabled) + [Line(Delimiter)]
  }

  /** `render()`. */
  function Rendered(m: MenuState, valueOf: Node -> string): (r: Effect)
    requires ValidState(m)
    ensures ValidState(r.st) && r.st.loc == m.loc && r.st.path == m.path && r.st.exitEnabled == m.exitEnabled
  {
    var a := Actual(m);
    var head := Header(m, valueOf);
    var tail := Footer(m);
    if a.children.Listed? then
      var kids := WithHotkeys(a.children.list);
      Effect(m.(config := ReplaceAt(m.config, m.loc, a.(children := Listed(kids)))), head + ChildLines(kids, valueOf) + tail)
    else Effect(m, head + tail)
  }

  /** Rendering gives every child of the current entry a hotkey, keeps the
      ones it had, changes nothing else in the tree and keeps the path naming
      the current entry. */
  lemma RenderAssignsHotkeys(m: MenuState, valueOf: Node -> string)
    requires ValidState(m)
    ensures var r := Rendered(m, valueOf).st;
            var before := Kids(Actual(m));
            var after := Kids(Actual(r));
            |after| == |before|
            && (forall i :: 0 <= i < |after| ==>
                  (after[i].hotkey.Some?
                   && after[i] == before[i].(hotkey := after[i].hotkey)
                   && (before[i].hotkey.Some? ==> after[i].hotkey == before[i].hotkey)
                   && (before[i].hotkey.None? ==> after[i].hotkey == Some(NatToString(i + 1)))))
            && SameIds(m.config, r.config)
            && (Consistent(m) ==> Consistent(r))
  {
    var a := Actual(m);
    var r := Rendered(m, valueOf).st;
    if a.children.Listed? {
      var kids := WithHotkeys(a.children.list);
      var a' := a.(children := Listed(kids));
      forall i | 0 <= i < |kids| ensures SameIds(a.children.list[i], kids[i]) {
        SameIdsReflexive(a.children.list[i]);
        assert kids[i].children == a.children.list[i].children;
      }
      ReplaceKeepsIds(m.config, m.loc, a');
    } else {
      SameIdsReflexive(m.config);
    }
    ResolveSameIds(m.config, r.config, m.path);
  }

  // ---------------------------------------------------------------------
  // Actions

  /** `set_config(menu_config)`. */
  function Configured(m: MenuState, config: Node): (r: MenuState)
    ensures ValidState(r) && Consistent(r) && Actual(r) == config
  {
    m.(config := config, loc := [], path := [])
  }

  datatype MenuError = PathIsEmpty | MenuNotFound

  /** `init_path(path)`: the current entry and the path, or the error raised. */
  function PathInitialized(m: MenuState, path: PathArg): (r: Result<MenuState, MenuError>)
    ensures r.Ok? ==> ValidState(r.value) && Consistent(r.value) && r.value.path == PathToList(path)
                      && r.value.config == m.config
    ensures r == Err(PathIsEmpty) <==> PathToList(path) == []
    ensures r == Err(MenuNotFound) <==> Resolve(m.config, PathToList(path)) == Missing
  {
    match Resolve(m.config, PathToList(path))
    case Found(l) => Ok(m.(loc := l, path := PathToList(path)))
    case Missing => Err(MenuNotFound)
    case EmptyPath => Err(PathIsEmpty)
  }

  /** `action_reset()`: back to the root, the path being the root's id. */
  function Reset(m: MenuState): (r: MenuState)
    ensures ValidState(r) && Consistent(r) && Actual(r) == m.config && r.path == [m.config.id]
  {
    m.(loc := [], path := [m.config.id])
  }

  /** `action_hotkey(hotkey)`: the first child with that hotkey is chosen and
      the menu rendered; a child with children becomes the current entry. */
  function Hotkey(m: MenuState, key: string, valueOf: Node -> string): (r: Effect)
    requires ValidState(m)
    ensures ValidState(r.st)
  {
    var a := Actual(m);
    match ChildBy(a, ByHotkey, key)
    case None => Effect(m, [])
    case Some(i) =>
      var c := a.children.list[i];
      LocAppend(m.config, m.loc, i);
      var m' := if c.children.Listed? then m.(loc := m.loc + [i], path := m.path + [c.id]) else m;
      Rendered(m', valueOf)
  }

  /** `action_back` finds the shortened path (the source fails otherwise). */
  predicate BackResolves(m: MenuState) {
    |m.path| > 1 ==> Resolve(m.config, m.path[..|m.path| - 1]).Found?
  }

  /** `action_back()`: below the top the last segment is dropped, the entry
      found again and the menu rendered (the flag is False); at the top
      nothing changes (the flag is True). */
  function Back(m: MenuState, valueOf: Node -> string): (r: (Effect, bool))
    requires ValidState(m) && BackResolves(m)
    ensures ValidState(r.0.st)
    ensures r.1 <==> |m.path| <= 1
    ensures r.1 ==> r.0 == Effect(m, [])
  {
    if |m.path| > 1 then
      var path := m.path[..|m.path| - 1];
      (Rendered(m.(loc := Resolve(m.config, path).loc, path := path), valueOf), false)
    else (Effect(m, []), true)
  }

  /** A path naming the current entry always allows going back. */
  lemma ConsistentBackResolves(m: MenuState)
    requires Consistent(m)
    ensures BackResolves(m)
  {
    if |m.path| > 1 {
      ResolvePrefix(m.config, m.path);
    }
  }

  /** An unknown hotkey changes nothing; a known one enters the child exactly
      when the child has children, and the path keeps naming the current
      entry in a well-formed tree. */
  lemma HotkeyEnters(m: MenuState, key: string, valueOf: Node -> string)
    requires ValidState(m)
    ensures var a := Actual(m);
            var r := Hotkey(m, key, valueOf);
            var k := ChildBy(a, ByHotkey, key);
            (k.None? ==> r == Effect(m, []))
            && (k.Some? ==> var c := a.children.list[k.value];
                            (c.children.Listed? ==> r.st.loc == m.loc + [k.value] && r.st.path == m.path + [c.id])
                            && (c.children.Absent? ==> r.st.loc == m.loc && r.st.path == m.path))
    ensures WellFormed(m.config) && Consistent(m) ==> Consistent(Hotkey(m, key, valueOf).st)
  {
    var a := Actual(m);
    var k := ChildBy(a, ByHotkey, key);
    if k.Some? && WellFormed(m.config) && Consistent(m) {
      var i := k.value;
      var c := a.children.list[i];
      LocAppend(m.config, m.loc, i);
      var m' := if c.children.Listed? then m.(loc := m.loc + [i], path := m.path + [c.id]) else m;
      if c.children.Listed? {
        if m.path == [] {
          ChildById(m.config, i);
        } else {
          ResolveExtend(m.config, m.path, i);
        }
      }
      assert Consistent(m');
      RenderAssignsHotkeys(m', valueOf);
    }
  }

  /** Entering a submenu by its hotkey and then going back returns to the
      entry and the path before, and is not the top level. */
  lemma HotkeyThenBack(m: MenuState, key: string, valueOf: Node -> string)
    requires ValidState(m) && WellFormed(m.config) && Consistent(m) && m.path != []
    requires var k := ChildBy(Actual(m), ByHotkey, key);
             k.Some? && Actual(m).children.list[k.value].children.Listed?
    ensures var h := Hotkey(m, key, valueOf).st;
            BackResolves(h)
            && var b := Back(h, valueOf);
            b.0.st.loc == m.loc && b.0.st.path == m.path && !b.1
  {
    var h := Hotkey(m, key, valueOf).st;
    HotkeyEnters(m, key, valueOf);
    ConsistentBackResolves(h);
    var a := Actual(m);
    var i := ChildBy(a, ByHotkey, key).value;
    var c := a.children.list[i];
    LocAppend(m.config, m.loc, i);
    var m' := m.(loc := m.loc + [i], path := m.path + [c.id]);
    RenderAssignsHotkeys(m', valueOf);
    ResolveSameIds(m.config, h.config, m.path);
    assert h.path[..|h.path| - 1] == m.path;
  }

  /** After `reset` going back is refused: the root is the top level. */
  lemma ResetIsTop(m: MenuState, valueOf: Node -> string)
    ensures var r := Reset(m);
            BackResolves(r) && Back(r, valueOf) == (Effect(r, []), true)
  {
  }

  /** The line after the children: "Back" exactly below the top level, "Exit"
      at the top level exactly when exit is enabled. */
  lemma BackLineShown(path: seq<string>, exitEnabled: bool)
    ensures BackLine(path, exitEnabled) == [MenuLine("  0. Back")] <==> |path| > 1
    ensures BackLine(path, exitEnabled) == [MenuLine("  0. Exit")] <==> |path| <= 1 && exitEnabled
    ensures BackLine(path, exitEnabled) == [] <==> |path| <= 1 && !exitEnabled
  {
    var back := PadRight("  0. Back", 50);
    var exit := PadRight("  0. Exit", 50);
    assert back[..9] == "  0. Back" && exit[..9] == "  0. Exit";
    assert back[5] == "  0. Back"[5];
    assert exit[5] == "  0. Exit"[5];
    assert MenuLine("  0. Back")[6] == back[5];
    assert MenuLine("  0. Exit")[6] == exit[5];
  }

  /** The outcome of one finished line: the effect, and whether the menu asks
      to exit (`read_non_blocking` returns True). */
  function Entered(m: MenuState, entry: string, valueOf: Node -> string): (r: (Effect, bool))
    requires ValidState(m) && (Strip(entry) == "0" ==> BackResolves(m))
    ensures ValidState(r.0.st)
    ensures r.1 ==> Strip(entry) == "0" && m.exitEnabled && |m.path| <= 1
  {
    var input := Strip(entry);
    if input == "0" then
      var (e, top) := Back(m, valueOf);
      if top && m.exitEnabled then (Effect(e.st, e.out + ["\r\n"]), true) else (e, false)
    else if input == "reset" then (Rendered(Reset(m), valueOf), false)
    else if input == "menu" then (Rendered(m, valueOf), false)
    else (Hotkey(m, input, valueOf), false)
  }

  /** "0" at the top level exits exactly when exit is enabled, and otherwise
      changes nothing. */
  lemma ZeroAtTop(m: MenuState, entry: string, valueOf: Node -> string)
    requires ValidState(m) && Strip(entry) == "0" && |m.path| <= 1
    ensures Entered(m, entry, valueOf).1 <==> m.exitEnabled
    ensures !m.exitEnabled ==> Entered(m, entry, valueOf).0 == Effect(m, [])
  {
  }

  /** One call of `read_non_blocking`: the prompt's state, the menu's state,
      what was written and whether the menu asks to exit. */
  datatype Turn = Turn(line: Editor.LineState, st: MenuState, out: seq<string>, exit: bool)

  predicate CanEnter(m: MenuState, line: Option<string>) {
    ValidState(m) && (line.Some? && Strip(line.value) == "0" ==> BackResolves(m))
  }

  function MenuStep(s: Editor.LineState, key: Option<Key>, promptString: string, m: MenuState,
                    valueOf: Node -> string): (r: Turn)
    requires Editor.Valid(s) && ValidState(m)
    requires s.commandsEnabled || key.None? || key.value.kind == CharKey || key.value.name != "CTRL_M"
    requires CanEnter(m, Editor.ReadStep(s, key, promptString).line)
    ensures Editor.Valid(r.line) && ValidState(r.st)
    ensures r.exit ==> key.Some? && key.value.name == "CTRL_M" && m.exitEnabled
  {
    var e := Editor.ReadStep(s, key, promptString);
    if e.line.None? then Turn(e.st, m, e.out, false)
    else
      var (f, exit) := Entered(m, e.line.value, valueOf);
      Turn(e.st, f.st, e.out + f.out, exit)
  }

  // ---------------------------------------------------------------------
  // The menu object

  class Menu {
    const io: Console
    const prompt: PromptLine.Prompt
    var config: Node
    var loc: seq<nat>
    var path: seq<string>
    var exitEnabled: bool

    function State(): MenuState
      reads this
    {
      MenuState(config, loc, path, exitEnabled)
    }

    predicate Valid()
      reads this, prompt, prompt.history, prompt.completer
    {
      prompt.io == io && prompt.Valid() && ValidState(State())
    }

    /** `Menu(serial)`, with the class defaults: a configuration and exit
        disabled. The source's default configuration is an empty dictionary,
        which has no "id" key at all; it stands here as an entry whose id and
        label are the empty string and which has no children. */
    constructor (serial: Console)
      ensures io == serial && Valid() && prompt.State() == Editor.InitialLine()
      ensures State() == MenuState(Node("", "", None, false, Absent), [], [], false)
      ensures fresh(prompt) && fresh(prompt.history) && fresh(prompt.completer)
    {
      io := serial;
      prompt := new PromptLine.Prompt(serial);
      config := Node("", "", None, false, Absent);
      loc := [];
      path := [];
      exitEnabled := false;
    }

    /** `set_config(menu_config)`. */
    method SetConfig(menuConfig: Node)
      modifies this
      ensures State() == Configured(old(State()), menuConfig)
    {
      config := menuConfig;
      loc := [];
      path := [];
    }

    /** `enable_exit(value)`. */
    method EnableExit(value: bool)
      modifies this
      ensures State() == old(State()).(exitEnabled := value)
    {
      exitEnabled := value;
    }

    /** `_get_child_by(menu, key, value)`. */
    method GetChildBy(n: Node, f: Field, value: string) returns (r: Option<nat>)
      ensures r == ChildBy(n, f, value)
    {
      if n.children.Absent? {
        return None;
      }
      var kids := n.children.list;
      var i := 0;
      while i < |kids|
        invariant i <= |kids|
        invariant forall j :: 0 <= j < i ==> FieldOf(kids[j], f) != Some(value)
      {
        if FieldOf(kids[i], f) == Some(value) {
          return Some(i);
        }
        i := i + 1;
      }
      return None;
    }

    /** `_get_item_by_path(menu, path)` for an already split path. */
    method GetItemByPath(n: Node, parts: seq<string>) returns (r: Lookup)
      ensures r == Resolve(n, parts)
      decreases |parts|
    {
      if |parts| == 0 {
        return EmptyPath;
      }
      var part := parts[0];
      var rest := parts[1..];
      if part == n.id {
        if |rest| == 0 {
          return Found([]);
        }
        part := rest[0];
        rest := rest[1..];
      }
      var child := GetChildBy(n, ById, part);
      if child.Some? {
        if |rest| == 0 {
          return Found([child.value]);
        }
        var below := GetItemByPath(n.children.list[child.value], rest);
        if below.Found? {
          return Found([child.value] + below.loc);
        }
      }
      return Missing;
    }

    /** `init_path(path)`; the error is the one raised. */
    method InitPath(p: PathArg) returns (err: Option<MenuError>)
      modifies this
      ensures var r := PathInitialized(old(State()), p);
              (r.Ok? ==> err.None? && State() == r.value)
              && (r.Err? ==> err == Some(r.error) && State() == old(State()))
    {
      var found := GetItemByPath(config, PathToList(p));
      if found == Missing {
        return Some(MenuNotFound);
      } else if found == EmptyPath {
        return Some(PathIsEmpty);
      }
      loc := found.loc;
      path := PathToList(p);
      return None;
    }

    /** `_get_path_labels(path)`. */
    method GetPathLabels(parts: seq<string>) returns (labels: seq<string>)
      ensures labels == PathLabels(config, parts)
    {
      labels := [];
      var menu := config;
      var i := 0;
      while i < |parts|
        invariant i <= |parts|
        invariant PathLabels(config, parts) == labels + PathLabels(menu, parts[i..])
      {
        var found := GetItemByPath(menu, Split(parts[i], '.'));
        if !found.Found? {
          assert PathLabels(menu, parts[i..]) == [];
          break;
        }
        assert parts[i..][1..] == parts[i + 1..];
        var next := NodeAt(menu, found.loc);
        assert PathLabels(menu, parts[i..]) == [next.caption] + PathLabels(next, parts[i + 1..]);
        AppendAssoc(labels, [next.caption], PathLabels(next, parts[i + 1..]));
        menu := next;
        labels := labels + [menu.caption];
        i := i + 1;
      }
      if i == |parts| {
        assert parts[i..] == [];
      }
    }

    /** The loop of `render` over the children: hotkeys assigned and lines written. */
    method WriteChildren(kids: seq<Node>, valueOf: Node -> string) returns (withKeys: seq<Node>)
      modifies io
      ensures withKeys == WithHotkeys(kids)
      ensures io.written == old(io.written) + ChildLines(withKeys, valueOf) && io.pending == old(io.pending)
    {
      ghost var w := io.written;
      withKeys := [];
      var childIndex := 1;
      for i := 0 to |kids|
        invariant childIndex == i + 1 && withKeys == WithHotkeys(kids[..i])
        invariant io.written == w + ChildLines(withKeys, valueOf) && io.pending == old(io.pending)
      {
        var child := kids[i];
        if child.hotkey.None? {
          child := child.(hotkey := Some(NatToString(childIndex)));
        }
        assert child == Keyed(kids[i], i + 1);
        WithHotkeysStep(kids, i);
        WriteChild(child, valueOf);
        ChildLinesSnoc(withKeys, child, valueOf);
        AppendAssoc(w, ChildLines(withKeys, valueOf), [ChildLine(child, valueOf)]);
        withKeys := withKeys + [child];
        childIndex := childIndex + 1;
      }
      assert kids[..|kids|] == kids;
    }

    /** One child line of `render`. */
    method WriteChild(child: Node, valueOf: Node -> string)
      modifies io
      ensures io.written == old(io.written) + [ChildLine(child, valueOf)] && io.pending == old(io.pending)
    {
      var hasChilds := if child.children.Listed? then " >> " else "";
      var text := " " + PadLeft(child.hotkey.GetOr(""), 2) + ". " + PadRight(child.caption, 20) + " "
                  + hasChilds + ValueText(child, valueOf, " val: ");
      io.WriteLine("|" + PadRight(text, 50) + "|");
    }

    method WriteHeader(valueOf: Node -> string)
      requires ValidState(State())
      modifies io
      ensures io.written == old(io.written) + Header(State(), valueOf) && io.pending == old(io.pending)
    {
      var labels := GetPathLabels(path);
      var labelText := Join(labels, " / ");
      var parentValue := ValueText(NodeAt(config, loc), valueOf, ", value: ");
      io.WriteLine(Delimiter);
      io.WriteLine("|" + PadRight(" " + labelText + parentValue, 50) + "|");
      io.WriteLine(Delimiter);
    }

    method WriteFooter()
      modifies io
      ensures io.written == old(io.written) + Footer(State()) && io.pending == old(io.pending)
    {
      if |path| > 1 {
        io.WriteLine("|" + PadRight("  0. Back", 50) + "|");
      } else if exitEnabled {
        io.WriteLine("|" + PadRight("  0. Exit", 50) + "|");
      }
      io.WriteLine(Delimiter);
    }

    /** `render()`; `valueOf` stands for the `get_value` callbacks. */
    method Render(valueOf: Node -> string)
      requires ValidState(State())
      modifies this, io
      ensures var r := Rendered(old(State()), valueOf);
              State() == r.st && io.written == old(io.written) + r.out && io.pending == old(io.pending)
    {
      ghost var w := io.written;
      ghost var m := State();
      WriteHeader(valueOf);
      var a := NodeAt(config, loc);
      if a.children.Listed? {
        var kids := WriteChildren(a.children.list, valueOf);
        config := ReplaceAt(config, loc, a.(children := Listed(kids)));
        WriteFooter();
        AppendAssoc3(w, Header(m, valueOf), ChildLines(kids, valueOf), Footer(m));
      } else {
        WriteFooter();
        AppendAssoc(w, Header(m, valueOf), Footer(m));
      }
    }

    /** `action_hotkey(hotkey)`; the child's `action` callback is not modelled. */
    method ActionHotkey(key: string, valueOf: Node -> string)
      requires ValidState(State())
      modifies this, io
      ensures var r := Hotkey(old(State()), key, valueOf);
              State() == r.st && io.written == old(io.written) + r.out && io.pending == old(io.pending)
    {
      var k := GetChildBy(NodeAt(config, loc), ByHotkey, key);
      if k.Some? {
        var c := NodeAt(config, loc).children.list[k.value];
        LocAppend(config, loc, k.value);
        if c.children.Listed? {
          loc := loc + [k.value];
          path := path + [c.id];
        }
        Render(valueOf);
      }
    }

    /** `action_back()`: the result is True at the top level. */
    method ActionBack(valueOf: Node -> string) returns (top: bool)
      requires ValidState(State()) && BackResolves(State())
      modifies this, io
      ensures var r := Back(old(State()), valueOf);
              State() == r.0.st && io.written == old(io.written) + r.0.out && io.pending == old(io.pending)
              && top == r.1
    {
      if |path| > 1 {
        path := path[..|path| - 1];
        var found := GetItemByPath(config, path);
        loc := found.loc;
        Render(valueOf);
        return false;
      }
      return true;
    }

    /** `action_reset()`. */
    method ActionReset()
      modifies this
      ensures State() == Reset(old(State()))
    {
      loc := [];
      path := [config.id];
    }

    /** What `read_non_blocking` does with a finished line. */
    method HandleEntry(entry: string, valueOf: Node -> string) returns (exit: bool)
      requires ValidState(State()) && (Strip(entry) == "0" ==> BackResolves(State()))
      modifies this, io
      ensures var r := Entered(old(State()), entry, valueOf);
              State() == r.0.st && io.written == old(io.written) + r.0.out && io.pending == old(io.pending)
              && exit == r.1
    {
      var input := Strip(entry);
      if input == "0" {
        var top := ActionBack(valueOf);
        if top && exitEnabled {
          io.Write("\r\n");
          return true;
        }
      } else if input == "reset" {
        ActionReset();
        Render(valueOf);
      } else if input == "menu" {
        Render(valueOf);
      } else {
        ActionHotkey(input, valueOf);
      }
      return false;
    }

    /** `read_non_blocking(prompt_string)`: True (here `exit`) when the menu
        asks to exit. */
    method ReadNonBlocking(promptString: string, valueOf: Node -> string) returns (exit: bool)
      requires Valid() && ReadKeySpec(io.pending) != Fault
      requires var k := ReadKeySpec(io.pending).key;
               prompt.commandsEnabled || k.None? || k.value.kind == CharKey || k.value.name != "CTRL_M"
      requires CanEnter(State(), Editor.ReadStep(prompt.State(), ReadKeySpec(io.pending).key, promptString).line)
      modifies this, io, prompt, prompt.history, prompt.completer
      ensures Valid()
      ensures var d := ReadKeySpec(old(io.pending));
              var t := MenuStep(old(prompt.State()), d.key, promptString, old(State()), valueOf);
              io.pending == d.rest && prompt.State() == t.line && State() == t.st
              && io.written == old(io.written) + t.out && exit == t.exit
    {
      ghost var w := io.written;
      ghost var e := Editor.ReadStep(prompt.State(), ReadKeySpec(io.pending).key, promptString);
      var entry := prompt.ReadNonBlocking(promptString);
      if entry.None? {
        return false;
      }
      ghost var f := Entered(State(), entry.value, valueOf);
      exit := HandleEntry(entry.value, valueOf);
      AppendAssoc(w, e.out, f.0.out);
    }

    /** `keyboard_interrupt()`: delegated to the prompt. */
    method KeyboardInterrupt()
      requires prompt.io == io
      modifies prompt, io
      ensures var e := Editor.Interrupted(old(prompt.State()));
              prompt.State() == e.st && io.written == old(io.written) + e.out && io.pending == old(io.pending)
    {
      prompt.KeyboardInterrupt();
    }
  }
}
