/** Shifting every position of a document tree by a column and a line delta.

    Each node kind's `move_point` is a method that returns the moved node; the nodes are
    values, so "in place" becomes "returns the updated node". What a move does is fixed by
    the generic specification functions `Map*`, which replace every position `p` of a
    node by `f(p)` and leave everything else alone. */
module Movable {
  import opened OrgTree

  /** `usize::saturating_add_signed`: the sum, clamped to the range of the word. */
  function SaturatingAddSigned(x: usize, d: isize): usize
  {
    if x + d < 0 then 0 else if x + d > USIZE_MAX then USIZE_MAX else x + d
  }

  /** The saturated sum is the word nearest to the exact sum. */
  lemma SaturatingIsNearest(x: usize, d: isize, y: usize)
    ensures Dist(SaturatingAddSigned(x, d), x + d) <= Dist(y, x + d)
    ensures 0 <= x + d <= USIZE_MAX ==> SaturatingAddSigned(x, d) == x + d
  {
  }

  function Dist(a: int, b: int): nat
  {
    if a <= b then b - a else a - b
  }

  /** The position update every `move_point` performs, as written in the source: the
      column is shifted first and the new line is computed from the NEW column. */
  function MovePos(p: Pos, col: isize, line: isize): Pos
  {
    var c := SaturatingAddSigned(p.col, col);
    Pos(SaturatingAddSigned(c, line), c)
  }

  function MoveRule(col: isize, line: isize): Pos -> Pos
  {
    p => MovePos(p, col, line)
  }

  /** Away from the bounds, the column moves by `col` and the line becomes the old
      column plus both deltas. */
  lemma MovePosUnsaturated(p: Pos, col: isize, line: isize)
    requires 0 <= p.col + col && p.col + col + line <= USIZE_MAX
    requires p.col + col <= USIZE_MAX && 0 <= p.col + col + line
    ensures MovePos(p, col, line) == Pos(p.col + col + line, p.col + col)
  {
  }

  /** The old line never influences the result. */
  lemma MovePosIgnoresLine(p: Pos, q: Pos, col: isize, line: isize)
    requires p.col == q.col
    ensures MovePos(p, col, line) == MovePos(q, col, line)
  {
  }

  // ---------------------------------------------------------------------------
  // Specification: apply a function to every position of a node
  // ---------------------------------------------------------------------------

  function MapContent(c: Content, f: Pos -> Pos): Content
  {
    c.(pos := f(c.pos))
  }

  function MapKeyword(k: Keyword, f: Pos -> Pos): Keyword
  {
    k.(pos := f(k.pos))
  }

  function MapProperty(p: Property, f: Pos -> Pos): Property
  {
    p.(pos := f(p.pos))
  }

  function MapProperties(p: Properties, f: Pos -> Pos): Properties
  {
    Properties(f(p.pos), seq(|p.children|, i requires 0 <= i < |p.children| => MapProperty(p.children[i], f)))
  }

  function MapDrawer(d: Drawer, f: Pos -> Pos): Drawer
  {
    Drawer(f(d.pos), d.name, seq(|d.children|, i requires 0 <= i < |d.children| => MapContent(d.children[i], f)))
  }

  function MapScheduling(s: Scheduling, f: Pos -> Pos): Scheduling
  {
    match s
    case Scheduled(pos, dt) => Scheduled(f(pos), dt)
    case Deadline(pos, dt) => Deadline(f(pos), dt)
  }

  function MapSection(s: Section, f: Pos -> Pos): Section
    decreases s
  {
    Section(
      f(s.pos),
      s.title,
      seq(|s.drawers|, i requires 0 <= i < |s.drawers| => MapDrawer(s.drawers[i], f)),
      seq(|s.properties|, i requires 0 <= i < |s.properties| => MapProperties(s.properties[i], f)),
      seq(|s.keywords|, i requires 0 <= i < |s.keywords| => MapKeyword(s.keywords[i], f)),
      seq(|s.scheduling|, i requires 0 <= i < |s.scheduling| => MapScheduling(s.scheduling[i], f)),
      seq(|s.contents|, i requires 0 <= i < |s.contents| => MapContent(s.contents[i], f)),
      seq(|s.sections|, i requires 0 <= i < |s.sections| => MapSection(s.sections[i], f)))
  }

  // ---------------------------------------------------------------------------
  // Properties of the specification
  // ---------------------------------------------------------------------------

  /** Mapping with `f` and then with `g` is mapping with their composition. */
  lemma MapPropertiesCompose(p: Properties, f: Pos -> Pos, g: Pos -> Pos, h: Pos -> Pos)
    requires forall q :: h(q) == g(f(q))
    ensures MapProperties(MapProperties(p, f), g) == MapProperties(p, h)
  {
  }

  lemma MapDrawerCompose(d: Drawer, f: Pos -> Pos, g: Pos -> Pos, h: Pos -> Pos)
    requires forall q :: h(q) == g(f(q))
    ensures MapDrawer(MapDrawer(d, f), g) == MapDrawer(d, h)
  {
  }

  lemma {:induction false} MapSectionCompose(s: Section, f: Pos -> Pos, g: Pos -> Pos, h: Pos -> Pos)
    requires forall q :: h(q) == g(f(q))
    ensures MapSection(MapSection(s, f), g) == MapSection(s, h)
    decreases s
  {
    forall i | 0 <= i < |s.drawers| {
      MapDrawerCompose(s.drawers[i], f, g, h);
    }
    forall i | 0 <= i < |s.properties| {
      MapPropertiesCompose(s.properties[i], f, g, h);
    }
    forall i | 0 <= i < |s.sections| {
      MapSectionCompose(s.sections[i], f, g, h);
    }
  }

  /** A function that fixes every position fixes every node. */
  lemma MapPropertiesIdentity(p: Properties, f: Pos -> Pos)
    requires forall q :: f(q) == q
    ensures MapProperties(p, f) == p
  {
    forall i | 0 <= i < |p.children| ensures MapProperties(p, f).children[i] == p.children[i] {
      assert MapProperty(p.children[i], f) == p.children[i];
    }
  }

  lemma MapDrawerIdentity(d: Drawer, f: Pos -> Pos)
    requires forall q :: f(q) == q
    ensures MapDrawer(d, f) == d
  {
    forall i | 0 <= i < |d.children| ensures MapDrawer(d, f).children[i] == d.children[i] {
      assert MapContent(d.children[i], f) == d.children[i];
    }
  }

  lemma {:induction false} MapSectionIdentity(s: Section, f: Pos -> Pos)
    requires forall q :: f(q) == q
    ensures MapSection(s, f) == s
    decreases s
  {
    forall i | 0 <= i < |s.sections| {
      MapSectionIdentity(s.sections[i], f);
    }
    forall i | 0 <= i < |s.drawers| {
      MapDrawerIdentity(s.drawers[i], f);
    }
    forall i | 0 <= i < |s.properties| {
      MapPropertiesIdentity(s.properties[i], f);
    }
    assert MapSection(s, f).drawers == s.drawers;
    assert MapSection(s, f).properties == s.properties;
    assert MapSection(s, f).sections == s.sections;
  }

  const Origin := Pos(0, 0)

  /** The shape of a tree: every position replaced by the origin. */
  function Shape(s: Section): Section
  {
    MapSection(s, _ => Origin)
  }

  /** Moving changes nothing but positions: the moved tree has the shape of the original
      (same sequence lengths and order, same titles, keys, values, names and texts). */
  lemma MoveKeepsShape(s: Section, col: isize, line: isize)
    ensures Shape(MapSection(s, MoveRule(col, line))) == Shape(s)
  {
    MapSectionCompose(s, MoveRule(col, line), _ => Origin, _ => Origin);
  }

  /** Moving twice is one move of every position by the composed rule. */
  lemma MoveTwice(s: Section, c1: isize, l1: isize, c2: isize, l2: isize)
    ensures MapSection(MapSection(s, MoveRule(c1, l1)), MoveRule(c2, l2))
         == MapSection(s, p => MovePos(MovePos(p, c1, l1), c2, l2))
  {
    MapSectionCompose(s, MoveRule(c1, l1), MoveRule(c2, l2), p => MovePos(MovePos(p, c1, l1), c2, l2));
  }

  // ---------------------------------------------------------------------------
  // The line is computed from the new column
  // ---------------------------------------------------------------------------

  /** As written, a move by zero deltas is not the identity: it sets the line to the column. */
  lemma ZeroMoveChangesLine()
    ensures MovePos(Pos(5, 2), 0, 0) == Pos(2, 2)
    ensures exists s: Section :: MapSection(s, MoveRule(0, 0)) != s
  {
    var s := Section(Pos(5, 2), [], [], [], [], [], [], []);
    assert MapSection(s, MoveRule(0, 0)).pos == Pos(2, 2);
  }

  /** The evidently intended update: each coordinate shifted by its own delta. */
  function ShiftPos(p: Pos, col: isize, line: isize): Pos
  {
    Pos(SaturatingAddSigned(p.line, line), SaturatingAddSigned(p.col, col))
  }

  /** The corrected tree move. */
  function ShiftedSection(s: Section, col: isize, line: isize): Section
  {
    MapSection(s, p => ShiftPos(p, col, line))
  }

  /** With the corrected update a zero move is the identity, and a move is undone by the
      opposite move as long as no coordinate saturates. */
  lemma ShiftSectionZero(s: Section)
    ensures ShiftedSection(s, 0, 0) == s
  {
    MapSectionIdentity(s, p => ShiftPos(p, 0, 0));
  }

  lemma ShiftPosRoundTrip(p: Pos, col: isize, line: isize)
    requires 0 <= p.col + col <= USIZE_MAX && 0 <= p.line + line <= USIZE_MAX
    requires ISIZE_MIN < col && ISIZE_MIN < line
    ensures ShiftPos(ShiftPos(p, col, line), -col, -line) == p
  {
  }

  // ---------------------------------------------------------------------------
  // The move_point implementations
  // ---------------------------------------------------------------------------

  method MoveContent(c: Content, col: isize, line: isize) returns (r: Content)
    ensures r == MapContent(c, MoveRule(col, line))
  {
    r := c.(pos := MovePos(c.pos, col, line));
  }

  method MoveKeyword(k: Keyword, col: isize, line: isize) returns (r: Keyword)
    ensures r == MapKeyword(k, MoveRule(col, line))
  {
    r := k.(pos := MovePos(k.pos, col, line));
  }

  method MoveProperty(p: Property, col: isize, line: isize) returns (r: Property)
    ensures r == MapProperty(p, MoveRule(col, line))
  {
    r := p.(pos := MovePos(p.pos, col, line));
  }

  /** Moves the block's own position, then every property in it. */
  method MoveProperties(p: Properties, col: isize, line: isize) returns (r: Properties)
    ensures r == MapProperties(p, MoveRule(col, line))
  {
    var pos := MovePos(p.pos, col, line);
    var children := p.children;
    var i := 0;
    while i < |children|
      invariant 0 <= i <= |children| == |p.children|
      invariant forall j :: 0 <= j < i ==> children[j] == MapProperty(p.children[j], MoveRule(col, line))
      invariant children[i..] == p.children[i..]
    {
      var moved := MoveProperty(children[i], col, line);
      children := children[i := moved];
      i := i + 1;
    }
    r := Properties(pos, children);
  }

  /** Moves the drawer's own position, then every content fragment in it. */
  method MoveDrawer(d: Drawer, col: isize, line: isize) returns (r: Drawer)
    ensures r == MapDrawer(d, MoveRule(col, line))
  {
    var pos := MovePos(d.pos, col, line);
    var children := d.children;
    var i := 0;
    while i < |children|
      invariant 0 <= i <= |children| == |d.children|
      invariant forall j :: 0 <= j < i ==> children[j] == MapContent(d.children[j], MoveRule(col, line))
      invariant children[i..] == d.children[i..]
    {
      var moved := MoveContent(children[i], col, line);
      children := children[i := moved];
      i := i + 1;
    }
    r := Drawer(pos, d.name, children);
  }

  /** Moves the position of either variant; the timestamp text is untouched. */
  method MoveScheduling(s: Scheduling, col: isize, line: isize) returns (r: Scheduling)
    ensures r == MapScheduling(s, MoveRule(col, line))
  {
    match s
    case Scheduled(pos, dt) =>
      r := Scheduled(MovePos(pos, col, line), dt);
    case Deadline(pos, dt) =>
      r := Deadline(MovePos(pos, col, line), dt);
  }

  /** Moves the section's own position, then every drawer, property block, keyword,
      scheduling entry and content fragment, and finally every subsection recursively. */
  method MoveSection(s: Section, col: isize, line: isize) returns (r: Section)
    ensures r == MapSection(s, MoveRule(col, line))
    decreases s
  {
    var f := MoveRule(col, line);
    var pos := MovePos(s.pos, col, line);

    var drawers := s.drawers;
    var i := 0;
    while i < |drawers|
      invariant 0 <= i <= |drawers| == |s.drawers|
      invariant forall j :: 0 <= j < i ==> drawers[j] == MapDrawer(s.drawers[j], f)
      invariant drawers[i..] == s.drawers[i..]
    {
      var moved := MoveDrawer(drawers[i], col, line);
      drawers := drawers[i := moved];
      i := i + 1;
    }

    var properties := s.properties;
    i := 0;
    while i < |properties|
      invariant 0 <= i <= |properties| == |s.properties|
      invariant forall j :: 0 <= j < i ==> properties[j] == MapProperties(s.properties[j], f)
      invariant properties[i..] == s.properties[i..]
    {
      var moved := MoveProperties(properties[i], col, line);
      properties := properties[i := moved];
      i := i + 1;
    }

    var keywords := s.keywords;
    i := 0;
    while i < |keywords|
      invariant 0 <= i <= |keywords| == |s.keywords|
      invariant forall j :: 0 <= j < i ==> keywords[j] == MapKeyword(s.keywords[j], f)
      invariant keywords[i..] == s.keywords[i..]
    {
      var moved := MoveKeyword(keywords[i], col, line);
      keywords := keywords[i := moved];
      i := i + 1;
    }

    var scheduling := s.scheduling;
    i := 0;
    while i < |scheduling|
      invariant 0 <= i <= |scheduling| == |s.scheduling|
      invariant forall j :: 0 <= j < i ==> scheduling[j] == MapScheduling(s.scheduling[j], f)
      invariant scheduling[i..] == s.scheduling[i..]
    {
      var moved := MoveScheduling(scheduling[i], col, line);
      scheduling := scheduling[i := moved];
      i := i + 1;
    }

    var contents := s.contents;
    i := 0;
    while i < |contents|
      invariant 0 <= i <= |contents| == |s.contents|
      invariant forall j :: 0 <= j < i ==> contents[j] == MapContent(s.contents[j], f)
      invariant contents[i..] == s.contents[i..]
    {
      var moved := MoveContent(contents[i], col, line);
      contents := contents[i := moved];
      i := i + 1;
    }

    var sections := s.sections;
    i := 0;
    while i < |sections|
      invariant 0 <= i <= |sections| == |s.sections|
      invariant forall j :: 0 <= j < i ==> sections[j] == MapSection(s.sections[j], f)
      invariant sections[i..] == s.sections[i..]
    {
      var moved := MoveSection(s.sections[i], col, line);
      sections := sections[i := moved];
      i := i + 1;
    }

    r := Section(pos, s.title, drawers, properties, keywords, scheduling, contents, sections);
  }
}
