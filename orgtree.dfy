/** The position-annotated document tree consumed by the reminder deriver and the
    position-shifting utility. Positions use the machine word of the source (`usize`). */
module OrgTree {

  const USIZE_MAX: int := 0xFFFF_FFFF_FFFF_FFFF
  const ISIZE_MIN: int := -0x8000_0000_0000_0000
  const ISIZE_MAX: int := 0x7FFF_FFFF_FFFF_FFFF

  /** Unsigned and signed 64-bit words. */
  type usize = x: int | 0 <= x <= USIZE_MAX
  type isize = x: int | ISIZE_MIN <= x <= ISIZE_MAX

  /** A line/column position in the source text. */
  datatype Pos = Pos(line: usize, col: usize)

  /** A run of body text. */
  datatype Content = Content(pos: Pos, text: string)

  /** A `#+KEY: value` line. */
  datatype Keyword = Keyword(pos: Pos, key: string, value: string)

  /** One `:KEY: value` line of a property block. */
  datatype Property = Property(pos: Pos, key: string, value: string)

  /** A `:PROPERTIES: ... :END:` block. */
  datatype Properties = Properties(pos: Pos, children: seq<Property>)

  /** A named drawer other than PROPERTIES, holding opaque content fragments. */
  datatype Drawer = Drawer(pos: Pos, name: string, children: seq<Content>)

  /** A `SCHEDULED:` or `DEADLINE:` entry with its raw timestamp text. */
  datatype Scheduling =
    | Scheduled(pos: Pos, datetime: string)
    | Deadline(pos: Pos, datetime: string)

  /** One heading and everything nested under it. */
  datatype Section = Section(
    pos: Pos,
    title: string,
    drawers: seq<Drawer>,
    properties: seq<Properties>,
    keywords: seq<Keyword>,
    scheduling: seq<Scheduling>,
    contents: seq<Content>,
    sections: seq<Section>)
}
