/** The part of a reportlab canvas the salary slip uses, kept as the list
    of drawing commands in the order they were issued. Coordinates are in
    hundredths of an inch from the bottom-left corner of the page. */
module Drawing {

  datatype Command =
    | Font(face: string, size: nat)
    | Str(x: int, y: int, text: string)        // drawString: text starts at x
    | RightStr(x: int, y: int, text: string)   // drawRightString: text ends at x
    | Rule(x1: int, y1: int, x2: int, y2: int) // line

  /** Commands that put ink somewhere on the page. */
  predicate Placed(c: Command)
  {
    !c.Font?
  }

  /** Highest and lowest vertical position a placed command touches. */
  function Top(c: Command): int
    requires Placed(c)
  {
    if c.Rule? then (if c.y1 < c.y2 then c.y2 else c.y1) else c.y
  }

  function Bottom(c: Command): int
    requires Placed(c)
  {
    if c.Rule? then (if c.y1 < c.y2 then c.y1 else c.y2) else c.y
  }

  /** Leftmost and rightmost anchor of a placed command. */
  function Left(c: Command): int
    requires Placed(c)
  {
    if c.Rule? then (if c.x1 < c.x2 then c.x1 else c.x2) else c.x
  }

  function Right(c: Command): int
    requires Placed(c)
  {
    if c.Rule? then (if c.x1 < c.x2 then c.x2 else c.x1) else c.x
  }

  /** A canvas whose drawing calls append to its log. */
  class Canvas {
    var log: seq<Command>

    constructor ()
      ensures log == []
    {
      log := [];
    }

    method SetFont(face: string, size: nat)
      modifies this
      ensures log == old(log) + [Font(face, size)]
    {
      log := log + [Font(face, size)];
    }

    method DrawString(x: int, y: int, text: string)
      modifies this
      ensures log == old(log) + [Str(x, y, text)]
    {
      log := log + [Str(x, y, text)];
    }

    method DrawRightString(x: int, y: int, text: string)
      modifies this
      ensures log == old(log) + [RightStr(x, y, text)]
    {
      log := log + [RightStr(x, y, text)];
    }

    method Line(x1: int, y1: int, x2: int, y2: int)
      modifies this
      ensures log == old(log) + [Rule(x1, y1, x2, y2)]
    {
      log := log + [Rule(x1, y1, x2, y2)];
    }
  }
}
