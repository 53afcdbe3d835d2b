/** Node placement of node/align.py: a new node is put next to a given
    node, or a node is aligned relative to another by fractions of their
    padded sizes. Locations are the node editor's: x grows to the right,
    y grows upwards, and a node's location is its top left corner. */
module Align {
  import opened Wrappers
  import opened NodeTree

  /** What placement reads of a node: its location, width, height and
      numbers of input and output sockets. */
  datatype Frame = Frame(location: Loc, width: real, height: real, ins: nat, outs: nat)

  /** A node of the node editor; placement writes only its location. */
  class CNode {
    var location: Loc
    const width: real
    const height: real
    const ins: nat
    const outs: nat

    constructor (location: Loc, width: real, height: real, ins: nat, outs: nat)
      ensures this.location == location && this.width == width && this.height == height
      ensures this.ins == ins && this.outs == outs
    {
      this.location := location;
      this.width := width;
      this.height := height;
      this.ins := ins;
      this.outs := outs;
    }

    function Snapshot(): Frame
      reads this
    {
      Frame(location, width, height, ins, outs)
    }
  }

  /** The height the placement helpers allow for the input sockets. */
  function InputsHeight(ins: nat): real {
    ins as real * 25.0
  }

  /** `SetNodePosToRightOf`: same row, to the right of `o` by the spacing. */
  function RightOf(o: Frame, n: Frame, spacing: Loc): Loc {
    Loc(o.location.x + o.width + spacing.x, o.location.y)
  }

  /** `SetNodePosToLeftOf`: same row, to the left of `o`, so that the new
      node's right edge ends the spacing before `o`. */
  function LeftOf(o: Frame, n: Frame, spacing: Loc): Loc {
    Loc(o.location.x - n.width - spacing.x, o.location.y)
  }

  /** `SetNodePosToAboveOf`: same column, above `o` by the new node's
      height with room for its inputs, and the spacing. */
  function AboveOf(o: Frame, n: Frame, spacing: Loc): Loc {
    Loc(o.location.x, o.location.y + n.height + InputsHeight(n.ins) + spacing.y)
  }

  /** `SetNodePosToBelowOf`: same column, below `o` by its height with room
      for its inputs, and the spacing. */
  function BelowOf(o: Frame, n: Frame, spacing: Loc): Loc {
    Loc(o.location.x, o.location.y - o.height - InputsHeight(o.ins) - spacing.y)
  }

  /** The node to the right of `o` starts past `o`'s right edge by exactly
      the spacing, and sits on `o`'s row. */
  lemma RightOfGap(o: Frame, n: Frame, spacing: Loc)
    ensures var r := RightOf(o, n, spacing);
      r.y == o.location.y && r.x - (o.location.x + o.width) == spacing.x
      && (spacing.x >= 0.0 ==> r.x >= o.location.x + o.width)
  {
  }

  /** The node to the left of `o` ends before `o`'s left edge by exactly
      the spacing, and sits on `o`'s row. */
  lemma LeftOfGap(o: Frame, n: Frame, spacing: Loc)
    ensures var r := LeftOf(o, n, spacing);
      r.y == o.location.y && o.location.x - (r.x + n.width) == spacing.x
      && (spacing.x >= 0.0 ==> r.x + n.width <= o.location.x)
  {
  }

  /** The node above `o`, with its inputs' room below it, ends the spacing
      above `o`'s top, in `o`'s column. */
  lemma AboveOfGap(o: Frame, n: Frame, spacing: Loc)
    ensures var r := AboveOf(o, n, spacing);
      r.x == o.location.x && (r.y - n.height - InputsHeight(n.ins)) - o.location.y == spacing.y
      && (spacing.y >= 0.0 ==> r.y - n.height - InputsHeight(n.ins) >= o.location.y)
  {
  }

  /** The node below `o` starts the spacing below `o`'s bottom with its
      inputs' room, in `o`'s column. */
  lemma BelowOfGap(o: Frame, n: Frame, spacing: Loc)
    ensures var r := BelowOf(o, n, spacing);
      r.x == o.location.x && (o.location.y - o.height - InputsHeight(o.ins)) - r.y == spacing.y
      && (spacing.y >= 0.0 ==> r.y <= o.location.y - o.height - InputsHeight(o.ins))
  {
  }

  /** Placing `n` to the right of `o` and then `o` to the left of `n`, with
      the same spacing, puts `o` back where it was. */
  lemma RightLeftRoundTrip(o: Frame, n: Frame, spacing: Loc)
    ensures LeftOf(n.(location := RightOf(o, n, spacing)), o, spacing) == o.location
  {
  }

  /** Placing `n` above `o` and then `o` below `n`, with the same spacing,
      puts `o` back where it was. */
  lemma AboveBelowRoundTrip(o: Frame, n: Frame, spacing: Loc)
    ensures BelowOf(n.(location := AboveOf(o, n, spacing)), o, spacing) == o.location
  {
  }

  /** The four placements write the new node's location from the original
      node as it was before the write (the two may be the same node). */
  method SetNodePosToRightOf(orig: CNode, made: CNode, spacing: Loc)
    modifies made
    ensures made.location == RightOf(old(orig.Snapshot()), old(made.Snapshot()), spacing)
  {
    made.location := RightOf(orig.Snapshot(), made.Snapshot(), spacing);
  }

  method SetNodePosToLeftOf(orig: CNode, made: CNode, spacing: Loc)
    modifies made
    ensures made.location == LeftOf(old(orig.Snapshot()), old(made.Snapshot()), spacing)
  {
    made.location := LeftOf(orig.Snapshot(), made.Snapshot(), spacing);
  }

  method SetNodePosToAboveOf(orig: CNode, made: CNode, spacing: Loc)
    modifies made
    ensures made.location == AboveOf(old(orig.Snapshot()), old(made.Snapshot()), spacing)
  {
    made.location := AboveOf(orig.Snapshot(), made.Snapshot(), spacing);
  }

  method SetNodePosToBelowOf(orig: CNode, made: CNode, spacing: Loc)
    modifies made
    ensures made.location == BelowOf(old(orig.Snapshot()), old(made.Snapshot()), spacing)
  {
    made.location := BelowOf(orig.Snapshot(), made.Snapshot(), spacing);
  }

  // ---------------------------------------------------------------------
  // Relative

  /** A node's size padded by the spacing on both sides, with room for
      10 units per socket in height. */
  function PaddedSize(f: Frame, spacing: Loc): Loc {
    Loc(f.width + 2.0 * spacing.x, f.height + (f.ins + f.outs) as real * 10.0 + 2.0 * spacing.y)
  }

  /** `Relative`: the point at fraction `origRel` of the origin's padded
      box (x to the right, y downwards) is made to coincide with the point
      at fraction `alignRel` of the aligned node's padded box. */
  function RelativeLoc(o: Frame, origRel: Loc, a: Frame, alignRel: Loc, spacing: Loc): Loc
  {
    var origLoc := Loc(o.location.x - spacing.x, o.location.y + spacing.y);
    var origSize := PaddedSize(o, spacing);
    var alignSize := PaddedSize(a, spacing);
    var alignLoc := Loc(origLoc.x + origRel.x * origSize.x - alignRel.x * alignSize.x,
                        origLoc.y - origRel.y * origSize.y + alignRel.y * alignSize.y);
    Loc(alignLoc.x + spacing.x, alignLoc.y - spacing.y)
  }

  /** Aligning the top left corners places the node at the origin node's
      location. */
  lemma RelativeAtOrigin(o: Frame, a: Frame, spacing: Loc)
    ensures RelativeLoc(o, Loc(0.0, 0.0), a, Loc(0.0, 0.0), spacing) == o.location
  {
  }

  /** The aligned x depends on the widths, the x spacing and the relative
      x positions only, and the aligned y on the heights, socket counts,
      the y spacing and the relative y positions only. */
  lemma RelativeAxesIndependent(o: Frame, o': Frame, origRel: Loc, origRel': Loc, a: Frame, a': Frame,
                                alignRel: Loc, alignRel': Loc, spacing: Loc, spacing': Loc)
    ensures o.location.x == o'.location.x && o.width == o'.width && a.width == a'.width &&
            origRel.x == origRel'.x && alignRel.x == alignRel'.x && spacing.x == spacing'.x ==>
            RelativeLoc(o, origRel, a, alignRel, spacing).x == RelativeLoc(o', origRel', a', alignRel', spacing').x
    ensures o.location.y == o'.location.y && o.height == o'.height && a.height == a'.height &&
            o.ins + o.outs == o'.ins + o'.outs && a.ins + a.outs == a'.ins + a'.outs &&
            origRel.y == origRel'.y && alignRel.y == alignRel'.y && spacing.y == spacing'.y ==>
            RelativeLoc(o, origRel, a, alignRel, spacing).y == RelativeLoc(o', origRel', a', alignRel', spacing').y
  {
  }

  /** Moving the origin node moves the aligned location by the same
      offset. */
  lemma RelativeTranslates(o: Frame, origRel: Loc, a: Frame, alignRel: Loc, spacing: Loc, d: Loc)
    ensures var moved := o.(location := Loc(o.location.x + d.x, o.location.y + d.y));
      var r := RelativeLoc(o, origRel, a, alignRel, spacing);
      RelativeLoc(moved, origRel, a, alignRel, spacing) == Loc(r.x + d.x, r.y + d.y)
  {
  }

  /** What `Relative` accepts for a node: the node, one of its sockets, or
      a socket collection, which stands for the node of its first socket. */
  datatype Anchor = OfNode(node: CNode) | OfSocket(owner: CNode) | OfSockets(owners: seq<CNode>)

  /** The node an anchor stands for; an empty collection has none. */
  function AnchorNode(x: Anchor): Option<CNode> {
    match x
    case OfNode(n) => Some(n)
    case OfSocket(n) => Some(n)
    case OfSockets(ns) => if |ns| == 0 then None else Some(ns[0])
  }

  /** The nodes `Relative` may write. */
  function Targets(x: Anchor): set<CNode> {
    match AnchorNode(x)
    case None => {}
    case Some(n) => {n}
  }

  const EmptyCollectionError := "bpy_prop_collection[index]: index 0 out of range, size 0"

  /** `Relative`: an empty socket collection raises where its first
      element is read, and nothing moves; otherwise only the aligned
      node's location is written. */
  method Relative(orig: Anchor, origRel: Loc, align: Anchor, alignRel: Loc, spacing: Loc) returns (o: Outcome)
    modifies Targets(align)
    ensures o.Fail? <==> AnchorNode(orig).None? || AnchorNode(align).None?
    ensures o.Fail? ==> o.msg == EmptyCollectionError && unchanged(Targets(align))
    ensures o.Pass? ==> var n := AnchorNode(align).value;
      n.location == RelativeLoc(old(AnchorNode(orig).value.Snapshot()), origRel, old(n.Snapshot()), alignRel, spacing)
  {
    var origNode := AnchorNode(orig);
    if origNode.None? {
      return Fail(EmptyCollectionError);
    }
    var alignNode := AnchorNode(align);
    if alignNode.None? {
      return Fail(EmptyCollectionError);
    }
    var n := alignNode.value;
    n.location := RelativeLoc(origNode.value.Snapshot(), origRel, n.Snapshot(), alignRel, spacing);
    return Pass;
  }
}
