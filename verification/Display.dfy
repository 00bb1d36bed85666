/** Display lists: commands whose points and texts are spans of arenas, and layers. */
module Display {
  import opened Basics
  import opened Geometry
  import opened Drawing

  /** The commands from `start` up to `end`, which `Splice` can replace under the name `id`. */
  datatype Layer = Layer(id: nat, start: nat, end: nat)

  predicate Inside(span: Span, length: nat) {
    span.End() <= length
  }

  /** Whether what a command indexes lies in arenas of these sizes. */
  predicate Held(c: Cmd, points: nat, strings: nat) {
    match c
    case Polyline(p, _, _) => Inside(p, points)
    case FillPolygon(p, _) => Inside(p, points)
    case Graph(p, _, _) => Inside(p, points)
    case Band(top, bottom, _) => Inside(top, points) && Inside(bottom, points)
    case Text(t, _, _, _) => Inside(t, strings)
    case Image(t, _) => Inside(t, strings)
    case _ => true
  }

  function Slice<T>(arena: seq<T>, span: Span): seq<T>
    requires Inside(span, |arena|)
  {
    arena[span.start..span.End()]
  }

  /** A command with what it indexes in its place. */
  function Resolve(c: Cmd, points: seq<Point>, strings: string): Drawn
    requires Held(c, |points|, |strings|)
  {
    match c
    case Clear(color) => Clear(color)
    case FillRect(rect, color) => FillRect(rect, color)
    case FillRoundRect(rect, radius, color) => FillRoundRect(rect, radius, color)
    case StrokeRect(rect, color, width) => StrokeRect(rect, color, width)
    case StrokeRoundRect(rect, radius, color, width) => StrokeRoundRect(rect, radius, color, width)
    case Line(from, to, color, width) => Line(from, to, color, width)
    case Polyline(p, color, width) => Polyline(Slice(points, p), color, width)
    case FillPolygon(p, color) => FillPolygon(Slice(points, p), color)
    case Band(top, bottom, color) => Band(Slice(points, top), Slice(points, bottom), color)
    case Graph(p, color, width) => Graph(Slice(points, p), color, width)
    case Text(t, rect, look, color) => Text(Slice(strings, t), rect, look, color)
    case Icon(icon, rect, size, color) => Icon(icon, rect, size, color)
    case Image(t, rect) => Image(Slice(strings, t), rect)
    case PushClip(rect) => PushClip(rect)
    case PopClip => PopClip
  }

  /** Growing the arenas moves nothing. */
  lemma ResolveStays(c: Cmd, points: seq<Point>, strings: string, more: seq<Point>, text: string)
    requires Held(c, |points|, |strings|)
    ensures Held(c, |points + more|, |strings + text|)
    ensures Resolve(c, points + more, strings + text) == Resolve(c, points, strings)
  {
    forall span: Span | Inside(span, |points|)
      ensures Slice(points + more, span) == Slice(points, span)
    {
    }
    forall span: Span | Inside(span, |strings|)
      ensures Slice(strings + text, span) == Slice(strings, span)
    {
    }
  }

  predicate AllHeld(cmds: seq<Cmd>, points: nat, strings: nat) {
    forall i :: 0 <= i < |cmds| ==> Held(cmds[i], points, strings)
  }

  function ResolveAll(cmds: seq<Cmd>, points: seq<Point>, strings: string): (r: seq<Drawn>)
    requires AllHeld(cmds, |points|, |strings|)
    ensures |r| == |cmds|
  {
    seq(|cmds|, i requires 0 <= i < |cmds| => Resolve(cmds[i], points, strings))
  }

  /** Appending a command. */
  lemma AppendResolved(cmds: seq<Cmd>, points: seq<Point>, strings: string, c: Cmd)
    requires AllHeld(cmds, |points|, |strings|) && Held(c, |points|, |strings|)
    ensures AllHeld(cmds + [c], |points|, |strings|)
    ensures ResolveAll(cmds + [c], points, strings) == ResolveAll(cmds, points, strings) + [Resolve(c, points, strings)]
  {
  }

  /** Whether the list takes a command at all: one that would draw nothing is dropped. */
  predicate Taken(d: Drawn) {
    match d
    case Clear(_) => true
    case FillRect(rect, color) => !rect.IsEmpty() && color.a > 0.0
    case FillRoundRect(rect, _, color) => !rect.IsEmpty() && color.a > 0.0
    case StrokeRect(rect, color, _) => !rect.IsEmpty() && color.a > 0.0
    case StrokeRoundRect(rect, _, color, _) => !rect.IsEmpty() && color.a > 0.0
    case Line(_, _, color, _) => color.a > 0.0
    case Polyline(points, color, _) => |points| >= 2 && color.a > 0.0
    case FillPolygon(points, color) => |points| >= 3 && color.a > 0.0
    case Band(top, bottom, color) => |top| >= 2 && |bottom| >= 2 && color.a > 0.0
    case Graph(points, color, width) => |points| >= 2 && color.a > 0.0 && width > 0.0
    case Text(text, rect, _, color) => text != "" && !rect.IsEmpty() && color.a > 0.0
    case Icon(_, rect, size, color) => !rect.IsEmpty() && size > 0.0 && color.a > 0.0
    case Image(path, rect) => !rect.IsEmpty() && path != ""
    case PushClip(_) => true
    case PopClip => true
  }

  /** What a painter's commands add to a list. */
  function Fresh(ds: seq<Drawn>): seq<Drawn> {
    if ds == [] then [] else Fresh(Front(ds)) + if Taken(Last(ds)) then [Last(ds)] else []
  }

  /** How many clips a list leaves open, not counting pops of none. */
  function Depth(ds: seq<Drawn>): nat {
    if ds == [] then 0
    else if Last(ds).PushClip? then Depth(Front(ds)) + 1
    else if Last(ds).PopClip? then Max(Depth(Front(ds)) - 1, 0)
    else Depth(Front(ds))
  }

  lemma DepthSnoc(ds: seq<Drawn>, d: Drawn)
    ensures Depth(ds + [d]) == if d.PushClip? then Depth(ds) + 1 else if d.PopClip? then Max(Depth(ds) - 1, 0) else Depth(ds)
  {
    assert Front(ds + [d]) == ds;
  }

  /** Layers in the order they were painted, none overlapping another. */
  predicate Ordered(layers: seq<Layer>, open: Option<(nat, nat)>, count: nat) {
    && (forall i :: 0 <= i < |layers| ==> layers[i].start <= layers[i].end <= count)
    && (forall i, j :: 0 <= i < j < |layers| ==> layers[i].end <= layers[j].start)
    && (open.Some? ==> open.value.1 <= count && forall i :: 0 <= i < |layers| ==> layers[i].end <= open.value.1)
  }

  class DisplayList {
    var cmds: seq<Cmd>
    var points: seq<Point>
    var strings: string
    var clipDepth: nat
    var layers: seq<Layer>
    /** Between `BeginLayer` and `EndLayer`: the id given and the command it begins at. */
    var open: Option<(nat, nat)>

    ghost predicate Valid()
      reads this
    {
      && AllHeld(cmds, |points|, |strings|)
      && Ordered(layers, open, |cmds|)
      && clipDepth == Depth(ResolveAll(cmds, points, strings))
    }

    /** The list as a value: spans replaced by the points and texts they stand for. */
    ghost function Shown(): seq<Drawn>
      requires Valid()
      reads this
    {
      ResolveAll(cmds, points, strings)
    }

    constructor ()
      ensures Valid() && Shown() == [] && layers == [] && open.None?
    {
      cmds, points, strings, clipDepth, layers, open := [], [], "", 0, [], None;
    }

    /** Shows what `other` shows, in arenas of its own. */
    method CopyFrom(other: DisplayList)
      requires other.Valid()
      modifies this
      ensures Valid() && Shown() == old(other.Shown()) && layers == old(other.layers) && open == old(other.open)
    {
      cmds, points, strings, clipDepth, layers, open :=
        other.cmds, other.points, other.strings, other.clipDepth, other.layers, other.open;
    }

    /** Forget this frame's commands. */
    method Clear()
      modifies this
      ensures Valid() && Shown() == [] && layers == [] && open.None?
    {
      cmds, points, strings, clipDepth, layers, open := [], [], "", 0, [], None;
    }

    /** Start a layer, ending the open one first: layers do not nest. */
    method BeginLayer(id: nat)
      requires Valid()
      modifies this`layers, this`open
      ensures Valid() && open == Some((id, |cmds|))
      ensures layers == old(layers) + old(Closing())
    {
      EndLayer();
      open := Some((id, |cmds|));
    }

    /** The layer that ending the open one adds. */
    function Closing(): seq<Layer>
      reads this
    {
      if open.Some? then [Layer(open.value.0, open.value.1, |cmds|)] else []
    }

    method EndLayer()
      requires Valid()
      modifies this`layers, this`open
      ensures Valid() && open.None? && layers == old(layers) + old(Closing())
    {
      if open.Some? {
        layers := layers + [Layer(open.value.0, open.value.1, |cmds|)];
        open := None;
      }
    }

    method PushPoints(more: seq<Point>) returns (span: Span)
      requires Valid()
      modifies this`points
      ensures Valid() && Shown() == old(Shown())
      ensures points == old(points) + more && span == Span(old(|points|), |more|)
    {
      hide Resolve, Held;
      GrowResolved(cmds, points, strings, more, "");
      assert strings + "" == strings;
      span := Span(|points|, |more|);
      points := points + more;
    }

    method PushStr(text: string) returns (span: Span)
      requires Valid()
      modifies this`strings
      ensures Valid() && Shown() == old(Shown())
      ensures strings == old(strings) + text && span == Span(old(|strings|), |text|)
    {
      hide Resolve, Held;
      GrowResolved(cmds, points, strings, [], text);
      assert points + [] == points;
      span := Span(|strings|, |text|);
      strings := strings + text;
    }

    /** Append a command whose points and text are in the arenas already. */
    method Push(c: Cmd)
      requires Valid() && Held(c, |points|, |strings|)
      modifies this`cmds, this`clipDepth
      ensures Valid() && Shown() == old(Shown()) + [Resolve(c, points, strings)]
      ensures |cmds| == |old(cmds)| + 1
    {
      hide Resolve, Held, ResolveAll, Depth, AllHeld, Ordered;
      ghost var d := Resolve(c, points, strings);
      ResolvedKind(c, points, strings);
      OrderedStill(layers, open, |cmds|);
      AppendResolved(cmds, points, strings, c);
      DepthSnoc(Shown(), d);
      if c.PushClip? {
        clipDepth := clipDepth + 1;
      } else if c.PopClip? {
        clipDepth := Max(clipDepth - 1, 0);
      }
      cmds := cmds + [c];
    }

    /** An open path. */
    method Polyline(pts: seq<Point>, color: Color, width: real)
      requires Valid()
      modifies this`cmds, this`points, this`clipDepth
      ensures Valid() && Shown() == old(Shown()) + Added(DrawCmd.Polyline(pts, color, width))
    {
      var span := PushPoints(pts);
      assert Slice(points, span) == pts;
      if span.len >= 2 && color.a > 0.0 {
        Push(DrawCmd.Polyline(span, color, width));
      }
    }

    /** A closed filled path. */
    method FillPolygon(pts: seq<Point>, color: Color)
      requires Valid()
      modifies this`cmds, this`points, this`clipDepth
      ensures Valid() && Shown() == old(Shown()) + Added(DrawCmd.FillPolygon(pts, color))
    {
      var span := PushPoints(pts);
      assert Slice(points, span) == pts;
      if span.len >= 3 && color.a > 0.0 {
        Push(DrawCmd.FillPolygon(span, color));
      }
    }

    /** A chart's filled area. Its points go again if it draws nothing. */
    method Band(top: seq<Point>, bottom: seq<Point>, color: Color)
      requires Valid()
      modifies this`cmds, this`points, this`clipDepth
      ensures Valid() && Shown() == old(Shown()) + Added(DrawCmd.Band(top, bottom, color))
      ensures !Taken(DrawCmd.Band(top, bottom, color)) ==> points == old(points)
    {
      var mark := |points|;
      var t := PushPoints(top);
      assert Slice(points, t) == top;
      var b := PushPoints(bottom);
      assert Slice(points, t) == top && Slice(points, b) == bottom;
      if t.len >= 2 && b.len >= 2 && color.a > 0.0 {
        Push(DrawCmd.Band(t, b, color));
      } else {
        points := points[..mark];
        assert points == old(points);
      }
    }

    /** A chart's line. */
    method Graph(pts: seq<Point>, color: Color, width: real)
      requires Valid()
      modifies this`cmds, this`points, this`clipDepth
      ensures Valid() && Shown() == old(Shown()) + Added(DrawCmd.Graph(pts, color, width))
      ensures !Taken(DrawCmd.Graph(pts, color, width)) ==> points == old(points)
    {
      var mark := |points|;
      var span := PushPoints(pts);
      assert Slice(points, span) == pts;
      if span.len >= 2 && color.a > 0.0 && width > 0.0 {
        Push(DrawCmd.Graph(span, color, width));
      } else {
        points := points[..mark];
        assert points == old(points);
      }
    }

    /** Lay out text in a rectangle. */
    method Text(text: string, rect: Rect, look: Look, color: Color)
      requires Valid()
      modifies this`cmds, this`strings, this`clipDepth
      ensures Valid() && Shown() == old(Shown()) + Added(DrawCmd.Text(text, rect, look, color))
    {
      if text == "" || rect.IsEmpty() || color.a <= 0.0 {
        return;
      }
      var span := PushStr(text);
      assert Slice(strings, span) == text;
      Push(DrawCmd.Text(span, rect, look, color));
    }

    /** The image at a path, scaled into a rectangle. */
    method Image(path: string, rect: Rect)
      requires Valid()
      modifies this`cmds, this`strings, this`clipDepth
      ensures Valid() && Shown() == old(Shown()) + Added(DrawCmd.Image(path, rect))
    {
      if rect.IsEmpty() || path == "" {
        return;
      }
      var span := PushStr(path);
      assert Slice(strings, span) == path;
      Push(DrawCmd.Image(span, rect));
    }

    /** A command that indexes nothing: a shape, a clear or a clip. */
    method Shape(c: Cmd)
      requires Valid() && Plain(c)
      modifies this`cmds, this`clipDepth
      ensures Valid() && Shown() == old(Shown()) + Added(Resolve(c, [], ""))
    {
      if Taken(Resolve(c, [], "")) {
        Push(c);
      }
    }

    /** Any command, given what it is to index. */
    method Draw(d: Drawn)
      requires Valid()
      modifies this`cmds, this`points, this`strings, this`clipDepth
      ensures Valid() && Shown() == old(Shown()) + Added(d)
    {
      hide Valid, Taken, Resolve;
      match d
      case Polyline(pts, color, width) => Polyline(pts, color, width);
      case FillPolygon(pts, color) => FillPolygon(pts, color);
      case Band(top, bottom, color) => Band(top, bottom, color);
      case Graph(pts, color, width) => Graph(pts, color, width);
      case Text(text, rect, look, color) => Text(text, rect, look, color);
      case Image(path, rect) => Image(path, rect);
      case _ =>
        PlainResolved(d);
        Shape(Unresolve(d));
    }

    /** Append one of `from`'s commands, with what it indexes there. */
    method CopyCmd(from: DisplayList, c: Cmd)
      requires Valid() && from != this && Held(c, |from.points|, |from.strings|)
      modifies this`cmds, this`points, this`strings, this`clipDepth
      ensures Valid() && Shown() == old(Shown()) + [Resolve(c, from.points, from.strings)]
      ensures |cmds| == |old(cmds)| + 1
    {
      hide Valid;
      match c
      case Polyline(p, color, width) =>
        var span := PushPoints(Slice(from.points, p));
        assert Slice(points, span) == Slice(from.points, p);
        Push(DrawCmd.Polyline(span, color, width));
      case FillPolygon(p, color) =>
        var span := PushPoints(Slice(from.points, p));
        assert Slice(points, span) == Slice(from.points, p);
        Push(DrawCmd.FillPolygon(span, color));
      case Band(top, bottom, color) =>
        var t := PushPoints(Slice(from.points, top));
        var b := PushPoints(Slice(from.points, bottom));
        assert Slice(points, t) == Slice(from.points, top) && Slice(points, b) == Slice(from.points, bottom);
        Push(DrawCmd.Band(t, b, color));
      case Graph(p, color, width) =>
        var span := PushPoints(Slice(from.points, p));
        assert Slice(points, span) == Slice(from.points, p);
        Push(DrawCmd.Graph(span, color, width));
      case Text(t, rect, look, color) =>
        var span := PushStr(Slice(from.strings, t));
        assert Slice(strings, span) == Slice(from.strings, t);
        Push(DrawCmd.Text(span, rect, look, color));
      case Image(t, rect) =>
        var span := PushStr(Slice(from.strings, t));
        assert Slice(strings, span) == Slice(from.strings, t);
        Push(DrawCmd.Image(span, rect));
      case _ =>
        Push(c);
    }

    /** Adds a range of another list's commands; their spans are moved into this list's arenas. */
    method CopyCmds(from: DisplayList, start: nat, end: nat)
      requires Valid() && from != this && from.Valid() && start <= end <= |from.cmds|
      modifies this`cmds, this`points, this`strings, this`clipDepth
      ensures Valid() && Shown() == old(Shown()) + from.Shown()[start..end]
    {
      hide Resolve, Held, Depth, Ordered;
      for i := start to end
        invariant Valid() && Shown() == old(Shown()) + from.Shown()[start..i]
      {
        CopyCmd(from, from.cmds[i]);
        assert from.Shown()[start..i + 1] == from.Shown()[start..i] + [from.Shown()[i]];
      }
    }

    /** Append what a painter draws. */
    method DrawAll(ds: seq<Drawn>)
      requires Valid()
      modifies this`cmds, this`points, this`strings, this`clipDepth
      ensures Valid() && Shown() == old(Shown()) + Fresh(ds)
    {
      hide Valid, Taken;
      for i := 0 to |ds|
        invariant Valid() && Shown() == old(Shown()) + Fresh(ds[..i])
      {
        Draw(ds[i]);
        assert Front(ds[..i + 1]) == ds[..i];
      }
      assert ds[..|ds|] == ds;
    }

    /** Rebuilds the list from `kept`: what lies outside its layers is taken over, and each
        layer becomes what `paint` gives for its id. */
    method Splice(kept: DisplayList, paint: nat -> seq<Drawn>)
      requires kept != this && kept.Valid()
      modifies this
      ensures Valid() && open.None?
      ensures Shown() == Spliced(kept.Shown(), kept.layers, paint)
      ensures layers == SplicedLayers(kept.Shown(), kept.layers, paint)
    {
      hide ResolveAll, AllHeld, Depth, Fresh, Before, SplicedLayers, Ordered;
      FitsClosed(kept.layers, kept.open, |kept.cmds|);
      SpliceStart(kept.Shown(), kept.layers, paint);
      Clear();
      var at := 0;
      for i := 0 to |kept.layers|
        invariant Valid() && open.None? && at == EndOf(kept.layers[..i])
        invariant kept.Valid() && |kept.cmds| == |kept.Shown()| && Fits(kept.Shown(), kept.layers[..i])
        invariant |cmds| == |Shown()|
        invariant Shown() == Before(kept.Shown(), kept.layers[..i], paint)
        invariant layers == SplicedLayers(kept.Shown(), kept.layers[..i], paint)
      {
        var layer := kept.layers[i];
        SpliceStep(kept.Shown(), kept.layers, paint, i);
        SpliceLayer(kept, at, layer, paint(layer.id));
        at := layer.end;
      }
      assert kept.layers[..|kept.layers|] == kept.layers;
      SpliceStart(kept.Shown(), kept.layers, paint);
      CopyCmds(kept, at, |kept.cmds|);
    }

    method SpliceLayer(kept: DisplayList, at: nat, layer: Layer, again: seq<Drawn>)
      requires Valid() && open.None? && kept != this && kept.Valid() && at <= layer.start <= |kept.cmds|
      modifies this
      ensures Valid() && open.None?
      ensures Shown() == old(Shown()) + kept.Shown()[at..layer.start] + Fresh(again)
      ensures layers == old(layers)
        + [Layer(layer.id, old(|cmds|) + layer.start - at, old(|cmds|) + layer.start - at + |Fresh(again)|)]
    {
      hide Resolve, Held, Depth, Fresh;
      CopyCmds(kept, at, layer.start);
      assert |Shown()| == |cmds|;
      BeginLayer(layer.id);
      DrawAll(again);
      assert |Shown()| == |cmds|;
      EndLayer();
    }
  }

  lemma ResolvedKind(c: Cmd, points: seq<Point>, strings: string)
    requires Held(c, |points|, |strings|)
    ensures Resolve(c, points, strings).PushClip? == c.PushClip? && Resolve(c, points, strings).PopClip? == c.PopClip?
    ensures Structural(Resolve(c, points, strings)) == Structural(c)
    ensures c.PushClip? ==> Resolve(c, points, strings).rect == c.rect
  {
  }

  lemma OrderedStill(layers: seq<Layer>, open: Option<(nat, nat)>, count: nat)
    requires Ordered(layers, open, count)
    ensures Ordered(layers, open, count + 1)
  {
  }

  // Splicing

  function EndOf(layers: seq<Layer>): nat {
    if layers == [] then 0 else layers[|layers| - 1].end
  }

  predicate Fits(ds: seq<Drawn>, layers: seq<Layer>) {
    Ordered(layers, None, |ds|)
  }

  /** What a splice has made when it has come to the end of some layers. */
  function Before(ds: seq<Drawn>, layers: seq<Layer>, paint: nat -> seq<Drawn>): seq<Drawn>
    requires Fits(ds, layers)
  {
    if layers == [] then []
    else
      var front, layer := layers[..|layers| - 1], layers[|layers| - 1];
      Before(ds, front, paint) + ds[EndOf(front)..layer.start] + Fresh(paint(layer.id))
  }

  lemma FitsClosed(layers: seq<Layer>, open: Option<(nat, nat)>, count: nat)
    requires Ordered(layers, open, count)
    ensures Ordered(layers, None, count)
  {
  }

  lemma SpliceStart(ds: seq<Drawn>, layers: seq<Layer>, paint: nat -> seq<Drawn>)
    requires Fits(ds, layers)
    ensures Fits(ds, []) && EndOf([]) == 0 && Before(ds, [], paint) == [] && SplicedLayers(ds, [], paint) == []
    ensures EndOf(layers) <= |ds|
  {
  }

  lemma SpliceStep(ds: seq<Drawn>, layers: seq<Layer>, paint: nat -> seq<Drawn>, i: nat)
    requires Fits(ds, layers) && i < |layers|
    ensures Fits(ds, layers[..i]) && Fits(ds, layers[..i + 1]) && EndOf(layers[..i + 1]) == layers[i].end
    ensures EndOf(layers[..i]) <= layers[i].start <= layers[i].end <= |ds|
    ensures Before(ds, layers[..i + 1], paint)
      == Before(ds, layers[..i], paint) + ds[EndOf(layers[..i])..layers[i].start] + Fresh(paint(layers[i].id))
    ensures SplicedLayers(ds, layers[..i + 1], paint) == SplicedLayers(ds, layers[..i], paint)
      + [Layer(layers[i].id, |Before(ds, layers[..i], paint)| + layers[i].start - EndOf(layers[..i]),
               |Before(ds, layers[..i], paint)| + layers[i].start - EndOf(layers[..i]) + |Fresh(paint(layers[i].id))|)]
  {
    assert layers[..i + 1][..i] == layers[..i];
  }

  /** The whole of it: the commands outside the layers as they were, each layer's
      replaced by what its painter draws. */
  function Spliced(ds: seq<Drawn>, layers: seq<Layer>, paint: nat -> seq<Drawn>): seq<Drawn>
    requires Fits(ds, layers)
  {
    Before(ds, layers, paint) + ds[EndOf(layers)..]
  }

  /** Where the layers are afterwards. */
  function SplicedLayers(ds: seq<Drawn>, layers: seq<Layer>, paint: nat -> seq<Drawn>): (r: seq<Layer>)
    requires Fits(ds, layers)
    ensures |r| == |layers|
  {
    if layers == [] then []
    else
      var front, layer := layers[..|layers| - 1], layers[|layers| - 1];
      var start := |Before(ds, front, paint)| + layer.start - EndOf(front);
      SplicedLayers(ds, front, paint) + [Layer(layer.id, start, start + |Fresh(paint(layer.id))|)]
  }

  /** The command for one that indexes nothing. */
  function Unresolve(d: Drawn): Cmd {
    match d
    case Clear(color) => Clear(color)
    case FillRect(rect, color) => FillRect(rect, color)
    case FillRoundRect(rect, radius, color) => FillRoundRect(rect, radius, color)
    case StrokeRect(rect, color, width) => StrokeRect(rect, color, width)
    case StrokeRoundRect(rect, radius, color, width) => StrokeRoundRect(rect, radius, color, width)
    case Line(from, to, color, width) => Line(from, to, color, width)
    case Icon(icon, rect, size, color) => Icon(icon, rect, size, color)
    case PushClip(rect) => PushClip(rect)
    case _ => PopClip
  }

  predicate Plain(c: Cmd) {
    Held(c, 0, 0) && !c.Polyline? && !c.FillPolygon? && !c.Band? && !c.Graph? && !c.Text? && !c.Image?
  }

  lemma PlainResolved(d: Drawn)
    requires !d.Polyline? && !d.FillPolygon? && !d.Band? && !d.Graph? && !d.Text? && !d.Image?
    ensures Plain(Unresolve(d)) && Resolve(Unresolve(d), [], "") == d
  {
  }

  /** What asking for one command adds. */
  function Added(d: Drawn): seq<Drawn> {
    if Taken(d) then [d] else []
  }

  lemma GrowResolved(cmds: seq<Cmd>, points: seq<Point>, strings: string, more: seq<Point>, text: string)
    requires AllHeld(cmds, |points|, |strings|)
    ensures AllHeld(cmds, |points + more|, |strings + text|)
    ensures ResolveAll(cmds, points + more, strings + text) == ResolveAll(cmds, points, strings)
  {
    hide Resolve, Held;
    forall i | 0 <= i < |cmds|
      ensures Held(cmds[i], |points + more|, |strings + text|)
      ensures Resolve(cmds[i], points + more, strings + text) == Resolve(cmds[i], points, strings)
    {
      ResolveStays(cmds[i], points, strings, more, text);
    }
  }

  lemma FitsSome(ds: seq<Drawn>, layers: seq<Layer>, i: nat)
    requires Fits(ds, layers) && i <= |layers|
    ensures Fits(ds, layers[..i])
  {
  }

  /** What has been made is never changed by what comes after. */
  lemma {:induction false} BeforeIsPrefix(ds: seq<Drawn>, layers: seq<Layer>, paint: nat -> seq<Drawn>, i: nat, j: nat)
    requires Fits(ds, layers) && i <= j <= |layers|
    ensures Fits(ds, layers[..i]) && Fits(ds, layers[..j])
    ensures Before(ds, layers[..i], paint) <= Before(ds, layers[..j], paint)
    decreases j
  {
    hide Before, SplicedLayers, Fresh, Ordered;
    if i < j {
      BeforeIsPrefix(ds, layers, paint, i, j - 1);
      SpliceStep(ds, layers, paint, j - 1);
    } else {
      FitsSome(ds, layers, i);
    }
  }

  lemma {:induction false} LayersArePrefix(ds: seq<Drawn>, layers: seq<Layer>, paint: nat -> seq<Drawn>, i: nat)
    requires Fits(ds, layers) && i <= |layers|
    ensures Fits(ds, layers[..i])
    ensures SplicedLayers(ds, layers, paint)[..i] == SplicedLayers(ds, layers[..i], paint)
    decreases |layers|
  {
    if i < |layers| {
      LayersArePrefix(ds, layers[..|layers| - 1], paint, i);
      assert layers[..|layers| - 1][..i] == layers[..i];
    } else {
      assert layers[..i] == layers;
    }
  }

  /** Where a layer ends up, and that what is there is what its painter draws. */
  lemma SplicedLayerIs(ds: seq<Drawn>, layers: seq<Layer>, paint: nat -> seq<Drawn>, i: nat)
    requires Fits(ds, layers) && i < |layers|
    ensures Fits(ds, layers[..i]) && Fits(ds, layers[..i + 1])
    ensures var l := SplicedLayers(ds, layers, paint)[i];
      l.id == layers[i].id
      && l.start == |Before(ds, layers[..i], paint)| + layers[i].start - EndOf(layers[..i])
      && l.end == |Before(ds, layers[..i + 1], paint)| <= |Spliced(ds, layers, paint)|
      && l.start <= l.end && Spliced(ds, layers, paint)[l.start..l.end] == Fresh(paint(l.id))
  {
    hide Before, Spliced, SplicedLayers, Fresh;
    SpliceStep(ds, layers, paint, i);
    LayersArePrefix(ds, layers, paint, i + 1);
    UptoIsPrefix(ds, layers, paint, i + 1);
    var l, upto := SplicedLayers(ds, layers, paint)[i], Before(ds, layers[..i + 1], paint);
    assert l == SplicedLayers(ds, layers, paint)[..i + 1][i];
    SliceOfPrefix(upto, Spliced(ds, layers, paint), l.start, l.end);
    assert upto[l.start..l.end] == Fresh(paint(l.id));
  }

  lemma SliceOfPrefix<T>(a: seq<T>, b: seq<T>, i: nat, j: nat)
    requires a <= b && i <= j <= |a|
    ensures b[i..j] == a[i..j]
  {
  }

  /** The layers of a spliced list are layers again. */
  lemma SplicedFits(ds: seq<Drawn>, layers: seq<Layer>, paint: nat -> seq<Drawn>)
    requires Fits(ds, layers)
    ensures Fits(Spliced(ds, layers, paint), SplicedLayers(ds, layers, paint))
  {
    hide Before, Spliced, SplicedLayers, Fresh;
    var r := SplicedLayers(ds, layers, paint);
    forall i | 0 <= i < |r|
      ensures r[i].start <= r[i].end <= |Spliced(ds, layers, paint)|
    {
      SplicedLayerIs(ds, layers, paint, i);
    }
    forall i, j | 0 <= i < j < |r|
      ensures r[i].end <= r[j].start
    {
      SplicedLayerIs(ds, layers, paint, i);
      SplicedLayerIs(ds, layers, paint, j);
      BeforeIsPrefix(ds, layers, paint, i + 1, j);
      assert EndOf(layers[..j]) <= layers[j].start;
    }
  }

  /** Painting each layer as it was changes nothing. */
  lemma SpliceSame(ds: seq<Drawn>, layers: seq<Layer>, paint: nat -> seq<Drawn>)
    requires Fits(ds, layers)
    requires forall i :: 0 <= i < |layers| ==> ds[layers[i].start..layers[i].end] == Fresh(paint(layers[i].id))
    ensures Spliced(ds, layers, paint) == ds && SplicedLayers(ds, layers, paint) == layers
  {
    SameBefore(ds, layers, paint);
  }

  lemma {:induction false} SameBefore(ds: seq<Drawn>, layers: seq<Layer>, paint: nat -> seq<Drawn>)
    requires Fits(ds, layers)
    requires forall i :: 0 <= i < |layers| ==> ds[layers[i].start..layers[i].end] == Fresh(paint(layers[i].id))
    ensures EndOf(layers) <= |ds| && Before(ds, layers, paint) == ds[..EndOf(layers)]
    ensures SplicedLayers(ds, layers, paint) == layers
  {
    hide Fresh;
    if layers != [] {
      var front, layer := layers[..|layers| - 1], layers[|layers| - 1];
      SameBefore(ds, front, paint);
      ThreeParts(ds, EndOf(front), layer.start, layer.end);
      assert ds[layer.start..layer.end] == Fresh(paint(layer.id));
    }
  }

  lemma ThreeParts<T>(s: seq<T>, a: nat, b: nat, c: nat)
    requires a <= b <= c <= |s|
    ensures s[..a] + s[a..b] + s[b..c] == s[..c] && |s[b..c]| == c - b && |s[..a]| == a
  {
  }

  /** Splicing a spliced list forgets the first painting: only the last counts. */
  lemma SpliceTwice(ds: seq<Drawn>, layers: seq<Layer>, paint: nat -> seq<Drawn>, again: nat -> seq<Drawn>)
    requires Fits(ds, layers)
    ensures var once, moved := Spliced(ds, layers, paint), SplicedLayers(ds, layers, paint);
      Fits(once, moved) && Spliced(once, moved, again) == Spliced(ds, layers, again)
  {
    SplicedFits(ds, layers, paint);
    var once, moved := Spliced(ds, layers, paint), SplicedLayers(ds, layers, paint);
    TwiceBefore(ds, layers, paint, again, |layers|);
    assert moved[..|layers|] == moved && layers[..|layers|] == layers;
    if layers != [] {
      SplicedLayerIs(ds, layers, paint, |layers| - 1);
    }
    assert once[EndOf(moved)..] == ds[EndOf(layers)..];
  }

  lemma {:induction false} TwiceBefore(
    ds: seq<Drawn>, layers: seq<Layer>, paint: nat -> seq<Drawn>, again: nat -> seq<Drawn>, n: nat)
    requires Fits(ds, layers) && n <= |layers|
    requires Fits(Spliced(ds, layers, paint), SplicedLayers(ds, layers, paint))
    ensures Fits(ds, layers[..n]) && Fits(Spliced(ds, layers, paint), SplicedLayers(ds, layers, paint)[..n])
    ensures Before(Spliced(ds, layers, paint), SplicedLayers(ds, layers, paint)[..n], again) == Before(ds, layers[..n], again)
  {
    var once, moved := Spliced(ds, layers, paint), SplicedLayers(ds, layers, paint);
    if n > 0 {
      hide Before, Spliced, SplicedLayers, Fresh;
      TwiceBefore(ds, layers, paint, again, n - 1);
      SpliceStep(ds, layers, again, n - 1);
      SpliceStep(once, moved, again, n - 1);
      GapStays(ds, layers, paint, n - 1);
    }
  }

  /** What lies between two layers is kept. */
  lemma GapStays(ds: seq<Drawn>, layers: seq<Layer>, paint: nat -> seq<Drawn>, i: nat)
    requires Fits(ds, layers) && i < |layers|
    ensures Fits(ds, layers[..i]) && EndOf(layers[..i]) <= layers[i].start <= |ds|
    ensures var moved := SplicedLayers(ds, layers, paint);
      moved[i].id == layers[i].id && EndOf(moved[..i]) <= moved[i].start <= |Spliced(ds, layers, paint)|
      && Spliced(ds, layers, paint)[EndOf(moved[..i])..moved[i].start] == ds[EndOf(layers[..i])..layers[i].start]
  {
    hide Spliced, SplicedLayers, Fresh, Before;
    var once, moved := Spliced(ds, layers, paint), SplicedLayers(ds, layers, paint);
    SplicedLayerIs(ds, layers, paint, i);
    SpliceStep(ds, layers, paint, i);
    if i > 0 {
      SplicedLayerIs(ds, layers, paint, i - 1);
    } else {
      SpliceStart(ds, layers, paint);
      assert layers[..i] == [];
    }
    var upto := Before(ds, layers[..i + 1], paint);
    UptoIsPrefix(ds, layers, paint, i + 1);
    assert EndOf(moved[..i]) == |Before(ds, layers[..i], paint)|;
    assert once[EndOf(moved[..i])..moved[i].start] == upto[EndOf(moved[..i])..moved[i].start];
  }

  lemma UptoIsPrefix(ds: seq<Drawn>, layers: seq<Layer>, paint: nat -> seq<Drawn>, i: nat)
    requires Fits(ds, layers) && i <= |layers|
    ensures Fits(ds, layers[..i]) && Before(ds, layers[..i], paint) <= Spliced(ds, layers, paint)
  {
    BeforeIsPrefix(ds, layers, paint, i, |layers|);
    assert layers[..|layers|] == layers;
  }
}
