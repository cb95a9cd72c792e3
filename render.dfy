/** The per-entry render loop: each catalogue entry draws its cell border, then,
    if its code encodes and scales, its barcode, label and description, onto one
    shared surface. The surface is a display list of draw commands. */
module Render {
  import opened Catalogue
  import opened Layout
  import opened Fonts

  datatype Result<T> = Ok(value: T) | Err(error: string)

  /** A barcode raster. Only its pixel bounds matter to the layout. */
  datatype Bitmap = Bitmap(width: int, height: int, modules: seq<bool>)

  /** The Code 128 encoder and the scaler. They are library code, so the model
      takes them as given functions. Either one may fail. */
  datatype Codec = Codec(
    encode: string -> Result<Bitmap>,
    scale: (Bitmap, int, int) -> Result<Bitmap>)

  const LabelSize: real := 11.0
  const DescSize: real := 8.0
  const DescLineSpacing: real := 1.3

  /** What one drawing call puts on the surface. */
  datatype DrawCmd =
    | Border(cell: Rect)
    | Image(bitmap: Bitmap, px: int, py: int)
    | Label(text: string, centreX: real, y: real, face: Face)
    | Desc(text: string, x: real, y: real, width: real, lineSpacing: real, face: Face)

  /** A line written to the error log when an entry is skipped. */
  datatype LogLine = EncodeError(code: string, error: string) | ScaleError(code: string, error: string)

  /** What happened to one entry. */
  datatype Outcome = Drawn(bitmap: Bitmap) | EncodeFailed(error: string) | ScaleFailed(error: string)

  /** An entry is drawn exactly when its code encodes and the raw barcode scales
      to `target`; otherwise the first failure and its error are recorded. */
  function EntryOutcome(codec: Codec, op: VimOp, target: (int, int)): (r: Outcome)
    ensures r.EncodeFailed? <==> codec.encode(op.code).Err?
    ensures r.EncodeFailed? ==> r.error == codec.encode(op.code).error
    ensures codec.encode(op.code).Ok? ==>
      var scaled := codec.scale(codec.encode(op.code).value, target.0, target.1);
      (r.ScaleFailed? <==> scaled.Err?) &&
      (r.ScaleFailed? ==> r.error == scaled.error) &&
      (r.Drawn? <==> scaled.Ok?) &&
      (r.Drawn? ==> r.bitmap == scaled.value)
  {
    match codec.encode(op.code)
    case Err(e) => EncodeFailed(e)
    case Ok(raw) =>
      match codec.scale(raw, target.0, target.1)
      case Err(e) => ScaleFailed(e)
      case Ok(scaled) => Drawn(scaled)
  }

  /** The commands an entry adds to the surface, given its cell and what became
      of its barcode. The border always comes first; a skipped entry adds its
      border and nothing else. */
  function EntryDraws(cell: Rect, op: VimOp, outcome: Outcome): (cmds: seq<DrawCmd>)
    ensures |cmds| > 0 && cmds[0] == Border(cell)
    ensures outcome.Drawn? <==> |cmds| == 4
    ensures !outcome.Drawn? <==> cmds == [Border(cell)]
  {
    match outcome
    case Drawn(scaled) =>
      var p := Place(cell, scaled.width, scaled.height);
      [Border(cell),
       Image(scaled, Trunc(p.imageX), Trunc(p.imageY)),
       Label(op.caption, p.centreX, p.labelY, NewFace(LabelSize)),
       Desc(op.description, p.descX, p.descY, p.descWidth, DescLineSpacing, NewFace(DescSize))]
    case _ => [Border(cell)]
  }

  /** The commands entry `k` of `ops` adds. */
  function EntryAt(g: Grid, codec: Codec, ops: seq<VimOp>, k: nat): seq<DrawCmd>
    requires g.cols > 0 && k < |ops|
  {
    EntryDraws(CellAt(g, k), ops[k], EntryOutcome(codec, ops[k], BarcodeTarget(g)))
  }

  /** The line entry `op` adds to the error log: one line if it is skipped, none if drawn. */
  function EntryLog(codec: Codec, op: VimOp, target: (int, int)): (lines: seq<LogLine>)
    ensures EntryOutcome(codec, op, target).Drawn? <==> lines == []
    ensures |lines| <= 1
    ensures forall k :: 0 <= k < |lines| ==> lines[k].code == op.code
  {
    match EntryOutcome(codec, op, target)
    case Drawn(_) => []
    case EncodeFailed(e) => [EncodeError(op.code, e)]
    case ScaleFailed(e) => [ScaleError(op.code, e)]
  }

  /** The commands entries `lo` to `hi - 1` add, in index order. */
  function DrawsRange(g: Grid, codec: Codec, ops: seq<VimOp>, lo: nat, hi: nat): (cmds: seq<DrawCmd>)
    requires g.cols > 0 && lo <= hi <= |ops|
    ensures hi - lo <= |cmds| <= 4 * (hi - lo)
    decreases hi
  {
    if lo == hi then []
    else DrawsRange(g, codec, ops, lo, hi - 1) + EntryAt(g, codec, ops, hi - 1)
  }

  /** The log lines entries `lo` to `hi - 1` write, in index order. */
  function LogRange(codec: Codec, ops: seq<VimOp>, target: (int, int), lo: nat, hi: nat): (lines: seq<LogLine>)
    requires lo <= hi <= |ops|
    ensures |lines| <= hi - lo
    decreases hi
  {
    if lo == hi then []
    else LogRange(codec, ops, target, lo, hi - 1) + EntryLog(codec, ops[hi - 1], target)
  }

  /** Some entry before `k` was drawn, and so asked for the label and description faces. */
  predicate AnyDrawn(codec: Codec, ops: seq<VimOp>, target: (int, int), k: nat)
    requires k <= |ops|
  {
    exists j :: 0 <= j < k && EntryOutcome(codec, ops[j], target).Drawn?
  }

  /** Drawing entries `lo..hi` is drawing `lo..mid`, then `mid..hi`. */
  lemma {:induction false} DrawsSplit(g: Grid, codec: Codec, ops: seq<VimOp>, lo: nat, mid: nat, hi: nat)
    requires g.cols > 0 && lo <= mid <= hi <= |ops|
    ensures DrawsRange(g, codec, ops, lo, hi) ==
      DrawsRange(g, codec, ops, lo, mid) + DrawsRange(g, codec, ops, mid, hi)
    decreases hi
  {
    if mid < hi {
      DrawsSplit(g, codec, ops, lo, mid, hi - 1);
    }
  }

  lemma {:induction false} LogSplit(codec: Codec, ops: seq<VimOp>, target: (int, int), lo: nat, mid: nat, hi: nat)
    requires lo <= mid <= hi <= |ops|
    ensures LogRange(codec, ops, target, lo, hi) ==
      LogRange(codec, ops, target, lo, mid) + LogRange(codec, ops, target, mid, hi)
    decreases hi
  {
    if mid < hi {
      LogSplit(codec, ops, target, lo, mid, hi - 1);
    }
  }

  /** What entries `lo..hi` draw depends on those entries alone: a change to any
      other entry, or its failure, does not affect them. */
  lemma {:induction false} DrawsLocal(g: Grid, codec: Codec, ops: seq<VimOp>, ops': seq<VimOp>, lo: nat, hi: nat)
    requires g.cols > 0 && lo <= hi <= |ops| && hi <= |ops'|
    requires ops[lo..hi] == ops'[lo..hi]
    ensures DrawsRange(g, codec, ops, lo, hi) == DrawsRange(g, codec, ops', lo, hi)
    decreases hi
  {
    if lo < hi {
      assert ops[hi - 1] == ops[lo..hi][hi - 1 - lo] == ops'[hi - 1];
      assert ops[lo..hi - 1] == ops[lo..hi][..hi - 1 - lo];
      assert ops'[lo..hi - 1] == ops'[lo..hi][..hi - 1 - lo];
      DrawsLocal(g, codec, ops, ops', lo, hi - 1);
    }
  }

  /** A skipped entry leaves only its border on the surface and one line in the
      log; the entries before and after it draw exactly what they would anyway. */
  lemma {:induction false} SkippedEntry(g: Grid, codec: Codec, ops: seq<VimOp>, j: nat)
    requires g.cols > 0 && j < |ops|
    requires !EntryOutcome(codec, ops[j], BarcodeTarget(g)).Drawn?
    ensures DrawsRange(g, codec, ops, 0, |ops|) ==
      DrawsRange(g, codec, ops, 0, j) + [Border(CellAt(g, j))] + DrawsRange(g, codec, ops, j + 1, |ops|)
    ensures LogRange(codec, ops, BarcodeTarget(g), 0, |ops|) ==
      LogRange(codec, ops, BarcodeTarget(g), 0, j) + EntryLog(codec, ops[j], BarcodeTarget(g)) +
      LogRange(codec, ops, BarcodeTarget(g), j + 1, |ops|)
    ensures |EntryLog(codec, ops[j], BarcodeTarget(g))| == 1
  {
    DrawsAround(g, codec, ops, j);
    LogAround(codec, ops, BarcodeTarget(g), j);
  }

  /** The draws of all entries are those before `j`, then `j`'s, then those after. */
  lemma DrawsAround(g: Grid, codec: Codec, ops: seq<VimOp>, j: nat)
    requires g.cols > 0 && j < |ops|
    ensures DrawsRange(g, codec, ops, 0, |ops|) ==
      DrawsRange(g, codec, ops, 0, j) + EntryAt(g, codec, ops, j) + DrawsRange(g, codec, ops, j + 1, |ops|)
  {
    var before, entry, after :=
      DrawsRange(g, codec, ops, 0, j), EntryAt(g, codec, ops, j), DrawsRange(g, codec, ops, j + 1, |ops|);
    DrawsSplit(g, codec, ops, 0, j, |ops|);
    DrawsSplit(g, codec, ops, j, j + 1, |ops|);
    assert DrawsRange(g, codec, ops, j, j) == [];
    assert DrawsRange(g, codec, ops, j, j + 1) == entry;
    assert before + (entry + after) == before + entry + after;
  }

  /** The log of all entries is that of those before `j`, then `j`'s, then those after. */
  lemma LogAround(codec: Codec, ops: seq<VimOp>, target: (int, int), j: nat)
    requires j < |ops|
    ensures LogRange(codec, ops, target, 0, |ops|) ==
      LogRange(codec, ops, target, 0, j) + EntryLog(codec, ops[j], target) +
      LogRange(codec, ops, target, j + 1, |ops|)
  {
    var before, entry, after :=
      LogRange(codec, ops, target, 0, j), EntryLog(codec, ops[j], target), LogRange(codec, ops, target, j + 1, |ops|);
    LogSplit(codec, ops, target, 0, j, |ops|);
    LogSplit(codec, ops, target, j, j + 1, |ops|);
    assert LogRange(codec, ops, target, j, j) == [];
    assert LogRange(codec, ops, target, j, j + 1) == entry;
    assert before + (entry + after) == before + entry + after;
  }

  /** The cell borders in a list of draw commands, in order. */
  function Borders(cmds: seq<DrawCmd>): seq<Rect>
    decreases cmds
  {
    if cmds == [] then []
    else (if cmds[0].Border? then [cmds[0].cell] else []) + Borders(cmds[1..])
  }

  lemma {:induction false} BordersAppend(a: seq<DrawCmd>, b: seq<DrawCmd>)
    ensures Borders(a + b) == Borders(a) + Borders(b)
    decreases a
  {
    if a != [] {
      assert (a + b)[1..] == a[1..] + b;
      BordersAppend(a[1..], b);
    } else {
      assert a + b == b;
    }
  }

  /** The number of images in a list of draw commands. */
  function ImageCount(cmds: seq<DrawCmd>): nat
    decreases cmds
  {
    if cmds == [] then 0
    else (if cmds[0].Image? then 1 else 0) + ImageCount(cmds[1..])
  }

  lemma {:induction false} ImageCountAppend(a: seq<DrawCmd>, b: seq<DrawCmd>)
    ensures ImageCount(a + b) == ImageCount(a) + ImageCount(b)
    decreases a
  {
    if a != [] {
      assert (a + b)[1..] == a[1..] + b;
      ImageCountAppend(a[1..], b);
    } else {
      assert a + b == b;
    }
  }

  /** One entry contributes exactly one border, its own cell, and one image
      exactly when its barcode was made. */
  lemma EntryShape(cell: Rect, op: VimOp, outcome: Outcome)
    ensures Borders(EntryDraws(cell, op, outcome)) == [cell]
    ensures ImageCount(EntryDraws(cell, op, outcome)) == if outcome.Drawn? then 1 else 0
  {
    var e := EntryDraws(cell, op, outcome);
    if outcome.Drawn? {
      var last := [e[3]];
      assert last[1..] == [];
      assert Borders(last) == [] && ImageCount(last) == 0;
      assert e[2..] == [e[2]] + last && e[2..][1..] == last;
      assert Borders(e[2..]) == [] && ImageCount(e[2..]) == 0;
      assert e[1..][1..] == e[2..];
    } else {
      assert e[1..] == [];
    }
  }

  /** Every entry is visited once, in index order: the borders drawn are exactly
      the cells of entries `lo..hi`, one each, in that order. */
  lemma {:induction false} BordersInOrder(g: Grid, codec: Codec, ops: seq<VimOp>, lo: nat, hi: nat)
    requires g.cols > 0 && lo <= hi <= |ops|
    ensures |Borders(DrawsRange(g, codec, ops, lo, hi))| == hi - lo
    ensures forall k :: lo <= k < hi ==> Borders(DrawsRange(g, codec, ops, lo, hi))[k - lo] == CellAt(g, k)
    decreases hi
  {
    if lo < hi {
      BordersInOrder(g, codec, ops, lo, hi - 1);
      var k := hi - 1;
      EntryShape(CellAt(g, k), ops[k], EntryOutcome(codec, ops[k], BarcodeTarget(g)));
      BordersAppend(DrawsRange(g, codec, ops, lo, k), EntryAt(g, codec, ops, k));
    } else {
      assert Borders([]) == [];
    }
  }

  /** Each entry ends up either drawn, with exactly one image, or skipped, with
      exactly one log line, and never both. */
  lemma {:induction false} DrawnOrLogged(g: Grid, codec: Codec, ops: seq<VimOp>, lo: nat, hi: nat)
    requires g.cols > 0 && lo <= hi <= |ops|
    ensures ImageCount(DrawsRange(g, codec, ops, lo, hi)) + |LogRange(codec, ops, BarcodeTarget(g), lo, hi)| == hi - lo
    decreases hi
  {
    if lo < hi {
      DrawnOrLogged(g, codec, ops, lo, hi - 1);
      var k := hi - 1;
      var outcome := EntryOutcome(codec, ops[k], BarcodeTarget(g));
      EntryShape(CellAt(g, k), ops[k], outcome);
      ImageCountAppend(DrawsRange(g, codec, ops, lo, k), EntryAt(g, codec, ops, k));
      assert |EntryLog(codec, ops[k], BarcodeTarget(g))| == if outcome.Drawn? then 0 else 1;
    } else {
      assert ImageCount([]) == 0;
    }
  }

  /** The drawing surface: the commands drawn so far, in order. */
  class Surface {
    var commands: seq<DrawCmd>

    constructor ()
      ensures commands == []
    {
      commands := [];
    }

    method Draw(cmd: DrawCmd)
      modifies this
      ensures commands == old(commands) + [cmd]
    {
      commands := commands + [cmd];
    }
  }

  /** The error log: the lines written so far, in order. */
  class Logger {
    var lines: seq<LogLine>

    constructor ()
      ensures lines == []
    {
      lines := [];
    }

    method Log(line: LogLine)
      modifies this
      ensures lines == old(lines) + [line]
    {
      lines := lines + [line];
    }
  }

  /** The commands the whole catalogue `ops` draws on an A4 sheet. */
  function SheetDraws(codec: Codec, ops: seq<VimOp>): seq<DrawCmd>
    requires |ops| > 0
  {
    DrawsRange(SheetGrid(A4, |ops|), codec, ops, 0, |ops|)
  }

  /** The log lines the whole catalogue `ops` writes. */
  function SheetLog(codec: Codec, ops: seq<VimOp>): seq<LogLine>
    requires |ops| > 0
  {
    LogRange(codec, ops, BarcodeTarget(SheetGrid(A4, |ops|)), 0, |ops|)
  }

  lemma AnyDrawnStep(codec: Codec, ops: seq<VimOp>, target: (int, int), k: nat)
    requires k < |ops|
    ensures AnyDrawn(codec, ops, target, k + 1) <==>
      AnyDrawn(codec, ops, target, k) || EntryOutcome(codec, ops[k], target).Drawn?
  {
    if EntryOutcome(codec, ops[k], target).Drawn? {
      assert 0 <= k < k + 1;
    }
  }

  /** Entry `k` extends the draws and the log of the entries before it. */
  lemma RangeStep(g: Grid, codec: Codec, ops: seq<VimOp>, k: nat)
    requires g.cols > 0 && k < |ops|
    ensures DrawsRange(g, codec, ops, 0, k + 1) == DrawsRange(g, codec, ops, 0, k) +
      EntryDraws(CellAt(g, k), ops[k], EntryOutcome(codec, ops[k], BarcodeTarget(g)))
    ensures LogRange(codec, ops, BarcodeTarget(g), 0, k + 1) ==
      LogRange(codec, ops, BarcodeTarget(g), 0, k) + EntryLog(codec, ops[k], BarcodeTarget(g))
  {
  }

  /** The loop step of `DrawEntries`: appending entry `i`'s commands, log line
      and faces to what entries `0..i` produced gives what entries `0..i+1` produce. */
  lemma EntriesStep(g: Grid, codec: Codec, ops: seq<VimOp>, i: nat,
                    cmds0: seq<DrawCmd>, lines0: seq<LogLine>, keys0: set<real>)
    requires g.cols > 0 && i < |ops|
    ensures cmds0 + DrawsRange(g, codec, ops, 0, i) +
      EntryDraws(CellAt(g, i), ops[i], EntryOutcome(codec, ops[i], BarcodeTarget(g))) ==
      cmds0 + DrawsRange(g, codec, ops, 0, i + 1)
    ensures lines0 + LogRange(codec, ops, BarcodeTarget(g), 0, i) + EntryLog(codec, ops[i], BarcodeTarget(g)) ==
      lines0 + LogRange(codec, ops, BarcodeTarget(g), 0, i + 1)
    ensures keys0 + (if AnyDrawn(codec, ops, BarcodeTarget(g), i) then {LabelSize, DescSize} else {}) +
      (if EntryOutcome(codec, ops[i], BarcodeTarget(g)).Drawn? then {LabelSize, DescSize} else {}) ==
      keys0 + (if AnyDrawn(codec, ops, BarcodeTarget(g), i + 1) then {LabelSize, DescSize} else {})
  {
    RangeStep(g, codec, ops, i);
    AnyDrawnStep(codec, ops, BarcodeTarget(g), i);
  }

  /** One pass of the loop body: the border, then the barcode, label and
      description, or a log line and nothing more if encoding or scaling fails. */
  method DrawEntry(dc: Surface, logger: Logger, fonts: FontCache, codec: Codec, g: Grid, i: nat, op: VimOp)
    requires g.cols > 0 && fonts.Valid()
    modifies dc, logger, fonts
    ensures dc.commands == old(dc.commands) +
      EntryDraws(CellAt(g, i), op, EntryOutcome(codec, op, BarcodeTarget(g)))
    ensures logger.lines == old(logger.lines) + EntryLog(codec, op, BarcodeTarget(g))
    ensures fonts.Valid()
    ensures fonts.faces.Keys == old(fonts.faces.Keys) +
      (if EntryOutcome(codec, op, BarcodeTarget(g)).Drawn? then {LabelSize, DescSize} else {})
  {
    var target := BarcodeTarget(g);
    var cell := CellAt(g, i);
    dc.Draw(Border(cell));
    var raw := codec.encode(op.code);
    if raw.Err? {
      logger.Log(EncodeError(op.code, raw.error));
      return;
    }
    var scaled := codec.scale(raw.value, target.0, target.1);
    if scaled.Err? {
      logger.Log(ScaleError(op.code, scaled.error));
      return;
    }
    var img := scaled.value;
    var p := Place(cell, img.width, img.height);
    var image := Image(img, Trunc(p.imageX), Trunc(p.imageY));
    dc.Draw(image);
    DrawText(dc, fonts, op, p);
    assert EntryOutcome(codec, op, target) == Drawn(img);
  }

  /** The text under the barcode: the label in 11 point type, then the wrapped
      description in 8 point type, each face taken from the cache. */
  method DrawText(dc: Surface, fonts: FontCache, op: VimOp, p: Placement)
    requires fonts.Valid()
    modifies dc, fonts
    ensures dc.commands == old(dc.commands) + [
      Label(op.caption, p.centreX, p.labelY, NewFace(LabelSize)),
      Desc(op.description, p.descX, p.descY, p.descWidth, DescLineSpacing, NewFace(DescSize))]
    ensures fonts.Valid()
    ensures fonts.faces.Keys == old(fonts.faces.Keys) + {LabelSize, DescSize}
  {
    var labelFace := fonts.GoRegularFace(LabelSize);
    dc.Draw(Label(op.caption, p.centreX, p.labelY, labelFace));
    var descFace := fonts.GoRegularFace(DescSize);
    dc.Draw(Desc(op.description, p.descX, p.descY, p.descWidth, DescLineSpacing, descFace));
  }

  /** Draws every entry of `ops` on grid `g` in order, logging and skipping the
      ones whose code fails to encode or scale. */
  method DrawEntries(dc: Surface, logger: Logger, fonts: FontCache, codec: Codec, g: Grid, ops: seq<VimOp>)
    requires g.cols > 0 && fonts.Valid()
    modifies dc, logger, fonts
    ensures dc.commands == old(dc.commands) + DrawsRange(g, codec, ops, 0, |ops|)
    ensures logger.lines == old(logger.lines) + LogRange(codec, ops, BarcodeTarget(g), 0, |ops|)
    ensures fonts.Valid()
    ensures fonts.faces.Keys == old(fonts.faces.Keys) +
      (if AnyDrawn(codec, ops, BarcodeTarget(g), |ops|) then {LabelSize, DescSize} else {})
  {
    var target := BarcodeTarget(g);
    for i := 0 to |ops|
      invariant dc.commands == old(dc.commands) + DrawsRange(g, codec, ops, 0, i)
      invariant logger.lines == old(logger.lines) + LogRange(codec, ops, target, 0, i)
      invariant fonts.Valid()
      invariant fonts.faces.Keys == old(fonts.faces.Keys) +
        (if AnyDrawn(codec, ops, target, i) then {LabelSize, DescSize} else {})
    {
      DrawEntry(dc, logger, fonts, codec, g, i, ops[i]);
      EntriesStep(g, codec, ops, i, old(dc.commands), old(logger.lines), old(fonts.faces.Keys));
    }
  }

  /** Lays the catalogue out on an A4 sheet and draws every entry in order,
      logging and skipping the ones whose code fails to encode or scale. */
  method RenderSheet(dc: Surface, logger: Logger, fonts: FontCache, codec: Codec, ops: seq<VimOp>)
    requires |ops| > 0
    requires fonts.Valid()
    modifies dc, logger, fonts
    ensures dc.commands == old(dc.commands) + SheetDraws(codec, ops)
    ensures logger.lines == old(logger.lines) + SheetLog(codec, ops)
    ensures fonts.Valid()
    ensures fonts.faces.Keys == old(fonts.faces.Keys) +
      (if AnyDrawn(codec, ops, BarcodeTarget(SheetGrid(A4, |ops|)), |ops|) then {LabelSize, DescSize} else {})
  {
    var g := SheetGrid(A4, |ops|);
    DrawEntries(dc, logger, fonts, codec, g, ops);
  }
}
