# Vim barcode sheet: a Dafny model

The program draws a fixed catalogue of 106 Vim commands onto one A4 page at
300 dpi (2481 x 3507 pixels). The entries go in a grid of 4 columns with an
80 pixel margin. Each entry's cell gets:

- a light border;
- a Code 128 barcode of the command, centred near the top;
- the short label under the barcode;
- the description, wrapped to the cell's inner width.

If an entry's code fails to encode or to scale, the program logs the error
and moves on to the next entry. That cell keeps only its border. Font faces
are memoised by point size in a package-level map, so the embedded Go
Regular font is parsed once per size.

The model has five modules:

- `Catalogue` (`catalogue.dfy`): the `VimOp` record and the 106 entries, in
  order. The Go field `Label` is called `caption`, because `label` is a Dafny
  keyword.
- `Layout` (`layout.dfy`): the page and grid arithmetic, as pure functions
  over `real` and `int`.
  - Go's `int(f)` conversion is `Trunc` (truncation toward zero).
  - `math.Ceil` is `Ceil`.
  - float64 is replaced by exact rationals.
- `Fonts` (`fonts.dfy`): the font cache. It is a class with the map from size
  to face and a parse counter. `GoRegularFace` looks up a size and inserts the
  face on a miss. `LookUpAll` makes a run of such lookups, and `Misses` counts
  the parses that run causes.
- `Render` (`render.dfy`): the per-entry loop.
  - The drawing surface is a class whose field is the display list: a `seq`
    of draw commands (`Border`, `Image`, `Label`, `Desc`). The error log is a
    class holding the logged lines.
  - The Code 128 encoder and the scaler come in as a `Codec` value of two
    functions. Either one may fail.
  - `RenderSheet` computes the layout, and `DrawEntries` runs the loop.
    `DrawEntry` is one pass of the loop body, and it returns early where the
    source `continue`s.
  - `DrawsRange` / `LogRange` are the reference definitions the loop is
    proved against.
- `Sheet` (`sheet.dfy`): the concrete sheet. This is the real catalogue on
  A4: 27 rows, cells of 580.25 x 3347/27 pixels, and a barcode requested at
  464 x 47 pixels.

## Model

| member | source | states |
|---|---|---|
| `Layout.Trunc` | main.go:166-167 | the Go `int(...)` conversion of a float: for non-negative input, the greatest integer not above it; for negative input, the least integer not below it |
| `Layout.Ceil` | main.go:185 | `math.Ceil`: the integer `c` with `c - 1 < r <= c` |
| `Layout.RowCount` | main.go:184-185 | `rows = ceil(n/cols)` is the fewest rows that hold `n` entries: `rows*cols >= n` and `(rows-1)*cols < n` |
| `Layout.RowCountIsIntCeiling` | main.go:185 | the float ceiling equals the integer form `(n + cols - 1) / cols` |
| `Layout.SheetGrid` | main.go:184-193 | the grid has 4 columns and at least one row, and its `cols*rows` slots hold the `n` entries with no row left empty |
| `Layout.ColOf` | main.go:199 | `i % cols` is a column of the grid: `0 <= col < cols` |
| `Layout.RowOf` | main.go:200 | `i / cols` is a non-negative row; that it is below `rows` and that `i == row*cols + col` is `SlotInGrid` |
| `Layout.SlotInGrid` | main.go:198-200 | for every index `i < n`: `col = i % cols < cols`, `row = i / cols < rows`, and `i == row*cols + col` (row-major order) |
| `Layout.SlotsDistinct` | main.go:199-200 | distinct indices get distinct (row, col) slots |
| `Layout.CellAt` | main.go:202-203 | the cell of entry `i` has the grid's cell width and height, and its corner is at `left + col*cellWidth`, `top + row*cellHeight` |
| `Layout.CellInsideMargins` | main.go:187-203 | every cell lies inside `[margin, width-margin] x [margin, height-margin]` whenever the margins fit the page |
| `Layout.CellsDisjoint` | main.go:192-203 | the cells of two different indices have disjoint interiors |
| `Layout.CellsAbutInRow` | main.go:192-203 | the `x` of column `col+1` is the `x` of column `col` plus `cellWidth`, in the same row |
| `Layout.CellsAbutInColumn` | main.go:192-203 | the cell one row down starts at `y + cellHeight`, in the same column |
| `Layout.BarcodeTarget` | main.go:195-196 | the scaler is asked for `floor(0.80*cellWidth) x floor(0.38*cellHeight)`: non-negative, at most the exact product and within 1 pixel of it |
| `Layout.Place` | main.go:205-240 | the label anchor `cx` is the cell's horizontal centre and the barcode leaves equal space on its left and right; the barcode top is 6 below the cell top, the label anchor 8 below the barcode bottom, the description 12 below the label anchor; the description box keeps 6 clear on each side of the cell |
| `Layout.BarcodeInsideCell` | main.go:195-227 | a barcode of the requested width keeps at least `0.1*cellWidth` clear on both sides |
| `Layout.DrawnBarcodeInsideCell` | main.go:220-229 | drawn at the truncated `int(bx)`, a barcode of the requested width still lies within a cell at least 10 pixels wide |
| `Layout.StackOrder` | main.go:228-240 | `by = y + 6`, then the barcode bottom, `labelY = by + h + 8` and `descY = labelY + 12` come strictly in that order; the description box starts at `x + 6`, is `cellWidth - 12` wide and keeps 6 pixels clear on each side |
| `Layout.DescriptionStartsInCell` | main.go:196-238 | with a barcode of the requested height, the description starts above the cell's bottom edge once the cell is at least 42 pixels tall |
| `Fonts.FontCache.constructor` | main.go:157-158 | the cache starts empty and nothing has been parsed |
| `Fonts.FontCache.GoRegularFace` | main.go:253-274 | a hit returns the stored face and leaves map and parse count unchanged; a miss parses once and adds exactly the key `size`, leaving every other key alone; either way the face is the one for `size` and the cache stays consistent |
| `Fonts.NewFace` | main.go:263-267 | a face is requested at the given point size, 72 dpi, with full hinting |
| `Fonts.FontCache.LookUpAll` | main.go:253-274 | a run of `mustGoRegularFace` calls (as for sizes 24, 11 and 8 at main.go:179, 235, 239) leaves every size looked up cached, keeps the cache consistent, and parses the font exactly `Misses` times: once per lookup whose size was not cached by then |
| `Fonts.MissesAreDistinctNewSizes` | main.go:253-272 | `Misses`, the parse count of a run of lookups, is the number of distinct sizes in the run not already cached, so at most once per distinct size |
| `Render.EntryOutcome` | main.go:214-224 | an entry is skipped with the encoder's error exactly when encoding fails; after a successful encoding it is skipped with the scaler's error exactly when scaling to the target fails, and otherwise it is drawn with the scaled bitmap |
| `Render.EntryDraws` | main.go:207-240 | an entry's commands start with its cell border; a skipped entry adds its border and nothing else; a drawn entry adds exactly four commands |
| `Render.EntryLog` | main.go:214-224 | an entry writes no log line exactly when it is drawn, otherwise one line naming its code |
| `Render.EntryShape` | main.go:207-229 | each entry strokes exactly one border, its own cell, and draws one image exactly when encoding and scaling both succeeded |
| `Render.DrawsRange` | main.go:198-241 | the commands of entries `lo..hi`, in index order: at least one (the border) and at most four per entry |
| `Render.LogRange` | main.go:198-224 | the log lines of entries `lo..hi`, in index order: at most one per entry |
| `Render.DrawsSplit` | main.go:198 | the draws of entries `lo..hi` are those of `lo..mid` followed by those of `mid..hi`: entries are drawn in index order |
| `Render.DrawsLocal` | main.go:198-241 | what a range of entries draws depends only on those entries, so a change to another entry, or its failure, leaves them unaffected |
| `Render.SkippedEntry` | main.go:214-224 | when entry `j` fails to encode or scale, the display list is the earlier entries, then `j`'s border alone, then the later entries; exactly one log line is written for it |
| `Render.BordersInOrder` | main.go:198-211 | the borders on the surface are the cells of the entries, one per entry, in index order |
| `Render.DrawnOrLogged` | main.go:214-229 | every entry yields exactly one image or exactly one log line: images plus log lines equal the number of entries |
| `Render.Surface.constructor` | main.go:169 | a new surface holds no draw commands |
| `Render.Surface.Draw` | main.go:210-240 | a drawing call appends its command to the display list |
| `Render.Logger.Log` | main.go:216-222 | a log call appends its line to the log |
| `Render.DrawEntry` | main.go:199-240 | one loop pass appends exactly the entry's commands and log line; the label and description face sizes enter the cache exactly when the entry is drawn |
| `Render.DrawText` | main.go:234-240 | the label at (`cx`, `labelY`) in the 11 point face, then the description wrapped at (`x+6`, `descY`) in the 8 point face; both sizes end up cached |
| `Render.DrawEntries` | main.go:198-241 | the loop over the entries appends, in order, the commands and log lines of every entry on the given grid, and caches the 11 and 8 point faces exactly when some entry was drawn |
| `Render.RenderSheet` | main.go:166-241 | the whole run appends, in order, the commands and log lines of every entry on the A4 grid, and caches the 11 and 8 point faces exactly when some entry was drawn |
| `Sheet.CatalogueLayout` | main.go:29-196 | the catalogue has 106 entries; A4 is 2481 x 3507 pixels; the grid is 4 x 27 with cells of 580.25 x 3347/27 pixels; the barcode is requested at 464 x 47 pixels; cell 0 is at the margin corner |
| `Sheet.CatalogueCellFits` | main.go:187-240 | on the real sheet, every cell lies inside the margins, its barcode lies inside it horizontally, and barcode, label and description are anchored one below the other inside it |
| `Sheet.CatalogueBordersInOrder` | main.go:198-211 | whatever the encoder does, the real sheet gets 106 borders, the `i`-th being cell `i` |

## Left out

- Code 128 symbology (`code128.Encode`) and `barcode.Scale`: these are library code. The model takes them as two functions of a `Codec` value that may fail. So the model proves nothing about the bars themselves, nor that the scaler returns the requested size. The placement lemmas take the image size as a parameter instead.
- The drawing context: stroking, colours, line width, the white background, blitting, and the text shaping and wrapping done by `DrawStringAnchored` and `DrawStringWrapped`. The display list records what is drawn and where, not the pixels.
- The title line (main.go:177-181): it is a single decorative draw. `RenderSheet` starts after it. Its `mustGoRegularFace(24)` lookup is modelled only as one lookup in a `LookUpAll` run.
- The text anchors and alignment: the label is always anchored at (0.5, 0), and the description at (0, 0) with centre alignment (`gg.AlignCenter`). The `Label` and `Desc` commands do not record them, because they never vary.
- Font parsing and face creation (`opentype.Parse`, `opentype.NewFace`): a face is the value of its options (size, 72 dpi, full hinting).
- The `log.Fatalf` paths, which end the process. The model's cache lookup always succeeds.
- `dc.SavePNG` and `fmt.Println`: file and console output.
- IEEE float64 rounding: all geometry is exact rational arithmetic.
- The empty catalogue: `RenderSheet` requires at least one entry. With none, the source computes `rows = 0` and divides by it. It has no error path for this, and the model does not invent one. Likewise, no check rejects margins that leave non-positive cells. The source has none, so the containment lemmas simply require the margins to fit the page.
