# Prickle plot geometry in Dafny

A prickle plot draws a rows x columns table as a grid. Every cell that is not null gets a dot at its grid position (column, row). Every 2-D vector held by a list-like cell gets a "prickle": a line segment from that dot, displaced by the vector minus a shared zero point. A cell that is neither null nor list-like is skipped with a warning. The `Prickle` class in `prickle/prickle.py` computes all of this and hands it to matplotlib. This project models what the class hands over, as data:

- the dots;
- the prickle segments, in the order they are appended;
- the warnings;
- the keyword arguments of the two rendering calls, with their style defaults;
- the ticks and axis limits.

It also models the one piece of state that the object keeps between calls. The constructor builds a one-shot iterator over the cells. The first `plot_prickles` drains it, so every later call on the same object draws nothing.

Files:

- `grid.dfy` (module `Grid`) holds the table. Each cell is `Null | Vectors(seq<Point>) | Scalar`. The module also defines the row-major order in which `itertools.product(range(nrows), range(ncols))` visits the cells.
- `style.dfy` (module `Style`) holds `dict.pop` with a default, and the keyword merge of a call `f(k=v, **rest)`. That merge fails when a key is given twice. The module also resolves the style defaults `s=10`, `c='black'`, `linewidths=1` and `colors='black'`. The `LineCollection` call also names `segments=` itself, so a caller's `segments` keyword makes it fail.
- `geometry.dfy` (module `Geometry`) defines the segments, warnings and dots of a sequence of visited cells. Its lemmas cover order, counts and each cell's contribution.
- `prickle.dfy` (module `PricklePlot`) holds the class `Prickle`. The class has immutable `samples`, `zero`, `nrows` and `ncols`, and a mutable `ij` field: the cells the iterator has still to yield. `PlotPrickles` is a loop proved against `Geometry.SegmentsOf` and `Geometry.WarningsOf`. The module also holds `PlotDots`, `Ticks`, `Limits`, `Plot` and the worked 2 x 2 example.

Where the code and its prose description differ, the model follows the code:

- Dots come from `notnull()` (prickle/prickle.py:40). A list-like cell holding no vectors (a (0, 2) array; see "## Left out" for other empty cells) gets a dot, and so does an odd non-null element. The doc comment says "elements that have m > 0". In the 2 x 2 example with cell (1, 1) = 5, there are therefore three dots, at (0, 0), (0, 1) and (1, 1), not two (`PricklePlot.ExampleDots`).
- Each list-like element is read as a sequence of (x, y) pairs: `vector[0]` and `vector[1]` of each row (prickle/prickle.py:68-70). It is not read as the [2, m] array that the doc comment describes.
- The warning names the positional indices `i, j` (prickle/prickle.py:74-75), even though its text says `samples.loc`. The model records `OddElement(i, j)`.

## Model

| member | source | states |
|---|---|---|
| Grid.Product | prickle/prickle.py:25-27 | `product(range(nrows), range(ncols))` has nrows * ncols entries, and an index occurs in it exactly when its row is below nrows and its column below ncols |
| Grid.ProductRowMajor | prickle/prickle.py:27 | the product visits cells in strictly increasing row-major order: all columns of row 0, then row 1, and so on, with no cell twice |
| Geometry.Cells | prickle/prickle.py:23-27 | the table's iteration order is in the grid, row-major, and covers every cell |
| Geometry.PrickleSegment | prickle/prickle.py:65-71 | a prickle starts at the cell's grid position (j, i) and its displacement is vector - zero in each coordinate |
| Geometry.SegmentsOfAppend | prickle/prickle.py:59-71 | visiting cells a and then cells b appends b's segments after a's |
| Geometry.SegmentsBlock | prickle/prickle.py:59-71 | the segments of the n-th visited cell form one block in vector order, after those of all earlier cells and before those of all later ones |
| Geometry.SegmentCount | prickle/prickle.py:63-71 | the number of segments is the total number of vectors held by list-like cells |
| Geometry.CellSegmentsStartAt | prickle/prickle.py:66-71 | every prickle of a cell starts at that cell's grid position, so another cell's position is the start of none of them |
| Geometry.SegmentsFromCell | prickle/prickle.py:59-71 | over cells visited without repeats, the segments starting at cell p's position are exactly p's prickles in vector order if p is visited, else none |
| Geometry.WarningsFromCell | prickle/prickle.py:63-75 | over cells visited without repeats, the warning for p occurs once if p is visited and odd, and otherwise never |
| Geometry.WarningsAreOddCells | prickle/prickle.py:73-75 | every warning names a visited cell that is non-null and not list-like |
| Geometry.DotsFromCell | prickle/prickle.py:40 | over cells visited without repeats, p's grid position is a dot once if p is visited and non-null, and otherwise never |
| Geometry.DotsAreNonNullCells | prickle/prickle.py:40 | every dot is the grid position of a visited non-null cell |
| Geometry.PosOrder | prickle/prickle.py:40-43 | a cell precedes another in row-major order exactly when its dot (column, row) precedes the other's, row first |
| Geometry.DotsRowMajor | prickle/prickle.py:40-43 | dots come out in strictly increasing (row, column) order when cells are visited in row-major order |
| Geometry.PricklesOfCell | prickle/prickle.py:59-71 | for each cell of the whole table, the segments starting at (j, i) are one per vector of a list-like cell, in order, ending at (j + x - zero.x, i + y - zero.y), and there are none for a null or odd cell |
| Geometry.WarningOfCell | prickle/prickle.py:59-75 | over the whole table, exactly one warning names an odd cell and none names any other cell |
| Style.Pop | prickle/prickle.py:41-42 | `kwds.pop(key, default)` yields the caller's value if given, else the default, and removes only that key |
| Style.Call | prickle/prickle.py:43 | a call with named keywords plus `**rest` succeeds exactly when no key is given twice, and then receives every named and every passed-through value |
| Style.StyleCall | prickle/prickle.py:78-81 | after popping two style keys, a call that also names some data keys fails exactly when the caller passed one of those data keys; otherwise it receives the data, every caller value, and the defaults for missing style keys |
| Style.ScatterKeywords | prickle/prickle.py:41-43 | the scatter receives every caller keyword, `s` = 10 unless given, and `c` = black unless given |
| Style.LineKeywords | prickle/prickle.py:78-81 | the `LineCollection` call fails exactly when the caller passed `segments`; otherwise it receives the segments, every caller keyword, `linewidths` = 1 unless given, and `colors` = black unless given |
| Style.PassingWithoutPopFails | prickle/prickle.py:41-43 | naming a style key that the caller also passed, without popping it, would give the call that key twice |
| PricklePlot.PlotDots | prickle/prickle.py:29-44 | one dot at (column, row) for each non-null cell whatever it holds, none for null cells, none elsewhere, in strictly row-major order, with the scatter's resolved keywords |
| PricklePlot.Ticks | prickle/prickle.py:96-97 | ticks sit at every index 0 .. n - 1 |
| PricklePlot.Limits | prickle/prickle.py:101-102 | the axis range leaves a margin of `pad` before index 0 and after index n - 1, so with pad >= 0 every tick lies inside it (strictly inside for pad > 0) |
| PricklePlot.DotsInsideLimits | prickle/prickle.py:40-43 | with pad >= 0 every dot lies within both axis ranges |
| PricklePlot.Prickle.constructor | prickle/prickle.py:20-27 | records the table, zero and shape, and makes the iterator over every cell in row-major order |
| PricklePlot.Prickle.PlotPrickles | prickle/prickle.py:46-83 | drains the remaining cells and issues the warnings of the cells it had still to visit, in order, whether or not it then fails; it fails exactly when the caller passed `segments`, and otherwise the lines hold exactly those cells' segments, in order, with the resolved style keywords |
| PricklePlot.Prickle.CellPrickles | prickle/prickle.py:65-71 | the inner loop over one list-like cell's vectors appends exactly that cell's prickles, in vector order |
| PricklePlot.Prickle.Plot | prickle/prickle.py:85-103 | drains the remaining cells and issues their warnings; fails exactly when the prickle keywords hold `segments`; otherwise dots of the whole table, the prickles of the remaining cells, ticks at every column and row index, aspect 1, and limits (-pad, n + pad - 1), which are (-1, n) with the default pad |
| PricklePlot.PlotPricklesTwice | prickle/prickle.py:27 | on one object the first `plot_prickles` warns about every odd cell of the table and, unless it fails on `segments`, draws all its prickles; a second one warns about nothing and draws nothing |
| PricklePlot.ExampleDots | prickle/prickle.py:40 | in the 2 x 2 example the dots are (0, 0), (0, 1) and (1, 1) |
| PricklePlot.ExampleSegments | prickle/prickle.py:59-71 | in the 2 x 2 example, for any zero point z, the prickles are (0,0)->(1,1), (0,1)->(2,1) and (0,1)->(0,3) with each end shifted by -z, in that order |
| PricklePlot.ExampleWarnings | prickle/prickle.py:73-75 | in the 2 x 2 example the one warning names row 1, column 1 |

## Left out

- All matplotlib effects are not modelled: `plt.gca`, adding the scatter and the line collection to the global current axes, tick labels and the rendering itself. The model returns the values handed to those calls. Artists piling up on a shared axes over repeated calls is not modelled either.
- Tick labels are left out. They come from the table's row and column labels and are only passed through.
- pandas and numpy semantics (`iloc`, `notnull`, `np.argwhere`, broadcasting of `np.array(element) - zero.values`) are not modelled. They are replaced by the tagged cell type and explicit arithmetic on pairs.
- Floating point is modelled as exact `real` arithmetic. Rounding and NaN inside vectors are not modelled.
- String cells and vectors without exactly two coordinates are left out. In the source a string passes the length check and numpy then fails. Every vector here has exactly two coordinates.
- Warning mechanics and message text are left out. The `warnings` module, its filtering and the formatted message are reduced to the record `OddElement(i, j)`.
- Keyword values are modelled only as numbers or text. Other values (arrays, colour tuples) are not modelled.
- An exception part-way through `plot_prickles` is not modelled. In the source such an error from numpy leaves the iterator partly consumed; here every visited cell is well-formed, so the loop always drains the iterator.
- Empty list-like cells other than a (0, 2) array are left out. An empty list or tuple has shape (0,), and an empty [2, 0] array has shape (2, 0). Neither broadcasts against `zero` at prickle/prickle.py:65, so numpy raises ValueError part-way through `plot_prickles`. Only a (0, 2) array behaves like `Vectors([])`.
- `zero` is modelled as a pair. The source reads `self.zero.values` (prickle/prickle.py:65), so it needs a pandas object. A tuple or numpy array raises AttributeError at the first list-like cell, and that failure is not modelled.
- Aliasing of `samples` is not modelled. The object keeps a reference to the caller's table (prickle/prickle.py:21), so changing the table after construction changes what `plot_dots` and `plot_prickles` read, while the shape and the iterator stay fixed. Here `samples` is an immutable value.
- PricklePlot.PlotDots: the scatter is given `x` and `y` by position (prickle/prickle.py:43). A caller keyword `x` or `y` would collide with them inside matplotlib; that depends on matplotlib's signature and is not modelled.
- PricklePlot.Prickle.Plot: when it fails on `segments`, the source has already added the scatter to the axes and drained the iterator. The model returns no axes and reports only the drained iterator and the warnings.
- PricklePlot.Prickle.PlotPrickles: the warnings it returns are the record of those issued during the loop. In the source they are issued before the `LineCollection` call fails, so they are returned even when the call fails.
