# Master check list: column packing and geometry

This project models the layout engine of the "master check list" PDF generator. It has four parts:

- **Packing.** A collection of categories, each a name with a list of item texts, is packed into columns of a check-list PDF. Each column has a height budget: the page height minus the top and bottom margins.
- **Strategies.** There are two fill policies and three ordering front-ends, plus a dispatcher that chooses among them:
  - first-fit-decreasing (`best_fit`);
  - the sequential fill, which only appends to the last column. It is fed by the `alphabetical`, `numerical` and `custom` orderings.
- **Renderer walk.** This is the column and page walk of `generate_pdf`. Draw calls are reduced to the cursor movements they cause.
- **Geometry.** This is the derivation in `main.py`: the column count, the column width, the column spacing and the checkbox size, computed from the widest text.

Lengths are exact `real`s, with `INCH = 72.0` points to the inch. As in the source, page sizes, margins and `col_width` are in inches, while font sizes, spacings, category heights and column budgets are in points. The settings dictionary is a typed record, `Layout.Settings`. The two keys read with `settings.get` (`fit_method` and `category_order`) are `Option`s. An ordered category dictionary is a sequence of `Category(name, items)` values.

Python's `sorted` is stable, including with `reverse=True`. It is modelled by a stable insertion sort, `Ordering.SortBy`, which takes a key function and an order.

Some inputs come from outside the code and are parameters of the model:
- text-width measurement (`stringWidth`) is the parameter `width`;
- number parsing (`float(name)`) is the parameter `toFloat`, which returns `None` where Python raises `ValueError`.

Files and modules:
- `results.dfy` (`Results`): `Option`, `Result` and the error cases:
  - `ZeroDivision`: `ZeroDivisionError`;
  - `EmptyMax`: `max()` of an empty sequence;
  - `InvalidFontKey`;
  - `NotNumeric`: `float()` rejects a name.
- `layout.dfy` (`Layout`): the settings record, categories, the usable height and the category height formula.
- `ordering.dfy` (`Ordering`): the stable sort, with lemmas for sortedness, permutation and stability, and the orders used by the strategies.
- `packing.dfy` (`Packing`):
  - the two fill routines, written as loops over the `columns` and `column_heights` lists;
  - each proved equal to a fold (`FirstFitAll`, `AppendAll`) over a `FillState(columns, budgets)` state.
- `packing_properties.dfy` (`PackingProperties`): what the fills guarantee:
  - the output is a partition of the input;
  - the budget invariant holds;
  - best-fit is first-fit;
  - the sequential fill keeps the input order and breaks a column only where a category does not fit;
  - the shape of column 0.
- `strategies.dfy` (`Strategies`): the alphabetical, numerical and custom front-ends and `sort_categories_by_method`.
- `renderer.dfy` (`Renderer`): drawing one category, drawing one column, the column and page walk, and `generate_pdf` without the canvas.
- `geometry.dfy` (`Geometry`): `determine_columns`, `find_max_width` and `calculate_settings`.
- `ffd_example.dfy` (`FfdExample`): a worked first-fit-decreasing run. Categories of 10, 8, 6 and 4 inches, packed into 14-inch columns, give {10, 4} and {8, 6}.

Both fill routines start from `[[]]` (pdf_generation.py:158, 205), so an empty collection gives one empty column, and the walk then counts `1 / num_columns` pages. The available width is `page_width - left_margin - right_margin` (main.py:45).

## Model

| member | source | states |
|---|---|---|
| Layout.UsableHeight | pdf_generation.py:137-139 | The budget of a column: `page_height*inch - top_margin*inch - bottom_margin*inch`. It is used as the first budget and for every new column (lines 159, 178, 206, 218). |
| Layout.HeaderHeight | pdf_generation.py:147 | The header block: `(1 + header_spacing + category_spacing) * header_font_size + row_spacing`. |
| Layout.RowHeight | pdf_generation.py:148 | One item row: `item_font_size + row_spacing`. |
| Layout.Height | pdf_generation.py:145-152 | A category's height: the header block plus one row per item. Both fills use the same definition (lines 196-202). |
| Layout.HeightAddsRow | pdf_generation.py:148 | One more item adds exactly one row height. |
| Layout.HeightMonotone | pdf_generation.py:145-152 | With non-negative metrics, a category with more items is at least as tall. |
| Layout.HeightNonNegative | pdf_generation.py:145-152 | With non-negative font sizes and spacings, a category's height is at least its header block, which is at least zero. |
| Ordering.Insert | pdf_generation.py:155 | One step of the stable insertion sort. The result is the list with the element added: one element longer, the same multiset, the same members. |
| Ordering.SortBy | pdf_generation.py:155 | Python's stable `sorted` with a key and an order. It is used at lines 155, 230, 236 and 244. The result is a permutation of the input of the same length. |
| Ordering.SortBySorted | pdf_generation.py:155 | Under a total preorder, the stable sort returns its input ordered by the key. |
| Ordering.SortByStable | pdf_generation.py:155 | For every key value, the categories with that key appear in the output in their input order. |
| Ordering.InsertSorted | pdf_generation.py:155 | Inserting into a sorted list keeps it sorted. |
| Ordering.InsertWithKey | pdf_generation.py:155 | Filtered to any one key, inserting a category is the same as putting it first. The category taken earlier from the input stays ahead of the equal-key categories. |
| Ordering.SortByOfOrdered | pdf_generation.py:228-231 | Sorting a list whose adjacent keys are already in order returns the same list. |
| Ordering.StrLe | pdf_generation.py:236 | Python's `a <= b` on strings: lexicographic by code point, a proper prefix before the longer string. Its laws are `Ordering.StrLeTotalPreorder`. |
| Ordering.StrLeTotalPreorder | pdf_generation.py:236 | Python's string order, lexicographic by code point, is reflexive, total and transitive. |
| Packing.Initial | pdf_generation.py:158-159 | The state both fills start from: one empty column whose budget is the whole usable height (also lines 205-206). It is shaped. |
| Packing.FirstFitAll | pdf_generation.py:162-178 | The best-fit loop as a fold: one first-fit step per category, in order. The state stays shaped and never loses a column. |
| Packing.AppendAll | pdf_generation.py:209-218 | The sequential loop as a fold: one last-column step per category, in order. The state stays shaped and never loses a column. |
| Packing.ByHeightDescending | pdf_generation.py:155 | `sorted(..., key=height, reverse=True)`: the same categories, as a multiset. Its order is stated by `PackingProperties.BestFitOrder`. |
| Packing.BestFitPacking | pdf_generation.py:136-185 | What best-fit returns: the first-fit fold from the initial state over the categories by descending height. It is shaped. |
| Packing.SequentialPacking | pdf_generation.py:187-225 | What the sequential fill returns: the last-column fold from the initial state over the given order. It is shaped. |
| Packing.FirstSuitable | pdf_generation.py:166-170 | The index found is the least one whose remaining budget minus the height is at least 0. `None` means no column has room. |
| Packing.FindSuitableColumn | pdf_generation.py:166-170 | The scan with `break` returns exactly the least suitable index, or `None`. |
| Packing.PlaceFirstFit | pdf_generation.py:166-178 | One first-fit step. The category goes into the first suitable column, whose budget drops by its height. If no column is suitable, it goes into a new column with budget `usable - height`. The state stays shaped: one budget per column, at least one column. |
| Packing.PlaceLast | pdf_generation.py:213-218 | One sequential step. The category goes into the last column if it has room, otherwise into a new column. The state stays shaped. |
| Packing.SortCategoriesForBestFit | pdf_generation.py:136-185 | After a stable sort by height, tallest first, the columns are exactly the first-fit fold over that order. An empty input gives `[[]]`. |
| Packing.FillFirstFit | pdf_generation.py:157-185 | The in-place loop over `columns` and `column_heights` gives exactly the first-fit fold over the categories in the order given. An empty input gives `[[]]`. |
| Packing.FitSortedCategories | pdf_generation.py:187-225 | The in-place loop gives exactly the sequential fold, which only appends to the last column. An empty input gives `[[]]`. |
| PackingProperties.FirstFitAllItems | pdf_generation.py:172-178 | Each first-fit step adds the category to exactly one column. The multiset of all column contents grows by exactly the placed categories. |
| PackingProperties.BestFitIsPartition | pdf_generation.py:174-177 | The best-fit columns, concatenated, are a permutation of the input pairs. Nothing is lost, duplicated or split. |
| PackingProperties.AppendAllOrder | pdf_generation.py:213-218 | Each sequential step appends its category to the concatenation of the columns. |
| PackingProperties.SequentialPreservesOrder | pdf_generation.py:209-218 | The sequential fill's columns, concatenated, are exactly the input sequence, in order. |
| PackingProperties.ExtendKeepsBudgets | pdf_generation.py:173-175 | Adding a category to an existing column that has room keeps the budget invariant. |
| PackingProperties.OpenKeepsBudgets | pdf_generation.py:176-178 | Opening a new column keeps the budget invariant. An oversize category therefore sits alone in its column. |
| PackingProperties.FirstFitAllKeepsBudgets | pdf_generation.py:162-178 | Every first-fit step keeps the budget invariant. |
| PackingProperties.AppendAllKeepsBudgets | pdf_generation.py:209-218 | Every sequential step keeps the budget invariant. |
| PackingProperties.InitialBudgets | pdf_generation.py:158-159 | The initial state, one empty column with the whole usable height, meets the budget invariant. |
| PackingProperties.BestFitBudgets | pdf_generation.py:158-178 | After best-fit, every column's budget is the usable height minus the heights it holds. Every column after the first is non-empty. A budget goes negative only in a single-category column or in an empty column 0. |
| PackingProperties.SequentialBudgets | pdf_generation.py:205-218 | The same budget invariant holds after the sequential fill. |
| PackingProperties.PlaceFirstFitNoEarlierFit | pdf_generation.py:166-178 | One first-fit step keeps "no category fits an earlier column's final budget". |
| PackingProperties.FirstFitAllNoEarlierFit | pdf_generation.py:162-178 | The first-fit property is preserved along the whole fold. |
| PackingProperties.BestFitIsFirstFit | pdf_generation.py:166-178 | With non-negative metrics, no category in column j fits the final remaining budget of any earlier column. This is implied by the placement rule, whose own statement is the contract of `Packing.FirstSuitable`. |
| PackingProperties.FirstFitAllFirstColumn | pdf_generation.py:166-178 | Under first-fit, column 0 stays empty if and only if it started empty and every placed category is taller than the usable height. |
| PackingProperties.BestFitFirstColumnEmpty | pdf_generation.py:158-178 | The best-fit column 0 is empty if and only if every category is taller than the usable height. This covers the empty input. |
| PackingProperties.FirstOpenedColumn | pdf_generation.py:213-218 | If the first category is taller than the budget, the sequential fill leaves column 0 empty. |
| PackingProperties.FirstStaysInColumnZero | pdf_generation.py:213-215 | If the first category fits the budget, column 0 of the sequential fill is non-empty. |
| PackingProperties.SequentialFirstColumnEmpty | pdf_generation.py:205-218 | The sequential column 0 is empty if and only if the input is empty or the first category is taller than the usable height. |
| PackingProperties.AppendAllBreaksWhereFull | pdf_generation.py:213-218 | Every sequential step keeps the property that a column is opened only when its first category did not fit the previous column's final budget. |
| PackingProperties.SequentialBreaks | pdf_generation.py:212-218 | For each column j ≥ 1 of the sequential fill, the column is non-empty and its first category did not fit column j-1's remaining budget. |
| PackingProperties.ColumnHeightPrefix | pdf_generation.py:173-175 | With non-negative metrics, the height charged to the first k categories of a column is at most the column's whole height. |
| PackingProperties.AppendedCategoriesFit | pdf_generation.py:173-175 | Under the budget invariant and non-negative metrics, every category below the first in a column fitted the room that column had left when it was placed. |
| PackingProperties.SequentialAppendsWhereFit | pdf_generation.py:213-215 | The converse of `SequentialBreaks`: for all settings, the sequential fill puts a category below another only when it fits the room left in that column. So a new column is opened exactly when the category does not fit. |
| PackingProperties.ExtendKeepsAppendsFit | pdf_generation.py:173-175 | Adding a category to a column whose remaining budget can take it keeps "every category below the first fitted when placed". |
| PackingProperties.OpenKeepsAppendsFit | pdf_generation.py:176-178 | Opening a new column keeps that property, since the new column holds one category. |
| PackingProperties.FirstFitAllAppendsFit | pdf_generation.py:162-178 | The property holds along the whole first-fit fold, for all settings. |
| PackingProperties.AppendAllAppendsFit | pdf_generation.py:209-218 | The property holds along the whole sequential fold, for all settings. |
| PackingProperties.BestFitAppendsWhereFit | pdf_generation.py:166-175 | For all settings, best-fit likewise adds a category to an occupied column only when it fits the room left there. |
| PackingProperties.BestFitOrder | pdf_generation.py:155 | Best-fit processes a permutation of the input. The order is non-increasing in height, and equal heights keep their input order. |
| Strategies.SortCategoriesAlphabetically | pdf_generation.py:234-237 | The result is a permutation of the input, ascending by name, filled sequentially. |
| Strategies.FirstNonNumeric | pdf_generation.py:244 | Finds the first name, in input order, that does not parse as a number, or none. |
| Strategies.SortCategoriesNumerically | pdf_generation.py:240-245 | It fails if and only if some name does not parse, and the error names the first such name. On success:<br>- the result is a permutation of the input;<br>- every name parses and the parsed values ascend;<br>- equal values keep their input order;<br>- the columns are filled sequentially. |
| Strategies.ForallSortByStable | pdf_generation.py:244 | For every key value, the stable sort keeps the input order of that key's categories. |
| Strategies.CustomKey | pdf_generation.py:230 | The key is the index of the first occurrence of the name in the order. An unlisted name gets \|order\|, which is larger than every index. |
| Strategies.EffectiveOrder | pdf_generation.py:229 | `settings.get("category_order", list(categories.keys()))`: the given order, or the input names in input order. |
| Strategies.SortCategoriesCustom | pdf_generation.py:227-231 | The result is a permutation of the input:<br>- listed categories come before unlisted ones;<br>- listed categories ascend by their index;<br>- unlisted categories keep their input order;<br>- the columns are filled sequentially. |
| Strategies.CustomWithoutOrderKeepsInput | pdf_generation.py:228-230 | Without `category_order`, the custom order is the input order. |
| Strategies.SortCategoriesByMethod | pdf_generation.py:119-134 | It fails only for `numerical`. Every successful result has at least one column. |
| Strategies.UnknownMethodIsBestFit | pdf_generation.py:120-134 | A missing or unrecognised `fit_method` gives exactly the best-fit columns. |
| Strategies.EveryStrategyPartitions | pdf_generation.py:119-134 | Whatever the strategy, a successful result is a partition of the input. |
| Renderer.LeftEdge | pdf_generation.py:61 | The starting x of each page: `left_margin * inch`. |
| Renderer.TopEdge | pdf_generation.py:61 | The starting y of each column: `page_height * inch - top_margin * inch`. |
| Renderer.ColumnStep | pdf_generation.py:109 | The move to the next column on the same page: `col_width * inch + col_spacing`, with `col_width` already scaled to points at line 62. |
| Renderer.PerPage | pdf_generation.py:102 | The number of columns per page is \|num_columns\| ≥ 1. |
| Renderer.RemainderOfPerPage | pdf_generation.py:102 | Python's test `(col_num + 1) % num_columns == 0` holds exactly at the multiples of \|num_columns\|, whatever the sign of `num_columns`. Dafny's `%` by `num_columns` equals its `%` by \|num_columns\|, so the model's test is zero at exactly those multiples. |
| Renderer.DrawCategory | pdf_generation.py:86-100 | Drawing a header and its items moves the cursor down by exactly that category's packing height. |
| Renderer.DrawColumn | pdf_generation.py:86-100 | Drawing a column moves the cursor down by exactly the column's total height. |
| Renderer.DivModStep | pdf_generation.py:102-109 | One more column either starts a new page, with offset 0, or moves one slot right on the same page. |
| Renderer.SlotOf | pdf_generation.py:102-109 | The closed form of the walk. Column i lands on page i / \|n\| at x = left + (i mod \|n\|)·(col_width·inch + col_spacing), and ends at top minus its column height. |
| Renderer.WalkColumns | pdf_generation.py:79-109 | There is one slot per column. With n = \|num_columns\|, column i lands on page i / n, at x = left + (i mod n)·(col_width·inch + col_spacing), and ends at top minus its height. The page counter ends at \|columns\| / n. |
| Renderer.GeneratePdf | pdf_generation.py:57-113 | Errors from sorting propagate unchanged. A zero `num_columns` raises at the first page-break test. Otherwise the rendering is exactly the walk of the chosen strategy's columns. |
| Renderer.ColumnsStayAboveBottomMargin | pdf_generation.py:82-100 | Under the budget invariant, a drawn column ends at the bottom margin plus its remaining budget. It ends below the margin only if it is a single category taller than the usable height. |
| Renderer.PackedColumnsStayAboveBottomMargin | pdf_generation.py:61-100 | For both fills, the only drawn columns that cross the bottom margin hold a single oversize category. |
| Geometry.AvailableWidth | main.py:45 | The page width less the two margins, in inches. |
| Geometry.ColumnWidth | main.py:47 | `(max_width + col_spacing) / inch`, also used for `col_width` at line 88. It is zero exactly when `max_width + col_spacing` is zero, and positive exactly when that sum is. |
| Geometry.DetermineColumns | main.py:35-53 | It raises `ZeroDivisionError` if and only if the column width is 0. Otherwise it returns at least 1. |
| Geometry.DetermineColumnsIsFloor | main.py:45-53 | With a positive column width and available width ≥ column width, the count k satisfies k·cw ≤ available < (k+1)·cw. Otherwise the count is 1. |
| Geometry.DetermineColumnsMonotone | main.py:47-53 | A wider max width never gives more columns, other settings fixed. |
| Geometry.MaxOf | main.py:67 | `max()` fails exactly on an empty sequence. Otherwise it returns a member that bounds every element. |
| Geometry.Widths | main.py:72 | The widths of a list of texts: the width of each text, and nothing else. |
| Geometry.ItemWidths | main.py:67 | The widths of every item of every category, and nothing else. |
| Geometry.ItemWidthsEmpty | main.py:67 | There are item widths if and only if some category has at least one item. |
| Geometry.NameWidths | main.py:72 | The header widths are exactly the widths of the category names. They are empty if and only if there are no categories. |
| Geometry.FindMaxWidth | main.py:56-75 | It depends on the key:<br>- `item_font`: the largest item width over all categories, attained by some item; it is an error exactly when there are no items;<br>- `header_font`: the largest name width, attained by some name; it is an error exactly when there are no categories;<br>- any other key: `InvalidFontKey`. |
| Geometry.CalculateSettings | main.py:77-90 | It updates the dictionary in place and returns it. With `max_width`, a local, the larger of the two widths, the new fields are:<br>- `col_spacing = item_font_size`;<br>- `num_columns` is `determine_columns` of the new spacing, ≥ 1, and the floor fit;<br>- `col_width = (max_width + col_spacing)/inch`;<br>- `checkbox_size = 0.9·item_font_size`.<br>Every other key is unchanged. If `determine_columns` raises, only `col_spacing` has been written. |
| FfdExample.FirstFitDecreasingExample | pdf_generation.py:136-185 | Heights of 4, 8, 10 and 6 inches, in 14-inch columns, pack as {10, 4} and {8, 6}. The last category placed, the 4, is back-filled into column 0, while the 6, last in input order, goes into column 1. |

## Left out

- Canvas drawing (`draw_checkbox`, the PDF calls in `draw_header` and `draw_item`, `showPage`, `save`), fonts and `register_fonts`: these are foreign library calls. Only the cursor movement of the draw calls is modelled.
- `item_padding` and the checkbox offsets in `draw_item` and `draw_checkbox`: these only shift text horizontally inside a column, and that is canvas output.
- The `IOError` handling around `generate_pdf`: file output is not modelled.
- All `logger` calls, the argparse `__main__` wiring, JSON input (`input_processing.py`) and `check_pdf_pages.py`: these are I/O.
- `stringWidth` and `float(name)`: both are parameters of the model (`width` and `toFloat`), not implementations.
- IEEE floating point: lengths are exact reals, so rounding, NaN and infinities are not modelled. This includes a height computed in floating point that differs in the last bit.
- Missing required settings keys, which raise `KeyError`: the settings are a typed record, so every required key is present.
- Duplicate category names: a Python dict cannot hold them. Only `Strategies.CustomWithoutOrderKeepsInput` needs distinct names, so it is the only member that assumes them.
- The horizontal geometry of the walk: each column slot is `col_width*inch + col_spacing` wide, while `determine_columns` budgets `max_width + col_spacing` per column. The gutter is therefore counted twice. The model reproduces this as written and proves nothing about columns fitting the page width.
- PackingProperties.BestFitIsFirstFit: it requires non-negative font sizes and spacings. It compares each category against the final budgets of the earlier columns, not against their budgets when the category was placed. With non-negative heights the final budgets are the smaller of the two, so this is a consequence of the source's rule rather than the rule itself. The rule itself is the contract of `Packing.FindSuitableColumn` inside `Packing.SortCategoriesForBestFit`.
- `"category_order": null` in the settings: Python's `settings.get` returns `None`, and the `in` test at line 230 of pdf_generation.py raises `TypeError`. The typed record has no such value, so `Strategies.EffectiveOrder` treats it like an absent key.
- `float(name)` accepting `"inf"`, `"nan"` and the like (pdf_generation.py:244): `toFloat` returns an exact real or `None`, so infinite and NaN keys, and the order `sorted` gives them, are not modelled.
- Geometry.CalculateSettings: `settings` is modelled as one object holding a record. Aliasing of the dictionary by other holders is not modelled.
