# Crop calendar: plant records, user record lists and the catalog menu

This project is a Dafny model of the three classes that hold the logic of the
crop-calendar planner:

- **Plants** (`plant.dfy`, from `classes/plant.py`). A catalog cell arrives as
  text, an integer or Python's `None` (`Raw`). `ParseInt` is `Plant.parse_int`:
  it behaves like Python's `int()` on ASCII text (surrounding space, tab, line feed,
  vertical tab, form feed or carriage return, an
  optional sign, decimal digits) and gives `None` instead of raising. The
  `Plant` datatype is the immutable plant record. Its five growth stages are
  `Option<int>`. `TotalGrowthTime` sums the present stages, exactly as the
  generator expression does. `StageText` is the `stage or 'N/A'` rule of
  `summary()`. `CreatePlantInstance` maps a keyed row (a `map<string, Raw>`)
  to the nine constructor arguments, or to the `KeyError` the dictionary
  lookup raises.
- **UserRecords** (`user_data.py` → `user_data.dfy`). `UserData` is a class
  that holds an e-mail address and a reference to a mutable list object
  (`PyList`). The constructor keeps the list it is given, not a copy.
  `AddData` appends in place. `GetData` hands back that same object, so the
  aliasing of the source is part of the model.
- **CatalogTable** (`table_creator.py` → `table_creator.dfy`). The
  constructor drops the header row. `SplitData` cuts the items at
  `(n + 1) / 2` and pads the right column with `["", ""]` when `n` is odd.
  `CreateMainTable` is the loop over the zipped columns that builds the
  `"<id>. <name>"` cell pairs. Every `IndexError` a short row can raise is a
  `Failure` in the model.

`wrappers.dfy` holds the `Option` and `Result` datatypes.

A few points about these files are easy to miss:
- `parse_int` accepts negative numbers. Nothing checks that a stage is non-negative.
- `summary()` shows "N/A" for a zero-day stage as well as for an absent one,
  because Python treats 0 as false in `stage or 'N/A'`.
- `create_plant_instance` reads named keys from a dictionary, not positional fields.
  Every key except `Description` is required.
- None of these files validates a selection index, does date arithmetic or
  stores results by e-mail.

`SplitData` is a function of an immutable value. So "split_data does not
modify data_items" and "calling it twice gives the same columns" hold by
construction.

## Model

| member | source | states |
|---|---|---|
| `Plants.ParseInt` | classes/plant.py:52-69 | An integer passes through unchanged. `None` (int() raises TypeError) becomes absent. The function is total, so parsing never fails |
| `Plants.ParseSignedDigits` | classes/plant.py:66-67 | Text of the form whitespace, optional `+`/`-`, decimal digits, whitespace parses to the number the digits denote. A minus sign negates it, and negative values are kept |
| `Plants.ParseBareSignedDigits` | classes/plant.py:66-67 | A sign and digits with no surrounding whitespace parse to the signed value of the digits |
| `Plants.ParsedTextIsSignedDigits` | classes/plant.py:66-69 | The converse of `ParseSignedDigits`. Any text that parse_int turns into a number has the form whitespace, optional sign, digits, whitespace, and the result is the signed value of those digits. All other text gives absent |
| `Plants.SplitParsedText` | classes/plant.py:66-67 | Splits text that int() accepts into the whitespace stripped before it, the optional sign, the digits and the whitespace stripped after it |
| `Plants.ParsedTextCharacters` | classes/plant.py:66-69 | Every character of text that parses is whitespace, a sign or a digit |
| `Plants.ParsedTextDigit` | classes/plant.py:66-69 | Text that parses holds at least one digit |
| `Plants.ParseShowRoundTrip` | classes/plant.py:66-67 | parse_int reads back every integer that `str()` writes: `ParseInt(Str(ShowInt(n))) == Some(n)` |
| `Plants.NonNumericIsAbsent` | classes/plant.py:66-69 | Text containing any character that is not whitespace, a sign or a digit yields absent, not an error |
| `Plants.SeparatorIsAbsent` | classes/plant.py:66-69 | Text holding any of the separator characters `\x1c` to `\x1f` yields absent, because `int()` does not skip them as whitespace |
| `Plants.BlankIsAbsent` | classes/plant.py:66-69 | The empty string and all-whitespace text yield absent |
| `Plants.NewPlant` | classes/plant.py:36-50 | The constructor stores id, name, category and description unchanged. The five stages are the parse_int of the matching arguments, in parameter order |
| `Plants.Plant.TotalGrowthTime` | classes/plant.py:71-84 | total_growth_time equals the sum of the five stages with each absent stage counted as 0 |
| `Plants.PresentSumIsSumOrZero` | classes/plant.py:80-84 | Summing only the present stage values equals summing every stage with each absent stage counted as 0 |
| `Plants.TotalGrowthTimeIsStageSum` | classes/plant.py:71-84 | total_growth_time is germination + seedling + vegetative + flowering/root + fruit, where an absent stage counts as 0 |
| `Plants.AllAbsentTotalIsZero` | classes/plant.py:84 | With all five stages absent, total_growth_time is 0 |
| `Plants.PresentStageAtMostTotal` | classes/plant.py:80-84 | When no present stage is negative, each present stage is non-negative and at most total_growth_time |
| `Plants.StageAtMostSum` | classes/plant.py:84 | For any list of optional stages with no negative value, every present value lies between 0 and the sum |
| `Plants.StageText` | classes/plant.py:98-103 | A stage is shown as "N/A" exactly when it is absent or 0 |
| `Plants.StageTextPlaceholder` | classes/plant.py:98-103 | Any stage that does not show "N/A" shows text that parse_int reads back to the same value |
| `Plants.FirstMissing` | classes/plant.py:211-218 | Gives the position of the first key the row lacks. Every earlier key is present, and the result is none exactly when all keys are present |
| `Plants.CreatePlantInstance` | classes/plant.py:196-224 | Succeeds exactly when all eight required keys are present. Otherwise it fails with KeyError naming the first missing key in lookup order. On success the tuple is the eight looked-up values in the order the constructor takes them, followed by the description, which defaults to `""` when its key is missing |
| `Plants.CreateThenConstruct` | classes/plant.py:211-224 | The returned tuple follows the constructor's parameter order: building a Plant from it puts each column into the field of the same name, and each stage column goes through parse_int |
| `UserRecords.PyList.Append` | classes/user_data.py:63 | The element goes at the end of the list, and the earlier elements stay as they were |
| `UserRecords.UserData.constructor` | classes/user_data.py:26-40 | Stores the e-mail. A given list is kept by reference, with no copy made. With no list, the data starts as a fresh empty list |
| `UserRecords.UserData.Email` | classes/user_data.py:42-52 | The property returns the e-mail given at construction |
| `UserRecords.UserData.AddData` | classes/user_data.py:54-63 | After the call the list is the old list followed by the new entry. Its length grows by one and earlier entries are unchanged. The e-mail and the list object stay the same |
| `UserRecords.UserData.GetData` | classes/user_data.py:65-74 | Returns the stored list object itself, not a copy |
| `UserRecords.SharedListScenario` | classes/user_data.py:26-74 | Two add_data calls on a UserData built from a caller's list leave that same list equal to the initial entries followed by the two new ones in call order. get_data returns that same list |
| `UserRecords.AddDataInOrder` | classes/user_data.py:26-63 | After any sequence of add_data calls on a UserData built from a caller's list, that same list holds the initial entries followed by the added ones in call order |
| `CatalogTable.NewTableCreator` | classes/table_creator.py:5-14 | The items are the data list without its first (header) row. There are no items when the list has 0 or 1 rows |
| `CatalogTable.SplitData` | classes/table_creator.py:16-33 | Both columns have (n + 1) / 2 rows. Column 1 followed by column 2 is the items, plus one `["", ""]` row exactly when n is odd. Before padding, column 1 is 0 or 1 rows longer than column 2 |
| `CatalogTable.ColumnRows` | classes/table_creator.py:24-33 | Row i of column 1 is item i. Row i of column 2 is item i + ceil(n/2), or the padding row past the end of the items |
| `CatalogTable.CreateMainTable` | classes/table_creator.py:35-58 | Succeeds exactly when every zipped row pair is long enough for the cells read. The table then has one line per row pair: the left cell is `id + ". " + name`, and the right cell is that label when both fields are non-empty, else `""` |
| `CatalogTable.MainTableLines` | classes/table_creator.py:51-56 | The table has ceil(n/2) lines. Line i shows item i on the left and item i + ceil(n/2) on the right. The padding line of an odd count has a blank right cell |

## Left out

- `run.py`: opening the Google spreadsheet with service-account credentials and reading the plant list is I/O, and its remaining functions are empty stubs or a greeting print.
- The `Legume`, `RootVegetable`, `FruitVegetable`, `LeafyGreen`, `Bulb` and `Herb` subclasses: each passes eight positional arguments to the nine-parameter `Plant.__init__`, so constructing any of them raises TypeError. The apparent intent, fixing the fruit-development stage to None for some categories, is the same as calling `NewPlant` with `NoneVal` there.
- The layout of `Plant.summary()` beyond the per-stage "N/A" rule: the rest is string formatting for display.
- The PrettyTable object and its settings (`border`, `align`, `header`, `padding_width`): third-party rendering. The model keeps the list of cell pairs the loop passes to `add_row`.
- Plants.ParseInt: does not model Python `int()` on floats (truncation), on booleans, on digit strings with underscores (`"1_000"`), on non-ASCII digits or on non-ASCII whitespace. Raw cells here are text, integers or None. Text with those characters parses to None in the model. It also does not model CPython's limit of 4300 digits on conversion between int and text. Above that limit `int()` raises ValueError, so parse_int gives None, and `str()` raises. In the model, `ParseSignedDigits`, `ParseShowRoundTrip` and `ShowInt` hold for digit strings of any length.
- Selection-index validation, `YYYY-MM-DD` date parsing, planting/harvest date arithmetic and storing results keyed by e-mail: none of these is implemented in the modelled files.
