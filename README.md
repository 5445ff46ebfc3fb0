# recipes-etl: a verified model of the recipe pipeline's core

The program downloads a document of recipes, one JSON object per line, repairs it into a JSON
array, and loads it as a table. It keeps the recipes whose ingredients mention a chili. It reads
the preparation and cooking durations (ISO 8601 style tokens such as `PT1H30M`, section 4.4.3.2
of ISO 8601) as minutes and adds them. It labels each recipe Hard, Medium, Easy or Unknown from
that total and writes the table as CSV.

This project models the logic under that I/O, all of it from `main.py`:

- `duration.dfy`, module `Duration`: `get_minutes` and `transform_time_to_minutes`. The regular
  expression `(?:(\d+)H)?(?:(\d+)M)?` is written as a scanner. A greedy digit run that is followed
  by the unit letter forms a group; otherwise the group is skipped.
- `difficulty.dfy`, module `Difficulty`: the thresholds and `transform_time_to_difficulty`.
- `jsonrepair.dfy`, module `JsonRepair`: the string transformation performed by `clean_json_file`,
  including the universal-newline translation of its two text-mode reads.
- `chilies.dfy`, module `Chilies`: the filter-and-derive step of `get_chilies_dataset`.
- `tables.dfy`, module `Tables`: the part of pandas those steps use. A Series or Frame carries an
  index of labels. Boolean indexing keeps the labels of the rows it keeps. Assigning a Series as
  a column aligns it by label.
- `wrappers.dfy`, module `Wrappers`: `Option`, used for skipped regex groups and missing cells.

The two loops of the source (`transform_time_to_minutes`, `transform_time_to_difficulty`) are
methods with `while` loops. Each is proved against the function that it applies to each
element. `get_chilies_dataset` is a method that calls them in the source's order. The rest is
pure functions and lemmas.

Points where the code decides what happens:

- The docstring of `transform_time_to_difficulty` (main.py:72-74) calls totals "between 0 and 30
  minutes (exclusive)" Easy and totals "less than 0" Unknown, which leaves a total of 0 to
  neither. The code's `elif row > 0` and `else` (main.py:84-87) label 0 as Unknown, and the
  model follows the code (`Difficulty.Classify`, `Difficulty.ClassifyBoundaries`).
- The code returns -1 only for a string of length exactly 2 (main.py:39). A string of length 0
  or 1 leaves an empty remainder and gives 0.
- `clean_json_file` reads the file back in text mode (main.py:17-18, 25-26). With Python's
  default universal newlines every "\r\n" and every lone "\r" comes back as "\n" before the
  replacement and the slice run, so a document whose lines end in "\r\n" or "\r" is repaired
  as if they ended in "\n".
- The `else: return -1` branch (main.py:53-54) cannot run, because the pattern matches the empty
  string. `MatchDuration` therefore always returns a match. `GetMinutes` returns -1 only for
  length 2.
- `transform_time_to_minutes` ignores the index of its input and returns a Series under the
  default index 0..n-1 (main.py:66). `transform_time_to_difficulty` puts its labels under the
  filtered frame's index (main.py:88). The assignment at main.py:115 aligns by label, so its cell
  for row i is the label for row i. This follows from the filtered index being increasing
  (`Tables.SelectIncreasing`, `Tables.AlignSameIndex`).

## Model

| member | source | states |
|---|---|---|
| `Duration.DecimalValue` | main.py:49-50 | `int` of a string of k decimal digits is below 10^k, and at least 10^(k-1) when the first digit is not 0 |
| `Duration.DecimalRoundTrip` | main.py:49-50 | reading the decimal spelling of any n back as `int` of the digits gives n |
| `Duration.DigitRun` | main.py:43 | the greedy `\d+`: the length of the longest all-digit prefix; the next character, if any, is not a digit |
| `Duration.MatchGroup` | main.py:43 | the optional group `(?:(\d+)X)?`: when taken it captures a non-empty digit run followed by X; it is skipped exactly when no non-empty digit prefix is followed by X |
| `Duration.MatchDuration` | main.py:43-48 | the pattern always matches; the matched prefix is exactly the hours group followed by the minutes group; each captured group is a non-empty digit string; each group is skipped exactly when it cannot match where it stands |
| `Duration.GroupValue` | main.py:49-50 | `int(group or 0)`: a skipped group is 0; a captured group of k digits is below 10^k |
| `Duration.DropDesignator` | main.py:42 | `time[2:]`: the text after the first two characters, or empty for shorter strings |
| `Duration.GetMinutes` | main.py:33-54 | -1 exactly when the string has length 2; every other string gives a non-negative count |
| `Duration.HoursAndMinutes` | main.py:42-52 | any two characters, then h, "H", m, "M" and any suffix, give h*60 + m; the suffix is ignored |
| `Duration.HoursOnly` | main.py:42-52 | two characters, h, "H" and a suffix with no minutes group give h*60 |
| `Duration.MinutesOnly` | main.py:42-52 | two characters, m, "M" and any suffix give m; the hours group is skipped |
| `Duration.NoGroups` | main.py:42-52 | a string that is not of length 2 and has neither group after the designator gives 0 |
| `Duration.WrittenDurationRoundTrip` | main.py:57-61 | for all h and m, "PT<h>H<m>M" gives h*60 + m, "PT<h>H" gives h*60 and "PT<m>M" gives m |
| `Duration.ExampleHoursAndMinutes` | main.py:60 | "PT1H30M" is 90 minutes |
| `Duration.ExampleMinutes` | main.py:43-51 | "PT45M" is 45 minutes |
| `Duration.ExampleHours` | main.py:43-51 | "PT2H" is 120 minutes |
| `Duration.ExampleShortStrings` | main.py:39-42 | "PT" is -1; "" and "P" are 0 |
| `Duration.ExampleHoursThenSeconds` | main.py:43-51 | "PT1H5S" is 60: the seconds are ignored |
| `Duration.ExampleSecondsOnly` | main.py:43-51 | "PT30S" is 0 |
| `Duration.GroupEndIsRun` | main.py:43 | a digit run that `(\d+)X` accepts before X is always the whole greedy run |
| `Duration.MinutesOfAt` | main.py:63-65 | applying `get_minutes` to a list keeps its length, and element i of the result is `get_minutes` of element i |
| `Duration.TransformTimeToMinutes` | main.py:57-66 | one value per input element, in order, where element i is `get_minutes` of input element i; the result has the default index 0..n-1 |
| `Difficulty.Classify` | main.py:69-87 | totals over 60 are Hard; 30 to 60 are Medium; 1 to 29 are Easy; totals of 0 or less are Unknown; each is an if-and-only-if, so every integer gets exactly one label |
| `Difficulty.Name` | main.py:81-87 | the column text of a label is one of "Hard", "Medium", "Easy" and "Unknown" (`Difficulty.NameInjective` adds that the four differ) |
| `Difficulty.ClassifyMonotone` | main.py:80-87 | a larger total never gets a lower label |
| `Difficulty.NameInjective` | main.py:81-87 | the four label texts written to the column are pairwise different |
| `Difficulty.ClassifyBoundaries` | main.py:72-74 | 61 is Hard; 60 and 30 are Medium; 29 and 1 are Easy; 0 and -1 are Unknown |
| `Difficulty.TransformTimeToDifficulty` | main.py:69-88 | one label per input element, in order, where label i is the classification of element i; the result carries the given index |
| `JsonRepair.UniversalNewlines` | main.py:17-18 | a text-mode read leaves no "\r" and never lengthens the text |
| `JsonRepair.UniversalNewlinesIdentity` | main.py:25-26 | a text without "\r", such as the file the first step wrote, reads back unchanged |
| `JsonRepair.UniversalNewlinesPlain` | main.py:17-18 | text without "\r" at the front of a file reads back unchanged, whatever follows it |
| `JsonRepair.ReplaceNewlines` | main.py:19 | `replace('\n', ',\n')` adds no character but commas, and every line break of its result is preceded by a comma |
| `JsonRepair.DropLastTwo` | main.py:27 | `text[:-2]`: the text less its last two characters, or empty when it has fewer than two |
| `JsonRepair.ReplaceNewlinesLength` | main.py:19 | replacing every line break by a comma and a line break adds one character per line break |
| `JsonRepair.UniversalNewlinesLineEnd` | main.py:17-18 | "\n", "\r\n" and a lone "\r" not followed by "\n" each read back as one "\n" |
| `JsonRepair.UniversalNewlinesUnlines` | main.py:17-18 | lines ended by "\n", "\r\n" or "\r" read back as the same lines ended by "\n" |
| `JsonRepair.ReplaceNewlinesUnlines` | main.py:19 | lines each ending in a line break become the lines joined by ",\n", followed by ",\n" |
| `JsonRepair.CleanJson` | main.py:17-29 | the output always starts with '[' and ends with ']' and holds no "\r"; its length is max(len + line breaks - 2, 0) + 2, counted on the text as the first read returns it |
| `JsonRepair.CleanJsonLines` | main.py:17-29 | one or more lines, all ended by "\n", all by "\r\n" or all by "\r", and holding no other line break, become "[" + the lines joined by ",\n" + "]" |
| `JsonRepair.ExampleCarriageReturns` | main.py:17-29 | "{}\r{}\r" becomes "[{},\n{}]" |
| `JsonRepair.ExampleCrLf` | main.py:17-29 | "{}\r\n" becomes "[{}]" |
| `JsonRepair.CleanJsonWithoutNewline` | main.py:17-29 | a text with neither "\n" nor "\r" loses its own last two characters inside the brackets |
| `JsonRepair.ExampleSingleObjectWithoutNewline` | main.py:19-29 | "{}" without a final line break comes out as "[]" |
| `JsonRepair.CleanJsonEmpty` | main.py:19-29 | an empty download comes out as "[]" |
| `Tables.FromList` | main.py:66 | `pd.Series(list)` keeps the values and labels them 0, 1, ..., n-1, an increasing index |
| `Tables.Add` | main.py:114 | adding two Series under one index keeps that index and adds the values position by position |
| `Tables.FromRecords` | main.py:108 | the loaded frame keeps the records in load order under the increasing default labels 0..n-1 |
| `Tables.Column` | main.py:111 | `df[name]` keeps the frame's index and holds, at position i, the field of row i |
| `Tables.Select` | main.py:111 | boolean indexing keeps one label per kept row and keeps no more rows than the mask has entries |
| `Tables.Align` | main.py:115 | assigning a Series as a column gives one cell per frame label, and a cell is present exactly when its label is in the Series' index |
| `Tables.SelectSound` | main.py:111 | every row kept by boolean indexing is the input row at its label, and its mask entry is true |
| `Tables.SelectIncreasing` | main.py:111 | the labels kept by boolean indexing increase, so the original order is kept |
| `Tables.SelectComplete` | main.py:111 | every row whose mask entry is true is kept |
| `Tables.AlignSameIndex` | main.py:115 | assigning a Series as a column of a frame with the same increasing index fills every cell, position by position |
| `Chilies.Contains` | main.py:111 | a word is only ever found in a text at least as long as the word (`ContainsFound` and `ContainsAt` tie it to occurrence at a position) |
| `Chilies.ChiliMask` | main.py:111 | `df['ingredients'].str.contains(...)` has one entry per row, true exactly when that row's ingredients mention a chili |
| `Chilies.ChiliFrame` | main.py:111 | `df[mask]` keeps one label per kept row, no more rows than were loaded, and only rows that mention a chili (`Chilies.ChiliFrameExact` gives the rest) |
| `Chilies.MentionsChili` | main.py:111 | `str.contains` with the pattern holds exactly when one of the five alternatives starts at some position of the ingredients |
| `Chilies.ContainsFound` | main.py:111 | a contained word occurs at some position of the text |
| `Chilies.ContainsAt` | main.py:111 | a word that occurs at some position is contained |
| `Chilies.ContainsTransitive` | main.py:111 | a word contained in a word contained in the text is contained in the text |
| `Chilies.MentionsChiliReduced` | main.py:111 | the five alternatives select exactly the texts containing "Chile", "Chilie" or "Cili" |
| `Chilies.NotMentionedWithoutC` | main.py:111 | a text without a capital C is never kept |
| `Chilies.ExampleLowerCase` | main.py:111 | the search is case-sensitive: "chilies, salt" is not kept |
| `Chilies.ExampleChiliAlone` | main.py:111 | "Chili powder" is not kept |
| `Chilies.ChiliFrameExact` | main.py:108-111 | the kept recipes are exactly the loaded recipes whose ingredients contain an alternative: each kept row is the loaded recipe at its label, the labels increase, and no matching recipe is dropped |
| `Chilies.ExampleThreeRecipes` | main.py:108-111 | of three recipes, only the one with "Chilies, Salt" is kept, under its label 1 |
| `Chilies.TotalMinutes` | main.py:114 | the sum of the two minute counts is never below -2, is -2 exactly when both durations are two characters long, and is non-negative when neither is |
| `Chilies.GetChiliesDataset` | main.py:108-115 | the output rows are the kept recipes in order, each unchanged; each row's difficulty cell is present and holds the classification of `get_minutes(prep) + get_minutes(cook)` |
| `Chilies.ExampleChiliesSalt` | main.py:111-115 | "Chilies, Salt" with PT10M and PT25M is kept, totals 35 and is Medium |
| `Chilies.ExampleSentinelArithmetic` | main.py:114 | a bare "PT" preparation time counts as -1: with PT45M of cooking the total is 44, which is Medium |
| `Chilies.ExampleAbsentTimes` | main.py:114-115 | two bare "PT" times (-2), or two empty times (0), are Unknown |

## Left out

- The HTTP request and the status-200 check (main.py:102-105) are network I/O. The model starts
  from the recipes as already loaded.
- The file writes, seeks and truncations of `clean_json_file` (main.py:13-30) are left out. Only
  the text that ends up in the file is modelled. The writes are taken to keep "\n" as it is, as
  they do where the line separator is "\n"; on a platform that writes "\r\n" for "\n" a
  download holding "\r\n" would read back with two line breaks, which is not modelled. Text
  encoding on the way to and from the file is taken to give back the same characters.
- `pd.read_json`, `to_csv` and `print` (main.py:108, 118, 120) are foreign library I/O and
  serialisation. JSON parsing is not modelled: `CleanJsonLines` states the text of the array,
  not its parse. A loaded record is a `Chilies.Recipe`, `FromRecords` builds the table, and the
  rows `GetChiliesDataset` returns are what `to_csv` writes. `Difficulty.Name` gives the cell's
  text. `copy()` has no effect on values.
- A `difficulty` field already present in the download is not modelled: `Chilies.Recipe.other`
  holds only the fields the pipeline does not read or write, and the derived cell is the
  `Row`'s own `difficulty`, as pandas' overwrite of that column would leave it.
- Missing or non-text cells: pandas NaN and non-string values in `ingredients`, `prepTime` or
  `cookTime` are not modelled. Every cell is a string.
- `\d` also matches non-ASCII Unicode digits in Python. This model accepts only ASCII `0`-`9`.
- Regex search for the chili pattern is modelled by its meaning (some alternative occurs as a
  substring). The leftmost-match order of the regex engine is not modelled, because the filter
  only uses whether a match exists.
- Tables.Add: requires both Series to have the same index. pandas would align different indexes
  and produce NaN where they differ. The pipeline only adds two Series under the same default
  index.
- Difficulty.TransformTimeToDifficulty: requires one index label per value. pandas raises an
  error otherwise, and the source always passes the filtered frame's own index.
- Tables.Align: takes the first value under a label. pandas refuses to reindex from a Series with
  duplicate labels. This does not arise because the filtered index is increasing.
- Tables.Add: the minute counts of main.py:66 are held as int64, so the sum at main.py:114
  wraps around beyond 2^63-1 (a preparation time of 2^63-1 minutes plus one minute of cooking
  would be labelled Unknown). The model adds unbounded integers; no realistic recipe reaches
  that range. Counts that do not fit int64 at all would make pandas store Python integers or
  `uint64`, which is not modelled either.
- Duration.GetMinutes: CPython's `int` refuses a decimal string of more than 4300 digits with a
  `ValueError` (main.py:49-50); the model gives a count for digit groups of any length.
- The hard-coded URL and file names of the entry point (main.py:123-126) are configuration and
  are left out.
