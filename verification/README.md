# Champion search launchers: a verified model of the filterable selector

`LoLAlyticsLauncher.py` and `BobLauncher.py` are two near-identical tkinter
utilities. Each one loads a list of League of Legends champion names from
`champions.txt`. The user types part of a name, moves a cursor through the
names that match, and opens the champion's lolalytics.com build page. This
project models the one real piece of logic they share, the filterable
selector inside `ChampionSearchApp`. It also models the two places where the
files differ:

- **Selection after a filter.** In `LoLAlyticsLauncher.py` the selection is
  the listbox selection. Every refilter resets it to the first row. In
  `BobLauncher.py` the selection is the integer `current_index`, and
  refiltering leaves it alone. After a narrowing filter it can point past
  the end of `filtered_list`, and the next search raises `IndexError`.
- **Lookup token.** `LoLAlyticsLauncher.py` only lower-cases the selected
  name (`"Dr. Mundo"` becomes `"dr. mundo"`). `BobLauncher.py` first deletes
  every character outside `[a-zA-Z]` (`"Dr. Mundo"` becomes `"drmundo"`).

Files:

- `PyStr.dfy` (module `PyStr`) models the Python `str` operations the code
  uses: `strip()` over Python's full `isspace()` set, ASCII `lower()`, the
  substring test `q in s` and `replace`.
- `Selector.dfy` (module `Selector`) holds what both files contain word for
  word:
  - line cleaning (`_load_list`) and the error fallback;
  - the filter comprehension (`_filter_list`);
  - the clamp `max(0, min(len - 1, x))`;
  - `Config.BUTTONS` and URL building.
- `LoLAlyticsLauncher.dfy` and `BobLauncher.dfy` each hold their file's
  `ChampionSearchApp` as a class. Its fields are the state the Python object
  updates in place: `champion_list`, `filtered_list`, the listbox rows, and
  the selection (an `Option<nat>` in one file, `current_index` in the other).
  The methods are `_filter_list`, `_update_listbox` (its insert loop kept as
  a loop), `_move_selection` and `_search`. Each file also has its own token
  function and a few end-to-end scenarios.
- `Wrappers.dfy` holds the `Option` type.

File reading becomes a `ReadResult` parameter: the raw lines, `FileNotFound`
or `ReadFailed`. `webbrowser.open(url)` becomes the URL that `Search`
returns.

### Where the two files differ

- Only `BobLauncher.py:113` deletes non-letters from the token;
  `LoLAlyticsLauncher.py:119` only lower-cases. Each file is modelled with its
  own rule (`BobLauncher.Token`, `LoLAlyticsLauncher.Token`).
- `BobLauncher.py:86-97` never adjusts `current_index` when the list is
  refiltered, so `BobLauncher.ChampionSearchApp.Search` has an `IndexError`
  outcome, and `BobLauncher.StaleIndexScenario` shows that it is reachable.
  `LoLAlyticsLauncher.py:103-107` selects row 0 after every refilter instead.
- In `LoLAlyticsLauncher.py` the listbox stays empty until the first
  `<KeyRelease>` (`LoLAlyticsLauncher.py:21-24` never fills it). Before that,
  a move selects nothing and a search opens nothing
  (`LoLAlyticsLauncher.NothingSelectedScenario`). `BobLauncher.py` leaves its
  listbox empty at start-up too, but its cursor is `current_index`, which is
  0 from the start and indexes `filtered_list` directly.

## Model

| member | source | states |
|---|---|---|
| `PyStr.TrimStart` | LoLAlyticsLauncher.py:30 | the leading half of `strip()`: a suffix of the line, everything cut off before it is whitespace, and it does not start with whitespace |
| `PyStr.TrimEnd` | LoLAlyticsLauncher.py:30 | the trailing half of `strip()`: a prefix of the line, everything cut off after it is whitespace, and it does not end with whitespace |
| `PyStr.Strip` | LoLAlyticsLauncher.py:30 | `strip()` leaves no whitespace at either end and never lengthens the string |
| `PyStr.StripSlice` | BobLauncher.py:31 | `strip()` returns, character by character, the part of the line between its leading and its trailing run of whitespace |
| `PyStr.StripExact` | LoLAlyticsLauncher.py:30 | `strip()` returns the slice between the leading and the trailing whitespace; the result is empty exactly when the line is all whitespace |
| `PyStr.StripLine` | BobLauncher.py:31 | a line made of clean text plus its line break strips to that text |
| `PyStr.Lower` | LoLAlyticsLauncher.py:98 | `lower()` keeps the length; each ASCII upper-case letter becomes its lower-case letter (code point + 32); every other character is kept; no upper-case letter remains |
| `PyStr.LowerStripped` | LoLAlyticsLauncher.py:98 | lower-casing a stripped query leaves it stripped |
| `PyStr.LowerIdempotent` | LoLAlyticsLauncher.py:119 | lower-casing twice equals lower-casing once |
| `PyStr.Contains` | LoLAlyticsLauncher.py:99 | `q in s` fails when `q` is longer than `s` and always holds for the empty `q` |
| `PyStr.ContainsIffOccurs` | LoLAlyticsLauncher.py:99 | the left-to-right scan `q in s` holds exactly when `q` occurs at some position of `s` |
| `PyStr.NotContainsMissingChar` | BobLauncher.py:88 | a name that lacks some character of the query does not match it |
| `PyStr.ReplaceWithoutOccurrence` | LoLAlyticsLauncher.py:120 | `replace` leaves text without the pattern unchanged |
| `PyStr.ReplaceSkipsPrefix` | LoLAlyticsLauncher.py:120 | a prefix where no occurrence starts is copied, and the scan resumes on the rest |
| `PyStr.ReplaceWithoutLead` | BobLauncher.py:114 | text that lacks the first character of the pattern (`{` for `"{q}"`) is copied unchanged |
| `Selector.SelectSubset` | BobLauncher.py:88 | every element the comprehension keeps comes from the list it scans |
| `Selector.Select` | LoLAlyticsLauncher.py:99 | the comprehension `[x for x in s if keep(x)]` is no longer than `s`, and every kept element passes the test |
| `Selector.SelectIsStable` | LoLAlyticsLauncher.py:99 | the comprehension is a stable selection: the k-th result is the element at the k-th passing position, positions strictly increase, and a position is used iff its element passes |
| `Selector.SelectSplit` | BobLauncher.py:113 | selecting from a concatenation is the concatenation of the selections |
| `Selector.LoadList` | LoLAlyticsLauncher.py:27-48 | `_load_list` returns no more names than the file has lines, none of them empty or with surrounding whitespace, and `[]` for a missing or unreadable file |
| `Selector.LoadListExact` | BobLauncher.py:28-31 | for a readable file the loaded list is exactly the `strip()`ped non-blank lines in file order: the k-th name is the stripped k-th non-blank line, and a line contributes iff it is not all whitespace |
| `Selector.LoadFileLines` | BobLauncher.py:28-31 | a file listing clean names one per line loads as exactly those names |
| `Selector.ExampleLoad` | BobLauncher.py:31 | a file of Ahri, Akali and Kaisa loads as those three names |
| `Selector.NormalizedQuery` | LoLAlyticsLauncher.py:98 | `entry.get().strip().lower()` has no surrounding whitespace, no upper-case letter and is no longer than the typed text |
| `Selector.FilterNames` | BobLauncher.py:86-88 | the filtered list is no longer than the source list; every entry is a name of the source list and contains the normalised query |
| `Selector.FilterNamesExact` | LoLAlyticsLauncher.py:97-99 | an all-whitespace query gives back the full list; otherwise the result is the order-preserving sublist of exactly the names whose lower-case form contains the stripped, lower-cased query |
| `Selector.EmptyQueryMatchesAll` | BobLauncher.py:88 | the special case for an empty query agrees with the comprehension, since every name contains `""` |
| `Selector.NormalizedCleanQuery` | LoLAlyticsLauncher.py:98 | a query typed without surrounding whitespace or capitals is matched as typed |
| `Selector.ExampleFilter` | LoLAlyticsLauncher.py:99 | "ka" over Ahri, Akali, Kaisa gives Akali, Kaisa in that order |
| `Selector.ExampleNarrowingFilter` | BobLauncher.py:88 | "ah" over Ahri, Akali, Kaisa gives only Ahri |
| `Selector.ClampIndex` | LoLAlyticsLauncher.py:112 | `max(0, min(len - 1, x))` is below `len` on a non-empty list; it keeps an in-range index and pins a low index to 0 and a high one to `len - 1`; it is 0 on an empty list |
| `Selector.Moves` | BobLauncher.py:99-103 | after one or more clamped moves on a non-empty list the cursor is a valid row, whatever it was before |
| `Selector.MovesPin` | BobLauncher.py:103 | k moves down from an in-range cursor end at `min(i + k, len - 1)` and k moves up at `max(i - k, 0)`: moves never wrap and pin at the boundary |
| `Selector.StaleCursorMove` | BobLauncher.py:103 | one arrow key moves a cursor that is past the end onto the last row |
| `Selector.FillSinglePlaceholder` | LoLAlyticsLauncher.py:120 | a template `pre + "{q}" + post` with no `{` outside the placeholder resolves to `pre + token + post` |
| `Selector.ButtonUrls` | LoLAlyticsLauncher.py:8-11 | for every token, both `Config.BUTTONS` templates put it in the champion segment of the build and ARAM-build URLs |
| `Selector.KaisaSumRiftUrl` | BobLauncher.py:9-12 | the summoner's-rift template with "kaisa" is `https://lolalytics.com/lol/kaisa/build/` |
| `LoLAlyticsLauncher.Token` | LoLAlyticsLauncher.py:119 | the token has the name's length and keeps every character that is not an upper-case letter, so punctuation and spaces stay |
| `LoLAlyticsLauncher.TokenExamples` | LoLAlyticsLauncher.py:119 | `"Dr. Mundo"` gives `"dr. mundo"`, `"Kai'Sa"` gives `"kai'sa"`, `"Kaisa"` gives `"kaisa"` |
| `LoLAlyticsLauncher.KaisaBuildUrl` | LoLAlyticsLauncher.py:116-120 | the summoner's-rift button for Kaisa opens her build page |
| `LoLAlyticsLauncher.ChampionSearchApp.constructor` | LoLAlyticsLauncher.py:16-24 | the filtered list is the loaded list, the listbox is empty and nothing is selected |
| `LoLAlyticsLauncher.ChampionSearchApp.FilterList` | LoLAlyticsLauncher.py:97-100 | the filtered list is the filter of the unchanged source list; the listbox shows it; the selection is row 0 if it is non-empty and absent otherwise |
| `LoLAlyticsLauncher.ChampionSearchApp.UpdateListbox` | LoLAlyticsLauncher.py:102-107 | after the insert loop the rows are exactly the filtered list, and row 0 is selected iff there is one |
| `LoLAlyticsLauncher.ChampionSearchApp.MoveSelection` | LoLAlyticsLauncher.py:109-114 | from no selection the target is 0 whatever the direction, otherwise `current + direction`; the target is clamped into the filtered list; it is selected unless the listbox is still empty; the selection stays a valid row |
| `LoLAlyticsLauncher.ChampionSearchApp.Search` | LoLAlyticsLauncher.py:116-120 | no URL without a selection; otherwise the template with every `{q}` replaced by the selected entry lower-cased |
| `LoLAlyticsLauncher.SearchScenario` | LoLAlyticsLauncher.py:97-120 | load Ahri, Akali, Kaisa; `_filter_list` with "ka"; `_move_selection(1)`; `_search(Config.BUTTONS[0][1])`: this opens `https://lolalytics.com/lol/kaisa/build/` |
| `LoLAlyticsLauncher.NothingSelectedScenario` | LoLAlyticsLauncher.py:21-24 | before the first `_filter_list` a `_move_selection` and a `_search` open nothing, whatever the file held |
| `BobLauncher.LettersOnly` | BobLauncher.py:113 | `re.sub(r"[^a-zA-Z]", "", name)` is no longer than the name and holds only ASCII letters |
| `BobLauncher.Token` | BobLauncher.py:113 | the token holds only lower-case ASCII letters and is no longer than the name |
| `BobLauncher.TokenExact` | BobLauncher.py:113 | the token is exactly the name's letters, lower-cased, in order: a position contributes iff it holds a letter |
| `BobLauncher.TokenIdempotent` | BobLauncher.py:113 | deriving the token of a token gives the same token |
| `BobLauncher.LettersSkipNonLetter` | BobLauncher.py:113 | a character outside `[a-zA-Z]` contributes nothing to the letters |
| `BobLauncher.MundoLetters` | BobLauncher.py:113 | the letters of `"Dr. Mundo"` are `"DrMundo"` |
| `BobLauncher.TokenExamples` | BobLauncher.py:112-113 | `"Kai'Sa"` gives `"kaisa"`, `"Dr. Mundo"` gives `"drmundo"`, `"Ahri"` gives `"ahri"` |
| `BobLauncher.KaisaBuildUrl` | BobLauncher.py:108-114 | the summoner's-rift URL for Kaisa's token is her build page |
| `BobLauncher.ChampionSearchApp.constructor` | BobLauncher.py:16-26 | the filtered list is the loaded list and `current_index` is 0 |
| `BobLauncher.ChampionSearchApp.FilterList` | BobLauncher.py:86-89 | the filtered list is the filter of the unchanged source list, the listbox shows it, and `current_index` is unchanged (no reset, no clamp) |
| `BobLauncher.ChampionSearchApp.UpdateListbox` | BobLauncher.py:91-94 | after the insert loop the rows are exactly the filtered list |
| `BobLauncher.ChampionSearchApp.MoveSelection` | BobLauncher.py:99-103 | on an empty list nothing changes; otherwise `current_index` becomes `clamp(current_index + direction, 0, len - 1)`, so it is in range even if it was stale |
| `BobLauncher.ChampionSearchApp.Search` | BobLauncher.py:108-114 | no URL on an empty list; `IndexError` when `current_index` is past the end; otherwise the template with every `{q}` replaced by the letters-only token |
| `BobLauncher.KaisaFiltered` | BobLauncher.py:86-89 | load Ahri, Akali, Kaisa; type "ka": the list is Akali, Kaisa and the cursor is still 0 |
| `BobLauncher.KaisaSelected` | BobLauncher.py:99-103 | then press Down: the cursor is on Kaisa |
| `BobLauncher.SearchScenario` | BobLauncher.py:108-114 | Enter then opens `https://lolalytics.com/lol/kaisa/build/` |
| `BobLauncher.TwoMovesDown` | BobLauncher.py:99-103 | before any typing, two Downs over Ahri, Akali, Kaisa put the cursor on row 2 |
| `BobLauncher.NarrowedPastCursor` | BobLauncher.py:86-103 | two Downs then typing "ah" leave a non-empty filtered list with `current_index` past its end |
| `BobLauncher.StaleIndexScenario` | BobLauncher.py:108-113 | Enter in that state raises `IndexError` |

`Selector.Buttons` is `Config.BUTTONS` (LoLAlyticsLauncher.py:8-11,
BobLauncher.py:9-12), `Selector.BuildUrl` is `url.replace("{q}", token)`
(LoLAlyticsLauncher.py:120, BobLauncher.py:114) and `PyStr.Replace` is the
`str.replace` used there. These three
are definitions only: `Selector.ButtonUrls`, `Selector.FillSinglePlaceholder`
and the `PyStr.Replace…` lemmas above state what they produce.

## Left out

- tkinter itself is not modelled: widget construction, packing, fonts,
  geometry, `-topmost`, key and button bindings, focus handling,
  `listbox.see` scrolling, and selection changed by mouse clicks. These are
  presentation.
- The placeholder text of `LoLAlyticsLauncher.py` (`_clear_placeholder`,
  `_restore_placeholder`) is not modelled; it only affects the widget's
  presentation.
- Opening and decoding `champions.txt` is a `ReadResult` parameter. The
  `messagebox.showerror` dialogs that come with each failure are not
  modelled; only the `[]` fallback is.
- `webbrowser.open` is a foreign side effect. `Search` returns the URL it
  would open.
- `PyStr.Lower`: models ASCII case mapping only. Python's `str.lower()` also
  maps non-ASCII letters, which would need Unicode tables.
- `PyStr.Replace` requires a non-empty pattern. Python also defines
  `replace` for an empty pattern, but both files always pass `"{q}"`.
- `BobLauncher.ChampionSearchApp.UpdateListbox`: does not model the
  highlight `select_set(current_index)` (BobLauncher.py:95-97). With a
  stale index, that call depends on how Tk treats an index past the end.
  The highlight never feeds back into `current_index`.
- `LoLAlyticsLauncher.ChampionSearchApp.MoveSelection`: on an empty listbox,
  Tk's `select_set(0)` is taken to select nothing. This matters before the
  first `_filter_list`, when the listbox is empty but `filtered_list` is not.
- The `IndexError` in `BobLauncher.py` is an outcome of `Search`. The model
  does not include tkinter reporting the exception and carrying on;
  `Search` changes no state in any case.
- In `LoLAlyticsLauncher.py` the Up and Down keys are bound only on the
  listbox (LoLAlyticsLauncher.py:72-73), and the entry binds only
  `<KeyRelease>`, `<Return>` and `<Shift-Return>` (LoLAlyticsLauncher.py:64-66).
  Tk's focus handling, which decides whether an arrow key reaches
  `_move_selection` or re-runs `_filter_list` through the entry's
  `<KeyRelease>`, is not modelled. The LoLAlytics scenarios are sequences of
  calls to `_filter_list`, `_move_selection` and `_search`, not keystrokes.
  `BobLauncher.py` binds Up and Down on the entry itself (BobLauncher.py:66-67).
- `MoveSelection` accepts any integer direction. The bindings only ever
  pass -1 and +1.
