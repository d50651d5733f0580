# ledmatrix-of-the-day, modelled in Dafny

The "of the day" plugin for an LED matrix shows one item per category each
day: a word, a fact or a quote, looked up by the ordinal day of the year in
a JSON dataset per category. The plugin rotates between the enabled
categories, and for each one between a title screen (a centred, underlined
title and a wrapped subtitle) and a content screen (the same header and a
wrapped description). Bitmap fonts are drawn glyph by glyph. Helper scripts
save, upload and create datasets, and register, unregister and toggle
categories in the main configuration.

This project models:

- the plugin's display engine (`manager.py`):
  - the greedy word wrapper;
  - the two-timer rotation state machine;
  - the day resolver and its refresh rule;
  - the layout arithmetic of both screens;
  - the bitmap glyph rasteriser.
- the helper scripts, as functions from the already-parsed request and configuration to an outcome:
  - `update_config.py`, `toggle_category.py`, `save_file.py`, `upload_file.py` and `create_file.py`.

It then proves what these promise:
- the wrapper loses no word and keeps lines within the budget;
- rotation is fair and stays in range;
- adding a category is idempotent, and removing it undoes the add;
- a toggle inverts, and two toggles restore the flag;
- the save and upload checks accept exactly datasets keyed by days 1..365, and the created template is one of them;
- across files, on 31 December of a leap year the plugin looks up day 366, which no accepted dataset has, so it shows the no-data screen.

Modules, one per file:
- `Wrappers`: the `Option` type.
- `PyStr`: the Python string built-ins used, on `seq<char>`. These are `split`, `' '.join`, `strip`, `replace`, `title`, `isalnum`, `int(str)` and `str(int)`.
- `JsonValue`: parsed JSON values. Objects are ordered member lists, so dict insertion order is kept.
- `Calendar`: dates and `tm_yday`.
- `TextWrap`: `_wrap_text`.
- `Glyphs`: the FreeType path of `_draw_bdf_text`.
- `Layout`: `_display_title` and `_display_content`.
- `Rotation`: the rotation step of `display`.
- `Plugin`: the plugin object, its constructor, `_load_todays_items`, `update` and `display`.
- `DayFile`: the dataset checks shared by the save and upload scripts.
- `CategoryNaming`: the name derivations of the upload and create scripts.
- `ConfigUpdate`, `ToggleCategory`, `SaveFile`, `UploadFile` and `CreateFile`: one per script.
- `LeapDay`: the cross-file fact about day 366.

Where a loop or an in-place update appears in the source, the model has a `method` with the loop or the updates. Each is proved equal to a specification function, and the properties are proved about that function. Examples:
- `WrapText` and `Wrap`;
- `LoadTodaysItems` and `Resolve`;
- `AddCategoryToConfig` and `AddCategory`;
- `BuildTemplate` and `Template`.

The plugin's fields that `display`, `update` and `_load_todays_items` change are fields of the class `OfTheDayPlugin`. The glyph loops plot into an `array2` canvas.

Two behaviours of the code to note:
- **A stale category index is not clamped.** When the list of eligible categories shrinks below the stored index, and the category timer does not fire, `enabled_categories[self.current_category_index]` raises. The handler then shows the error screen (`Rotation.TickStaleIndex`).
- **`update` needs both conditions.** It reloads the items only when `update_interval` has elapsed since the last check AND the date has changed. It does not reload when either one alone holds (`Plugin.OfTheDayPlugin.Update`).

## Model

| member | source | states |
|---|---|---|
| TextWrap.Wrap | manager.py:258-304 | An empty text wraps to the single blank line; any other text to at most `max_lines` lines. |
| TextWrap.WrapText | manager.py:258-304 | The word loop, its early exit at the line cap, the flush of the open line and the final slice compute exactly the wrapped lines `Wrap` specifies. |
| TextWrap.WrapWord | manager.py:265-299 | One turn of the word loop: a fitting word joins the open line; otherwise the open line is flushed and the word starts a new one; otherwise the word is emitted cut down. |
| TextWrap.TruncateWord | manager.py:283-299 | The shrinking loop returns the same line as the longest-fit specification of a cut-down word. |
| TextWrap.ShortenLongestFit | manager.py:283-299 | A cut-down word is `prefix + "..."`. The prefix is the longest non-empty prefix whose ellipsised form fits; when no prefix fits, it is the word's first ten characters. |
| TextWrap.Shorten | manager.py:283-299 | The truncation loop from a prefix of length n ends with at least the ellipsis and at most the whole word plus the ellipsis. |
| TextWrap.Ellipsize | manager.py:283-299 | The line emitted for a word too wide for an empty line is a prefix of the word followed by `...`. |
| TextWrap.Step | manager.py:266-299 | After a word too wide for an empty line, the open line stays empty. A step finishes at most one line and keeps the lines finished before. |
| TextWrap.SliceTo | manager.py:304 | `lines[:n]` is a prefix of the lines, of length `min(n, len)` for a non-negative `n`. |
| TextWrap.StepGood | manager.py:276-299 | A step keeps two facts. Every finished line measured within the budget or is a single word. An open line of two or more words measured within the budget. |
| TextWrap.FeedGood | manager.py:265-301 | The whole word loop keeps the same two facts. |
| TextWrap.WrapLinesFit | manager.py:276-304 | Every wrapped line either measured within the pixel budget or is a single word, possibly cut down. A line that joins two words always fits. |
| TextWrap.BlankTextWrapsToNothing | manager.py:260-264 | A non-empty text of whitespace only wraps to no lines at all, not to a blank line. |
| TextWrap.StepKeepsWords | manager.py:276-281 | A step with a line open keeps a line open, and the joined words equal the words seen so far. |
| TextWrap.FeedKeepsWords | manager.py:265-301 | Below the cap, the loop keeps a line open, and the joined lines give back the words consumed followed by the rest. |
| TextWrap.FeedKeepsAllWords | manager.py:264-303 | Starting from an empty state with a first word that fits, the flushed output joins back to all the words. |
| TextWrap.WrapKeepsWords | manager.py:264-303 | When the first word fits and there are no more words than the cap, the lines joined by single spaces equal `' '.join(text.split())`. No word is lost, duplicated or reordered. |
| TextWrap.ShortenNoSpace | manager.py:283-299 | Cutting down a word without whitespace gives a line without whitespace. |
| PyStr.Split | manager.py:264 | `str.split()` yields only non-empty words free of whitespace. |
| PyStr.TrimLeftSuffix | scripts/create_file.py:20 | Stripping on the left keeps a suffix of the text. |
| PyStr.TrimRightPrefix | scripts/create_file.py:20 | Stripping on the right keeps a prefix of the text. |
| PyStr.ReplaceChar | scripts/upload_file.py:80 | Replacing `_` by a space keeps the length and changes exactly the underscore positions. |
| PyStr.DeleteCharKeepsOthers | scripts/create_file.py:31 | Deleting every `_` keeps exactly the other characters. The result is empty exactly when the name is all underscores. |
| PyStr.ReplaceAbsent | scripts/upload_file.py:79 | `s.replace(pat, rep)` leaves a text in which `pat` does not occur unchanged. |
| PyStr.OccursFirstChar | scripts/save_file.py:29 | When a pattern occurs in a text, its first character is in the text. |
| PyStr.OccursChar | scripts/save_file.py:29 | For a one-character pattern, substring search is membership of that character. |
| PyStr.TitleFrom | scripts/upload_file.py:80 | `str.title()` keeps the length. It upper-cases a letter that follows an uncased character and lower-cases one that follows a cased character. |
| PyStr.NatToStringValue | manager.py:181 | The decimal digits of `str(n)` have the value `n`. |
| PyStr.ParseNatToString | scripts/save_file.py:57 | `int(str(n)) == n` for every natural number. |
| PyStr.ParseIntToString | scripts/save_file.py:57 | `int(str(i)) == i` for every integer, negative ones included. |
| PyStr.NatToStringInjective | scripts/create_file.py:51-52 | Different day numbers give different keys. |
| Calendar.DayOfYear | manager.py:176 | `tm_yday` is 1..365, or 1..366 in a leap year. It is 366 exactly on 31 December of a leap year, and 365 on 31 December of another year. |
| JsonValue.Get | manager.py:183-184 | A lookup finds a value exactly when the key is among the dict's keys. |
| JsonValue.FalsyValues | scripts/save_file.py:21 | The falsy values are exactly None, False, 0, the empty string, the empty list and the empty dict. |
| JsonValue.PyIn | scripts/save_file.py:29 | `key in container` raises exactly when the container is not a dict, a list or a string. For a dict it tests the keys. The empty string is in every string. |
| JsonValue.Set | scripts/update_config.py:39-45 | After `d[k] = v`, `k` maps to `v` and every other key maps as before. The key keeps its position when present and goes last when new. |
| JsonValue.Delete | scripts/update_config.py:67-68 | `del d[k]` leaves every other key's value and adds no key. An absent key changes nothing. |
| JsonValue.DeleteRemovesKey | scripts/update_config.py:67-68 | In a dict, `del d[k]` leaves a dict that has no `k`. |
| JsonValue.SetKeepsDistinct | scripts/update_config.py:39-43 | Assignment keeps the keys distinct. |
| JsonValue.SetTwice | scripts/update_config.py:39-43 | Assigning a key twice is the same as assigning it once with the second value. |
| JsonValue.SetSame | scripts/update_config.py:45 | Assigning a key the value it already holds changes nothing. |
| JsonValue.SetAppends | scripts/create_file.py:51-56 | Assigning a key the dict lacks appends it at the end. |
| JsonValue.DeleteAfterAppend | scripts/update_config.py:39-43 | Deleting a key just added to a dict that lacked it gives back the dict. |
| JsonValue.GetAt | scripts/create_file.py:51-56 | In a dict, looking up the key at a position finds that position's value. |
| JsonValue.FirstIndex | scripts/update_config.py:73-74 | The first position of `x` in a list: it holds `x`, and no earlier position does. |
| JsonValue.RemoveFirst | scripts/update_config.py:73-74 | `list.remove(x)` deletes exactly the element at the first position of `x` and keeps the rest in order, so the list is one shorter. |
| JsonValue.RemoveFirstAfterAppend | scripts/update_config.py:49-50 | Removing a name just appended to a list that lacked it gives back the list. |
| Glyphs.Shift6 | manager.py:326 | `v >> 6` is the whole number of pixels of a 26.6 value, rounded down, negative values included. |
| Glyphs.ByteAt | manager.py:344-346 | A byte index inside the buffer reads that byte, and one past the end skips the pixel. A negative index counts from the end, as in Python, or skips the pixel when Python raises. |
| Glyphs.GlyphInksAt | manager.py:341-350 | Bit (i, j) of a glyph lands on pixel (pen + left + j, baseline - top + i), and nothing else does. |
| Glyphs.GlyphInks | manager.py:341-350 | A pixel plotted by a glyph lies inside the glyph's box of `width` columns and `rows` rows. |
| Glyphs.PackedBitmapHasEveryByte | manager.py:344-345 | When the rows are packed without gaps and the buffer holds every row, no pixel is skipped. |
| Glyphs.PlotBit | manager.py:343-356 | One inner-loop turn plots exactly the pixel of bit (i, j) when it is set and on the canvas. Every other pixel is unchanged. |
| Glyphs.DrawGlyph | manager.py:341-356 | The row and column loops plot exactly the on-canvas pixels that are images of set bits, in the colour. Every other pixel is unchanged. |
| Glyphs.DrawText | manager.py:322-357 | The character loop plots exactly what the glyphs plot, on the baseline `y + (ascender >> 6)`. Each glyph starts at the pen position advanced by the earlier glyphs' `advance.x >> 6`. |
| Glyphs.AdvanceConcat | manager.py:357 | The pen advance over a concatenation is the sum of the advances. |
| Glyphs.TextInksConcat | manager.py:332-357 | Drawing `a + b` plots what `a` plots and what `b` plots from the pen position after `a`, and nothing else. |
| Glyphs.TextInksSomeGlyph | manager.py:332-357 | Every pixel a text plots is plotted by one of its glyphs, drawn at the pen position after the glyphs before it. |
| Glyphs.GlyphOfPrefixInks | manager.py:332-357 | A glyph of a prefix of the text is drawn at the same place as in the whole text. |
| Layout.CenterX | manager.py:419 | `(width - text_width) // 2` centres a text: the right margin equals the left one or exceeds it by one pixel. |
| Layout.SubtitleGap | manager.py:441-443 | The subtitle gap is at least 2. It is exactly 2 when fewer than 4 rows are free, and otherwise half the free rows, rounded down. |
| Layout.BodySpacing | manager.py:544-552 | The description's rows above are at least 2. The rows between lines are at least 1 for several lines and 0 for one line. A block that does not fit gets 4 and 1. |
| Layout.BodySpacingSplit | manager.py:544-548 | When the block fits, the rows above are 30% of the free rows, rounded down, or 2 when that is less than 2. The rows between lines are 70% of the free rows shared over the gaps, rounded down, or 1 when that is less than 1. |
| Layout.BodySpacingWithinSlack | manager.py:544-548 | When no minimum applies, the rows handed out above and between the lines never exceed the free rows. |
| Layout.FieldOr | manager.py:401 | A chained `.get` with no keys yields the default. When the first key is present, it yields that key's value. |
| Layout.FieldOrFirstPresent | manager.py:401-405 | Whatever its position, the first key present gives the value. |
| Layout.FieldOrNonePresent | manager.py:505 | The default is used when none of the keys is present. |
| Layout.NonBlank | manager.py:437 | The comprehension keeps no more lines than it is given. |
| Layout.NonBlankKeeps | manager.py:437 | A line is kept exactly when it is one of the wrapped lines and is not blank. |
| Layout.Header | manager.py:418-430 | Exactly two operations. First the title at `CenterX` of its width on the top margin, in the title colour. Then the underline, in the same colour, from the title's x over exactly the title's width, one row below the title's height. |
| Layout.Placed | manager.py:448-462 | A block has one draw operation per line. |
| Layout.PlaceLines | manager.py:556-575 | The line loop and its `current_y` steps produce exactly one centred line per row of the block, `pitch` rows apart. |
| Layout.PlacedPitch | manager.py:446-462 | Lines are centred. The first is at the start row, and each next one exactly `pitch` rows lower. |
| Layout.SubtitleLines | manager.py:435-437 | At most three subtitle lines are drawn. |
| Layout.BodyLines | manager.py:533-536 | At most ten description lines are drawn. |
| Layout.SubtitleBlockLayout | manager.py:439-462 | Subtitle lines are centred. The first is the subtitle gap plus one row below the underline, so at least three rows. Each next one is a line height plus one row lower. |
| Layout.BodyBlockLayout | manager.py:538-575 | Description lines are centred. The first is the rows above plus two below the underline, so at least four. Each next one is a line height plus the rows between lines lower, so lines never overlap. |
| Layout.SubtitleBlockIsPlaced | manager.py:443-446 | A non-empty subtitle block is its lines placed from the gap's start row, a line height plus one row apart. |
| Layout.BodyBlockIsPlaced | manager.py:544-556 | A non-empty description block is its lines placed from the spacing's start row, at its pitch. |
| Layout.TitleView | manager.py:366-405 | The title screen is never the no-data screen. An item that is not a dict gives the error screen. A drawn screen had a string title. |
| Layout.TitleScreen | manager.py:409-462 | The error screen appears exactly when the title is not a string, or the subtitle is truthy but not a string. A drawn screen is the header then at most three lines, and only the header for a falsy subtitle. |
| Layout.ContentView | manager.py:466-506 | The content screen is never the no-data screen. An item that is not a dict gives the error screen. A drawn screen had a string title. |
| Layout.ContentScreen | manager.py:506-575 | The error screen appears exactly when the title is not a string, or the description is neither a string nor the empty list. A drawn screen is the header then at most ten lines, and only the header for an empty list. |
| Layout.TitleViewShape | manager.py:366-464 | A drawn title screen is the header followed by at most three subtitle lines. |
| Layout.ContentViewShape | manager.py:466-577 | A drawn content screen is the header followed by at most ten description lines. |
| Layout.ViewsShareHeader | manager.py:518-530 | Both screens of an item draw the title at the top margin and the underline in the same places. |
| Layout.DisplayTitle | manager.py:366-464 | The lookups, the header, the gap and the line loop produce the title view of the item, or the error screen where the code raises. |
| Layout.DisplayContent | manager.py:466-577 | The lookups, the header, the spacing and the line loop produce the content view of the item, or the error screen where the code raises. |
| Rotation.EnabledFlag | manager.py:224 | A category absent from the configuration counts as enabled. |
| Rotation.Eligible | manager.py:222-224 | The eligible list is never longer than the order list. |
| Rotation.EligibleMembers | manager.py:222-224 | The eligible list holds exactly the names of the order list that have an item today and are enabled. |
| Rotation.EligibleConcat | manager.py:222-224 | Filtering keeps the configured order. Filtering a concatenation concatenates the filtered parts. |
| Rotation.ListIndex | manager.py:239 | An index in range reads that element. One past the end raises, and a negative one counts from the end. |
| Rotation.RotateCategory | manager.py:232-236 | When the category timer fires, the index moves to the next category (in range), the mode resets to the title screen and both clocks restart. Otherwise nothing changes. |
| Rotation.RotateMode | manager.py:244-246 | When the screen timer fires, the mode flips and its clock restarts. The category fields never change. |
| Rotation.Tick | manager.py:216-252 | No items: the no-data screen and no change. A shown screen is the one of the mode stored afterwards. When nothing is shown, the screen clock and the mode are unchanged. |
| Rotation.TickShowsEligible | manager.py:222-239 | A shown category is one of the eligible categories. |
| Rotation.TickNoData | manager.py:216-228 | The no-data screen is shown exactly when there are no items or no eligible category, and then no field changes. |
| Rotation.TickCategorySwitch | manager.py:232-252 | On a category switch, the next eligible category is shown, its index is in range and both clocks restart. The title screen is shown unless the screen interval is not positive. |
| Rotation.TickStaleIndex | manager.py:237-256 | Without a switch, the error screen is shown exactly when the stored index is past the end of the eligible list, and no field changes. |
| Rotation.TickModeFlip | manager.py:244-252 | Without a switch, the mode stays in {0, 1} and flips exactly when the screen timer fires. The screen shown is the one of the new mode. |
| Rotation.SwitchesIsModular | manager.py:233 | After k switches over an unchanged list of n categories, the index is `(i + k) mod n`. |
| Rotation.SwitchesStep | manager.py:233 | One more switch adds one to the index, modulo the number of categories. |
| Rotation.RunSwitches | manager.py:216-252 | Over calls at least the category interval apart, with an unchanged non-empty eligible list, k calls leave the index at `Switches(i, k, n)`, and both clocks at the last call's time. |
| Rotation.SwitchesVisitAll | manager.py:233 | Rotation is fair: every eligible category comes up within n switches. |
| Plugin.NumberSetting | manager.py:51-53 | A missing setting takes its default. A present number is taken as it is. |
| Plugin.Strings | manager.py:57 | A list of strings is read element by element. |
| Plugin.ReadSettings | manager.py:51-57 | With none of the settings present, the defaults are 3600, 20 and 10 seconds, no categories and an empty order. |
| Plugin.EntryFor | manager.py:181-184 | A dataset yields an entry for a key exactly when it is an object holding the key, and the entry is that value. |
| Plugin.Resolve | manager.py:178-184 | Today's items are only ever keyed by loaded categories. |
| Plugin.ResolveGet | manager.py:172-188 | A category has an item exactly when its dataset holds an entry for the day, and the item is that entry. |
| Plugin.ResolveDistinct | manager.py:173-184 | Today's items form a dict: their category keys are distinct. |
| Plugin.OfTheDayPlugin.constructor | manager.py:45-86 | The settings are stored, the clocks start at `now` on the first category's title screen, and today's items are loaded. |
| Plugin.OfTheDayPlugin.LoadTodaysItems | manager.py:165-191 | When today's items are already loaded, nothing changes. Otherwise the day is recorded and the items become exactly the resolved entries of every dataset for `str(tm_yday)`. The clocks are untouched. |
| Plugin.OfTheDayPlugin.Update | manager.py:193-207 | Within `update_interval` of the last check nothing changes. Otherwise the check time is recorded, and the items are reloaded only when the day has changed. |
| Plugin.OfTheDayPlugin.Rotate | manager.py:216-252 | The rotation statements of `display` move the four fields as `Tick` says and pick its screen. |
| Plugin.OfTheDayPlugin.Display | manager.py:209-256 | `display` moves the clocks as `Tick` says and draws the frame of its pick. The items and the day are untouched. |
| Plugin.Render | manager.py:216-256 | The no-data screen, the error screen, or the picked screen of the picked category's item. |
| Plugin.FrameOf | manager.py:216-256 | The no-data screen appears exactly for the no-data pick, and the error screen for a failure. A category without an item would be drawn from `{}`, with the title "N/A"; this clause is defensive, since `display` only picks categories that have an item. |
| DayFile.KeyProblem | scripts/save_file.py:55-69 | A key passes exactly when it is a day number 1..365. A non-number gets the invalid-key message, and an out-of-range number the out-of-range message. |
| DayFile.IsDayKey | scripts/save_file.py:55-63 | A day key never parses to 0 or to 366. |
| DayFile.FirstBadKey | scripts/save_file.py:55-69 | The key loop stops at the first key that is not a day number. Every key before it is one. |
| DayFile.CheckDataset | scripts/save_file.py:37-69 | A content is accepted exactly when it parses to an object whose keys are all day numbers, and the object is kept unchanged. Otherwise the first failing check, in order, decides the message. |
| DayFile.DayKeyOfDay | scripts/save_file.py:57-63 | `str(n)` passes exactly for 1..365. Day 0 and days after 365 get the out-of-range message. |
| DayFile.StripKeepsCharacters | scripts/save_file.py:57 | Stripping adds no character. |
| DayFile.KeyWithoutDigitIsInvalid | scripts/save_file.py:64-69 | A key without a digit is rejected as an invalid key. |
| DayFile.AcceptedHasNoDay366 | scripts/save_file.py:58 | An accepted dataset has no key for day 366. |
| SaveFile.Save | scripts/save_file.py:17-79 | The checks run in order: required, then traversal, then the content checks. The first failure decides the message. Only a request passing all of them saves the parsed object unchanged. |
| SaveFile.Traverses | scripts/save_file.py:29 | A name with `/` or `\` is refused. A refused name holds a `.`, a `/` or a `\`. |
| SaveFile.TraversesJson | scripts/save_file.py:29 | On a string, the guard is the string guard. On a number, a bool or null, `in` raises. On a list, the guard tests for the three strings as elements. |
| SaveFile.SaveInput | scripts/save_file.py:16-44 | Unparsable input gives the parser's message. A non-dict request raises. A falsy field is required. A guard that raises, a non-string content, or a non-string name reaching the path join raise. String fields run the string checks. |
| SaveFile.ListFilenameRaises | scripts/save_file.py:29-74 | A list file name without the guarded strings passes the guard, and a valid content then reaches the path join, which raises. |
| SaveFile.SavedIsDataset | scripts/save_file.py:29-74 | A saved file has a name free of `..`, `/` and `\`, and only keys 1..365, so it has no entry for day 366. |
| CategoryNaming.DataFilePath | scripts/upload_file.py:85 | The registered data file is the file name under `of_the_day/`. |
| CategoryNaming.CategoryName | scripts/upload_file.py:79 | A file name without `.json` is its own category name. |
| CategoryNaming.DefaultDisplayName | scripts/upload_file.py:80 | The default display name has the length of the name. |
| CategoryNaming.CategoryNameDropsEach | scripts/upload_file.py:79 | Every occurrence of `.json` is removed, not only the suffix. |
| CategoryNaming.CategoryNameOfFile | scripts/upload_file.py:79 | The category of `name.json` is `name` when the name itself does not contain `.json`. |
| CategoryNaming.AbsentFirstNoOccurrence | scripts/upload_file.py:79 | A pattern whose first character is missing from a text does not occur in it. |
| CategoryNaming.DefaultDisplayNameShape | scripts/upload_file.py:80 | The default display name keeps the length, turns each underscore into a space and upper-cases a lower-case letter at the start or after an underscore. |
| UploadFile.Upload | scripts/upload_file.py:19-92 | The checks run in order: required, then the `.json` suffix, then the content checks. Nothing raises. An accepted upload registers the name without `.json` under `of_the_day/<file>` exactly when the registration succeeds. The success message is `File <name> uploaded successfully`. Otherwise the registration failure is reported after the file is written, naming the requested file and carrying the parsed data written to it. |
| UploadFile.UploadInput | scripts/upload_file.py:18-46 | Unparsable input gives the parser's message. A non-dict request raises. A falsy field is required. A non-string name raises at `.endswith`, and a non-string content at `json.loads`. String fields run the string checks. |
| UploadFile.UploadRegisters | scripts/upload_file.py:79-85 | After an upload, the category is registered enabled with its data file and listed in the order. |
| UploadFile.UploadTakesParentPath | scripts/upload_file.py:31-36 | The upload makes no path check. A name climbing out of the data directory is taken when the content is valid, while the save script refuses it. |
| CreateFile.Create | scripts/create_file.py:19-72 | An empty stripped name, a name not alphanumeric once underscores are removed, and an existing file (with the "already exists" message) are refused in that order. Nothing raises. Otherwise the 365-day template is written, and the stripped name is registered with its file exactly when the registration succeeds. The success message is `File <name>.json created successfully`. Otherwise the registration failure is reported with the template written. |
| CreateFile.CreateInput | scripts/create_file.py:18-23 | Unparsable input gives the parser's message. A non-dict request and a non-string name raise at `.strip()`. A missing name is required. A string name runs the string checks. |
| CreateFile.BuildTemplate | scripts/create_file.py:50-56 | The template loop builds exactly the keys "1".."365" in order, each with the empty entry. |
| CreateFile.Template | scripts/create_file.py:50-56 | The template has 365 entries, each the empty entry. |
| CreateFile.TemplateUpTo | scripts/create_file.py:51-56 | The first n template entries are the days 1..n in order, each with the empty entry. |
| CreateFile.TemplateGrows | scripts/create_file.py:51-52 | Each pass of the loop appends the next day. |
| CreateFile.TemplateLacksNext | scripts/create_file.py:51-52 | Before the pass for a day, the template has no key for it. |
| CreateFile.ValidCategoryNameChars | scripts/create_file.py:31 | A name is valid exactly when it is not all underscores and every other character is a letter or a digit. |
| CreateFile.TemplateDistinct | scripts/create_file.py:50-56 | The template's keys are distinct. |
| CreateFile.TemplateKeysAreDays | scripts/create_file.py:51 | Every template key is the canonical rendering of a day 1..365. |
| CreateFile.DaysAreTemplateKeys | scripts/create_file.py:51 | Every canonical rendering of a day 1..365 is a template key. |
| CreateFile.TemplateEntry | scripts/create_file.py:52-56 | Each day 1..365 maps to `{title: "", subtitle: "", description: ""}`. |
| CreateFile.TemplateHasNoLaterDay | scripts/create_file.py:51 | No day after 365 has an entry. |
| CreateFile.TemplateAccepted | scripts/create_file.py:50-56 | The created template passes the checks of the save and upload scripts. |
| CreateFile.UnderscoresOnlyRefused | scripts/create_file.py:31-36 | A name of underscores only is refused. |
| CreateFile.CreatedRegisters | scripts/create_file.py:65 | A created category is registered, enabled, with `of_the_day/<name>.json` as its data file. |
| CreateFile.CreatedFileNamesCategory | scripts/create_file.py:38 | A valid name never contains `.json`, so the upload rule recovers it from its file name. |
| ConfigUpdate.AppendIfAbsent | scripts/update_config.py:48-51 | A list gains the name at its end only when it lacks it. Afterwards the name is in the list. |
| ConfigUpdate.AddCategory | scripts/update_config.py:28-55 | The add saves exactly when the section and the mapping are objects and the order list accepts the name. |
| ConfigUpdate.AddCategoryToConfig | scripts/update_config.py:28-55 | The add's statements, one dictionary update at a time, save the configuration `AddCategory` specifies. |
| ConfigUpdate.AddRegisters | scripts/update_config.py:33-54 | The entry becomes exactly `{enabled: True, data_file, display_name}`, and the name is appended only when absent. Every other category, section key and configuration key is unchanged. |
| ConfigUpdate.AddIdempotent | scripts/update_config.py:39-51 | Adding the same category twice saves what adding it once saved. |
| ConfigUpdate.RemoveCategory | scripts/update_config.py:57-79 | Nothing is saved exactly when the section is missing or empty. |
| ConfigUpdate.RemoveCategoryFromConfig | scripts/update_config.py:57-79 | The removal's statements save the configuration `RemoveCategory` specifies. |
| ConfigUpdate.RemoveShape | scripts/update_config.py:66-78 | A saving removal replaces the section by the old one with the name deleted from the mapping and its first occurrence removed from the list, where present. |
| ConfigUpdate.RemoveUnregisters | scripts/update_config.py:61-78 | A removal changes no other category and leaves an absent name's mapping as it was. It changes nothing else in the section or the configuration. |
| ConfigUpdate.RemoveForgetsCategory | scripts/update_config.py:67-68 | After removal, a mapping with distinct keys has no entry for the name. |
| ConfigUpdate.RemoveListed | scripts/update_config.py:66-75 | Removing a registered and listed name deletes it from the mapping and its first occurrence from the list. |
| ConfigUpdate.AddThenRemove | scripts/update_config.py:39-75 | For a name absent from both, an add followed by a removal restores the mapping and the list. |
| ToggleCategory.ReadParams | scripts/toggle_category.py:16-21 | Empty standard input, after stripping, is the empty request. Anything else is parsed. |
| ToggleCategory.EntryOf | scripts/toggle_category.py:51-55 | An entry is found only for a name registered in an object mapping of a present section. |
| ToggleCategory.NewFlag | scripts/toggle_category.py:62-69 | An explicit `enabled` decides the flag by its truth value. Otherwise the stored flag's truth value is inverted, and a missing flag gives disabled. |
| ToggleCategory.Toggle | scripts/toggle_category.py:16-93 | Unparsable input, a missing name and an unloadable configuration give their messages, in that order. A non-object request or configuration crashes. Otherwise the outcome is `ToggleIn` on the request, the name and the configuration, and a toggle happens only for a string name. |
| ToggleCategory.ToggleIn | scripts/toggle_category.py:51-93 | A non-object section crashes. A category missing from the mapping is reported not found. A registered one is toggled with the new flag written into its entry. |
| ToggleCategory.SetEnabled | scripts/toggle_category.py:62-74 | The assignment statements choose the flag by the rule and write it back through the mapping and the section. |
| ToggleCategory.WithFlag | scripts/toggle_category.py:72-74 | Writing the flag back adds and removes no configuration key. |
| ToggleCategory.EmptyInputNeedsName | scripts/toggle_category.py:17-35 | Empty standard input is refused for lack of a category name. |
| ToggleCategory.WithFlagViews | scripts/toggle_category.py:72-74 | After the assignment the section holds the mapping with the updated entry. |
| ToggleCategory.WithFlagChangesOnlyFlag | scripts/toggle_category.py:72-74 | Only `categories[name]['enabled']` changes. Every other entry key, category, section key and configuration key is kept. |
| ToggleCategory.WithFlagEntry | scripts/toggle_category.py:72 | The category's entry becomes the old entry with its flag set. |
| ToggleCategory.ToggleInverts | scripts/toggle_category.py:66-72 | Without an explicit value, a toggle stores the inverted flag, a missing flag reading as enabled. |
| ToggleCategory.ToggleTwiceRestores | scripts/toggle_category.py:66-72 | Two toggles without an explicit value restore the original flag, a missing flag reading as enabled. |
| LeapDay.TemplateIsAccepted | scripts/create_file.py:50-56 | The created template is a dataset the save and upload scripts accept. |
| LeapDay.LeapYearEndKey | manager.py:176-181 | On 31 December of a leap year the plugin looks up the key "366". |
| LeapDay.AcceptedHasNoLeapDayEntry | scripts/upload_file.py:57-71 | An accepted dataset has no entry for "366". |
| LeapDay.ResolveNothing | manager.py:178-188 | When no dataset has an entry for the key, the day has no items. |
| LeapDay.LeapYearEndShowsNoData | manager.py:216-218 | With only accepted datasets loaded, 31 December of a leap year has no items. The plugin shows the no-data screen without moving any clock. |

## Left out

- Reading and writing files, standard input and output, and `sys.exit`: the scripts are modelled from their already-parsed request to an outcome carrying the value that would be written.
- `_load_data_files` and `_find_data_file` (file lookup): the loaded datasets are given to the constructor.
- `load_config` and `save_config`: the configuration is the already-loaded object.
- `json.loads` itself: the parser is a parameter (`string -> Parsed`).
- The existence test of the create script: the existing file names are a set parameter.
- PIL and FreeType calls, font loading and font registration (`_register_fonts`): these are foreign libraries. Text measure and font heights are parameters of `Screen`, and glyph bitmaps and metrics are plain data in a `Face`.
- The native PIL text path and the fallback to the default font in `_draw_bdf_text`: these are foreign drawing calls.
- `_display_no_data` and `_display_error`: image construction only. They are the frames `NoDataFrame` and `ErrorFrame`.
- `get_info`, `get_display_duration` and `cleanup`: trivial getters and teardown.
- The clock and the calendar: `time.time()` and `date.today()` become the parameters `now` and `today`.
- Plugin.OfTheDayPlugin.constructor: both rotation clocks start at one `now`, where the source reads the clock twice.
- Logging: it has no effect on state.
- Layout.BodySpacing, Layout.BodySpacingSplit: `int(extra * 0.3)` and `int(extra * 0.7 / (n - 1))` are floating point in the source and floor division on integers here. Float rounding can differ where the exact quotient is a whole number.
- Plugin.ReadSettings: yields None for a setting value that is not a JSON number (a bool or a string, say), which the plugin would carry around unchecked. The model does not follow such a value into the arithmetic, where Python would raise for a string and would compute with a bool as 0 or 1.
- Plugin.ReadSettings: also yields None for a `categories` that is not an object, a `category_order` that is not a list, and a `category_order` element that is not a string. Python would go on in each case: `display` skips a number in the order at `cat in self.current_items`, iterates a string order character by character, and raises on a list element (unhashable).
- JsonValue.Get: a dict lookup returns the value of the first occurrence of a key. The `parse` parameter may return an object with a key repeated, which `json.loads` never does (it keeps the last value), so for such a parser result the model reads a different value than Python would.
- TextWrap.WrapKeepsWords: states the word-preservation property under the sufficient condition "no more words than the line cap", not under "the cap is never reached".
- PyStr: `str.title`, `str.isalnum`, `isdigit` and the digits of `int()` are modelled for ASCII letters and digits only. The whitespace of `split` and `strip` is Python's full set.
- ToggleCategory.ToggleIn: for a category name that is not a string, only the object mapping is modelled as Python evaluates it. Against an object mapping, a number or a boolean is reported not found, and a list or a dict (unhashable) counts as an uncaught exception. Against any other mapping, a non-string name counts as an uncaught exception, although Python's `in` on a list compares by equality and reports not found (the name `5` with the mapping `["x"]`, say).
- The measurement fallbacks (`len(text) * 6`, `getbbox`) and the font-height fallback of 8: the measure and the heights are parameters, so whichever applies is what is passed in.
- Layout.TitleScreen, Layout.ContentScreen: a title that is a list or a dict goes to the error screen. In the source its width falls back to `len(title) * 6` when measuring raises, so whether the screen draws depends on the foreign measure and draw calls.
- SaveFile.SaveInput, UploadFile.UploadInput, CreateFile.CreateInput: the outcomes `SaveRaised`, `UploadRaised` and `CreateRaised` stand for an exception reported by the outer handler. The text of that message (`str(e)`) is not modelled.
- Glyphs.Advance, Glyphs.TextInks: definitions only. Their properties are stated in `AdvanceConcat`, `TextInksConcat`, `TextInksSomeGlyph` and the pen invariant of `DrawText`.
- Rotation.Run: a definition only (the calls of `display` in sequence). Its property is stated in `RunSwitches`.
