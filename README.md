# osrs-json-hiscores in Dafny

This project models the deterministic core of the osrs-json-hiscores client
library. The library turns the Old School RuneScape hiscores into JavaScript
objects. The repository holds three generations of the client, and each
generation keeps its own tables:

- **The older client** (`hiscores.js`), module `LegacyClient`:
  - `parseStats` fills a pre-initialised object from fixed line indices;
  - `getPlayerStats` settles the game mode from `fetch` outcomes;
  - also `getHiscores`, `getHiscoresPage`, `getRSNFormat` and `getStats`.
- **The newer client** (`src/hiscores.js`), module `Client`:
  - `parseStats` places each non-blank line by position through a `forEach` with range cut-offs;
  - the same operations on `axios`, with a percent-encoded name lookup and cheerio cell traversal.
- **The TypeScript parser** (`src/hiscores.ts`), module `TsParser`:
  - `parseStats` classifies rows by field count;
  - it then consumes the activity list front to back with three `splice` calls.
- **The TypeScript utilities** (`src/utils/constants.ts`, `src/utils/helpers.ts`), modules `Constants`, `Bosses` and `Helpers`:
  - the game-mode address table, the skill, clue, bounty-hunter, boss and activity tables, and the formatted-name maps;
  - the error messages;
  - the address builders, the two cell readers and `validateRSN`.

Shared modules:

- `ModeCascade` holds the game-mode decision as a pure function. Both JavaScript clients use it: which records are attached, the mode reported, and the `dead` and `deironed` flags.
- `ClientCommon` holds what the two JavaScript clients share:
  - the per-mode addresses and `validModes`;
  - the skill table;
  - the argument checks of `getStats` and `getHiscores`;
  - the table selector of a hiscore page;
  - the name-lookup addresses.
- `JsBuiltins`, `Records` and `UriEncoding` give the JavaScript built-ins the source relies on, as far as the source needs them:
  - `split` / `filter` / `join`, `parseInt(s, 10)`, `String(n)`, `toLowerCase`, `slice`, `indexOf`;
  - filling an object property by property from a name table, including writes to the property `"undefined"` past the end of the table;
  - `encodeURIComponent`, UTF-8 and percent escapes.

Where the source changes state step by step, the model is imperative and each method is proved against a specification function:

- the skill loop of the older `parseStats` and its straight-line activity reads;
- the `forEach` of the newer `parseStats`;
- the in-place `splice` calls on the TypeScript activity list (a class whose `items` field each `Splice` consumes);
- the `player` object that `getPlayerStats` updates through its `switch`;
- the row loops of `getHiscoresPage`.

The newer client has two slips, listed under Findings. Every `Client` operation takes a `Reading`:

- `AsWritten` follows the code: the rogue slot is spelt "rouge", and `dead` counts every child node of the name cell;
- `Intended` follows the evident meaning: "rogue", and `dead` counts element children only.

Both versions run end to end, from the request to the parsed record or the page's entries.

Network requests, HTML parsing and selector queries are parameters:

- `fetch` maps an address to what the request resolves to;
- `marked` maps a page to its marked name cells;
- `rowsOf` maps a page to its rows of cells.

## Model

| member | source | states |
|---|---|---|
| JsBuiltins.Split | src/hiscores.js:321 | `split` always yields at least one piece, and no piece holds the separator |
| JsBuiltins.JoinSplit | src/hiscores.js:321 | joining the pieces of a split with the separator gives the text back |
| JsBuiltins.SplitJoin | src/hiscores.js:326 | splitting a join of separator-free fields gives exactly those fields |
| JsBuiltins.NonBlank | src/hiscores.js:323-324 | the filter keeps only non-empty lines, each taken from the input, and never more lines than it was given |
| JsBuiltins.NonBlankAppend | src/hiscores.ts:168-170 | filtering blank lines distributes over concatenation, so order is kept |
| JsBuiltins.NonBlankLinesJoined | src/hiscores.ts:168-170 | the non-blank lines of two texts joined by a newline are those of each text, in order |
| JsBuiltins.ExtraBlankLine | src/hiscores.ts:168-170 | a doubled newline yields the same non-blank lines as a single one |
| JsBuiltins.TrimStart | src/hiscores.ts:177-179 | parseInt's whitespace skip removes a prefix and leaves no leading whitespace |
| JsBuiltins.DigitPrefix | src/hiscores.ts:177-179 | the digits parseInt reads are the longest run of digits at the front |
| JsBuiltins.NatToDigits | src/utils/helpers.ts:47-49 | a natural number is written as one or more decimal digits |
| JsBuiltins.DecimalValueOfDigits | src/utils/helpers.ts:47-49 | the written digits of n have the value n |
| JsBuiltins.ParseIntOfString | src/hiscores.ts:177-179 | `parseInt` reads back every integer that `String` writes, negative ones included |
| JsBuiltins.ParseIntMinusOne | src/hiscores.ts:188-189 | the sentinel text "-1" reads as -1 |
| JsBuiltins.IntToStringInjective | src/utils/helpers.ts:47-49 | distinct integers are written differently |
| JsBuiltins.IntToStringIsNumeral | src/utils/helpers.ts:47-49 | a written integer is non-empty and holds only digits and '-' |
| JsBuiltins.ToLower | src/hiscores.js:78 | `toLowerCase` keeps the length and lowers each character by itself |
| JsBuiltins.SliceInner | src/hiscores.js:263 | `slice(1, -1)` drops the first and last character, and gives "" for texts shorter than two |
| JsBuiltins.ReplaceFffd | src/utils/helpers.ts:90 | every U+FFFD becomes a space, every other character and the length are kept |
| JsBuiltins.IndexOf | src/utils/helpers.ts:47-49 | `indexOf` is the first position of the item, or -1 exactly when the item is absent |
| JsBuiltins.Run | src/hiscores.ts:194-196 | a slice holds the items from its start, cut off at the end of the list |
| JsBuiltins.IndexOfDistinct | src/utils/helpers.ts:47-49 | in a duplicate-free table, `indexOf` of the item at i is i |
| JsBuiltins.IndexOfAfter | src/utils/constants.ts:145-166 | an item absent from a prefix is found after it, shifted by the prefix's length |
| JsBuiltins.DistinctAppend | src/utils/constants.ts:145-166 | two duplicate-free tables with no common item concatenate to a duplicate-free table |
| Records.AssignKeys | src/hiscores.ts:198-205 | filling by index sets the initial properties plus the one each index names |
| Records.AssignSnoc | src/hiscores.js:336-348 | one more value writes exactly the property its index names |
| Records.AssignNamed | src/hiscores.ts:198-205 | with distinct names, the value at index i is stored under the i-th name |
| Records.AssignOverflow | src/hiscores.ts:198-205 | an index past the name table writes the property "undefined", and the last such value stays |
| Records.AssignKeeps | src/hiscores.js:336-348 | a property no index writes keeps its initial value |
| Records.KeysWithinTable | src/hiscores.ts:207-214 | filling within the table sets exactly the first names |
| Records.KeysOfFullTable | src/hiscores.ts:216-223 | filling every name of the table sets each name and nothing else |
| UriEncoding.Utf8 | src/utils/helpers.ts:20 | one scalar value becomes one to four bytes, a single byte exactly for ASCII |
| UriEncoding.PercentEscapes | src/utils/helpers.ts:20 | each byte becomes a `%XX` escape, three characters that are all URI-safe |
| UriEncoding.EncodeURIComponent | src/utils/helpers.ts:20 | the encoded name holds only unreserved characters and escapes, and is never shorter |
| UriEncoding.EncodeAppend | src/utils/helpers.ts:20 | encoding distributes over concatenation |
| UriEncoding.EncodeSpace | src/utils/helpers.ts:20 | a space is written "%20" |
| UriEncoding.EncodeNameText | src/utils/helpers.ts:19-20 | over name characters `[A-Za-z0-9 _-]`, encoding changes only the spaces, each into "%20" |
| UriEncoding.UnescapeEscape | src/utils/helpers.ts:19-20 | escaping the spaces of a name can be undone |
| UriEncoding.EncodeNameInjective | src/utils/helpers.ts:19-20 | distinct names are encoded differently |
| Bosses.BossesTable | src/utils/constants.ts:76-144 | `BOSSES` lists 67 bosses, each exactly once, and every boss |
| Bosses.FormattedBossNamesTotal | src/utils/constants.ts:172-240 | every boss has a display name |
| Constants.GamemodeUrl | src/utils/constants.ts:19-30 | a mode's address is `BASE_URL`, the mode's suffix, then '/' |
| Constants.GamemodeUrlShape | src/utils/constants.ts:19-30 | every mode is in `GAMEMODE_URL`, and its entry is `BASE_URL` plus a slash-free suffix plus '/'; the suffix is empty exactly for main |
| Constants.ModeSuffixInjective | src/utils/constants.ts:19-30 | distinct modes have distinct suffixes |
| Constants.GamemodeUrlPrefixFree | src/utils/constants.ts:19-30 | an address that starts with a mode's address determines the mode and the rest |
| Constants.SkillsTable | src/utils/constants.ts:31-56 | `SKILLS` lists the 24 skills once each, overall first |
| Constants.FormattedSkillNamesTotal | src/utils/constants.ts:246-271 | every skill has a display name |
| Constants.CluesTable | src/utils/constants.ts:57-65 | `CLUES` is all, beginner, easy, medium, hard, elite, master, without repeats |
| Constants.BhModesTable | src/utils/constants.ts:66 | `BH_MODES` lists the four bounty-hunter types once each |
| Constants.FormattedClueAndBhNamesTotal | src/utils/constants.ts:277-296 | every clue tier and every bounty-hunter type has a display name |
| Constants.BossActivities | src/utils/constants.ts:165 | the spread of `BOSSES` gives one activity per boss, in order |
| Constants.FixedActivitiesTable | src/utils/constants.ts:145-164 | the activities before the bosses are 19 distinct non-boss names |
| Constants.ActivitiesTable | src/utils/constants.ts:145-166 | `ACTIVITIES` holds 86 distinct names |
| Constants.IndexOfBossActivities | src/utils/constants.ts:165 | spreading the bosses keeps each boss's position |
| Constants.ActivityIndexOfBoss | src/utils/constants.ts:145-166 | a boss's activity index is 19 plus its index in `BOSSES` |
| Constants.FixedMessagesIdentifyClass | src/utils/constants.ts:307-309 | the three fixed error messages differ, so a message names its error class |
| Helpers.StatsUrlOfName | src/utils/helpers.ts:19-20 | for a well-formed name, the stats address is `GAMEMODE_URL[g]`, `STATS_URL`, then the name with spaces as "%20" |
| Helpers.PlayerTableUrlOfName | src/utils/helpers.ts:29-32 | for a well-formed name, the player-table address is `GAMEMODE_URL[g]`, `SCORES_URL`, "table=0&user=", then the encoded name |
| Helpers.StatsUrlInjective | src/utils/helpers.ts:19-20 | the stats address determines the mode and the name |
| Helpers.PlayerTableUrlInjective | src/utils/helpers.ts:29-32 | the player-table address determines the mode and the name |
| Helpers.TableAndPageInjective | src/utils/helpers.ts:47-49 | `<table>&page=<page>` determines both numbers |
| Helpers.SkillPageUrlInjective | src/utils/helpers.ts:42-49 | different modes, skills or pages give different skill-page addresses |
| Helpers.SkillTableNumber | src/utils/helpers.ts:42-49 | the i-th skill's page is table i, and table 0 is overall |
| Helpers.ActivityPageUrlInjective | src/utils/helpers.ts:59-68 | different modes, activities or pages give different activity-page addresses |
| Helpers.ActivitiesListed | src/utils/helpers.ts:66-67 | every activity is in `ACTIVITIES`, so its index is never -1 |
| Helpers.BossPageUrl | src/utils/helpers.ts:59-68 | a boss's page is `category_type=1&table=` 19 plus its index in `BOSSES` |
| Helpers.DeleteSeparators | src/utils/helpers.ts:78 | the cleaned cell text holds no '\n', '\|' or ',' and is no longer than the cell |
| Helpers.DeleteSeparatorsAppend | src/utils/helpers.ts:78 | deleting separators works piece by piece |
| Helpers.DeleteSeparatorsKeeps | src/utils/helpers.ts:78 | text without separators is kept as it is |
| Helpers.MissingCellIsMinusOne | src/utils/helpers.ts:76-80 | a missing cell reads as -1 |
| Helpers.NumberFromFormattedCell | src/utils/helpers.ts:76-80 | a cell that is a written integer with separators anywhere reads as that integer |
| Helpers.RsnFromElement | src/utils/helpers.ts:88-91 | a missing cell gives ""; otherwise the length is kept, each U+FFFD becomes a space and every other character stays |
| Helpers.RsnFromCleanCell | src/utils/helpers.ts:88-91 | a name without U+FFFD is read unchanged |
| Helpers.ValidateRSN | src/utils/helpers.ts:112-120 | accepted exactly for 1 to 12 characters of `[A-Za-z0-9 _-]`; the character error exactly for the empty name or a bad character; the length error exactly for a clean name over 12 |
| Helpers.CharacterCheckFirst | src/utils/helpers.ts:115-118 | an over-long name with a bad character reports the character |
| Helpers.ValidNameEncoding | src/utils/helpers.ts:112-120 | a name that passes validation is encoded with only its spaces changed |
| TsParser.WithFieldCount | src/hiscores.ts:173-174 | the selected rows have exactly n fields, each taken from the input |
| TsParser.ActivityList.constructor | src/hiscores.ts:184-192 | the list starts with every activity object |
| TsParser.ActivityList.Splice | src/hiscores.ts:194-196 | `splice(0, n)` removes the first n items (fewer at the end), and removed plus remaining is the old list |
| TsParser.ParseStats | src/hiscores.ts:167-233 | the method yields the object the row specification gives |
| TsParser.StatsFromRows | src/hiscores.ts:173-232 | from the rows: skills by position, then the three splices and the three reductions |
| TsParser.SpliceActivities | src/hiscores.ts:194-196 | the three splices take the first `BH.length` activities, then the next one as lms (undefined if none), then the next `CLUES.length` |
| TsParser.RowsOfJoinedLines | src/hiscores.ts:168-171 | the rows of two payload parts joined by a newline are the rows of each part, in order |
| TsParser.BlankLineIgnored | src/hiscores.ts:168-171 | an extra blank line changes neither the rows nor the parsed object |
| TsParser.WithFieldCountAppend | src/hiscores.ts:173-192 | selection by field count distributes over concatenation |
| TsParser.OtherFieldCountDiscarded | src/hiscores.ts:173-192 | a row with neither 2 nor 3 fields changes nothing |
| TsParser.InterleavingIrrelevant | src/hiscores.ts:173-192 | swapping an adjacent skill row and activity row changes nothing |
| TsParser.SkillSlot | src/hiscores.ts:198-205 | the i-th three-field row is stored under `SKILLS[i]` |
| TsParser.OverallIsFirstSkillRow | src/hiscores.ts:198-205 | the first three-field row is stored under overall |
| TsParser.SkillOverflow | src/hiscores.ts:198-205 | three-field rows past the table go to the property "undefined", and the last stays |
| TsParser.BhSlot | src/hiscores.ts:207-214 | the i-th activity row is stored under `BH[i]` |
| TsParser.LmsSlot | src/hiscores.ts:195 | lms is the activity row right after the bounty-hunter run, undefined without one |
| TsParser.ClueSlot | src/hiscores.ts:216-223 | activity row `BH.length + 1 + i` is stored under `CLUES[i]` |
| TsParser.ExtraActivityRowsIgnored | src/hiscores.ts:194-223 | once the clue run is complete, further activity rows change nothing |
| TsParser.CompletePayloadKeys | src/hiscores.ts:225-232 | a complete payload sets exactly the skill, bounty-hunter and clue names, and lms |
| TsParser.SentinelSkillLine | src/hiscores.ts:177-179 | "-1,-1,-1" is one skill row reading -1 in rank, level and xp |
| TsParser.SentinelActivityLine | src/hiscores.ts:188-189 | "-1,-1" is one activity row reading -1 in rank and score |
| ModeCascade.SelectMode | src/hiscores.js:130-140 | hardcore exactly when iron and hc succeed; ultimate when iron and ult but not hc; iron when only iron; main exactly when iron fails |
| ModeCascade.Attached | src/hiscores.js:145-179 | main is always attached; iron for every variant; hc and ult only in their own case |
| ModeCascade.Compared | src/hiscores.js:145-179 | only attached records are compared, and the ultimate record never is |
| ModeCascade.DeironedIsMain | src/hiscores.js:161-168 | de-ironing overrides death: a de-ironed player is reported as main, and only a variant can be de-ironed |
| ModeCascade.DeadOnlyFromHardcore | src/hiscores.js:157-169 | only a selected hardcore can be dead, and a dead player is reported as iron or main |
| ModeCascade.ReportedModeAttached | src/hiscores.js:145-179 | the reported mode always has its record attached |
| ModeCascade.HardcoreXpOnlyForHardcore | src/hiscores.js:145-179 | the hardcore xp matters only for a selected hardcore |
| ModeCascade.ConsistentXpKeepsSelection | src/hiscores.js:98-103 | with equal xp everywhere, the selected mode stands and both flags stay false |
| ModeCascade.ReachableOutcomes | hiscores.js:102-183 | every reachable mode and flag combination, tied to the lookups that produce it |
| ClientCommon.ModeUrlsCoverValidModes | src/hiscores.js:4-14 | every valid mode other than full has an address |
| ClientCommon.JsSkillsTable | src/hiscores.js:16-41 | `hiscores.skills` lists 24 distinct names, overall first |
| ClientCommon.ModeNamesAreModes | src/hiscores.js:130-140 | every mode the cascade reports is a valid mode with an address |
| ClientCommon.AttachedNames | src/hiscores.js:145-179 | records keyed by the attached modes' names hold exactly the attached modes |
| ClientCommon.CheckStatsArgs | src/hiscores.js:71-83 | accepted exactly for a `[A-Za-z0-9 _]+` name of at most 12 characters and a lower-cased mode in `validModes`; the first failing check gives the message |
| ClientCommon.ClientNamesPassValidateRSN | src/hiscores.js:74-77 | a name the clients accept passes `validateRSN` too |
| ClientCommon.HyphenOnlyInValidateRSN | src/hiscores.js:74 | "a-b" passes `validateRSN` but the clients refuse it |
| ClientCommon.CheckHiscoresArgs | src/hiscores.js:207-227 | accepted exactly for a valid mode other than full, an integer page of at least 1 and a known category; otherwise the first failing check's message, each of the three errors exactly when the checks before it pass and its own fails |
| ClientCommon.SkillTableParam | src/hiscores.js:246-247 | a skill's selector is `table=` and its index |
| ClientCommon.OtherTableParam | src/hiscores.js:248 | another category's selector is `category_type=1&table=` and its index in `other` |
| ClientCommon.TableParamKind | src/hiscores.js:246-248 | the selector starts with 't' exactly for skills |
| ClientCommon.TableParamIdentifiesCategory | src/hiscores.js:246-248 | the selector determines the category among the accepted ones |
| ClientCommon.HiscoresPageUrlShape | src/hiscores.js:243-250 | a skill page's address is the mode's address, `overall.ws?`, the table, then `&page=` and the page |
| ClientCommon.EscapeSpacesIdentity | src/hiscores.js:300 | escaping spaces changes a name exactly when it holds a space |
| ClientCommon.LookupUrlsAgreeWithoutSpaces | src/hiscores.js:299-300 | for an accepted name, the encoded and the raw lookup addresses agree exactly when the name has no space |
| Client.ClientTables | src/hiscores.js:42-55 | the clue, bounty-hunter and activity tables are duplicate-free, with 7, 2 and 10 names |
| Client.OtherApartFromSkills | src/hiscores.js:44-55 | no activity category is also a skill |
| Client.ObjectsOf | src/hiscores.js:323-334 | one object per line, and object i is built from line i's comma-separated fields |
| Client.PlacedIsStatsOf | src/hiscores.js:336-348 | placing the objects one at a time gives the object described by position ranges |
| Client.ParseStats | src/hiscores.js:314-351 | the method yields the placement of the payload's non-blank line objects |
| Client.PlaceObjects | src/hiscores.js:336-348 | the `forEach` loop yields the placement of all objects, in order |
| Client.SkillLineSlot | src/hiscores.js:337-338 | under either reading, line i below 24 is stored under `skills[i]` |
| Client.BountyHunterLines | src/hiscores.js:339-340 | as intended, lines 24 and 25 are exactly the rogue and hunter slots |
| Client.RougeKeyAsWritten | src/hiscores.js:43 | as written, line 24 lands under "rouge" and "rogue" is never set |
| Client.LmsLine | src/hiscores.js:341-342 | under either reading, line 26 is lms; a shorter payload leaves lms empty |
| Client.ClueLineSlot | src/hiscores.js:343-346 | under either reading, line 27 + j is stored under `clues[j]` |
| Client.ClueOverflow | src/hiscores.js:343-346 | under either reading, lines past the clue table go to the property "undefined", and the last stays |
| Client.SkillKeys | src/hiscores.js:337-338 | under either reading, a payload of 24 lines or more sets exactly the skill names |
| Client.ClueKeys | src/hiscores.js:343-346 | under either reading, a 34-line payload sets exactly the clue tiers |
| Client.CompletePayloadKeys | src/hiscores.js:336-348 | a 34-line payload sets every skill, lms and every clue tier, and both bounty-hunter slots: "rouge" and "hunter" as written, "rogue" and "hunter" as intended |
| Client.StatObjectsOfJoinedLines | src/hiscores.js:321-324 | the objects of two payload parts joined by a newline are the objects of each part |
| Client.BlankLineIgnored | src/hiscores.js:321-324 | blank lines are dropped before positions are counted |
| Client.SingleLineObject | src/hiscores.js:325-334 | a one-line payload gives the object of its fields |
| Client.ThreeFieldLine | src/hiscores.js:328-329 | a three-field line keeps rank, level and xp as text |
| Client.TwoFieldLine | src/hiscores.js:330-331 | a two-field line is a rank and a score |
| Client.GetRSNFormat | src/hiscores.js:298-312 | succeeds exactly when the request resolves and a second marked cell has text; the result is then that text with each U+FFFD replaced by a space; any failure is "Player not found" |
| Client.OverallXpReadable | src/hiscores.js:152 | under either reading, any non-empty payload has a readable overall xp |
| Client.XpReadableCompared | src/hiscores.js:145-179 | the cascade needs exactly the xp of the compared records |
| Client.GetPlayerStats | src/hiscores.js:97-192 | under either reading, the method yields the player the specification gives, in full and in single mode |
| Client.GetFullPlayerStats | src/hiscores.js:105-181 | under either reading, the full-mode branch: main lookup, variant and name lookups, selection, switch |
| Client.SettleMode | src/hiscores.js:145-179 | under either reading, the switch yields the settled player for the selected mode, its records parsed with that reading's tables |
| Client.CompareMainIron | src/hiscores.js:152-155 | unreadable xp throws a TypeError; otherwise differing main and iron xp set `deironed` and mode main, and nothing else changes |
| Client.CompareIronHardcore | src/hiscores.js:161-164 | unreadable xp throws a TypeError; otherwise differing iron and hardcore xp set `dead` and mode iron |
| Client.CompareVariant | src/hiscores.js:149-178 | the iron and ultimate cases after attaching settle as the cascade decides |
| Client.CompareHardcore | src/hiscores.js:157-169 | the hardcore case after attaching settles as the cascade decides |
| Client.SettleIron | src/hiscores.js:149-156 | under either reading, the iron case yields the settled player |
| Client.SettleHardcore | src/hiscores.js:157-169 | under either reading, the hardcore case yields the settled player |
| Client.SettleUltimate | src/hiscores.js:170-178 | under either reading, the ultimate case yields the settled player |
| Client.GetStats | src/hiscores.js:71-83 | a failed argument check throws its message; otherwise the player for the lower-cased mode, under the reading given |
| Client.FullModeNeedsMain | src/hiscores.js:112-143 | in full mode, a main payload that is not found rejects the call |
| Client.FullModeNeedsName | src/hiscores.js:113-124 | in full mode, a failed name lookup rejects the call with "Player not found" |
| Client.AttachedKeys | src/hiscores.js:145-179 | the attached records are keyed by exactly the attached modes' names |
| Client.SettledResult | src/hiscores.js:145-181 | a settled player has the given name, the cascade's mode and flags, and exactly the attached records |
| Client.FullModeResult | src/hiscores.js:105-181 | a full-mode result has the looked-up name, the cascade's decision and exactly the attached records |
| Client.SingleModeResult | src/hiscores.js:182-191 | outside full mode, name, mode and flags stay as given, and the only record is the parse of that mode's payload |
| Client.SingleModeRougeKey | src/hiscores.js:43 | as written, a single-mode record of 26 lines or more has `bh.rouge` and no `bh.rogue` |
| Client.ProcessRow | src/hiscores.js:257-282 | succeeds exactly when the cells it reads exist; keeps mode and category; rank without its first and last character; name with U+FFFD as space; for a skill, level from cell 2 and xp from cell 3, and for any other category, score from cell 2, each without its first and last character; `dead` exactly in hardcore mode: always true as written, and true exactly when the name cell holds a second element as intended |
| Client.AsWrittenDeadAlwaysTrue | src/hiscores.js:278 | as written, every readable row is marked dead |
| Client.DeadFlagDiffers | src/hiscores.js:278 | a name cell of text, link and text: the two readings give the same entry except that it is dead as written and alive as intended |
| Client.DeadIgnoresTextNodes | src/hiscores.js:278 | with the flag as intended, text nodes around the name link never change whether a row is dead |
| Client.AsWrittenHardcorePageDead | src/hiscores.js:278 | as written, every entry of a readable hardcore page is dead |
| Client.ReadingsAgreeButDead | src/hiscores.js:257-284 | the two readings accept the same rows and give the same entries apart from `dead` |
| Client.ProcessRows | src/hiscores.js:257-284 | succeeds exactly when every row is readable; then one entry per row, in order, each that row's entry under the reading; otherwise a TypeError |
| Client.GetHiscoresPage | src/hiscores.js:242-285 | under either reading, the method yields the page the specification gives |
| Client.ProcessPage | src/hiscores.js:257-282 | under either reading, the loop yields the rows' entries |
| Client.GetHiscores | src/hiscores.js:207-227 | a failed argument check throws its message; otherwise the page for the lower-cased arguments, under the reading given |
| Client.ActivityPageTable | src/hiscores.js:246-250 | the j-th activity's page is `category_type=1&table=j` |
| LegacyClient.LegacyTables | hiscores.js:38-48 | `other` lists 9 distinct categories, none of them a skill |
| LegacyClient.SkillReadStep | hiscores.js:345-351 | one more loop pass stores line n under skill n, and the earlier reads stay |
| LegacyClient.ParseStats | hiscores.js:303-384 | the method yields the object the line specification gives, or a TypeError for a short payload |
| LegacyClient.ReadActivities | hiscores.js:353-381 | the straight-line reads yield the object of all the lines, or a TypeError at the first missing line |
| LegacyClient.SkillLines | hiscores.js:344-351 | line i below 24 is skill i, and the object holds exactly the table's skills |
| LegacyClient.ActivityLines | hiscores.js:353-381 | lines 24 to 32 are easy, medium, all, rogue, hunter, hard, lms, elite, master |
| LegacyClient.ActivityLinesFollowOtherTable | hiscores.js:38-48 | line 24 + k holds the k-th category of `other` |
| LegacyClient.LaterLinesIgnored | hiscores.js:353-383 | lines after 32 are never read |
| LegacyClient.ParsedFieldsAreText | hiscores.js:304-383 | a payload of 33 lines parses, and no field keeps its initial 0 |
| LegacyClient.LeadingBlankLineShifts | hiscores.js:344-349 | blank lines count: a leading blank line gives overall an empty rank and undefined level and xp |
| LegacyClient.ThreeFieldSkill | hiscores.js:346-349 | a three-field line is read as rank, level and xp text |
| LegacyClient.TwoFieldScore | hiscores.js:353-355 | a two-field line is read as rank and score text |
| LegacyClient.RSNFormat | hiscores.js:287-301 | a network failure rejects with it; succeeds exactly with two marked cells or more, giving the second with each U+FFFD replaced by a space and every other character kept; otherwise "Player not found" |
| LegacyClient.RSNFormatIgnoresStatus | hiscores.js:290-296 | only the body decides, not the ok flag |
| LegacyClient.OverallXpOfPayload | hiscores.js:150 | a parsed payload's overall xp is the third field of its first line |
| LegacyClient.FirstRejection | hiscores.js:108-113 | no rejection exactly when the three variant requests and the name lookup all resolve |
| LegacyClient.GetPlayerStats | hiscores.js:94-196 | the method yields the player the specification gives |
| LegacyClient.GetFullPlayerStats | hiscores.js:102-185 | the full-mode branch: main lookup, variant and name lookups, selection, switch |
| LegacyClient.SettleMode | hiscores.js:140-183 | the switch yields the settled player for the selected mode |
| LegacyClient.CompareMainIron | hiscores.js:150-153 | differing main and iron xp set `deironed` and mode main; otherwise nothing changes |
| LegacyClient.SettleIron | hiscores.js:145-154 | the iron case yields the settled player |
| LegacyClient.SettleHardcore | hiscores.js:155-170 | the hardcore case yields the settled player |
| LegacyClient.SettleUltimate | hiscores.js:171-182 | the ultimate case yields the settled player |
| LegacyClient.GetStats | hiscores.js:64-80 | a failed argument check throws its message; otherwise the player for the lower-cased mode |
| LegacyClient.FullModeNeedsMain | hiscores.js:106-138 | in full mode, a main response that is not ok throws "Player not found" |
| LegacyClient.FullModeNeedsName | hiscores.js:108-115 | in full mode, a failed name lookup rejects the whole call with its error |
| LegacyClient.AttachedKeys | hiscores.js:140-183 | the attached records are keyed by exactly the attached modes' names |
| LegacyClient.SettledResult | hiscores.js:140-185 | a settled player has the given name, the cascade's mode and flags, and exactly the attached records |
| LegacyClient.ShortAttachedPayloadThrows | hiscores.js:140-183 | any attached payload too short to parse rejects the call with a TypeError |
| LegacyClient.SingleModeResult | hiscores.js:187-195 | outside full mode, name, mode and flags stay as given and the mode's payload is the only record |
| LegacyClient.ProcessRow | hiscores.js:251-271 | succeeds exactly when the cells it reads exist; keeps mode and category; for a skill, level from cell 2 and xp from cell 3, and for any other category, score from cell 2, each without its first and last character; `dead` exactly in hardcore mode, and then true exactly when the name cell has more than one element child |
| LegacyClient.DeadCountsElements | hiscores.js:266-268 | the dead flag counts elements: text, link, text is alive; a second element is dead |
| LegacyClient.ProcessRows | hiscores.js:251-273 | succeeds exactly when every row is readable; then one entry per row, in order, each that row's entry; otherwise a TypeError |
| LegacyClient.GetHiscoresPage | hiscores.js:239-274 | the method yields the page the specification gives, whatever the status |
| LegacyClient.ProcessPage | hiscores.js:251-271 | the loop yields the rows' entries |
| LegacyClient.GetHiscores | hiscores.js:211-224 | a failed argument check throws its message; otherwise the page for the lower-cased arguments |
| LegacyClient.ActivityPageTable | hiscores.js:240-244 | the k-th activity's page is `category_type=1&table=k` |

## Left out

- Network requests (`fetch`, `axios`, `httpGet` and its User-Agent header, src/utils/helpers.ts:99-105) are the `fetch` parameter.
  - A reply is either what the request resolved to or its rejection.
  - Whether `axios` resolves or rejects on a given status depends on its configuration. `fetch` may give either, so the model covers both the status test and the rejection.
- `Promise.all` (hiscores.js:108-113, src/hiscores.js:113-122) is concurrent. The model takes the first rejection in the order the requests are listed; which rejection JavaScript reports first depends on timing.
- HTML and DOM traversal (`document.createElement`, `querySelectorAll`, cheerio) are not modelled.
  - A page is given as its marked name cells (`marked`) or its rows of cells (`rowsOf`).
  - Each cell is given by the child nodes and texts the source reads.
- `console.log` (src/hiscores.js:259) has no effect on results and is left out.
- The `typeof rsn !== 'string'` checks (hiscores.js:65, src/hiscores.js:72, src/utils/helpers.ts:113) are left out: names are strings by type here.
- Default arguments (`mode = 'full'`, `category = 'overall'`, `page = 1`) are left out; callers pass every argument.
- `src/types.ts` and `src/@types` declare types only. The parsed objects are datatypes and maps instead.
- The module `src/hiscores.ts` takes `BH` from a utilities module that is not part of this model. `TsParser` takes the bounty-hunter table as a parameter (`bhNames`).
- The error classes' prototype plumbing (src/utils/constants.ts:311-345) is left out; only their messages are modelled.
- JavaScript object key order is not modelled: objects are maps. `Object.assign` in src/hiscores.js:268-274 therefore only adds `level` and `xp`.
- `JsBuiltins.ParseInt`: integers are unbounded. Digits beyond double precision are read exactly rather than rounded, and `Infinity` is never produced.
- `JsBuiltins.ToLower`: the case mapping covers ASCII letters only. The names and modes the checks accept are ASCII.
- `UriEncoding.EncodeURIComponent`: Dafny characters are Unicode scalar values. The lone surrogates that make `encodeURIComponent` throw cannot occur, and lengths count scalar values rather than UTF-16 units.
- `ClientCommon.CheckHiscoresArgs`: `page` is a finite real or a value of another type. NaN and the infinities are not distinguished from other non-integers, which is how `Number.isInteger` treats them.
- Helpers.GetSkillPageURL, Helpers.GetActivityPageURL and Helpers.TableAndPage take `page` as an integer and write it as plain digits. src/utils/helpers.ts:42-49 and 59-68 insert any number unchecked, so a page of 1.5 or 1e21 would be written as "1.5" or "1e+21"; those pages are not modelled, and `Helpers.TableAndPageInjective`, `Helpers.SkillPageUrlInjective` and `Helpers.ActivityPageUrlInjective` hold for integer pages only.
- ClientCommon.HiscoresPageUrl, Client.GetHiscores and LegacyClient.GetHiscores write the page as its exact decimal digits. src/hiscores.js:249-250 and hiscores.js:244 concatenate the number, so JavaScript writes an integer page of 1e21 or more as "1e+21" and so on, and an integer page above 2^53 as the shortest digits that read back to the same double. Those addresses are not modelled; for pages below 2^53 the two agree.
- `LegacyClient.OverallXp`: reading the overall xp of an object without an overall property would throw. The parsed object always has one, so the model reads it as undefined there.

## Findings

| source | as written | input that shows it | evidently intended | confidence | as-written member | corrected member |
|---|---|---|---|---|---|---|
| src/hiscores.js:43 | the bounty-hunter table spells the rogue slot "rouge" | any payload of 26 lines or more: line 24 is stored under `bh.rouge` and `bh.rogue` is never set | "rogue", as in the older client's `bh.rogue` and the category name "roguebh" | not executed | Client.RougeKeyAsWritten | Client.BountyHunterLines |
| src/hiscores.js:278 | `dead` is `attributes[1].children.length > 1`, and cheerio's `children` includes text nodes | a name cell of whitespace text, the name link, whitespace text: three children, so `dead` is true for every hardcore row | count element children only, as the older client's `childElementCount > 1` does | not executed | Client.AsWrittenDeadAlwaysTrue | Client.ProcessRow |
