# Bible Plan Pro — a Dafny model of the reading-plan core

Bible Plan Pro is a one-year Bible reading application. This project models its core in Dafny and proves properties of the model:

- **The plan-file parser** (`PlanParser`). The plan file has one line per day, for example `1 Genesis(創)1-3;Matthew(太)1`. The parser:
  - reads each reading annotation `Book(中文)N`, `N-M`, `N:V` or `N:V-W` through a fixed English-name table;
  - skips blank lines and month headers;
  - numbers the days that carry readings, from 0;
  - looks a day up by its index modulo 365;
  - caches the parsed plan.
- **The Bible content service** (`BibleContent`):
  - finds a book in a loaded Bible version through the id→abbreviation table;
  - lists a chapter's verses as trimmed, numbered `Verse` records;
  - narrows a chapter to a verse window;
  - counts a chapter's verses;
  - maps a settings string to a version;
  - holds a per-version cache.
- **The golden-verse service** (`GoldenVerses`):
  - parses list lines such as `哥林多前書 13:4-5` and their `C:V(-W)` references;
  - joins the trimmed verse texts of a reference;
  - builds the golden list, skipping lines that do not parse or have no text;
  - picks the verse of the day;
  - falls back to three fixed verses;
  - keeps three caches.
- **The demo Bible service** (`BibleService`):
  - looks books up in the catalogue;
  - generates a mock day plan with one Old and one New Testament chapter per day;
  - clamps a negative day difference to day 0;
  - returns sample chapters, with ten placeholder verses for anything else. For a book missing from the catalogue, the placeholder text interpolates `undefined`, while the verse's `bookName` falls back to the id.
- **The reading view** (`ReadingView`): the title of a reading, the chapter-assembly loop, and the favourite test.
- **The application handlers** (`AppState`): the checklist toggle, the favourite toggle and removal, and the tab change. These act on a class holding the application's state fields.

Two modules model JavaScript semantics that the core relies on:

- **`JsText`** covers strings and numbers:
  - `trim` and the `\s` class, including line terminators, which `.` does not match;
  - `split`, which keeps empty pieces;
  - `includes`;
  - `parseInt`, which skips leading whitespace, accepts one sign, reads the longest digit prefix and gives NaN when there is none;
  - the truncating `%`;
  - `${n}` for integers.
- **`JsArray`** covers the array operations:
  - `filter`;
  - `findIndex`;
  - "map to an optional value and keep the present ones", the shape of every push-if-parsed loop.

`Types` holds the shared records, the book catalogue and the sample chapters.

The regular expressions are written as scanners that follow backtracking semantics:

- The lazy group `(.+?)` ends at the first split point from which the rest of the pattern matches.
- `.` stops at line terminators.

Each scanner has a shape predicate that describes a match declaratively, and an if-and-only-if lemma against it.

Each source loop is a method with loop invariants:

- `parsePlanContent`, `parseDayLine`, `getVerseText`, the `loadGoldenVerses` list loop and `loadAllChapters`.
- Each method is proved equal to a recursive specification function.
- The lemmas are stated about those specification functions.

Module caches are classes whose methods are specified in terms of the old and the new field values.

## Model

| member | source | states |
|---|---|---|
| PlanParser.SegmentMatchIffShape | services/planParser.ts:113 | the segment scanner finds a match exactly when the trimmed segment has the shape `name \s* ( non-')' ) \s* info` with nothing crossing a line terminator |
| PlanParser.ShapeIsFound | services/planParser.ts:113 | scanning from any earlier split point reaches a split point at which the shape holds (completeness of the lazy search) |
| PlanParser.ScanStopsAtPlainName | services/planParser.ts:113 | for a book name without parentheses or spaces, the lazy group ends exactly after the name |
| PlanParser.PlainSegmentMatch | services/planParser.ts:113 | `name(cn)info` matches with group 1 = the name and group 2 = the info |
| PlanParser.ParseChapterInfo | services/planParser.ts:140-169 | a colon gives one chapter with both verse bounds (equal when the verse part has no dash); no colon gives no verse bounds; neither colon nor dash gives one chapter |
| PlanParser.ChapterInfoSingleChapter | services/planParser.ts:165-169 | `N` reads back as chapter N to N, with no verses |
| PlanParser.ChapterInfoChapterRange | services/planParser.ts:160-164 | `A-B` reads back as chapters A to B, with no verses |
| PlanParser.ChapterInfoSingleVerse | services/planParser.ts:144-159 | `C:V` reads back as chapter C, verse V to V |
| PlanParser.ChapterInfoVerseRangeOf | services/planParser.ts:144-155 | `c:a-b`, for any pieces free of separators, is chapter parseInt(c) with verses parseInt(a) to parseInt(b), NaN included |
| PlanParser.ChapterInfoVerseRange | services/planParser.ts:144-155 | `C:A-B` reads back as chapter C, verses A to B |
| PlanParser.ParseReadingSegment | services/planParser.ts:101-172 | null for a blank segment, a non-matching segment or a name missing from the table; otherwise the table's id and Chinese name for the trimmed English name, with the chapter spec of the trimmed info; if-and-only-if on success |
| PlanParser.WellFormedSegment | services/planParser.ts:108-139 | a segment `name(cn)info` whose name is in the table parses to exactly that table entry plus the chapter spec of `info` |
| PlanParser.DayLineMatch | services/planParser.ts:183 | a day-line match is a prefix of the line with the shape `digits \s+ rest` |
| PlanParser.DayLineMatchIffShape | services/planParser.ts:183 | the day-line scanner matches exactly when the line has that shape |
| PlanParser.DaySegments | services/planParser.ts:193 | the pieces between `;` and `；` that are not blank, each free of both separators; every non-blank piece is kept |
| PlanParser.DaySegmentsInOrder | services/planParser.ts:193 | each non-blank piece sits between the segments kept before it and those kept after it, so the pieces keep their order |
| PlanParser.DayLineOf | services/planParser.ts:177-204 | a parsed day line has a non-negative day number and the present results of parsing each segment, in order |
| PlanParser.DayLineOfIffShape | services/planParser.ts:178-187 | a line parses as a day line exactly when its trimmed form has the day-line shape |
| PlanParser.ParseSegments | services/planParser.ts:196-201 | the push loop equals parsing every segment and keeping the successes, in order |
| PlanParser.ParseDayLine | services/planParser.ts:177-204 | the method equals the day-line specification |
| PlanParser.MonthNamesStartWithLetters | services/planParser.ts:210-217 | every month pattern starts with a non-digit |
| PlanParser.IsMonthHeader | services/planParser.ts:209-220 | a month header is non-blank once trimmed and starts with no digit |
| PlanParser.MonthHeaderIsNoDayLine | services/planParser.ts:209-220 | a month header can never parse as a day line |
| PlanParser.BlankIsNoMonthHeader | services/planParser.ts:219 | a blank line is not a month header |
| PlanParser.DayOf | services/planParser.ts:234-249 | a day always has at least one reading, and its line has a non-empty trimmed text |
| PlanParser.SkippedLinesAreNoDays | services/planParser.ts:236-239 | blank lines and month headers give no day |
| PlanParser.DayOfLine | services/planParser.ts:233-249 | the loop body, with its early `continue`, equals the day specification of the line |
| PlanParser.DayOfIffDayLine | services/planParser.ts:237-242 | a line gives a day exactly when it parses as a day line with readings, and then the day holds those readings |
| PlanParser.LinesOf | services/planParser.ts:229 | at least one line, none containing `\n` |
| PlanParser.PlansOf | services/planParser.ts:228-254 | at most one plan per line; plan i has dayIndex i, at least one reading and a non-empty raw text |
| PlanParser.ParsePlanContent | services/planParser.ts:228-254 | the loop with its running `globalDayIndex` equals the plan specification of the content's lines |
| PlanParser.PlansSkipLine | services/planParser.ts:237-239 | a line that gives no day can be deleted without changing the plans |
| PlanParser.PlansOfDayLines | services/planParser.ts:241-248 | when every line is a day, plan i is exactly line i's readings and trimmed text, with index i |
| PlanParser.PlanComesFromLine | services/planParser.ts:241-248 | every plan comes from some input line, with that line's readings and trimmed text |
| PlanParser.NormalizedDay | services/planParser.ts:285 | `Math.abs(d % 365)` with a truncating remainder is `abs(d) mod 365`, below 365 |
| PlanParser.NormalizedDayPeriodic | services/planParser.ts:285 | adding whole years does not change the normalised day |
| PlanParser.NormalizedDayMirrors | services/planParser.ts:285 | `-d` normalises like `d` (e.g. -1 gives 1, 365 gives 0) |
| PlanParser.GetPlanByDayIndex | services/planParser.ts:283-288 | the first plan whose index is the normalised day, or null exactly when no plan has it |
| PlanParser.LookupInParsedPlan | services/planParser.ts:283-288 | in a parsed plan, day d is plan number `abs(d) mod 365` when that many plans exist, else null |
| PlanParser.PlanStore.constructor | services/planParser.ts:223 | the cache starts empty |
| PlanParser.PlanStore.LoadPlanData | services/planParser.ts:260-278 | a cached plan, even an empty one, is returned unchanged; otherwise fetched content is parsed and cached; a failed fetch gives [] and caches nothing |
| PlanParser.PlanStore.ClearPlanCache | services/planParser.ts:293-295 | the cache is empty afterwards |
| BibleContent.FindBookInBible | services/bibleContentService.ts:119-126 | undefined for an id missing from the table; otherwise the first book with the table's abbreviation, undefined exactly when none has it |
| BibleContent.GetVersesFromBible | services/bibleContentService.ts:131-158 | [] for a missing book or a chapter out of range; otherwise verse i+1 is the trimmed text i, with the given id, name and chapter |
| BibleContent.GetVerseRangeFromBible | services/bibleContentService.ts:163-173 | every verse returned is a verse of the chapter inside the window |
| BibleContent.WindowIsSlice | services/bibleContentService.ts:172 | filtering verses numbered from 1 by a window gives the slice from `max(start,1)` to `min(end,n)` |
| BibleContent.VerseRangeIsSlice | services/bibleContentService.ts:163-173 | the range is exactly that slice of the chapter; an inverted window gives [] |
| BibleContent.GetChapterVerseCount | services/bibleContentService.ts:178-186 | 0 when the chapter is missing; otherwise the number of verses the chapter lists |
| BibleContent.GetVersionFromSettings | services/bibleContentService.ts:209-222 | CUV wins when it is named; NCV is chosen exactly when CUV is not named and NCV is; KJV exactly when neither is named and KJV is; CUV otherwise |
| BibleContent.CuvNamesSelectCuv | services/bibleContentService.ts:30-34 | the CUV display name and name select CUV |
| BibleContent.NcvDisplayNameSelectsNcv | services/bibleContentService.ts:30-34 | the NCV display name selects NCV |
| BibleContent.NcvNameSelectsNcv | services/bibleContentService.ts:214-216 | the NCV name selects NCV |
| BibleContent.KjvDisplayNameSelectsKjv | services/bibleContentService.ts:30-34 | the KJV display name selects KJV |
| BibleContent.KjvNameSelectsKjv | services/bibleContentService.ts:217-219 | the KJV name selects KJV |
| BibleContent.BibleCache.constructor | services/bibleContentService.ts:59 | the cache starts empty |
| BibleContent.BibleCache.GetBibleDataSync | services/bibleContentService.ts:112-114 | the cached books of a loaded version, [] otherwise |
| BibleContent.BibleCache.IsBibleVersionLoaded | services/bibleContentService.ts:191-193 | a version that is not loaded reads as no books |
| BibleContent.BibleCache.ClearBibleCache | services/bibleContentService.ts:198-204 | with a version, only that entry is removed and other versions keep their data; without one, nothing stays loaded |
| BibleContent.BibleCache.LoadBibleVersion | services/bibleContentService.ts:65-107 | a cached version is returned unchanged; a fetched one is stored under its version only; a failed fetch gives [] and changes nothing |
| GoldenVerses.ParseReference | services/goldenVerseService.ts:57-69 | without a dash in the verse part the start and end verse are equal |
| GoldenVerses.ParseSingleVerseReference | services/goldenVerseService.ts:66-68 | `C:V` reads back as chapter C, verse V to V |
| GoldenVerses.ParseVerseRangeReference | services/goldenVerseService.ts:61-65 | `C:A-B` reads back as chapter C, verses A to B |
| GoldenVerses.ReferenceBoundedByDigits | services/goldenVerseService.ts:171 | a reference the pattern accepts contains a colon and starts and ends with a digit |
| GoldenVerses.ReferenceIsTrimmed | services/goldenVerseService.ts:180 | trimming an accepted reference changes nothing |
| GoldenVerses.WellFormedReferenceIsNumeric | services/goldenVerseService.ts:57-69 | an accepted reference parses to chapter and verse numbers, never NaN |
| GoldenVerses.VerseShapeIsFound | services/goldenVerseService.ts:171 | the lazy book-name group finds the line's shape from any earlier split point |
| GoldenVerses.VerseLineMatchIffShape | services/goldenVerseService.ts:171 | the list-line scanner matches exactly when the line is `name \s+ C:V(-W)` to its end |
| GoldenVerses.ParseVerseLine | services/goldenVerseService.ts:165-182 | blank lines give null; a parsed line has a non-empty book name and a well-formed reference |
| GoldenVerses.ParseVerseLineIffShape | services/goldenVerseService.ts:165-176 | a line parses exactly when its trimmed form has the list-line shape |
| GoldenVerses.ParsedVerseLineParts | services/goldenVerseService.ts:178-181 | the book name is the trimmed text before the match's split point, and the reference is the rest of the shape |
| GoldenVerses.FindBookByName | services/goldenVerseService.ts:130-140 | undefined for a name missing from the table; otherwise the first book with its abbreviation, undefined exactly when none has it |
| GoldenVerses.TrimmedRange | services/goldenVerseService.ts:151-156 | one text for each verse from `max(start,1)` to `min(end,n)`, none for an empty window |
| GoldenVerses.TrimmedRangeAt | services/goldenVerseService.ts:151-156 | text k is the trimmed verse `max(start,1) + k`, which exists in the chapter |
| GoldenVerses.TrimmedRangeStep | services/goldenVerseService.ts:151-156 | one more verse adds its trimmed text at the end |
| GoldenVerses.VerseText | services/goldenVerseService.ts:123-159 | empty for an unknown name, a missing book, a chapter out of range or an inverted window; otherwise the trimmed verses `max(start,1)..min(end,n)` of the chapter joined with single spaces, which is empty when the start is past the chapter's end |
| GoldenVerses.CollectVerses | services/goldenVerseService.ts:147-157 | the loop that starts at the first verse and stops at the last verse or the chapter's end collects exactly the trimmed range |
| GoldenVerses.GetVerseText | services/goldenVerseService.ts:123-159 | the lookups with their early returns, the loop and the join equal the verse-text specification |
| GoldenVerses.SingleVerseText | services/goldenVerseService.ts:151-158 | a single verse inside the chapter gives its trimmed text alone |
| GoldenVerses.GoldenEntry | services/goldenVerseService.ts:206-219 | none for a line that does not parse; for a parsed line, an entry exactly when the text looked up for its reference is non-empty, holding the line's name, its reference and that text |
| GoldenVerses.LineText | services/goldenVerseService.ts:210-211 | the reference of a parsed line read as numbers and looked up with the verse-text specification |
| GoldenVerses.GoldenList | services/goldenVerseService.ts:204-220 | no more golden verses than list lines |
| GoldenVerses.GoldenListAppendLine | services/goldenVerseService.ts:206-219 | one more list line appends its entry at the end when it has one, and nothing otherwise |
| GoldenVerses.GoldenListKeepsLine | services/goldenVerseService.ts:206-219 | every line that parses and has text is kept, between the entries of the lines before it and those of the lines after it |
| GoldenVerses.GoldenVerseComesFromLine | services/goldenVerseService.ts:206-219 | every golden verse comes from a list line that parses to its name and reference, and has text |
| GoldenVerses.GoldenEntryOfLine | services/goldenVerseService.ts:207-219 | the loop body equals the entry specification |
| GoldenVerses.BuildGoldenVerses | services/goldenVerseService.ts:204-220 | the push loop equals the golden-list specification |
| GoldenVerses.VersesListLines | services/goldenVerseService.ts:85-87 | every kept line is non-empty and already trimmed, and every line that is non-empty once trimmed is kept |
| GoldenVerses.TrimmedLines | services/goldenVerseService.ts:86 | each piece of the file, trimmed, one for one |
| GoldenVerses.VersesListLinesInOrder | services/goldenVerseService.ts:85-87 | a line non-empty once trimmed sits between the lines kept before it and those kept after it, so the file order is kept |
| GoldenVerses.FallbackVersesAreWellFormed | services/goldenVerseService.ts:252-258 | three fallback verses, each with a reference the list pattern accepts and a non-empty text |
| GoldenVerses.GetDailyVerse | services/goldenVerseService.ts:235-247 | an empty list gives the first fallback verse (Psalm 119:105); otherwise a member of the list |
| GoldenVerses.DailyVersePeriodic | services/goldenVerseService.ts:245-246 | the choice repeats with the list length as period |
| GoldenVerses.DailyVerseWalksTheList | services/goldenVerseService.ts:245-246 | within the first pass, day k picks entry k |
| GoldenVerses.GoldenVerseStore.constructor | services/goldenVerseService.ts:49-51 | all three caches start empty |
| GoldenVerses.GoldenVerseStore.LoadVersesList | services/goldenVerseService.ts:74-96 | a cached list is returned unchanged; fetched text is split, trimmed, filtered and cached; a failed fetch gives []; the other caches are untouched |
| GoldenVerses.GoldenVerseStore.LoadBibleData | services/goldenVerseService.ts:101-118 | a cached Bible is returned unchanged; fetched data is cached; a failed fetch gives []; the other caches are untouched |
| GoldenVerses.GoldenVerseStore.LoadGoldenVerses | services/goldenVerseService.ts:187-230 | a cached list is returned with every cache unchanged; otherwise the list and Bible caches become what their loaders make of the old caches and the fetched files, the fallback verses come back uncached exactly when the loaded list or Bible is empty, and else the golden list of the two is returned and cached; an empty result is always what the golden cache holds afterwards |
| GoldenVerses.GoldenVerseStore.ClearGoldenVersesCache | services/goldenVerseService.ts:263-267 | all three caches are empty afterwards |
| BibleService.GetBookById | services/bibleService.ts:6-8 | a catalogue entry with that id, or undefined exactly when no entry has it |
| BibleService.OldTestamentBooks | services/bibleService.ts:22 | the Old Testament filter of the catalogue is its first eight books |
| BibleService.NewTestamentBooks | services/bibleService.ts:23 | the New Testament filter of the catalogue is its last seven books |
| BibleService.OldTestamentBookOf | services/bibleService.ts:22-25 | day n reads catalogue book `(n/10) mod 8`, an Old Testament book with chapters |
| BibleService.NewTestamentBookOf | services/bibleService.ts:23-26 | day n reads catalogue book `8 + (n/20) mod 7`, a New Testament book with chapters |
| BibleService.ReadingsOf | services/bibleService.ts:28-41 | two whole-chapter readings without verses: chapter `n mod chapters + 1` of the Old Testament book, then of the New Testament book, each within its book |
| BibleService.GetReadingForDay | services/bibleService.ts:12-43 | the day index is the normalised day, in 0..364, and the readings are the two readings of that day |
| BibleService.ReadingForDayPeriodic | services/bibleService.ts:14 | the plan repeats every 365 days |
| BibleService.ReadingForDayMirrors | services/bibleService.ts:14 | a negative day reads like its positive counterpart |
| BibleService.FirstDaysReadGenesisAndMatthew | services/bibleService.ts:22-41 | days 0 to 9 read Genesis d+1 and Matthew d+1 |
| BibleService.GetPlanForDate | services/bibleService.ts:45-55 | the day index is 0 before the start date and the day difference mod 365 after it, and the readings are the two readings of that day |
| BibleService.PlanBeforeStartIsDayZero | services/bibleService.ts:51-52 | every date before the start gets the start date's plan |
| BibleService.NameOr | services/bibleService.ts:67 | the id stands in for a missing book; a book with a non-empty name gives that name |
| BibleService.DisplayName | services/bibleService.ts:67 | the catalogue name of a book in the catalogue, and the id for a book missing from it |
| BibleService.CatalogueNamesNonEmpty | constants.ts:6-27 | every catalogue book has a non-empty name, so the display name of a catalogue book never falls back to its id |
| BibleService.Placeholder | services/bibleService.ts:65-71 | a placeholder verse has the requested id, chapter and verse number, and the book's name when it is non-empty, the id otherwise |
| BibleService.Placeholders | services/bibleService.ts:64-71 | exactly ten verses, and the verse at position i is placeholder number i+1 |
| BibleService.GetVerses | services/bibleService.ts:57-72 | the sample chapter under the key `id-chapter` when there is one; otherwise the ten placeholders for the book the catalogue gives |
| BibleService.KeySplitsAtDash | services/bibleService.ts:58 | a key whose book part has no dash and whose chapter part is digits gives back the book and chapter |
| BibleService.ChapterOfKey | services/bibleService.ts:58 | the same, with the chapter as a number |
| BibleService.SampleKeys | services/bibleService.ts:59 | the sample keys are the four `book-chapter` keys |
| BibleService.SampleKeyParts | services/bibleService.ts:58 | a key spelled like a sample key comes from that key's book id and chapter |
| BibleService.SampleKeyDetermines | services/bibleService.ts:58-60 | each sample key is produced by exactly one book id and chapter |
| BibleService.SampleChaptersMatchTheirKeys | services/bibleService.ts:59-60 | each sample chapter holds verses of the book and chapter its key names |
| BibleService.SampleChaptersAreFound | services/bibleService.ts:57-61 | every sample chapter is what `getVerses` returns for its book and chapter |
| BibleService.VersesMatchRequest | services/bibleService.ts:57-72 | every verse returned belongs to the requested book and chapter |
| ReadingView.GetDisplayTitle | components/ReadingView.tsx:41-51 | the title is empty exactly when the book is missing from the catalogue |
| ReadingView.VerseTitleReadsBack | components/ReadingView.tsx:44-47 | a verse-window title is `name c:a-b`, and the plan grammar reads `c:a-b` back as that chapter and those verses |
| ReadingView.ChapterTitleReadsBack | components/ReadingView.tsx:48 | a whole-chapter title is `name 第 c 章`, and `c` reads back as that chapter |
| ReadingView.RangeTitleReadsBack | components/ReadingView.tsx:50 | a range title is `name s-e 章`, and `s-e` reads back as that range |
| ReadingView.ShownVerses | components/ReadingView.tsx:61-66 | without the window condition, a chapter's verses come back unchanged; with it, exactly the fetched verses inside the window are shown |
| ReadingView.ShownVersesInOrder | components/ReadingView.tsx:63-65 | a fetched verse inside the window sits between the shown verses fetched before it and those fetched after it, so fetch order is kept |
| ReadingView.ChapterEntry | components/ReadingView.tsx:68-70 | a chapter gets an entry exactly when it shows a verse |
| ReadingView.ChaptersUpTo | components/ReadingView.tsx:60-71 | entries have strictly increasing chapters within the range, each with a verse; an empty range gives none |
| ReadingView.AllChapters | components/ReadingView.tsx:60-71 | chapterStart > chapterEnd gives no chapters |
| ReadingView.LoadAllChapters | components/ReadingView.tsx:58-73 | the loop equals the assembly specification |
| ReadingView.ChapterAppearsIff | components/ReadingView.tsx:60-71 | a chapter appears exactly when it is in the range and shows a verse, and then it carries the verses shown |
| ReadingView.WholeChaptersWithoutWindow | components/ReadingView.tsx:63-66 | without the window condition, every entry is the whole fetched chapter |
| ReadingView.IsFavorited | components/ReadingView.tsx:85-89 | true exactly when some favourite matches on book, chapter and verse |
| AppState.ToggleCheck | App.tsx:83-90 | the key becomes ticked exactly when it was not; a present key is true; every other key and value is unchanged |
| AppState.ToggleCheckTwice | App.tsx:83-90 | toggling twice restores a checklist whose values are all true |
| AppState.ToggleCheckTwiceDropsFalse | App.tsx:86-87 | a `false` entry is not restored: it ends up deleted |
| AppState.ToggleFavorite | App.tsx:107-120 | the first matching favourite is removed, or the verse is appended; the length changes by exactly one |
| AppState.ToggleAddsMissing | App.tsx:117-118 | a verse not yet favourited becomes a favourite, placed last |
| AppState.ToggleFavoriteTwice | App.tsx:107-120 | with no match, toggling twice restores the list |
| AppState.RemoveFavorite | App.tsx:122-124 | no matching favourite remains, and the list does not grow |
| AppState.RemoveKeepsOthers | App.tsx:123 | every favourite that is another verse survives |
| AppState.RemoveFavoriteSplitsAt | App.tsx:123 | a favourite that is another verse sits between the survivors before it and those after it, so the survivors keep their order and their repeats |
| AppState.RemoveFavoriteIdempotent | App.tsx:122-124 | removing twice equals removing once |
| AppState.RemoveMissingIsIdentity | App.tsx:122-124 | removing a verse that is not a favourite changes nothing |
| AppState.RemoveAfterToggle | App.tsx:107-124 | removal after a toggle leaves what removal alone leaves |
| AppState.AppShell.constructor | App.tsx:29-51 | home tab, no ticks, no favourites, no targets |
| AppState.AppShell.HandleToggleCheck | App.tsx:83-90 | copying and editing the map equals the toggle; the other fields are unchanged |
| AppState.AppShell.HandleToggleFavorite | App.tsx:107-120 | the favourites become the toggled list; the other fields are unchanged |
| AppState.AppShell.HandleRemoveFavorite | App.tsx:122-124 | the favourites become the filtered list; the other fields are unchanged |
| AppState.AppShell.HandleTabChange | App.tsx:126-135 | the tab is set and the reading target cleared; the Bible target is cleared unless the tab is the Bible tab; the checklist and favourites are unchanged |

## Left out

- Network and asynchronous loading are parameters:
  - each `fetch` result is an `Option`, where `None` is a failed request;
  - promises, `try/catch` and the in-flight coalescing of `loadBibleVersion` (`loadingPromises`) are not modelled.
- `getVersesAsync` is not part of this model. `ReadingView.tsx` imports it, but `services/bibleService.ts` does not define it. The per-chapter fetch of `loadAllChapters` is a function parameter of the chapter number, with the book and version fixed.
- Date arithmetic is not modelled (`parseISO`, `differenceInDays`, the day of the year). `GetPlanForDate` takes the day difference as an integer, and `GetDailyVerse` takes the day of the year as a natural number.
- Not modelled: `console` diagnostics, React rendering and effects, `localStorage` persistence, toasts, `handleFavoriteClick`, the navigation handlers other than the tab change, and the presentational components.
- JavaScript numbers are unbounded integers:
  - fractional values, `Infinity` and overflow to floating point are not modelled;
  - NaN is modelled only where `parseInt` produces it;
  - the reading view and the handlers work on the integer chapter numbers of the shared `Reading` record, so a NaN chapter from the plan parser is not carried into them.
- Object-literal lookups see their own entries only. `BOOK_MAPPING` is a lookup by cases (`BookMapping`); `BOOK_ID_TO_ABBREV`, `BOOK_NAME_TO_ABBREV` and `MOCK_BIBLE_CONTENT` are maps. Names inherited from `Object.prototype` (such as `constructor`) would be found by JavaScript; the model does not capture them.
- Strings are sequences of code points, not UTF-16 code units. The whitespace set of `trim` and `\s` is written out; case-insensitive month matching lower-cases ASCII letters only, which is exact for the English month names.
- GoldenVerses.ParseReference: requires a colon in the reference. Without one the source throws a `TypeError`, and its only caller passes references that the list pattern has already checked.
- BibleContent.BibleCache.LoadBibleVersion: the unknown-version branch is not represented, because the version is a closed datatype of the three versions `BIBLE_VERSIONS` lists.
- Per-name facts about the 66- and 67-entry tables (for example that `Genesis` maps to `Gen`) are not stated one by one. The segment lemmas hold for every name in the table.
