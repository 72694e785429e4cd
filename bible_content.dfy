/**
 * Access to a loaded Bible version: the book table that maps the app's
 * book ids to the abbreviations of the Bible files, chapter and verse
 * selection over a loaded version, the settings-to-version mapping and the
 * per-version cache.
 */
module BibleContent {

  import opened JsText
  import opened JsArray
  import opened Types

  /** One book of a Bible file: its abbreviation and its chapters, each a list of verse texts. */
  datatype BibleBook = BibleBook(abbrev: string, chapters: seq<seq<string>>)

  /** The three versions the app ships. */
  datatype BibleVersion = ZhCuv | ZhNcv | EnKjv

  datatype BibleVersionInfo = BibleVersionInfo(id: BibleVersion, name: string, displayName: string, file: string)

  const BIBLE_VERSIONS: seq<BibleVersionInfo> := [
    BibleVersionInfo(ZhCuv, "和合本", "和合本 (CUV)", "bible/zh_cuv.json"),
    BibleVersionInfo(ZhNcv, "新譯本", "新譯本 (NCV)", "bible/zh_ncv.json"),
    BibleVersionInfo(EnKjv, "KJV", "King James Version", "bible/en_kjv.json")
  ]

  /** The app's book ids -> the abbreviations used by the Bible files. */
  const BOOK_ID_TO_ABBREV: map<string, string> := map[
    "Gen" := "gn", "Exo" := "ex", "Lev" := "lv", "Num" := "nm", "Deu" := "dt", "Jos" := "js",
    "Jdg" := "jg", "Rut" := "rt", "1Sa" := "1sm", "2Sa" := "2sm", "1Ki" := "1kgs", "2Ki" := "2kgs",
    "1Ch" := "1ch", "2Ch" := "2ch", "Ezr" := "ezr", "Neh" := "ne", "Est" := "et", "Job" := "jb",
    "Psa" := "ps", "Pro" := "prv", "Ecc" := "ec", "Sng" := "so", "Isa" := "is", "Jer" := "jr",
    "Lam" := "lm", "Ezk" := "ez", "Dan" := "dn", "Hos" := "ho", "Jol" := "jl", "Amo" := "am",
    "Oba" := "ob", "Jon" := "jn", "Mic" := "mi", "Nam" := "na", "Hab" := "hk", "Zep" := "zp",
    "Hag" := "hg", "Zec" := "zc", "Mal" := "ml", "Mat" := "mt", "Mar" := "mk", "Luk" := "lk",
    "Joh" := "jo", "Act" := "act", "Rom" := "rm", "1Co" := "1co", "2Co" := "2co", "Gal" := "gl",
    "Eph" := "eph", "Php" := "ph", "Col" := "cl", "1Th" := "1ts", "2Th" := "2ts", "1Ti" := "1tm",
    "2Ti" := "2tm", "Tit" := "tt", "Phm" := "phm", "Heb" := "hb", "Jas" := "jm", "1Pe" := "1pe",
    "2Pe" := "2pe", "1Jn" := "1jo", "2Jn" := "2jo", "3Jn" := "3jo", "Jud" := "jd", "Rev" := "re"
  ]

  // ---------------------------------------------------------------------
  // Selecting from a loaded version
  // ---------------------------------------------------------------------

  /** Whether a book of the file carries the given abbreviation. */
  function HasAbbrev(abbrev: string): BibleBook -> bool
  {
    (b: BibleBook) => b.abbrev == abbrev
  }

  /**
   * `findBookInBible`: nothing for a book id without an abbreviation,
   * otherwise the first book of the file with that abbreviation, if any.
   */
  function FindBookInBible(books: seq<BibleBook>, bookId: string): (r: Option<BibleBook>)
    ensures bookId !in BOOK_ID_TO_ABBREV ==> r.None?
    ensures r.Some? ==> r.value in books && r.value.abbrev == BOOK_ID_TO_ABBREV[bookId]
    ensures r.Some? ==> exists k ::
      && 0 <= k < |books|
      && books[k] == r.value
      && forall m :: 0 <= m < k ==> books[m].abbrev != r.value.abbrev
    ensures bookId in BOOK_ID_TO_ABBREV ==>
      (r.None? <==> forall k :: 0 <= k < |books| ==> books[k].abbrev != BOOK_ID_TO_ABBREV[bookId])
  {
    if bookId !in BOOK_ID_TO_ABBREV then None
    else
      var k := FindIndex(books, HasAbbrev(BOOK_ID_TO_ABBREV[bookId]));
      if k == -1 then None else Some(books[k])
  }

  /** The verse texts of a chapter, numbered from 1; nothing for an unknown book or a chapter out of range. */
  function ChapterTexts(books: seq<BibleBook>, bookId: string, chapter: int): Option<seq<string>>
  {
    match FindBookInBible(books, bookId)
    case None => None
    case Some(book) =>
      if chapter - 1 < 0 || chapter - 1 >= |book.chapters| then None
      else Some(book.chapters[chapter - 1])
  }

  /**
   * `getVersesFromBible`: the verses of one chapter, numbered 1..n in file
   * order and trimmed; empty when the book is missing or the chapter lies
   * outside 1..(number of chapters).
   */
  function GetVersesFromBible(books: seq<BibleBook>, bookId: string, chapter: int, bookName: string): (r: seq<Verse>)
    ensures FindBookInBible(books, bookId).None? ==> r == []
    ensures (FindBookInBible(books, bookId).Some? &&
             !(1 <= chapter <= |FindBookInBible(books, bookId).value.chapters|)) ==> r == []
    ensures ChapterTexts(books, bookId, chapter).Some? ==>
      var texts := ChapterTexts(books, bookId, chapter).value;
      && |r| == |texts|
      && forall i :: 0 <= i < |r| ==>
        r[i] == Verse(bookId, bookName, chapter, i + 1, Trim(texts[i]))
    ensures forall i :: 0 <= i < |r| ==> r[i].verse == i + 1 && r[i].chapter == chapter
  {
    match ChapterTexts(books, bookId, chapter)
    case None => []
    case Some(texts) =>
      seq(|texts|, i requires 0 <= i < |texts| => Verse(bookId, bookName, chapter, i + 1, Trim(texts[i])))
  }

  /** `getVerseRangeFromBible`: the verses of the chapter that lie in the window, in order. */
  function GetVerseRangeFromBible(
    books: seq<BibleBook>, bookId: string, chapter: int,
    verseStart: int, verseEnd: int, bookName: string): (r: seq<Verse>)
    ensures forall k :: 0 <= k < |r| ==>
      verseStart <= r[k].verse <= verseEnd && r[k] in GetVersesFromBible(books, bookId, chapter, bookName)
  {
    Filter(GetVersesFromBible(books, bookId, chapter, bookName), InWindow(verseStart, verseEnd))
  }

  /** Verses numbered 1..n in order. */
  ghost predicate NumberedFromOne(vs: seq<Verse>)
  {
    forall i :: 0 <= i < |vs| ==> vs[i].verse == i + 1
  }

  /** On verses numbered 1..n the window keeps the slice from `max(start, 1)` to `min(end, n)`. */
  lemma {:induction false} WindowIsSlice(vs: seq<Verse>, verseStart: int, verseEnd: int)
    requires NumberedFromOne(vs)
    ensures var lo, hi := Max(verseStart, 1), Min(verseEnd, |vs|);
      Filter(vs, InWindow(verseStart, verseEnd)) == if lo <= hi then vs[lo - 1..hi] else []
    decreases |vs|
  {
    if vs != [] {
      var init, last := vs[..|vs| - 1], vs[|vs| - 1];
      var keep := InWindow(verseStart, verseEnd);
      assert NumberedFromOne(init) by {
        forall i | 0 <= i < |init|
          ensures init[i].verse == i + 1
        {
          assert init[i] == vs[i];
        }
      }
      assert last.verse == |vs|;
      WindowIsSlice(init, verseStart, verseEnd);
      assert Filter(vs, keep) == if keep(last) then Filter(init, keep) + [last] else Filter(init, keep);
      var lo, hi := Max(verseStart, 1), Min(verseEnd, |vs|);
      if keep(last) {
        SliceExtend(vs, lo - 1, |vs| - 1);
        SliceOfInit(vs, lo - 1, |vs| - 1);
      } else if lo <= hi {
        assert hi == Min(verseEnd, |init|);
        SliceOfInit(vs, lo - 1, hi);
      }
    }
  }

  function Max(a: int, b: int): int { if a >= b then a else b }

  function Min(a: int, b: int): int { if a <= b then a else b }

  /**
   * The range is exactly the stretch of the chapter from verse
   * `max(start, 1)` to verse `min(end, n)`: an inverted window gives
   * nothing and a window past the end is cut at the last verse.
   */
  lemma VerseRangeIsSlice(
    books: seq<BibleBook>, bookId: string, chapter: int,
    verseStart: int, verseEnd: int, bookName: string)
    ensures var all := GetVersesFromBible(books, bookId, chapter, bookName);
      var lo, hi := Max(verseStart, 1), Min(verseEnd, |all|);
      GetVerseRangeFromBible(books, bookId, chapter, verseStart, verseEnd, bookName)
      == if lo <= hi then all[lo - 1..hi] else []
    ensures verseStart > verseEnd ==>
      GetVerseRangeFromBible(books, bookId, chapter, verseStart, verseEnd, bookName) == []
  {
    WindowIsSlice(GetVersesFromBible(books, bookId, chapter, bookName), verseStart, verseEnd);
  }

  /** `getChapterVerseCount`: the number of verses of the chapter; 0 when the book or chapter is missing. */
  function GetChapterVerseCount(books: seq<BibleBook>, bookId: string, chapter: int): (n: nat)
    ensures ChapterTexts(books, bookId, chapter).None? ==> n == 0
    ensures forall bookName :: n == |GetVersesFromBible(books, bookId, chapter, bookName)|
  {
    match FindBookInBible(books, bookId)
    case None => 0
    case Some(book) =>
      if chapter - 1 < 0 || chapter - 1 >= |book.chapters| then 0
      else |book.chapters[chapter - 1]|
  }

  // ---------------------------------------------------------------------
  // Settings
  // ---------------------------------------------------------------------

  predicate NamesCuv(s: string) { Contains(s, "和合本") || Contains(s, "CUV") }

  predicate NamesNcv(s: string) { Contains(s, "新譯本") || Contains(s, "NCV") }

  predicate NamesKjv(s: string) { Contains(s, "KJV") || Contains(s, "King James") }

  /**
   * `getVersionFromSettings`: the version the settings string names, tested
   * in the order CUV, NCV, KJV; the Chinese Union Version otherwise.
   */
  function GetVersionFromSettings(settingsVersion: string): (v: BibleVersion)
    ensures NamesCuv(settingsVersion) ==> v == ZhCuv
    ensures v == ZhNcv <==> !NamesCuv(settingsVersion) && NamesNcv(settingsVersion)
    ensures v == EnKjv <==> !NamesCuv(settingsVersion) && !NamesNcv(settingsVersion) && NamesKjv(settingsVersion)
    ensures v == ZhCuv <==> NamesCuv(settingsVersion) || !(NamesNcv(settingsVersion) || NamesKjv(settingsVersion))
  {
    if NamesCuv(settingsVersion) then ZhCuv
    else if NamesNcv(settingsVersion) then ZhNcv
    else if NamesKjv(settingsVersion) then EnKjv
    else ZhCuv
  }

  /** The Chinese Union Version's names, and the app's default setting, select it. */
  lemma CuvNamesSelectCuv()
    ensures GetVersionFromSettings(BIBLE_VERSIONS[0].displayName) == BIBLE_VERSIONS[0].id == ZhCuv
    ensures GetVersionFromSettings(BIBLE_VERSIONS[0].name) == ZhCuv
  {
    assert OccursAt("和合本 (CUV)", "和合本", 0);
    assert OccursAt("和合本", "和合本", 0);
  }

  /** The New Chinese Version's display name selects it. */
  lemma NcvDisplayNameSelectsNcv()
    ensures GetVersionFromSettings(BIBLE_VERSIONS[1].displayName) == BIBLE_VERSIONS[1].id == ZhNcv
  {
    var display := BIBLE_VERSIONS[1].displayName;
    MissingCharExcludes(display, "和合本", 0);
    MissingCharExcludes(display, "CUV", 1);
    assert OccursAt(display, "新譯本", 0);
  }

  /** The New Chinese Version's short name selects it. */
  lemma NcvNameSelectsNcv()
    ensures GetVersionFromSettings(BIBLE_VERSIONS[1].name) == ZhNcv
  {
    var name := BIBLE_VERSIONS[1].name;
    MissingCharExcludes(name, "和合本", 0);
    MissingCharExcludes(name, "CUV", 0);
    assert OccursAt(name, "新譯本", 0);
  }

  /** The King James Version's display name selects it. */
  lemma KjvDisplayNameSelectsKjv()
    ensures GetVersionFromSettings(BIBLE_VERSIONS[2].displayName) == BIBLE_VERSIONS[2].id == EnKjv
  {
    var display := BIBLE_VERSIONS[2].displayName;
    MissingCharExcludes(display, "和合本", 0);
    MissingCharExcludes(display, "CUV", 0);
    MissingCharExcludes(display, "新譯本", 0);
    MissingCharExcludes(display, "NCV", 1);
    assert OccursAt(display, "King James", 0);
  }

  /** The King James Version's short name selects it. */
  lemma KjvNameSelectsKjv()
    ensures GetVersionFromSettings(BIBLE_VERSIONS[2].name) == EnKjv
  {
    var name := BIBLE_VERSIONS[2].name;
    MissingCharExcludes(name, "和合本", 0);
    MissingCharExcludes(name, "CUV", 0);
    MissingCharExcludes(name, "新譯本", 0);
    MissingCharExcludes(name, "NCV", 0);
    assert OccursAt(name, "KJV", 0);
  }

  // ---------------------------------------------------------------------
  // The per-version cache
  // ---------------------------------------------------------------------

  /**
   * The module-level map from version to loaded books. The fetched file is
   * a parameter of `LoadBibleVersion`: `None` stands for a failed request.
   */
  class BibleCache {
    var entries: map<BibleVersion, seq<BibleBook>>

    constructor()
      ensures entries == map[]
    {
      entries := map[];
    }

    /** `getBibleDataSync`: the cached books, or empty when the version is not loaded. */
    function GetBibleDataSync(version: BibleVersion): (r: seq<BibleBook>)
      reads this
      ensures version in entries ==> r == entries[version]
      ensures version !in entries ==> r == []
    {
      if version in entries then entries[version] else []
    }

    /** `isBibleVersionLoaded`: whether the cache holds the version; the synchronous read finds books only in one that is loaded. */
    predicate IsBibleVersionLoaded(version: BibleVersion)
      reads this
      ensures !IsBibleVersionLoaded(version) ==> GetBibleDataSync(version) == []
    {
      version in entries
    }

    /** `clearBibleCache`: one version when given, every version otherwise. */
    method ClearBibleCache(version: Option<BibleVersion>)
      modifies this
      ensures version.Some? ==> entries == old(entries) - {version.value}
      ensures version.Some? ==> !IsBibleVersionLoaded(version.value) && GetBibleDataSync(version.value) == []
      ensures version.Some? ==> forall v :: v != version.value ==> GetBibleDataSync(v) == old(GetBibleDataSync(v))
      ensures version.None? ==> entries == map[] && forall v :: !IsBibleVersionLoaded(v)
    {
      if version.Some? {
        entries := entries - {version.value};
      } else {
        entries := map[];
      }
    }

    /**
     * `loadBibleVersion`: the cached books when the version is loaded;
     * otherwise the fetched books, now cached, or empty when the request
     * failed, leaving the cache as it was.
     */
    method LoadBibleVersion(version: BibleVersion, fetched: Option<seq<BibleBook>>) returns (books: seq<BibleBook>)
      modifies this
      ensures version in old(entries) ==> books == old(entries)[version] && entries == old(entries)
      ensures version !in old(entries) && fetched.Some? ==>
        books == fetched.value && entries == old(entries)[version := fetched.value]
      ensures version !in old(entries) && fetched.None? ==> books == [] && entries == old(entries)
      ensures fetched.Some? ==> IsBibleVersionLoaded(version)
    {
      if version in entries {
        return entries[version];
      }
      if fetched.None? {
        return [];
      }
      books := fetched.value;
      entries := entries[version := books];
    }
  }
}
