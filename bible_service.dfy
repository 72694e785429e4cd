/**
 * The demo Bible service: book lookup in the catalogue, the generated
 * one-year plan (an Old and a New Testament chapter per day), the clamp
 * of a day difference onto that plan, and verse lookup in the sample
 * chapters with numbered placeholders for everything else.
 */
module BibleService {

  import opened JsText
  import opened JsArray
  import opened Types
  import PlanParser

  // ---------------------------------------------------------------------
  // The catalogue
  // ---------------------------------------------------------------------

  function HasId(id: string): Book -> bool
  {
    (b: Book) => b.id == id
  }

  /** The first book of `books` with that id, if any. */
  function FirstWithId(books: seq<Book>, id: string): (r: Option<Book>)
    ensures r.Some? ==> r.value in books && r.value.id == id
    ensures r.None? <==> forall k :: 0 <= k < |books| ==> books[k].id != id
  {
    var k := FindIndex(books, HasId(id));
    if k == -1 then None else Some(books[k])
  }

  /** `getBookById`: the first catalogue entry with that id, if any. */
  function GetBookById(id: string): (r: Option<Book>)
    ensures r.Some? ==> r.value in BIBLE_BOOKS && r.value.id == id
    ensures r.None? <==> forall k :: 0 <= k < |BIBLE_BOOKS| ==> BIBLE_BOOKS[k].id != id
  {
    FirstWithId(BIBLE_BOOKS, id)
  }

  predicate IsOldTestament(b: Book) { b.testament == OT }

  predicate IsNewTestament(b: Book) { b.testament == NT }

  /** The catalogue lists the eight Old Testament books first. */
  lemma OldTestamentBooks()
    ensures Filter(BIBLE_BOOKS, IsOldTestament) == BIBLE_BOOKS[..8]
  {
    var ot, nt := BIBLE_BOOKS[..8], BIBLE_BOOKS[8..];
    assert BIBLE_BOOKS == ot + nt;
    FilterAppend(ot, nt, IsOldTestament);
    FilterKeepsAll(ot, IsOldTestament);
    FilterDropsAll(nt, IsOldTestament);
    assert ot + [] == ot;
  }

  /** The seven New Testament books follow them. */
  lemma NewTestamentBooks()
    ensures Filter(BIBLE_BOOKS, IsNewTestament) == BIBLE_BOOKS[8..]
  {
    var ot, nt := BIBLE_BOOKS[..8], BIBLE_BOOKS[8..];
    assert BIBLE_BOOKS == ot + nt;
    FilterAppend(ot, nt, IsNewTestament);
    FilterDropsAll(ot, IsNewTestament);
    FilterKeepsAll(nt, IsNewTestament);
    assert [] + nt == nt;
  }

  /** Every catalogue book has at least one chapter. */
  lemma CatalogueChaptersPositive()
    ensures forall k :: 0 <= k < |BIBLE_BOOKS| ==> BIBLE_BOOKS[k].chapters > 0
  {
  }

  /** Every catalogue book has a name. */
  lemma CatalogueNamesNonEmpty()
    ensures forall k :: 0 <= k < |BIBLE_BOOKS| ==> BIBLE_BOOKS[k].name != []
  {
  }

  // ---------------------------------------------------------------------
  // The generated plan
  // ---------------------------------------------------------------------

  /** One reading of a whole chapter. */
  function ChapterReading(bookId: string, chapter: int): Reading
  {
    Reading(bookId, chapter, chapter, None, None)
  }

  /** The Old Testament book of normalised day `n`: it advances every 10 days through the eight books. */
  function OldTestamentBookOf(n: nat): (b: Book)
    ensures b == BIBLE_BOOKS[(n / 10) % 8]
    ensures b.testament == OT && b.chapters > 0
  {
    var otBooks := Filter(BIBLE_BOOKS, IsOldTestament);
    OldTestamentBooks();
    CatalogueChaptersPositive();
    otBooks[(n / 10) % |otBooks|]
  }

  /** The New Testament book of normalised day `n`: it advances every 20 days through the seven books. */
  function NewTestamentBookOf(n: nat): (b: Book)
    ensures b == BIBLE_BOOKS[8 + (n / 20) % 7]
    ensures b.testament == NT && b.chapters > 0
  {
    var ntBooks := Filter(BIBLE_BOOKS, IsNewTestament);
    NewTestamentBooks();
    CatalogueChaptersPositive();
    ntBooks[(n / 20) % |ntBooks|]
  }

  /** The two readings of normalised day `n`: one chapter of each book, the day modulo its chapter count, plus one. */
  function ReadingsOf(n: nat): (readings: seq<Reading>)
    ensures |readings| == 2
    ensures var ot, nt := OldTestamentBookOf(n), NewTestamentBookOf(n);
      && readings[0].bookId == ot.id && readings[1].bookId == nt.id
      && readings[0].chapterStart == readings[0].chapterEnd
      && readings[1].chapterStart == readings[1].chapterEnd
      && readings[0].chapterStart == n % ot.chapters + 1
      && readings[1].chapterStart == n % nt.chapters + 1
      && 1 <= readings[0].chapterStart <= ot.chapters
      && 1 <= readings[1].chapterStart <= nt.chapters
      && readings[0].verseStart.None? && readings[1].verseStart.None?
      && readings[0].verseEnd.None? && readings[1].verseEnd.None?
  {
    var otBook, ntBook := OldTestamentBookOf(n), NewTestamentBookOf(n);
    [ChapterReading(otBook.id, n % otBook.chapters + 1), ChapterReading(ntBook.id, n % ntBook.chapters + 1)]
  }

  /**
   * `getReadingForDay`: the day is normalised to `0..364`, and the
   * readings depend on the normalised day alone.
   */
  function GetReadingForDay(dayIndex: int): (p: PlanDay)
    ensures 0 <= p.dayIndex < 365
    ensures p.dayIndex == PlanParser.NormalizedDay(dayIndex)
    ensures |p.readings| == 2
    ensures p.readings == ReadingsOf(p.dayIndex)
  {
    var n := PlanParser.NormalizedDay(dayIndex);
    PlanDay(n, ReadingsOf(n))
  }

  /** The plan repeats every 365 days. */
  lemma ReadingForDayPeriodic(dayIndex: nat, years: nat)
    ensures GetReadingForDay(dayIndex + 365 * years) == GetReadingForDay(dayIndex)
  {
    PlanParser.NormalizedDayPeriodic(dayIndex, years);
  }

  /** A negative day reads like the positive one: the sign is dropped, not wrapped. */
  lemma ReadingForDayMirrors(dayIndex: int)
    ensures GetReadingForDay(-dayIndex) == GetReadingForDay(dayIndex)
  {
    PlanParser.NormalizedDayMirrors(dayIndex);
  }

  /** The first book of each testament in the catalogue. */
  lemma FirstBookOfEachTestament()
    ensures BIBLE_BOOKS[0].id == "Gen" && BIBLE_BOOKS[0].chapters == 50
    ensures BIBLE_BOOKS[8].id == "Mat" && BIBLE_BOOKS[8].chapters == 28
  {
  }

  /** The arithmetic of the first ten days: no wrap-around anywhere. */
  lemma FirstDaysArithmetic(d: nat)
    requires d < 10
    ensures PlanParser.NormalizedDay(d) == d
    ensures (d / 10) % 8 == 0 && (d / 20) % 7 == 0
    ensures d % 50 == d && d % 28 == d
  {
  }

  /** The books of the first ten days: the first of each testament. */
  lemma FirstDaysBooks(d: nat)
    requires d < 10
    ensures OldTestamentBookOf(d).id == "Gen" && OldTestamentBookOf(d).chapters == 50
    ensures NewTestamentBookOf(d).id == "Mat" && NewTestamentBookOf(d).chapters == 28
  {
    FirstDaysArithmetic(d);
    FirstBookOfEachTestament();
    var ni := 8 + (d / 20) % 7;
    assert ni == 8;
    assert NewTestamentBookOf(d) == BIBLE_BOOKS[ni];
  }

  /** The first ten days read the first Old Testament book and the first New Testament book, chapter by chapter. */
  lemma FirstDaysReadGenesisAndMatthew(d: nat)
    requires d < 10
    ensures GetReadingForDay(d).readings == [ChapterReading("Gen", d + 1), ChapterReading("Mat", d + 1)]
  {
    FirstDaysArithmetic(d);
    FirstDaysBooks(d);
    var r := GetReadingForDay(d).readings;
    assert r[0] == ChapterReading("Gen", d + 1);
    assert r[1] == ChapterReading("Mat", d + 1);
    assert r == [r[0], r[1]];
  }

  /**
   * `getPlanForDate` with the day difference between the target date and
   * the start date as input: a date before the start reads day 0.
   */
  function GetPlanForDate(diff: int): (p: PlanDay)
    ensures p.dayIndex == (if diff < 0 then 0 else diff % 365)
    ensures p.readings == ReadingsOf(p.dayIndex)
  {
    var dayIndex := if diff < 0 then 0 else diff;
    GetReadingForDay(dayIndex)
  }

  /** Every date before the start date gets the same plan as the start date. */
  lemma PlanBeforeStartIsDayZero(diff: int)
    requires diff < 0
    ensures GetPlanForDate(diff) == GetPlanForDate(0)
  {
  }

  // ---------------------------------------------------------------------
  // Verses
  // ---------------------------------------------------------------------

  /** The key of the sample chapters: `${bookId}-${chapter}`. */
  function VerseKey(bookId: string, chapter: int): string
  {
    bookId + "-" + IntToString(chapter)
  }

  /** `book?.name || bookId` for a book already looked up: its name unless it is missing or empty. */
  function NameOr(book: Option<Book>, bookId: string): (name: string)
    ensures book.None? ==> name == bookId
    ensures book.Some? && book.value.name != [] ==> name == book.value.name
  {
    match book
    case Some(b) => if b.name != [] then b.name else bookId
    case None => bookId
  }

  /** The name shown for a book id: the catalogue name, or the id for a book missing from the catalogue. */
  function DisplayName(bookId: string): (name: string)
    ensures GetBookById(bookId).None? ==> name == bookId
    ensures GetBookById(bookId).Some? ==> name == GetBookById(bookId).value.name
  {
    CatalogueNamesNonEmpty();
    NameOr(GetBookById(bookId), bookId)
  }

  /** `${book?.name}`: an unknown book is written as `undefined`. */
  function InterpolatedName(book: Option<Book>): string
  {
    match book
    case Some(b) => b.name
    case None => "undefined"
  }

  /** The text of placeholder verse `verse`. */
  function PlaceholderText(book: Option<Book>, chapter: int, verse: int): string
  {
    "(示範經文) 這是 " + InterpolatedName(book) + " 第 " + IntToString(chapter)
      + " 章第 " + IntToString(verse) + " 節的內容。請整合完整 JSON 檔案以顯示真實經文。"
  }

  /** Placeholder verse `verse` of a chapter missing from the samples, for the looked-up `book`. */
  function Placeholder(bookId: string, book: Option<Book>, chapter: int, verse: int): (v: Verse)
    ensures v.bookId == bookId && v.bookName == NameOr(book, bookId)
    ensures v.chapter == chapter && v.verse == verse
  {
    Verse(bookId, NameOr(book, bookId), chapter, verse, PlaceholderText(book, chapter, verse))
  }

  /** The ten placeholder verses of a chapter missing from the samples, for the looked-up `book`: verses 1 to 10, in order. */
  function Placeholders(bookId: string, book: Option<Book>, chapter: int): (r: seq<Verse>)
    ensures |r| == 10
    ensures forall i :: 0 <= i < |r| ==> r[i] == Placeholder(bookId, book, chapter, i + 1)
  {
    seq(10, i requires 0 <= i < 10 => Placeholder(bookId, book, chapter, i + 1))
  }

  /**
   * `getVerses`: the sample chapter under the key when there is one,
   * otherwise ten placeholder verses numbered 1 to 10.
   */
  function GetVerses(bookId: string, chapter: int): (r: seq<Verse>)
    ensures VerseKey(bookId, chapter) in MOCK_BIBLE_CONTENT ==> r == MOCK_BIBLE_CONTENT[VerseKey(bookId, chapter)]
    ensures VerseKey(bookId, chapter) !in MOCK_BIBLE_CONTENT ==> r == Placeholders(bookId, GetBookById(bookId), chapter)
  {
    var key := VerseKey(bookId, chapter);
    if key in MOCK_BIBLE_CONTENT then MOCK_BIBLE_CONTENT[key] else Placeholders(bookId, GetBookById(bookId), chapter)
  }

  /**
   * A key splits back into its parts when the book part holds no `-` and
   * the chapter part is digits: the book is the text before the only `-`
   * and the chapter is what `parseInt` reads after it.
   */
  lemma KeySplitsAtDash(bookId: string, chapter: int, book: string, digits: string)
    requires VerseKey(bookId, chapter) == book + "-" + digits
    requires forall i :: 0 <= i < |book| ==> book[i] != '-'
    requires digits != [] && AllDigits(digits)
    ensures bookId == book && ParseInt(digits) == Int(chapter)
  {
    var written := IntToString(chapter);
    assert VerseKey(bookId, chapter) == bookId + "-" + written;
    JoinedAtDash(bookId, written, book, digits);
    ParseIntOfIntToString(chapter, []);
    assert written + [] == written;
  }

  /** Two joins at a dash are equal only part by part when the parts of the second hold no dash. */
  lemma JoinedAtDash(a: string, b: string, c: string, d: string)
    requires a + "-" + b == c + "-" + d
    requires forall i :: 0 <= i < |c| ==> c[i] != '-'
    requires forall i :: 0 <= i < |d| ==> d[i] != '-'
    ensures a == c && b == d
  {
    var key := c + "-" + d;
    assert key[|a|] == '-' && key[|c|] == '-';
    assert a == key[..|a|];
    assert b == key[|a| + 1..];
  }

  lemma ChapterOfKey(bookId: string, chapter: int, book: string, digits: string, n: nat)
    requires VerseKey(bookId, chapter) == book + "-" + digits
    requires forall i :: 0 <= i < |book| ==> book[i] != '-'
    requires digits != [] && AllDigits(digits) && DigitsValue(digits) == n
    ensures bookId == book && chapter == n
  {
    KeySplitsAtDash(bookId, chapter, book, digits);
    ParseIntOfDigits(digits);
  }

  /** Every sample chapter holds verses of the book and chapter its key names. */
  lemma SampleChaptersMatchTheirKeys()
    ensures forall v :: v in MOCK_BIBLE_CONTENT["Gen-1"] ==> v.bookId == "Gen" && v.chapter == 1
    ensures forall v :: v in MOCK_BIBLE_CONTENT["Psa-23"] ==> v.bookId == "Psa" && v.chapter == 23
    ensures forall v :: v in MOCK_BIBLE_CONTENT["Mat-1"] ==> v.bookId == "Mat" && v.chapter == 1
    ensures forall v :: v in MOCK_BIBLE_CONTENT["Rev-22"] ==> v.bookId == "Rev" && v.chapter == 22
  {
  }

  /** The keys of the sample chapters. */
  lemma SampleKeys(key: string)
    requires key in MOCK_BIBLE_CONTENT
    ensures key == "Gen" + "-" + "1" || key == "Psa" + "-" + "23" || key == "Mat" + "-" + "1" || key == "Rev" + "-" + "22"
  {
    assert "Gen" + "-" + "1" == "Gen-1";
    assert "Psa" + "-" + "23" == "Psa-23";
    assert "Mat" + "-" + "1" == "Mat-1";
    assert "Rev" + "-" + "22" == "Rev-22";
  }

  /** Each sample key is written by exactly one book and chapter. */
  lemma SampleKeyDetermines(bookId: string, chapter: int)
    requires VerseKey(bookId, chapter) in MOCK_BIBLE_CONTENT
    ensures || (bookId == "Gen" && chapter == 1) || (bookId == "Psa" && chapter == 23)
            || (bookId == "Mat" && chapter == 1) || (bookId == "Rev" && chapter == 22)
  {
    SampleKeys(VerseKey(bookId, chapter));
    SampleKeyParts(bookId, chapter);
  }

  /** The book and chapter behind a key written like one of the sample keys. */
  lemma SampleKeyParts(bookId: string, chapter: int)
    requires var key := VerseKey(bookId, chapter);
      key == "Gen" + "-" + "1" || key == "Psa" + "-" + "23" || key == "Mat" + "-" + "1" || key == "Rev" + "-" + "22"
    ensures || (bookId == "Gen" && chapter == 1) || (bookId == "Psa" && chapter == 23)
            || (bookId == "Mat" && chapter == 1) || (bookId == "Rev" && chapter == 22)
  {
    var key := VerseKey(bookId, chapter);
    if key == "Gen" + "-" + "1" {
      ChapterOfKey(bookId, chapter, "Gen", "1", 1);
    } else if key == "Psa" + "-" + "23" {
      ChapterOfKey(bookId, chapter, "Psa", "23", 23);
    } else if key == "Mat" + "-" + "1" {
      ChapterOfKey(bookId, chapter, "Mat", "1", 1);
    } else if key == "Rev" + "-" + "22" {
      ChapterOfKey(bookId, chapter, "Rev", "22", 22);
    }
  }

  /** Whatever `getVerses` returns belongs to the requested book and chapter. */
  lemma VersesMatchRequest(bookId: string, chapter: int)
    ensures forall v :: v in GetVerses(bookId, chapter) ==> v.bookId == bookId && v.chapter == chapter
  {
    if VerseKey(bookId, chapter) in MOCK_BIBLE_CONTENT {
      SampleKeyDetermines(bookId, chapter);
      SampleChaptersMatchTheirKeys();
      SampleChaptersAreFound();
    }
  }

  /** The sample chapters are what `getVerses` returns for their book and chapter. */
  lemma SampleChaptersAreFound()
    ensures GetVerses("Gen", 1) == MOCK_BIBLE_CONTENT["Gen-1"]
    ensures GetVerses("Psa", 23) == MOCK_BIBLE_CONTENT["Psa-23"]
    ensures GetVerses("Mat", 1) == MOCK_BIBLE_CONTENT["Mat-1"]
    ensures GetVerses("Rev", 22) == MOCK_BIBLE_CONTENT["Rev-22"]
  {
    assert VerseKey("Gen", 1) == "Gen-1";
    assert VerseKey("Mat", 1) == "Mat-1";
    assert NatToString(23) == "23";
    assert VerseKey("Psa", 23) == "Psa-23";
    assert NatToString(22) == "22";
    assert VerseKey("Rev", 22) == "Rev-22";
  }
}
