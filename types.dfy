/**
 * The records shared by the services and views, and the two static tables
 * they read: the book catalogue and the sample chapters.
 */
module Types {

  import opened JsText

  /** One verse as the views display and bookmark it. */
  datatype Verse = Verse(bookId: string, bookName: string, chapter: int, verse: int, text: string)

  /** Two verses are the same bookmark when book id, chapter and verse number agree; name and text are ignored. */
  predicate SameVerse(a: Verse, b: Verse)
  {
    a.bookId == b.bookId && a.chapter == b.chapter && a.verse == b.verse
  }

  /** Whether a verse lies in the inclusive window. */
  function InWindow(verseStart: int, verseEnd: int): Verse -> bool
  {
    (v: Verse) => v.verse >= verseStart && v.verse <= verseEnd
  }

  datatype Testament = OT | NT

  /** An entry of the book catalogue. */
  datatype Book = Book(id: string, name: string, testament: Testament, chapters: nat)

  /** One reading of a plan day: a chapter range, optionally narrowed to verses. */
  datatype Reading = Reading(
    bookId: string,
    chapterStart: int,
    chapterEnd: int,
    verseStart: Option<int>,
    verseEnd: Option<int>)

  /** The readings assigned to one day of the year. */
  datatype PlanDay = PlanDay(dayIndex: int, readings: seq<Reading>)

  /** The five tabs of the application. */
  datatype Tab = Home | Plan | Bible | Favorites | Settings

  /** The book catalogue: the sample subset of the Old and New Testament books. */
  const BIBLE_BOOKS: seq<Book> := [
    Book("Gen", "創世記", OT, 50),
    Book("Exo", "出埃及記", OT, 40),
    Book("Lev", "利未記", OT, 27),
    Book("Num", "民數記", OT, 36),
    Book("Deu", "申命記", OT, 34),
    Book("Jos", "約書亞記", OT, 24),
    Book("Psa", "詩篇", OT, 150),
    Book("Pro", "箴言", OT, 31),
    Book("Mat", "馬太福音", NT, 28),
    Book("Mar", "馬可福音", NT, 16),
    Book("Luk", "路加福音", NT, 24),
    Book("Joh", "約翰福音", NT, 21),
    Book("Act", "使徒行傳", NT, 28),
    Book("Rom", "羅馬書", NT, 16),
    Book("Rev", "啟示錄", NT, 22)
  ]

  /** Sample chapters keyed by `bookId-chapter`. */
  const MOCK_BIBLE_CONTENT: map<string, seq<Verse>> := map[
    "Gen-1" := [
      Verse("Gen", "創世記", 1, 1, "起初，神創造天地。"),
      Verse("Gen", "創世記", 1, 2, "地是空虛混沌，淵面黑暗；神的靈運行在水面上。"),
      Verse("Gen", "創世記", 1, 3, "神說：「要有光」，就有了光。"),
      Verse("Gen", "創世記", 1, 4, "神看光是好的，就把光暗分開了。")
    ],
    "Psa-23" := [
      Verse("Psa", "詩篇", 23, 1, "耶和華是我的牧者，我必不致缺乏。"),
      Verse("Psa", "詩篇", 23, 2, "他使我躺臥在青草地上，領我在可安歇的水邊。")
    ],
    "Mat-1" := [
      Verse("Mat", "馬太福音", 1, 1, "亞伯拉罕的後裔，大衛的子孫，耶穌基督的家譜："),
      Verse("Mat", "馬太福音", 1, 2, "亞伯拉罕生以撒；以撒生雅各；雅各生猶大和他的弟兄；")
    ],
    "Rev-22" := [
      Verse("Rev", "啟示錄", 22, 20, "證明這事的說：「是了，我必快來！」阿們！主耶穌啊，我願你來！"),
      Verse("Rev", "啟示錄", 22, 21, "願主耶穌的恩惠常與眾聖徒同在。阿們！")
    ]
  ]
}
