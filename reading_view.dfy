/**
 * The reading view of one plan reading: the title over it, the assembly
 * of every chapter of the reading (narrowed to the verse window when the
 * reading is a single chapter with both verse bounds), and the favourite
 * marker of a verse. The per-chapter fetch is a parameter: it stands for
 * the asynchronous verse lookup of the reading's book in the chosen
 * version.
 */
module ReadingView {

  import opened JsText
  import opened JsArray
  import opened Types
  import BibleService
  import PlanParser

  /** The verses of one chapter of the reading. */
  datatype ChapterVerses = ChapterVerses(chapter: int, verses: seq<Verse>)

  // ---------------------------------------------------------------------
  // Title
  // ---------------------------------------------------------------------

  /**
   * `getDisplayTitle`: empty for a book missing from the catalogue;
   * `name c:vs-ve` for one chapter with both verse bounds; `name 第 c 章`
   * for one whole chapter; `name s-e 章` for a chapter range.
   */
  function GetDisplayTitle(r: Reading): (title: string)
    ensures BibleService.GetBookById(r.bookId).None? <==> title == []
  {
    match BibleService.GetBookById(r.bookId)
    case None => []
    case Some(book) =>
      if r.chapterStart == r.chapterEnd then
        if r.verseStart.Some? && r.verseEnd.Some? then
          book.name + " " + IntToString(r.chapterStart) + ":" + IntToString(r.verseStart.value)
            + "-" + IntToString(r.verseEnd.value)
        else
          book.name + " 第 " + IntToString(r.chapterStart) + " 章"
      else
        book.name + " " + IntToString(r.chapterStart) + "-" + IntToString(r.chapterEnd) + " 章"
  }

  lemma Associative(a: string, b: string, c: string)
    ensures a + (b + c) == a + b + c
  {
  }

  /**
   * The title of a verse window holds, after the book name and a space, an
   * annotation that the plan grammar reads back as the same chapter and
   * verses.
   */
  lemma VerseTitleReadsBack(r: Reading, c: nat, a: nat, b: nat)
    requires BibleService.GetBookById(r.bookId).Some?
    requires r.chapterStart == r.chapterEnd == c && r.verseStart == Some(a) && r.verseEnd == Some(b)
    ensures var info := NatToString(c) + ":" + NatToString(a) + "-" + NatToString(b);
      && GetDisplayTitle(r) == BibleService.GetBookById(r.bookId).value.name + " " + info
      && PlanParser.ParseChapterInfo(info) == PlanParser.ChapterSpec(Int(c), Int(c), Some(Int(a)), Some(Int(b)))
  {
    var name := BibleService.GetBookById(r.bookId).value.name;
    var dc, da, db := NatToString(c), NatToString(a), NatToString(b);
    assert IntToString(c) == dc && IntToString(a) == da && IntToString(b) == db;
    assert GetDisplayTitle(r) == name + " " + dc + ":" + da + "-" + db;
    var p := name + " ";
    Associative(p, dc + ":" + da + "-", db);
    Associative(p, dc + ":" + da, "-");
    Associative(p, dc + ":", da);
    Associative(p, dc, ":");
    PlanParser.ChapterInfoVerseRange(c, a, b);
  }

  /** The title of a chapter range reads back, before the closing ` 章`, as the same chapters. */
  lemma RangeTitleReadsBack(r: Reading, s: nat, e: nat)
    requires BibleService.GetBookById(r.bookId).Some?
    requires r.chapterStart == s && r.chapterEnd == e && s != e
    ensures var info := NatToString(s) + "-" + NatToString(e);
      && GetDisplayTitle(r) == BibleService.GetBookById(r.bookId).value.name + " " + info + " 章"
      && PlanParser.ParseChapterInfo(info) == PlanParser.ChapterSpec(Int(s), Int(e), None, None)
  {
    var name := BibleService.GetBookById(r.bookId).value.name;
    var ds, de := NatToString(s), NatToString(e);
    assert IntToString(s) == ds && IntToString(e) == de;
    assert GetDisplayTitle(r) == name + " " + ds + "-" + de + " 章";
    var p := name + " ";
    Associative(p, ds + "-", de);
    Associative(p, ds, "-");
    PlanParser.ChapterInfoChapterRange(s, e);
  }

  /** The title of one whole chapter names it between `第` and `章`, and the number reads back. */
  lemma ChapterTitleReadsBack(r: Reading, c: nat)
    requires BibleService.GetBookById(r.bookId).Some?
    requires r.chapterStart == r.chapterEnd == c && (r.verseStart.None? || r.verseEnd.None?)
    ensures GetDisplayTitle(r) == BibleService.GetBookById(r.bookId).value.name + " 第 " + NatToString(c) + " 章"
    ensures PlanParser.ParseChapterInfo(NatToString(c)) == PlanParser.ChapterSpec(Int(c), Int(c), None, None)
  {
    PlanParser.ChapterInfoSingleChapter(c);
  }

  // ---------------------------------------------------------------------
  // Chapter assembly
  // ---------------------------------------------------------------------

  /** The verse window applies only to a single chapter with both bounds. */
  predicate NarrowsToVerses(r: Reading)
  {
    r.chapterStart == r.chapterEnd && r.verseStart.Some? && r.verseEnd.Some?
  }

  /** The verses shown for chapter `ch`: the fetched ones, narrowed to the window when it applies. */
  function ShownVerses(r: Reading, fetch: int -> seq<Verse>, ch: int): (verses: seq<Verse>)
    ensures !NarrowsToVerses(r) ==> verses == fetch(ch)
    ensures NarrowsToVerses(r) ==> forall k :: 0 <= k < |verses| ==>
      verses[k] in fetch(ch) && r.verseStart.value <= verses[k].verse <= r.verseEnd.value
    ensures NarrowsToVerses(r) ==> forall k :: 0 <= k < |fetch(ch)| ==>
      r.verseStart.value <= fetch(ch)[k].verse <= r.verseEnd.value ==> fetch(ch)[k] in verses
  {
    if NarrowsToVerses(r) then
      FilterKeepsEvery(fetch(ch), InWindow(r.verseStart.value, r.verseEnd.value));
      Filter(fetch(ch), InWindow(r.verseStart.value, r.verseEnd.value))
    else fetch(ch)
  }

  /** A fetched verse inside the window is shown after the shown verses fetched before it and before those fetched after it. */
  lemma ShownVersesInOrder(r: Reading, fetch: int -> seq<Verse>, ch: int, m: nat)
    requires NarrowsToVerses(r)
    requires m < |fetch(ch)| && r.verseStart.value <= fetch(ch)[m].verse <= r.verseEnd.value
    ensures var vs, keep := fetch(ch), InWindow(r.verseStart.value, r.verseEnd.value);
      ShownVerses(r, fetch, ch) == Filter(vs[..m], keep) + [vs[m]] + Filter(vs[m + 1..], keep)
  {
    FilterSplitsAt(fetch(ch), InWindow(r.verseStart.value, r.verseEnd.value), m);
  }

  /** The entry of chapter `ch`: present only when some verse is shown. */
  function ChapterEntry(r: Reading, fetch: int -> seq<Verse>, ch: int): (e: Option<ChapterVerses>)
    ensures e.Some? <==> ShownVerses(r, fetch, ch) != []
    ensures e.Some? ==> e.value == ChapterVerses(ch, ShownVerses(r, fetch, ch))
  {
    var verses := ShownVerses(r, fetch, ch);
    if |verses| > 0 then Some(ChapterVerses(ch, verses)) else None
  }

  /**
   * The entries of chapters `chapterStart` to `last`, in chapter order:
   * each within that range, after the one before it, with a verse.
   */
  function ChaptersUpTo(r: Reading, fetch: int -> seq<Verse>, last: int): (chapters: seq<ChapterVerses>)
    ensures forall i :: 0 <= i < |chapters| ==>
      r.chapterStart <= chapters[i].chapter <= last && chapters[i].verses != []
    ensures forall i, j :: 0 <= i < j < |chapters| ==> chapters[i].chapter < chapters[j].chapter
    ensures last < r.chapterStart ==> chapters == []
    decreases last - r.chapterStart
  {
    if last < r.chapterStart then []
    else
      var init := ChaptersUpTo(r, fetch, last - 1);
      match ChapterEntry(r, fetch, last)
      case Some(e) => init + [e]
      case None => init
  }

  /** What `loadAllChapters` assembles for the reading. */
  function AllChapters(r: Reading, fetch: int -> seq<Verse>): (chapters: seq<ChapterVerses>)
    ensures r.chapterStart > r.chapterEnd ==> chapters == []
  {
    ChaptersUpTo(r, fetch, r.chapterEnd)
  }

  /** The loop of `loadAllChapters`: fetch each chapter, narrow it when the window applies, keep it when it has verses. */
  method LoadAllChapters(r: Reading, fetch: int -> seq<Verse>) returns (chapters: seq<ChapterVerses>)
    ensures chapters == AllChapters(r, fetch)
  {
    chapters := [];
    var ch := r.chapterStart;
    while ch <= r.chapterEnd
      invariant r.chapterStart <= ch
      invariant ch <= r.chapterEnd + 1 || ch == r.chapterStart
      invariant chapters == ChaptersUpTo(r, fetch, ch - 1)
      decreases r.chapterEnd - ch
    {
      var verses := fetch(ch);
      if r.chapterStart == r.chapterEnd && r.verseStart.Some? && r.verseEnd.Some? {
        verses := Filter(verses, InWindow(r.verseStart.value, r.verseEnd.value));
      }
      if |verses| > 0 {
        chapters := chapters + [ChapterVerses(ch, verses)];
      }
      ch := ch + 1;
    }
  }

  /**
   * A chapter appears in the assembly exactly when it lies in the range and
   * shows at least one verse, and then it carries the verses shown.
   */
  lemma {:induction false} ChapterAppearsIff(r: Reading, fetch: int -> seq<Verse>, last: int, ch: int)
    ensures (exists i :: 0 <= i < |ChaptersUpTo(r, fetch, last)| && ChaptersUpTo(r, fetch, last)[i].chapter == ch)
        <==> (r.chapterStart <= ch <= last && ShownVerses(r, fetch, ch) != [])
    ensures forall i :: 0 <= i < |ChaptersUpTo(r, fetch, last)| && ChaptersUpTo(r, fetch, last)[i].chapter == ch ==>
      ChaptersUpTo(r, fetch, last)[i].verses == ShownVerses(r, fetch, ch)
    decreases last - r.chapterStart
  {
    if last >= r.chapterStart {
      ChapterAppearsIff(r, fetch, last - 1, ch);
      var init := ChaptersUpTo(r, fetch, last - 1);
      var all := ChaptersUpTo(r, fetch, last);
      assert forall i :: 0 <= i < |init| ==> all[i] == init[i];
      if ch == last && ShownVerses(r, fetch, ch) != [] {
        assert all[|all| - 1].chapter == ch;
      }
    }
  }

  /** Without a verse window every chapter that has verses is shown whole. */
  lemma WholeChaptersWithoutWindow(r: Reading, fetch: int -> seq<Verse>, i: nat)
    requires !NarrowsToVerses(r)
    requires i < |AllChapters(r, fetch)|
    ensures AllChapters(r, fetch)[i].verses == fetch(AllChapters(r, fetch)[i].chapter)
  {
    ChapterAppearsIff(r, fetch, r.chapterEnd, AllChapters(r, fetch)[i].chapter);
  }

  // ---------------------------------------------------------------------
  // Favourites
  // ---------------------------------------------------------------------

  function SameVerseAs(v: Verse): Verse -> bool
  {
    (f: Verse) => SameVerse(f, v)
  }

  /** `isFavorited`: some favourite is the same verse. */
  function IsFavorited(favorites: seq<Verse>, v: Verse): (b: bool)
    ensures b <==> exists k :: 0 <= k < |favorites| && SameVerse(favorites[k], v)
  {
    FindIndex(favorites, SameVerseAs(v)) != -1
  }
}
