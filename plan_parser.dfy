/**
 * The reading-plan parser: turns the plan document, one day per line, into
 * a sequence of day plans numbered by position, and looks a day up by its
 * index modulo 365.
 *
 * A reading annotation reads `EnglishName(中文)spec` where spec is `N`,
 * `N-M`, `N:V` or `N:V-W`; a day line reads `<number> seg;seg;...` with
 * ASCII or full-width semicolons; blank lines and month headers are skipped.
 */
module PlanParser {

  import opened JsText
  import opened JsArray

  /** What the plan's English book names stand for: the book id and its Chinese name. */
  datatype BookEntry = BookEntry(id: string, cn: string)

  /** The book table: English book name as written in the plan -> id and Chinese name. */
  function BookMapping(name: string): Option<BookEntry>
  {
    match name
    case "Genesis" => Some(BookEntry("Gen", "創世記"))
    case "Exodus" => Some(BookEntry("Exo", "出埃及記"))
    case "Leviticus" => Some(BookEntry("Lev", "利未記"))
    case "Numbers" => Some(BookEntry("Num", "民數記"))
    case "Deuteronomy" => Some(BookEntry("Deu", "申命記"))
    case "Joshua" => Some(BookEntry("Jos", "約書亞記"))
    case "Judges" => Some(BookEntry("Jdg", "士師記"))
    case "Ruth" => Some(BookEntry("Rut", "路得記"))
    case "1 Samuel" => Some(BookEntry("1Sa", "撒母耳記上"))
    case "2 Samuel" => Some(BookEntry("2Sa", "撒母耳記下"))
    case "1 Kings" => Some(BookEntry("1Ki", "列王紀上"))
    case "2 Kings" => Some(BookEntry("2Ki", "列王紀下"))
    case "1 Chronicles" => Some(BookEntry("1Ch", "歷代志上"))
    case "2 Chronicles" => Some(BookEntry("2Ch", "歷代志下"))
    case "Ezra" => Some(BookEntry("Ezr", "以斯拉記"))
    case "Nehemiah" => Some(BookEntry("Neh", "尼希米記"))
    case "Esther" => Some(BookEntry("Est", "以斯帖記"))
    case "Job" => Some(BookEntry("Job", "約伯記"))
    case "Psalms" => Some(BookEntry("Psa", "詩篇"))
    case "Proverbs" => Some(BookEntry("Pro", "箴言"))
    case "Ecclesiastes" => Some(BookEntry("Ecc", "傳道書"))
    case "Song of Solomon" => Some(BookEntry("Sng", "雅歌"))
    case "Isaiah" => Some(BookEntry("Isa", "以賽亞書"))
    case "Jeremiah" => Some(BookEntry("Jer", "耶利米書"))
    case "Lamentations" => Some(BookEntry("Lam", "耶利米哀歌"))
    case "Ezekiel" => Some(BookEntry("Ezk", "以西結書"))
    case "Daniel" => Some(BookEntry("Dan", "但以理書"))
    case "Hosea" => Some(BookEntry("Hos", "何西阿書"))
    case "Joel" => Some(BookEntry("Jol", "約珥書"))
    case "Amos" => Some(BookEntry("Amo", "阿摩司書"))
    case "Obadiah" => Some(BookEntry("Oba", "俄巴底亞書"))
    case "Jonah" => Some(BookEntry("Jon", "約拿書"))
    case "Micah" => Some(BookEntry("Mic", "彌迦書"))
    case "Nahum" => Some(BookEntry("Nam", "那鴻書"))
    case "Habakkuk" => Some(BookEntry("Hab", "哈巴谷書"))
    case "Zephaniah" => Some(BookEntry("Zep", "西番雅書"))
    case "Haggai" => Some(BookEntry("Hag", "哈該書"))
    case "Zechariah" => Some(BookEntry("Zec", "撒迦利亞書"))
    case "Malachi" => Some(BookEntry("Mal", "瑪拉基書"))
    case "Matthew" => Some(BookEntry("Mat", "馬太福音"))
    case "Mark" => Some(BookEntry("Mar", "馬可福音"))
    case "Luke" => Some(BookEntry("Luk", "路加福音"))
    case "John" => Some(BookEntry("Joh", "約翰福音"))
    case "Acts" => Some(BookEntry("Act", "使徒行傳"))
    case "Romans" => Some(BookEntry("Rom", "羅馬書"))
    case "1 Corinthians" => Some(BookEntry("1Co", "哥林多前書"))
    case "2 Corinthians" => Some(BookEntry("2Co", "哥林多後書"))
    case "Galatians" => Some(BookEntry("Gal", "加拉太書"))
    case "Ephesians" => Some(BookEntry("Eph", "以弗所書"))
    case "Philippians" => Some(BookEntry("Php", "腓立比書"))
    case "Colossians" => Some(BookEntry("Col", "歌羅西書"))
    case "1 Thessalonians" => Some(BookEntry("1Th", "帖撒羅尼迦前書"))
    case "2 Thessalonians" => Some(BookEntry("2Th", "帖撒羅尼迦後書"))
    case "1 Timothy" => Some(BookEntry("1Ti", "提摩太前書"))
    case "2 Timothy" => Some(BookEntry("2Ti", "提摩太後書"))
    case "2Timothy" => Some(BookEntry("2Ti", "提摩太後書"))
    case "Titus" => Some(BookEntry("Tit", "提多書"))
    case "Philemon" => Some(BookEntry("Phm", "腓利門書"))
    case "Hebrews" => Some(BookEntry("Heb", "希伯來書"))
    case "James" => Some(BookEntry("Jas", "雅各書"))
    case "1 Peter" => Some(BookEntry("1Pe", "彼得前書"))
    case "2 Peter" => Some(BookEntry("2Pe", "彼得後書"))
    case "1 John" => Some(BookEntry("1Jn", "約翰一書"))
    case "2 John" => Some(BookEntry("2Jn", "約翰二書"))
    case "3 John" => Some(BookEntry("3Jn", "約翰三書"))
    case "Jude" => Some(BookEntry("Jud", "猶大書"))
    case "Revelation" => Some(BookEntry("Rev", "啟示錄"))
    case _ => None
  }

  /** One parsed reading; chapter and verse numbers are NaN where `parseInt` found no digits. */
  datatype PlanReading = PlanReading(
    bookId: string,
    bookNameCn: string,
    bookNameEn: string,
    chapterStart: Num,
    chapterEnd: Num,
    verseStart: Option<Num>,
    verseEnd: Option<Num>)

  /** One day of the plan: its position, its readings and the trimmed source line. */
  datatype DayPlan = DayPlan(dayIndex: nat, readings: seq<PlanReading>, rawText: string)

  /** A parsed day line: the day number as written (informational only) and its readings. */
  datatype DayLine = DayLine(dayNum: Num, readings: seq<PlanReading>)

  /** The chapter part of a reading annotation, once parsed. */
  datatype ChapterSpec = ChapterSpec(
    chapterStart: Num,
    chapterEnd: Num,
    verseStart: Option<Num>,
    verseEnd: Option<Num>)

  // ---------------------------------------------------------------------
  // Reading annotations
  // ---------------------------------------------------------------------

  /** The index of the first `c` at or after `i`; `|s|` when there is none. */
  function IndexOfFrom(s: string, c: char, i: nat): (k: nat)
    requires i <= |s|
    ensures i <= k <= |s|
    ensures k < |s| ==> s[k] == c
    ensures forall m :: i <= m < k ==> s[m] != c
    decreases |s| - i
  {
    if i == |s| || s[i] == c then i else IndexOfFrom(s, c, i + 1)
  }

  /**
   * What `/^(.+?)\s*\([^)]+\)\s*(.+)$/` demands of `s` once its first group
   * is `s[..i]` and its second group is `info`: the name has no line
   * terminator; then optional whitespace, `(`, at least one character other
   * than `)`, `)`, optional whitespace, and `info`, non-empty and free of
   * line terminators, up to the end.
   */
  ghost predicate SegmentShape(s: string, i: nat, info: string)
  {
    && 1 <= i
    && i + |info| <= |s|
    && NoLineTerminator(s[..i])
    && info != []
    && NoLineTerminator(info)
    && info == s[|s| - |info|..]
    && exists k: nat, p: nat :: ParenthesesAt(s, i, k, p, info)
  }

  /**
   * Between the name ending at `i` and the chapter part `info` that ends
   * `s`: whitespace, `(` at `k`, a non-empty run free of `)`, `)` at `p`,
   * whitespace.
   */
  ghost predicate ParenthesesAt(s: string, i: nat, k: nat, p: nat, info: string)
  {
    var e := |s| - |info|;
    && i <= k
    && k + 1 < p
    && p + 1 <= e <= |s|
    && AllSpaces(s[i..k])
    && s[k] == '('
    && s[p] == ')'
    && (forall m :: k < m < p ==> s[m] != ')')
    && AllSpaces(s[p + 1..e])
  }

  /** The scans of the pattern find the parentheses where they stand, and stop no earlier than `info`. */
  lemma ParenthesesAreFound(s: string, i: nat, k: nat, p: nat, info: string)
    requires info != [] && |info| <= |s| && ParenthesesAt(s, i, k, p, info)
    ensures SkipSpaces(s, i) == k
    ensures IndexOfFrom(s, ')', k + 1) == p
    ensures SkipSpaces(s, p + 1) >= |s| - |info|
  {
    var e := |s| - |info|;
    forall m | i <= m < k
      ensures IsSpace(s[m])
    {
      assert s[m] == s[i..k][m - i];
    }
    forall m | p + 1 <= m < e
      ensures IsSpace(s[m])
    {
      assert s[m] == s[p + 1..e][m - p - 1];
    }
  }

  /**
   * The segment pattern tried with its lazy first group fixed to `s[..i]`:
   * the groups `(s[..i], info)` or no match. Backtracking only matters when
   * whitespace runs to the end, where `(.+)` takes back the last character.
   */
  function SegmentMatchAt(s: string, i: nat): (r: Option<(string, string)>)
    requires 1 <= i <= |s|
    requires NoLineTerminator(s[..i])
    ensures r.Some? ==> r.value.0 == s[..i] && SegmentShape(s, i, r.value.1)
  {
    var k := SkipSpaces(s, i);
    if k == |s| || s[k] != '(' then None
    else
      var p := IndexOfFrom(s, ')', k + 1);
      if p == |s| || p == k + 1 then None
      else
        var q := SkipSpaces(s, p + 1);
        if q < |s| then
          if NoLineTerminator(s[q..]) then
            assert ParenthesesAt(s, i, k, p, s[q..]);
            Some((s[..i], s[q..]))
          else None
        else if p + 1 < |s| && !IsLineTerminator(s[|s| - 1]) then
          assert ParenthesesAt(s, i, k, p, s[|s| - 1..]);
          Some((s[..i], s[|s| - 1..]))
        else None
  }

  /**
   * The segment pattern with its lazy first group tried at `s[..i]`,
   * `s[..i+1]`, ...: the shortest first group that lets the rest match.
   */
  function SegmentMatchFrom(s: string, i: nat): (r: Option<(string, string)>)
    requires 1 <= i
    requires i <= |s| ==> NoLineTerminator(s[..i - 1])
    ensures r.Some? ==>
      && i <= |r.value.0| <= |s|
      && r.value.0 == s[..|r.value.0|]
      && SegmentShape(s, |r.value.0|, r.value.1)
    decreases |s| - i
  {
    if i >= |s| || IsLineTerminator(s[i - 1]) then None
    else
      assert s[..i] == s[..i - 1] + [s[i - 1]];
      match SegmentMatchAt(s, i)
      case Some(m) => Some(m)
      case None => SegmentMatchFrom(s, i + 1)
  }

  /** The segment pattern as `String.prototype.match` applies it: groups 1 and 2, or null. */
  function SegmentMatch(s: string): Option<(string, string)>
  {
    SegmentMatchFrom(s, 1)
  }

  /** At a position where the shape holds, the pattern matches. */
  lemma ShapeMatchesAt(s: string, i: nat, info: string)
    requires i <= |s| && SegmentShape(s, i, info)
    ensures SegmentMatchAt(s, i).Some?
  {
    var e := |s| - |info|;
    var k: nat, p: nat :| ParenthesesAt(s, i, k, p, info);
    ParenthesesAreFound(s, i, k, p, info);
    var q := SkipSpaces(s, p + 1);
    assert k < |s| && s[k] == '(' && p < |s| && p != k + 1;
    if q < |s| {
      forall m | 0 <= m < |s[q..]|
        ensures !IsLineTerminator(s[q..][m])
      {
        assert s[q..][m] == info[q - e + m];
      }
      assert NoLineTerminator(s[q..]);
    } else {
      assert s[|s| - 1] == info[|info| - 1];
      assert p + 1 < |s| && !IsLineTerminator(s[|s| - 1]);
    }
  }

  /** The pattern finds a match whenever some first group admits the shape. */
  lemma {:induction false} ShapeIsFound(s: string, i: nat, j: nat, info: string)
    requires 1 <= i <= j
    requires i <= |s| ==> NoLineTerminator(s[..i - 1])
    requires j <= |s| && SegmentShape(s, j, info)
    ensures SegmentMatchFrom(s, i).Some?
    decreases j - i
  {
    assert s[..j][i - 1] == s[i - 1];
    if SegmentMatchAt(s, i).None? {
      if i == j {
        ShapeMatchesAt(s, j, info);
      } else {
        assert s[..i] == s[..j][..i];
        ShapeIsFound(s, i + 1, j, info);
      }
    }
  }

  /** The segment pattern matches exactly when some split of the segment has its shape. */
  lemma SegmentMatchIffShape(s: string)
    ensures SegmentMatch(s).Some? <==> exists j: nat, info :: j <= |s| && SegmentShape(s, j, info)
  {
    if exists j: nat, info :: j <= |s| && SegmentShape(s, j, info) {
      var j: nat, info :| j <= |s| && SegmentShape(s, j, info);
      ShapeIsFound(s, 1, j, info);
    }
    if SegmentMatch(s).Some? {
      var m := SegmentMatch(s).value;
      assert SegmentShape(s, |m.0|, m.1);
    }
  }

  /**
   * The chapter part: `N:V-W` and `N:V` fix one chapter and carry verses,
   * `N-M` is a chapter range and `N` a single chapter; every number is read
   * with `parseInt`, so malformed numbers come out as NaN.
   */
  function ParseChapterInfo(info: string): (r: ChapterSpec)
    ensures ':' in info ==> r.chapterStart == r.chapterEnd && r.verseStart.Some? && r.verseEnd.Some?
    ensures ':' in info && '-' !in SplitBy(info, {':'})[1] ==> r.verseStart == r.verseEnd
    ensures ':' !in info ==> r.verseStart.None? && r.verseEnd.None?
    ensures ':' !in info && '-' !in info ==> r.chapterStart == r.chapterEnd
  {
    if ':' in info then
      var colonParts := SplitBy(info, {':'});
      var chapter := ParseInt(colonParts[0]);
      var versePart := colonParts[1];
      if '-' in versePart then
        var verses := SplitBy(versePart, {'-'});
        ChapterSpec(chapter, chapter, Some(ParseInt(verses[0])), Some(ParseInt(verses[1])))
      else
        var verse := ParseInt(versePart);
        ChapterSpec(chapter, chapter, Some(verse), Some(verse))
    else if '-' in info then
      var parts := SplitBy(info, {'-'});
      ChapterSpec(ParseInt(parts[0]), ParseInt(parts[1]), None, None)
    else
      var chapter := ParseInt(info);
      ChapterSpec(chapter, chapter, None, None)
  }

  /**
   * `parseReadingSegment`: trims the segment, matches the segment pattern,
   * looks the trimmed English name up in the book table and parses the
   * chapter part; null when the segment is blank, does not match, or names
   * an unknown book.
   */
  function ParseReadingSegment(segment: string): (r: Option<PlanReading>)
    ensures AllSpaces(segment) ==> r.None?
    ensures SegmentMatch(Trim(segment)).None? ==> r.None?
    ensures r.Some? <==>
      && Trim(segment) != []
      && SegmentMatch(Trim(segment)).Some?
      && BookMapping(Trim(SegmentMatch(Trim(segment)).value.0)).Some?
    ensures r.Some? ==>
      var name := Trim(SegmentMatch(Trim(segment)).value.0);
      var spec := ParseChapterInfo(Trim(SegmentMatch(Trim(segment)).value.1));
      && r.value.bookNameEn == name
      && r.value.bookId == BookMapping(name).value.id
      && r.value.bookNameCn == BookMapping(name).value.cn
      && r.value.chapterStart == spec.chapterStart
      && r.value.chapterEnd == spec.chapterEnd
      && r.value.verseStart == spec.verseStart
      && r.value.verseEnd == spec.verseEnd
  {
    var trimmed := Trim(segment);
    if trimmed == [] then None
    else match SegmentMatch(trimmed)
      case None => None
      case Some((nameGroup, infoGroup)) =>
        var bookNameEn := Trim(nameGroup);
        var chapterInfo := Trim(infoGroup);
        match BookMapping(bookNameEn)
        case None => None
        case Some(bookData) =>
          var reading := PlanReading(bookData.id, bookData.cn, bookNameEn, Int(1), Int(1), None, None);
          var spec := ParseChapterInfo(chapterInfo);
          var reading := reading.(chapterStart := spec.chapterStart, chapterEnd := spec.chapterEnd);
          var reading := reading.(verseStart := spec.verseStart, verseEnd := spec.verseEnd);
          Some(reading)
  }

  /** `parseInt` reads the decimal rendering of a natural number back. */
  lemma ParseIntOfNatToString(n: nat)
    ensures ParseInt(NatToString(n)) == Int(n)
  {
    ParseIntOfIntToString(n, []);
    assert IntToString(n) + [] == NatToString(n);
  }

  /** `N` is chapter N, whole. */
  lemma ChapterInfoSingleChapter(n: nat)
    ensures ParseChapterInfo(NatToString(n)) == ChapterSpec(Int(n), Int(n), None, None)
  {
    DigitsHaveNoSeparator(NatToString(n));
    ParseIntOfNatToString(n);
  }

  /** `A-B` is chapters A through B, whole. */
  lemma ChapterInfoChapterRange(a: nat, b: nat)
    ensures ParseChapterInfo(NatToString(a) + "-" + NatToString(b))
         == ChapterSpec(Int(a), Int(b), None, None)
  {
    var da, db := NatToString(a), NatToString(b);
    var info := da + "-" + db;
    DigitsHaveNoSeparator(da);
    DigitsHaveNoSeparator(db);
    assert ':' !in info && '-' in info;
    SplitInTwo(da, '-', db, {'-'});
    assert ParseChapterInfo(info) == ChapterSpec(ParseInt(da), ParseInt(db), None, None);
    ParseIntOfNatToString(a);
    ParseIntOfNatToString(b);
  }

  /** `C:V` is verse V of chapter C. */
  lemma ChapterInfoSingleVerse(c: nat, v: nat)
    ensures ParseChapterInfo(NatToString(c) + ":" + NatToString(v))
         == ChapterSpec(Int(c), Int(c), Some(Int(v)), Some(Int(v)))
  {
    var dc, dv := NatToString(c), NatToString(v);
    var info := dc + ":" + dv;
    DigitsHaveNoSeparator(dc);
    DigitsHaveNoSeparator(dv);
    assert info[|dc|] == ':';
    SplitAtFirst(dc, ':', dv, {':'});
    SplitWithoutSeparator(dv, {':'});
    ParseIntOfNatToString(c);
    ParseIntOfNatToString(v);
  }

  /** `C:A-B` with separator-free parts: one chapter, verses A through B. */
  lemma ChapterInfoVerseRangeOf(dc: string, da: string, db: string)
    requires forall m :: 0 <= m < |dc| ==> dc[m] != ':'
    requires forall m :: 0 <= m < |da| ==> da[m] !in {':', '-'}
    requires forall m :: 0 <= m < |db| ==> db[m] !in {':', '-'}
    ensures ParseChapterInfo(dc + ":" + da + "-" + db)
         == ChapterSpec(ParseInt(dc), ParseInt(dc), Some(ParseInt(da)), Some(ParseInt(db)))
  {
    var versePart := da + "-" + db;
    var info := dc + ":" + versePart;
    assert dc + ":" + da + "-" + db == info;
    assert info[|dc|] == ':';
    assert versePart[|da|] == '-';
    assert forall m :: 0 <= m < |versePart| ==> versePart[m] != ':' by {
      forall m | 0 <= m < |versePart|
        ensures versePart[m] != ':'
      {
        if m < |da| {
          assert versePart[m] == da[m];
        } else if m > |da| {
          assert versePart[m] == db[m - |da| - 1];
        }
      }
    }
    assert ':' in info;
    assert '-' in versePart;
    SplitInTwo(dc, ':', versePart, {':'});
    SplitInTwo(da, '-', db, {'-'});
    assert SplitBy(info, {':'}) == [dc, versePart];
    assert SplitBy(versePart, {'-'}) == [da, db];
  }

  /** `C:A-B` is verses A through B of chapter C. */
  lemma ChapterInfoVerseRange(c: nat, a: nat, b: nat)
    ensures ParseChapterInfo(NatToString(c) + ":" + NatToString(a) + "-" + NatToString(b))
         == ChapterSpec(Int(c), Int(c), Some(Int(a)), Some(Int(b)))
  {
    DigitsHaveNoSeparator(NatToString(c));
    DigitsHaveNoSeparator(NatToString(a));
    DigitsHaveNoSeparator(NatToString(b));
    ChapterInfoVerseRangeOf(NatToString(c), NatToString(a), NatToString(b));
    ParseIntOfNatToString(c);
    ParseIntOfNatToString(a);
    ParseIntOfNatToString(b);
  }

  /** A name that stands in a segment as it is: no `(`, no line terminator, no whitespace at either end. */
  predicate PlainName(name: string)
  {
    && name != []
    && !IsSpace(name[0])
    && !IsSpace(name[|name| - 1])
    && NoLineTerminator(name)
    && forall m :: 0 <= m < |name| ==> name[m] != '('
  }

  /** Before the end of a plain name the pattern cannot match. */
  lemma NoMatchInsidePlainName(s: string, name: string, i: nat)
    requires PlainName(name) && name < s
    requires 1 <= i < |name|
    ensures SegmentMatchAt(s, i).None?
  {
    var k := SkipSpaces(s, i);
    if k < |name| {
      assert s[k] == name[k];
    }
  }

  /** One step of the lazy scan: a match at `i`, or the scan from `i + 1`. */
  lemma SegmentMatchFromStep(s: string, i: nat)
    requires 1 <= i < |s| && NoLineTerminator(s[..i])
    ensures SegmentMatchFrom(s, i) == if SegmentMatchAt(s, i).Some? then SegmentMatchAt(s, i) else SegmentMatchFrom(s, i + 1)
  {
    assert !IsLineTerminator(s[i - 1]);
  }

  /** A line whose text starts with a plain name holds no line terminator up to any point inside the name. */
  lemma PlainNamePrefix(s: string, name: string, i: nat)
    requires PlainName(name) && name < s
    requires 1 <= i <= |name|
    ensures i < |s| && NoLineTerminator(s[..i])
  {
    assert s[..i] == name[..i];
  }

  /** Scanning from any point inside a plain name finds the first group equal to the name. */
  lemma {:induction false} ScanStopsAtPlainName(s: string, name: string, i: nat, info: string)
    requires PlainName(name) && name < s
    requires 1 <= i <= |name|
    requires SegmentMatchAt(s, |name|) == Some((name, info))
    ensures SegmentMatchFrom(s, i) == Some((name, info))
    decreases |name| - i
  {
    PlainNamePrefix(s, name, i);
    SegmentMatchFromStep(s, i);
    if i < |name| {
      NoMatchInsidePlainName(s, name, i);
      assert SegmentMatchFrom(s, i) == SegmentMatchFrom(s, i + 1);
      ScanStopsAtPlainName(s, name, i + 1, info);
    } else {
      assert SegmentMatchFrom(s, i) == SegmentMatchAt(s, |name|);
    }
  }

  /** The pattern splits `name(cn)info` into the plain name and `info`. */
  lemma PlainSegmentMatch(name: string, cn: string, info: string)
    requires PlainName(name)
    requires cn != [] && forall m :: 0 <= m < |cn| ==> cn[m] != ')'
    requires info != [] && NoLineTerminator(info) && !IsSpace(info[0])
    ensures SegmentMatch(name + "(" + cn + ")" + info) == Some((name, info))
  {
    var s := name + "(" + cn + ")" + info;
    var k := |name|;
    var p := k + 1 + |cn|;
    assert s[..k] == name;
    assert s[k] == '(' && s[p] == ')';
    assert forall m :: k < m < p ==> s[m] == cn[m - k - 1];
    assert s[p + 1..] == info;
    assert SkipSpaces(s, k) == k;
    assert IndexOfFrom(s, ')', k + 1) == p;
    assert SkipSpaces(s, p + 1) == p + 1;
    assert NoLineTerminator(s[p + 1..]);
    assert SegmentMatchAt(s, k) == Some((name, info));
    ScanStopsAtPlainName(s, name, 1, info);
  }

  /**
   * A well-formed annotation `name(cn)info` with a known English name is
   * read as that book, with the chapter part parsed from `info`.
   */
  lemma WellFormedSegment(name: string, cn: string, info: string)
    requires BookMapping(name).Some? && PlainName(name)
    requires cn != [] && forall m :: 0 <= m < |cn| ==> cn[m] != ')'
    requires info != [] && NoLineTerminator(info)
    requires !IsSpace(info[0]) && !IsSpace(info[|info| - 1])
    ensures var spec := ParseChapterInfo(info);
      ParseReadingSegment(name + "(" + cn + ")" + info)
      == Some(PlanReading(BookMapping(name).value.id, BookMapping(name).value.cn, name,
                          spec.chapterStart, spec.chapterEnd, spec.verseStart, spec.verseEnd))
  {
    var s := name + "(" + cn + ")" + info;
    assert s[0] == name[0] && s[|s| - 1] == info[|info| - 1];
    TrimOfTrimmed(s);
    TrimOfTrimmed(name);
    TrimOfTrimmed(info);
    PlainSegmentMatch(name, cn, info);
  }

  // ---------------------------------------------------------------------
  // Day lines
  // ---------------------------------------------------------------------

  /**
   * What `/^(\d+)\s+(.+)$/` demands of `t` once the day number is `t[..d]`
   * and the rest is `content`: digits, at least one whitespace character,
   * then `content`, non-empty and free of line terminators, up to the end.
   */
  ghost predicate DayLineShape(t: string, d: nat, content: string)
  {
    && 1 <= d
    && d + |content| < |t|
    && AllDigits(t[..d])
    && content != []
    && NoLineTerminator(content)
    && content == t[|t| - |content|..]
    && AllSpaces(t[d..|t| - |content|])
  }

  /**
   * The day-line pattern as `String.prototype.match` applies it: the day
   * number and the reading text, or null. The digit run is maximal because
   * whitespace must follow it; whitespace running to the end gives its last
   * character back to `(.+)`.
   */
  function DayLineMatch(t: string): (r: Option<(string, string)>)
    ensures r.Some? ==>
      && |r.value.0| <= |t|
      && r.value.0 == t[..|r.value.0|]
      && DayLineShape(t, |r.value.0|, r.value.1)
  {
    var d := DigitRun(t);
    if d == 0 || d == |t| || !IsSpace(t[d]) then None
    else
      var q := SkipSpaces(t, d);
      if q < |t| then
        if NoLineTerminator(t[q..]) then Some((t[..d], t[q..])) else None
      else if q - d >= 2 && !IsLineTerminator(t[|t| - 1]) then Some((t[..d], t[|t| - 1..]))
      else None
  }

  /** The day-line pattern matches exactly when some split of the line has its shape. */
  lemma DayLineMatchIffShape(t: string)
    ensures DayLineMatch(t).Some? <==> exists d: nat, content :: d <= |t| && DayLineShape(t, d, content)
  {
    if exists d: nat, content :: d <= |t| && DayLineShape(t, d, content) {
      var d: nat, content :| d <= |t| && DayLineShape(t, d, content);
      DayLineShapeIsMatched(t, d, content);
    }
    if DayLineMatch(t).Some? {
      var m := DayLineMatch(t).value;
      assert DayLineShape(t, |m.0|, m.1);
    }
  }

  /** A line of the day-line shape is matched by the pattern. */
  lemma DayLineShapeIsMatched(t: string, d: nat, content: string)
    requires d <= |t| && DayLineShape(t, d, content)
    ensures DayLineMatch(t).Some?
  {
    var e := |t| - |content|;
    assert IsSpace(t[d]) by {
      assert t[d] == t[d..e][0];
    }
    assert DigitRun(t) == d;
    var q := SkipSpaces(t, d);
    forall m | d <= m < e
      ensures IsSpace(t[m])
    {
      assert t[m] == t[d..e][m - d];
    }
    assert q >= e;
    if q < |t| {
      assert t[q..] == content[q - e..];
    } else {
      assert t[|t| - 1] == content[|content| - 1];
    }
  }

  /** A segment that holds more than whitespace. */
  predicate IsNotBlank(s: string)
  {
    Trim(s) != []
  }

  /** The reading text split on `;` or `；`, blank pieces dropped. */
  function DaySegments(text: string): (r: seq<string>)
    ensures forall k :: 0 <= k < |r| ==> !AllSpaces(r[k])
    ensures forall k :: 0 <= k < |r| ==> forall m :: 0 <= m < |r[k]| ==> r[k][m] != ';' && r[k][m] != '\U{FF1B}'
    ensures var pieces := SplitBy(text, {';', '\U{FF1B}'});
      forall k :: 0 <= k < |pieces| && Trim(pieces[k]) != [] ==> pieces[k] in r
  {
    var pieces := SplitBy(text, {';', '\U{FF1B}'});
    var r := Filter(pieces, IsNotBlank);
    assert forall k :: 0 <= k < |r| ==> r[k] in pieces;
    FilterKeepsEvery(pieces, IsNotBlank);
    r
  }

  /** Every non-blank piece is a segment, after the segments of the pieces before it and before those of the pieces after it. */
  lemma DaySegmentsInOrder(text: string, m: nat)
    requires m < |SplitBy(text, {';', '\U{FF1B}'})|
    requires Trim(SplitBy(text, {';', '\U{FF1B}'})[m]) != []
    ensures var pieces := SplitBy(text, {';', '\U{FF1B}'});
      DaySegments(text) == Filter(pieces[..m], IsNotBlank) + [pieces[m]] + Filter(pieces[m + 1..], IsNotBlank)
  {
    FilterSplitsAt(SplitBy(text, {';', '\U{FF1B}'}), IsNotBlank, m);
  }

  /** A line is a day line exactly when its trimmed text has the day-line shape. */
  lemma DayLineOfIffShape(line: string)
    ensures DayLineOf(line).Some? <==>
      exists d: nat, content :: d <= |Trim(line)| && DayLineShape(Trim(line), d, content)
  {
    DayLineMatchIffShape(Trim(line));
  }

  /**
   * `parseDayLine`: null for a blank line or one that does not match the
   * day-line pattern; otherwise the day number and the readings of the
   * segments that parse, in their order.
   */
  function DayLineOf(line: string): (r: Option<DayLine>)
    ensures r.Some? ==> r.value.dayNum.Int? && r.value.dayNum.value >= 0
    ensures r.Some? ==>
      && DayLineMatch(Trim(line)).Some?
      && r.value.readings == Collect(DaySegments(DayLineMatch(Trim(line)).value.1), ParseReadingSegment)
  {
    var trimmed := Trim(line);
    if trimmed == [] then None
    else match DayLineMatch(trimmed)
      case None => None
      case Some((digits, text)) =>
        ParseIntOfDigits(digits);
        Some(DayLine(ParseInt(digits), Collect(DaySegments(text), ParseReadingSegment)))
  }

  /** The loop of `parseDayLine`: every segment is parsed and each reading found is pushed. */
  method ParseSegments(segments: seq<string>) returns (readings: seq<PlanReading>)
    ensures readings == Collect(segments, ParseReadingSegment)
  {
    readings := [];
    for i := 0 to |segments|
      invariant readings == Collect(segments[..i], ParseReadingSegment)
    {
      var reading := ParseReadingSegment(segments[i]);
      CollectStep(segments, i, ParseReadingSegment);
      if reading.Some? {
        readings := readings + [reading.value];
      }
    }
    assert segments[..|segments|] == segments;
  }

  /** `parseDayLine` as written. */
  method ParseDayLine(line: string) returns (r: Option<DayLine>)
    ensures r == DayLineOf(line)
  {
    var trimmed := Trim(line);
    if trimmed == [] {
      return None;
    }
    var match_ := DayLineMatch(trimmed);
    if match_.None? {
      return None;
    }
    var dayNum := ParseInt(match_.value.0);
    var readings := ParseSegments(DaySegments(match_.value.1));
    return Some(DayLine(dayNum, readings));
  }

  // ---------------------------------------------------------------------
  // Month headers
  // ---------------------------------------------------------------------

  const ENGLISH_MONTHS: seq<string> := [
    "January", "February", "March", "April", "May", "June",
    "July", "August", "September", "October", "November", "December"
  ]

  const CHINESE_MONTHS: seq<string> := [
    "一月", "二月", "三月", "四月", "五月", "六月",
    "七月", "八月", "九月", "十月", "十一月", "十二月"
  ]

  /**
   * `isMonthHeader`: the trimmed line starts with an English month name,
   * ignoring case, or with a Chinese month name.
   */
  predicate IsMonthHeader(line: string)
    ensures IsMonthHeader(line) ==> Trim(line) != [] && !IsDigit(Trim(line)[0])
  {
    MonthNamesStartWithLetters();
    var t := Trim(line);
    || (exists m :: 0 <= m < |ENGLISH_MONTHS| && StartsWithIgnoringCase(t, ENGLISH_MONTHS[m]))
    || (exists m :: 0 <= m < |CHINESE_MONTHS| && CHINESE_MONTHS[m] <= t)
  }

  /** Every month name starts with a character that no case change turns into a digit. */
  lemma MonthNamesStartWithLetters()
    ensures forall m :: 0 <= m < |ENGLISH_MONTHS| ==>
      ENGLISH_MONTHS[m] != [] && !IsDigit(AsciiLower(ENGLISH_MONTHS[m][0]))
    ensures forall m :: 0 <= m < |CHINESE_MONTHS| ==>
      CHINESE_MONTHS[m] != [] && !IsDigit(CHINESE_MONTHS[m][0])
  {
  }

  /** A month header never reads as a day line, so skipping it loses no day. */
  lemma MonthHeaderIsNoDayLine(line: string)
    requires IsMonthHeader(line)
    ensures DayLineOf(line).None?
  {
    var t := Trim(line);
    MonthNamesStartWithLetters();
    if exists m :: 0 <= m < |ENGLISH_MONTHS| && StartsWithIgnoringCase(t, ENGLISH_MONTHS[m]) {
      var m :| 0 <= m < |ENGLISH_MONTHS| && StartsWithIgnoringCase(t, ENGLISH_MONTHS[m]);
      assert AsciiLower(t[0]) == AsciiLower(ENGLISH_MONTHS[m][0]);
    } else {
      var m :| 0 <= m < |CHINESE_MONTHS| && CHINESE_MONTHS[m] <= t;
      assert t[0] == CHINESE_MONTHS[m][0];
    }
    assert DigitRun(t) == 0;
  }

  /** A blank line, or one holding only whitespace, is no month header. */
  lemma BlankIsNoMonthHeader(line: string)
    requires AllSpaces(line)
    ensures !IsMonthHeader(line)
  {
    MonthNamesStartWithLetters();
  }

  // ---------------------------------------------------------------------
  // The plan document
  // ---------------------------------------------------------------------

  /**
   * What one line of the document contributes: the readings of a day, or
   * nothing for a blank line, a month header, a line that is no day line
   * and a day line none of whose segments parse.
   */
  function DayOf(line: string): (r: Option<seq<PlanReading>>)
    ensures r.Some? ==> r.value != [] && Trim(line) != []
  {
    var trimmed := Trim(line);
    if trimmed == [] || IsMonthHeader(trimmed) then None
    else match DayLineOf(trimmed)
      case Some(parsed) => if |parsed.readings| > 0 then Some(parsed.readings) else None
      case None => None
  }

  /** Blank lines and month headers yield no day. */
  lemma SkippedLinesAreNoDays(line: string)
    ensures AllSpaces(line) ==> DayOf(line).None?
    ensures IsMonthHeader(line) ==> DayOf(line).None?
  {
    TrimIdempotent(line);
    assert IsMonthHeader(Trim(line)) == IsMonthHeader(line);
  }

  /** A line yields a day exactly when it is a day line with at least one reading that parses. */
  lemma DayOfIffDayLine(line: string)
    ensures DayOf(line).Some? <==> DayLineOf(line).Some? && DayLineOf(line).value.readings != []
    ensures DayOf(line).Some? ==> DayOf(line).value == DayLineOf(line).value.readings
  {
    var t := Trim(line);
    TrimIdempotent(line);
    assert DayLineOf(t) == DayLineOf(line);
    if IsMonthHeader(line) {
      SkippedLinesAreNoDays(line);
      MonthHeaderIsNoDayLine(line);
    } else {
      assert !IsMonthHeader(t);
    }
  }

  /** The document cut into lines at `\n`; a `\r` before it stays and is trimmed later. */
  function LinesOf(content: string): (r: seq<string>)
    ensures |r| >= 1
    ensures forall k :: 0 <= k < |r| ==> forall m :: 0 <= m < |r[k]| ==> r[k][m] != '\n'
  {
    SplitBy(content, {'\n'})
  }

  /** Which lines are days, and with which readings. */
  type DayTest = string -> Option<seq<PlanReading>>

  /**
   * The day plans of a sequence of lines under a day test: each line that
   * is a day is appended with the next free index and its trimmed text.
   */
  function PlansBy(lines: seq<string>, day: DayTest): (r: seq<DayPlan>)
    ensures |r| <= |lines|
    ensures forall i :: 0 <= i < |r| ==> r[i].dayIndex == i
    decreases |lines|
  {
    if lines == [] then []
    else
      var plans := PlansBy(lines[..|lines| - 1], day);
      var line := lines[|lines| - 1];
      match day(line)
      case None => plans
      case Some(readings) => plans + [DayPlan(|plans|, readings, Trim(line))]
  }

  /** One more line: the plans so far, then that line's day when it is one. */
  lemma PlansBySnoc(lines: seq<string>, line: string, day: DayTest)
    ensures PlansBy(lines + [line], day) == match day(line)
      case None => PlansBy(lines, day)
      case Some(readings) => PlansBy(lines, day) + [DayPlan(|PlansBy(lines, day)|, readings, Trim(line))]
  {
    assert (lines + [line])[..|lines|] == lines;
  }

  /** The same step, for a prefix of a sequence of lines, when the next line yields `d`. */
  lemma PlansByStep(lines: seq<string>, i: nat, day: DayTest, d: Option<seq<PlanReading>>)
    requires i < |lines| && d == day(lines[i])
    ensures d.None? ==> PlansBy(lines[..i + 1], day) == PlansBy(lines[..i], day)
    ensures d.Some? ==>
      PlansBy(lines[..i + 1], day) == PlansBy(lines[..i], day) + [DayPlan(|PlansBy(lines[..i], day)|, d.value, Trim(lines[i]))]
  {
    assert lines[..i + 1][..i] == lines[..i];
  }

  /** Every plan comes from a line that is a day: that day's readings and the line's trimmed text. */
  lemma {:induction false} PlanComesFromLineBy(lines: seq<string>, day: DayTest, i: nat)
    requires i < |PlansBy(lines, day)|
    ensures exists j ::
      && 0 <= j < |lines|
      && day(lines[j]) == Some(PlansBy(lines, day)[i].readings)
      && Trim(lines[j]) == PlansBy(lines, day)[i].rawText
    decreases |lines|
  {
    var init, x := lines[..|lines| - 1], lines[|lines| - 1];
    assert lines == init + [x];
    PlansBySnoc(init, x, day);
    var plan := PlansBy(lines, day)[i];
    if i < |PlansBy(init, day)| {
      PlanComesFromLineBy(init, day, i);
      var j :| 0 <= j < |init| && day(init[j]) == Some(plan.readings) && Trim(init[j]) == plan.rawText;
      assert lines[j] == init[j];
    } else {
      assert day(lines[|lines| - 1]) == Some(plan.readings) && Trim(lines[|lines| - 1]) == plan.rawText;
    }
  }

  /** A line that is no day can be removed without changing any plan, numbering included. */
  lemma {:induction false} PlansSkipLineBy(a: seq<string>, line: string, b: seq<string>, day: DayTest)
    requires day(line).None?
    ensures PlansBy(a + [line] + b, day) == PlansBy(a + b, day)
    decreases |b|
  {
    if b == [] {
      assert a + [line] + b == a + [line];
      assert a + b == a;
      PlansBySnoc(a, line, day);
    } else {
      var b0, x := b[..|b| - 1], b[|b| - 1];
      assert a + [line] + b == (a + [line] + b0) + [x];
      assert a + b == (a + b0) + [x];
      PlansSkipLineBy(a, line, b0, day);
      PlansBySnoc(a + [line] + b0, x, day);
      PlansBySnoc(a + b0, x, day);
    }
  }

  /** When every line is a day, the i-th plan is the i-th line's. */
  lemma {:induction false} PlansOfDayLinesBy(lines: seq<string>, day: DayTest)
    requires forall j :: 0 <= j < |lines| ==> day(lines[j]).Some?
    ensures |PlansBy(lines, day)| == |lines|
    ensures forall i :: 0 <= i < |lines| ==>
      PlansBy(lines, day)[i] == DayPlan(i, day(lines[i]).value, Trim(lines[i]))
    decreases |lines|
  {
    if lines != [] {
      var init, x := lines[..|lines| - 1], lines[|lines| - 1];
      assert lines == init + [x];
      PlansOfDayLinesBy(init, day);
      PlansBySnoc(init, x, day);
      assert forall i :: 0 <= i < |init| ==> init[i] == lines[i];
    }
  }

  /** Under `DayOf`, every plan has readings and a non-empty raw text. */
  lemma PlansOfDaysAreFilled(lines: seq<string>)
    ensures forall i :: 0 <= i < |PlansBy(lines, DayOf)| ==>
      PlansBy(lines, DayOf)[i].readings != [] && PlansBy(lines, DayOf)[i].rawText != []
  {
    forall i | 0 <= i < |PlansBy(lines, DayOf)|
      ensures PlansBy(lines, DayOf)[i].readings != [] && PlansBy(lines, DayOf)[i].rawText != []
    {
      PlanComesFromLineBy(lines, DayOf, i);
    }
  }

  /** The day plans of a document's lines, each line tested by `DayOf`. */
  function PlansOf(lines: seq<string>): (r: seq<DayPlan>)
    ensures |r| <= |lines|
    ensures forall i :: 0 <= i < |r| ==> r[i].dayIndex == i && r[i].readings != [] && r[i].rawText != []
  {
    PlansOfDaysAreFilled(lines);
    PlansBy(lines, DayOf)
  }

  /** The body of `parsePlanContent`'s loop: skip blank lines and month headers, parse the rest as a day line. */
  method DayOfLine(line: string) returns (r: Option<seq<PlanReading>>)
    ensures r == DayOf(line)
  {
    var trimmed := Trim(line);
    if trimmed == [] || IsMonthHeader(trimmed) {
      return None;
    }
    var parsed := ParseDayLine(trimmed);
    if parsed.Some? && |parsed.value.readings| > 0 {
      return Some(parsed.value.readings);
    }
    return None;
  }

  /** `parsePlanContent` as written: a loop over the lines with a running day counter. */
  method ParsePlanContent(content: string) returns (dayPlans: seq<DayPlan>)
    ensures dayPlans == PlansOf(LinesOf(content))
  {
    var lines := SplitBy(content, {'\n'});
    dayPlans := [];
    var globalDayIndex := 0;
    for i := 0 to |lines|
      invariant dayPlans == PlansBy(lines[..i], DayOf)
      invariant globalDayIndex == |dayPlans|
    {
      var day := DayOfLine(lines[i]);
      PlansByStep(lines, i, DayOf, day);
      if day.Some? {
        dayPlans := dayPlans + [DayPlan(globalDayIndex, day.value, Trim(lines[i]))];
        globalDayIndex := globalDayIndex + 1;
      }
    }
    assert lines[..|lines|] == lines;
  }

  /** A line that yields no day can be removed without changing any plan, numbering included. */
  lemma PlansSkipLine(a: seq<string>, line: string, b: seq<string>)
    requires DayOf(line).None?
    ensures PlansOf(a + [line] + b) == PlansOf(a + b)
  {
    PlansSkipLineBy(a, line, b, DayOf);
  }

  /** When every line yields a day, the i-th plan is the i-th line's. */
  lemma PlansOfDayLines(lines: seq<string>)
    requires forall j :: 0 <= j < |lines| ==> DayOf(lines[j]).Some?
    ensures |PlansOf(lines)| == |lines|
    ensures forall i :: 0 <= i < |lines| ==>
      PlansOf(lines)[i] == DayPlan(i, DayOf(lines[i]).value, Trim(lines[i]))
  {
    PlansOfDayLinesBy(lines, DayOf);
  }

  /** Every plan comes from a line of the document: its readings and its trimmed text. */
  lemma PlanComesFromLine(lines: seq<string>, i: nat)
    requires i < |PlansOf(lines)|
    ensures exists j ::
      && 0 <= j < |lines|
      && DayOf(lines[j]) == Some(PlansOf(lines)[i].readings)
      && Trim(lines[j]) == PlansOf(lines)[i].rawText
  {
    PlanComesFromLineBy(lines, DayOf, i);
  }

  // ---------------------------------------------------------------------
  // Looking a day up
  // ---------------------------------------------------------------------

  /** `Math.abs(dayIndex % 365)` with JavaScript's truncating remainder. */
  function NormalizedDay(dayIndex: int): (n: nat)
    ensures n < 365
    ensures n == Abs(dayIndex) % 365
  {
    Abs(JsRem(dayIndex, 365))
  }

  /** Whole years later, a non-negative day lands on the same index. */
  lemma NormalizedDayPeriodic(d: nat, years: nat)
    ensures NormalizedDay(d + 365 * years) == NormalizedDay(d)
  {
    assert (d + 365 * years) % 365 == d % 365 by {
      ModuloOfShift(d, years);
    }
  }

  lemma {:induction false} ModuloOfShift(d: nat, years: nat)
    ensures (d + 365 * years) % 365 == d % 365
  {
    if years > 0 {
      ModuloOfShift(d, years - 1);
      assert d + 365 * years == (d + 365 * (years - 1)) + 365;
    }
  }

  /** A negative day mirrors the positive one: the sign is dropped, not wrapped. */
  lemma NormalizedDayMirrors(d: int)
    ensures NormalizedDay(-d) == NormalizedDay(d)
    ensures NormalizedDay(-1) == 1 && NormalizedDay(364) == 364 && NormalizedDay(365) == 0
  {
  }

  /** Whether a plan carries the given index. */
  function HasDayIndex(n: nat): DayPlan -> bool
  {
    (plan: DayPlan) => plan.dayIndex == n
  }

  /**
   * `getPlanByDayIndex`: the first plan whose index is the normalized day,
   * or null.
   */
  function GetPlanByDayIndex(dayIndex: int, allPlans: seq<DayPlan>): (r: Option<DayPlan>)
    ensures r.Some? ==> r.value in allPlans && r.value.dayIndex == NormalizedDay(dayIndex) && r.value.dayIndex <= 364
    ensures r.Some? ==> exists k ::
      && 0 <= k < |allPlans|
      && allPlans[k] == r.value
      && forall m :: 0 <= m < k ==> allPlans[m].dayIndex != NormalizedDay(dayIndex)
    ensures r.None? <==> forall k :: 0 <= k < |allPlans| ==> allPlans[k].dayIndex != NormalizedDay(dayIndex)
  {
    var k := FindIndex(allPlans, HasDayIndex(NormalizedDay(dayIndex)));
    if k == -1 then None else Some(allPlans[k])
  }

  /** On a parsed document, day d is the plan at position `|d % 365|`, if there is one. */
  lemma LookupInParsedPlan(lines: seq<string>, d: int)
    ensures var plans := PlansOf(lines);
      GetPlanByDayIndex(d, plans)
      == if NormalizedDay(d) < |plans| then Some(plans[NormalizedDay(d)]) else None
  {
    var plans := PlansOf(lines);
    var n := NormalizedDay(d);
    var k := FindIndex(plans, HasDayIndex(n));
    if n < |plans| {
      assert HasDayIndex(n)(plans[n]);
      assert k == n;
    }
  }

  // ---------------------------------------------------------------------
  // The parsed plan, cached once loaded
  // ---------------------------------------------------------------------

  /**
   * The module-level cache of `loadPlanData`. The fetched document is a
   * parameter: `None` stands for a failed request.
   */
  class PlanStore {
    var cachedPlanData: Option<seq<DayPlan>>

    constructor()
      ensures cachedPlanData.None?
    {
      cachedPlanData := None;
    }

    /** `loadPlanData`: the cached plans, else the fetched document parsed and cached, else none. */
    method LoadPlanData(fetched: Option<string>) returns (plans: seq<DayPlan>)
      modifies this
      ensures old(cachedPlanData).Some? ==> plans == old(cachedPlanData).value && cachedPlanData == old(cachedPlanData)
      ensures old(cachedPlanData).None? && fetched.Some? ==>
        plans == PlansOf(LinesOf(fetched.value)) && cachedPlanData == Some(plans)
      ensures old(cachedPlanData).None? && fetched.None? ==> plans == [] && cachedPlanData.None?
    {
      if cachedPlanData.Some? {
        return cachedPlanData.value;
      }
      if fetched.None? {
        return [];
      }
      plans := ParsePlanContent(fetched.value);
      cachedPlanData := Some(plans);
    }

    /** `clearPlanCache`. */
    method ClearPlanCache()
      modifies this
      ensures cachedPlanData.None?
    {
      cachedPlanData := None;
    }
  }
}
