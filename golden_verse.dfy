/**
 * The golden verses: a list of references such as `哥林多前書 13:4-5`
 * resolved against the Chinese Union Version, and the verse of the day
 * chosen from that list by the day of the year.
 */
module GoldenVerses {

  import opened JsText
  import opened JsArray
  import opened BibleContent

  /** A verse of the list with its text looked up. */
  datatype GoldenVerse = GoldenVerse(bookName: string, reference: string, text: string)

  /** A list line split into its book name and its numeric reference. */
  datatype VerseLine = VerseLine(bookName: string, reference: string)

  /** A reference read as numbers: the chapter and the first and last verse. */
  datatype Reference = Reference(chapter: Num, verseStart: Num, verseEnd: Num)

  /** Chinese book names -> the abbreviations used by the Bible files. */
  const BOOK_NAME_TO_ABBREV: map<string, string> := map[
    "創世記" := "gn", "出埃及記" := "ex", "利未記" := "lv", "民數記" := "nm", "申命記" := "dt",
    "約書亞記" := "js", "士師記" := "jg", "路得記" := "rt", "撒母耳記上" := "1sm", "撒母耳記下" := "2sm",
    "列王紀上" := "1kgs", "列王紀下" := "2kgs", "歷代志上" := "1ch", "歷代志下" := "2ch", "以斯拉記" := "ezr",
    "尼希米記" := "ne", "以斯帖記" := "et", "約伯記" := "jb", "詩篇" := "ps", "箴言" := "prv",
    "傳道書" := "ec", "雅歌" := "so", "以賽亞書" := "is", "耶利米書" := "jr", "耶利米哀歌" := "lm",
    "以西結書" := "ez", "但以理書" := "dn", "何西阿書" := "ho", "約珥書" := "jl", "阿摩司書" := "am",
    "俄巴底亞書" := "ob", "約拿書" := "jn", "彌迦書" := "mi", "那鴻書" := "na", "哈巴谷書" := "hk",
    "西番雅書" := "zp", "哈該書" := "hg", "撒迦利亞書" := "zc", "瑪拉基書" := "ml", "馬太福音" := "mt",
    "馬可福音" := "mk", "路加福音" := "lk", "約翰福音" := "jo", "使徒行傳" := "act", "羅馬書" := "rm",
    "哥林多前書" := "1co", "哥林多後書" := "2co", "加拉太書" := "gl", "以弗所書" := "eph", "腓立比書" := "ph",
    "歌羅西書" := "cl", "帖撒羅尼迦前書" := "1ts", "帖撒羅尼迦後書" := "2ts", "提摩太前書" := "1tm", "提摩太後書" := "2tm",
    "提多書" := "tt", "腓利門書" := "phm", "希伯來書" := "hb", "雅各書" := "jm", "彼得前書" := "1pe",
    "彼得後書" := "2pe", "約翰一書" := "1jo", "約翰二書" := "2jo", "約翰三書" := "3jo", "猶大書" := "jd",
    "啟示錄" := "re"
  ]

  // ---------------------------------------------------------------------
  // References
  // ---------------------------------------------------------------------

  /**
   * `parseReference`: the chapter before the colon; after it, either
   * `start-end` or a single verse standing for both ends. Only called on
   * text that holds a colon (without one the original throws).
   */
  function ParseReference(reference: string): (r: Reference)
    requires ':' in reference
    ensures var versePart := SplitBy(reference, {':'})[1];
      '-' !in versePart ==> r.verseStart == r.verseEnd
  {
    var parts := SplitBy(reference, {':'});
    var chapter := ParseInt(parts[0]);
    var versePart := parts[1];
    if '-' in versePart then
      var range := SplitBy(versePart, {'-'});
      Reference(chapter, ParseInt(range[0]), ParseInt(range[1]))
    else
      var verse := ParseInt(versePart);
      Reference(chapter, verse, verse)
  }

  /** The numeric tail of a list line: `digits:digits` or `digits:digits-digits`. */
  predicate IsReference(r: string)
  {
    var a := DigitRun(r);
    && 0 < a < |r|
    && r[a] == ':'
    && var rest := r[a + 1..];
       var b := DigitRun(rest);
       && b > 0
       && (b == |rest| || (rest[b] == '-' && b + 1 < |rest| && AllDigits(rest[b + 1..])))
  }

  /** `c:v` reads as chapter c, verse v to v. */
  lemma ParseSingleVerseReference(dc: string, dv: string)
    requires dc != [] && AllDigits(dc) && dv != [] && AllDigits(dv)
    ensures ':' in dc + ":" + dv
    ensures ParseReference(dc + ":" + dv)
         == Reference(Int(DigitsValue(dc)), Int(DigitsValue(dv)), Int(DigitsValue(dv)))
  {
    var r := dc + ":" + dv;
    assert r[|dc|] == ':';
    DigitsHaveNoSeparator(dc);
    DigitsHaveNoSeparator(dv);
    SplitInTwo(dc, ':', dv, {':'});
    ParseIntOfDigits(dc);
    ParseIntOfDigits(dv);
  }

  /** `c:a-b` reads as chapter c, verses a to b. */
  lemma ParseVerseRangeReference(dc: string, da: string, db: string)
    requires dc != [] && AllDigits(dc) && da != [] && AllDigits(da) && db != [] && AllDigits(db)
    ensures ':' in dc + ":" + da + "-" + db
    ensures ParseReference(dc + ":" + da + "-" + db)
         == Reference(Int(DigitsValue(dc)), Int(DigitsValue(da)), Int(DigitsValue(db)))
  {
    var versePart := da + "-" + db;
    var r := dc + ":" + versePart;
    assert dc + ":" + da + "-" + db == r;
    assert r[|dc|] == ':';
    assert versePart[|da|] == '-';
    DigitsHaveNoSeparator(dc);
    DigitsHaveNoSeparator(da);
    DigitsHaveNoSeparator(db);
    assert forall m :: 0 <= m < |versePart| ==> versePart[m] != ':' by {
      forall m | 0 <= m < |versePart|
        ensures versePart[m] != ':'
      {
        if m < |da| {
          assert versePart[m] == da[m];
        } else if m > |da| {
          assert versePart[m] == db[m - |da| - 1];
        }
      }
    }
    assert ':' in r;
    assert '-' in versePart;
    SplitInTwo(dc, ':', versePart, {':'});
    SplitInTwo(da, '-', db, {'-'});
    assert SplitBy(r, {':'}) == [dc, versePart];
    assert SplitBy(versePart, {'-'}) == [da, db];
    ParseIntOfDigits(dc);
    ParseIntOfDigits(da);
    ParseIntOfDigits(db);
  }

  /** A well-formed reference holds a colon and starts and ends with a digit. */
  lemma ReferenceBoundedByDigits(r: string)
    requires IsReference(r)
    ensures ':' in r && IsDigit(r[0]) && IsDigit(r[|r| - 1])
  {
    var a := DigitRun(r);
    var rest := r[a + 1..];
    var b := DigitRun(rest);
    assert r[0] == r[..a][0];
    if b == |rest| {
      assert r[|r| - 1] == rest[..b][b - 1];
    } else {
      assert r[|r| - 1] == rest[b + 1..][|rest| - b - 2];
    }
  }

  /** A well-formed reference is its own trim. */
  lemma ReferenceIsTrimmed(r: string)
    requires IsReference(r)
    ensures Trim(r) == r
  {
    ReferenceBoundedByDigits(r);
    assert !IsSpace(r[0]) && !IsSpace(r[|r| - 1]);
    TrimOfTrimmed(r);
  }

  /** A well-formed reference reads as three numbers: never NaN. */
  lemma WellFormedReferenceIsNumeric(r: string)
    requires IsReference(r)
    ensures ':' in r
    ensures var ref := ParseReference(r);
      ref.chapter.Int? && ref.verseStart.Int? && ref.verseEnd.Int?
  {
    var a := DigitRun(r);
    var dc := r[..a];
    var rest := r[a + 1..];
    var b := DigitRun(rest);
    var dv := rest[..b];
    if b == |rest| {
      assert r == dc + ":" + dv;
      ParseSingleVerseReference(dc, dv);
    } else {
      var dw := rest[b + 1..];
      assert rest == dv + "-" + dw;
      assert r == dc + ":" + dv + "-" + dw;
      ParseVerseRangeReference(dc, dv, dw);
    }
  }

  // ---------------------------------------------------------------------
  // List lines
  // ---------------------------------------------------------------------

  /**
   * What `/^(.+?)\s+(\d+:\d+(?:-\d+)?)$/` demands of `t` once the name is
   * `t[..i]` and the reference `reference`: a name free of line
   * terminators, at least one whitespace character, then the reference up
   * to the end.
   */
  ghost predicate VerseLineShape(t: string, i: nat, reference: string)
  {
    && 1 <= i
    && i + |reference| < |t|
    && NoLineTerminator(t[..i])
    && IsReference(reference)
    && reference == t[|t| - |reference|..]
    && AllSpaces(t[i..|t| - |reference|])
  }

  /**
   * The list-line pattern with its lazy name fixed to `t[..i]`. Whitespace
   * is taken greedily; giving any back would start the reference with
   * whitespace, so only the full run is tried.
   */
  function VerseLineMatchAt(t: string, i: nat): (r: Option<(string, string)>)
    requires 1 <= i <= |t|
    requires NoLineTerminator(t[..i])
    ensures r.Some? ==> r.value.0 == t[..i] && VerseLineShape(t, i, r.value.1)
  {
    var k := SkipSpaces(t, i);
    if k == i || !IsReference(t[k..]) then None
    else Some((t[..i], t[k..]))
  }

  /** The list-line pattern with the name tried at `t[..i]`, `t[..i+1]`, ...: the shortest that works. */
  function VerseLineMatchFrom(t: string, i: nat): (r: Option<(string, string)>)
    requires 1 <= i
    requires i <= |t| ==> NoLineTerminator(t[..i - 1])
    ensures r.Some? ==>
      && i <= |r.value.0| <= |t|
      && r.value.0 == t[..|r.value.0|]
      && VerseLineShape(t, |r.value.0|, r.value.1)
    decreases |t| - i
  {
    if i >= |t| || IsLineTerminator(t[i - 1]) then None
    else
      assert t[..i] == t[..i - 1] + [t[i - 1]];
      match VerseLineMatchAt(t, i)
      case Some(m) => Some(m)
      case None => VerseLineMatchFrom(t, i + 1)
  }

  /** The list-line pattern as `String.prototype.match` applies it. */
  function VerseLineMatch(t: string): Option<(string, string)>
  {
    VerseLineMatchFrom(t, 1)
  }

  /** At a position where the shape holds, the pattern matches. */
  lemma VerseShapeMatchesAt(t: string, i: nat, reference: string)
    requires i <= |t| && VerseLineShape(t, i, reference)
    ensures VerseLineMatchAt(t, i).Some?
  {
    var e := |t| - |reference|;
    ReferenceBoundedByDigits(reference);
    assert t[e] == reference[0];
    assert !IsSpace(t[e]);
    assert SkipSpaces(t, i) == e;
    assert t[e..] == reference;
  }

  /** The pattern finds a match whenever some name admits the shape. */
  lemma {:induction false} VerseShapeIsFound(t: string, i: nat, j: nat, reference: string)
    requires 1 <= i <= j
    requires i <= |t| ==> NoLineTerminator(t[..i - 1])
    requires j <= |t| && VerseLineShape(t, j, reference)
    ensures VerseLineMatchFrom(t, i).Some?
    decreases j - i
  {
    assert t[..j][i - 1] == t[i - 1];
    if VerseLineMatchAt(t, i).None? {
      if i == j {
        VerseShapeMatchesAt(t, j, reference);
      } else {
        assert t[..i] == t[..j][..i];
        VerseShapeIsFound(t, i + 1, j, reference);
      }
    }
  }

  /** The list-line pattern matches exactly when some split of the line has its shape. */
  lemma VerseLineMatchIffShape(t: string)
    ensures VerseLineMatch(t).Some? <==> exists i: nat, reference :: i <= |t| && VerseLineShape(t, i, reference)
  {
    if exists i: nat, reference :: i <= |t| && VerseLineShape(t, i, reference) {
      var i: nat, reference :| i <= |t| && VerseLineShape(t, i, reference);
      VerseShapeIsFound(t, 1, i, reference);
    }
    if VerseLineMatch(t).Some? {
      var m := VerseLineMatch(t).value;
      assert VerseLineShape(t, |m.0|, m.1);
    }
  }

  /**
   * `parseVerseLine`: null for a blank line or one that does not match;
   * otherwise the trimmed name and the reference, which is a well-formed
   * numeric tail of the line.
   */
  function ParseVerseLine(line: string): (r: Option<VerseLine>)
    ensures AllSpaces(line) ==> r.None?
    ensures r.Some? ==> IsReference(r.value.reference) && r.value.bookName != []
  {
    var trimmed := Trim(line);
    if trimmed == [] then None
    else match VerseLineMatch(trimmed)
      case None => None
      case Some((name, reference)) =>
        ReferenceIsTrimmed(reference);
        assert name[0] == trimmed[0];
        Some(VerseLine(Trim(name), Trim(reference)))
  }

  /** A line parses exactly when its trimmed text has the list-line shape. */
  lemma ParseVerseLineIffShape(line: string)
    ensures ParseVerseLine(line).Some? <==>
      exists i: nat, reference :: i <= |Trim(line)| && VerseLineShape(Trim(line), i, reference)
  {
    VerseLineMatchIffShape(Trim(line));
  }

  /**
   * A parsed line is the shortest name the pattern admits, trimmed, and
   * the reference that ends the line, as it stands.
   */
  lemma ParsedVerseLineParts(line: string)
    requires ParseVerseLine(line).Some?
    ensures VerseLineMatch(Trim(line)).Some?
    ensures var i := |VerseLineMatch(Trim(line)).value.0|;
      && VerseLineShape(Trim(line), i, ParseVerseLine(line).value.reference)
      && ParseVerseLine(line).value.bookName == Trim(Trim(line)[..i])
  {
    var t := Trim(line);
    var m := VerseLineMatch(t).value;
    assert VerseLineShape(t, |m.0|, m.1);
    ReferenceIsTrimmed(m.1);
    assert ParseVerseLine(line).value == VerseLine(Trim(m.0), m.1);
  }

  // ---------------------------------------------------------------------
  // Verse text
  // ---------------------------------------------------------------------

  /** The book of the file that a Chinese book name stands for: the first with its abbreviation. */
  function FindBookByName(bibleData: seq<BibleBook>, bookName: string): (r: Option<BibleBook>)
    ensures bookName !in BOOK_NAME_TO_ABBREV ==> r.None?
    ensures r.Some? ==> r.value in bibleData && r.value.abbrev == BOOK_NAME_TO_ABBREV[bookName]
    ensures bookName in BOOK_NAME_TO_ABBREV ==>
      (r.None? <==> forall k :: 0 <= k < |bibleData| ==> bibleData[k].abbrev != BOOK_NAME_TO_ABBREV[bookName])
  {
    if bookName !in BOOK_NAME_TO_ABBREV then None
    else
      var k := FindIndex(bibleData, HasAbbrev(BOOK_NAME_TO_ABBREV[bookName]));
      if k == -1 then None else Some(bibleData[k])
  }

  /**
   * The trimmed texts of the verses numbered `from` to `upTo` that exist:
   * verse numbers run from 1 to `|texts|`.
   */
  function TrimmedRange(texts: seq<string>, from: int, upTo: int): (r: seq<string>)
    ensures var lo, hi := Max(from, 1), Min(upTo, |texts|);
      |r| == (if lo <= hi then hi - lo + 1 else 0)
  {
    var lo, hi := Max(from, 1), Min(upTo, |texts|);
    if lo <= hi then MapWindow(texts, lo - 1, hi - lo + 1, Trim) else []
  }

  /** The k-th text of the window is the trimmed verse `max(start, 1) + k`. */
  lemma TrimmedRangeAt(texts: seq<string>, from: int, upTo: int, k: nat)
    requires k < |TrimmedRange(texts, from, upTo)|
    ensures Max(from, 1) - 1 + k < |texts|
    ensures TrimmedRange(texts, from, upTo)[k] == Trim(texts[Max(from, 1) - 1 + k])
  {
    var lo, hi := Max(from, 1), Min(upTo, |texts|);
    assert lo <= hi;
    var window := MapWindow(texts, lo - 1, hi - lo + 1, Trim);
    assert window[k] == Trim(texts[lo - 1 + k]);
  }

  /** One verse more at the top of the window adds its trimmed text at the end. */
  lemma TrimmedRangeStep(texts: seq<string>, from: int, v: int)
    requires from <= v && 1 <= v <= |texts|
    ensures TrimmedRange(texts, from, v) == TrimmedRange(texts, from, v - 1) + [Trim(texts[v - 1])]
  {
    var a, b := TrimmedRange(texts, from, v), TrimmedRange(texts, from, v - 1);
    assert |a| == |b| + 1;
    forall k | 0 <= k < |b|
      ensures a[k] == b[k]
    {
      TrimmedRangeAt(texts, from, v, k);
      TrimmedRangeAt(texts, from, v - 1, k);
    }
    TrimmedRangeAt(texts, from, v, |b|);
    EqualsSnoc(a, b, Trim(texts[v - 1]));
  }

  /** Two upper bounds that clip the chapter at the same verse, or that both leave the window empty, give the same texts. */
  lemma TrimmedRangeSameWindow(texts: seq<string>, from: int, to1: int, to2: int)
    requires || Min(to1, |texts|) == Min(to2, |texts|)
             || (Min(to1, |texts|) < Max(from, 1) && Min(to2, |texts|) < Max(from, 1))
    ensures TrimmedRange(texts, from, to1) == TrimmedRange(texts, from, to2)
  {
  }

  /**
   * `getVerseText` as it reads: empty for an unknown name, a book missing
   * from the data or a chapter out of range; otherwise the trimmed verses
   * of the window joined with single spaces.
   */
  function VerseText(bibleData: seq<BibleBook>, bookName: string, chapter: int, verseStart: int, verseEnd: int): (text: string)
    ensures FindBookByName(bibleData, bookName).None? ==> text == []
    ensures (FindBookByName(bibleData, bookName).Some? &&
             !(1 <= chapter <= |FindBookByName(bibleData, bookName).value.chapters|)) ==> text == []
    ensures verseStart > verseEnd ==> text == []
    ensures (FindBookByName(bibleData, bookName).Some? &&
             1 <= chapter <= |FindBookByName(bibleData, bookName).value.chapters|) ==>
      var chapterVerses := FindBookByName(bibleData, bookName).value.chapters[chapter - 1];
      && text == Join(TrimmedRange(chapterVerses, verseStart, verseEnd), " ")
      && (verseStart > |chapterVerses| ==> text == [])
  {
    match FindBookByName(bibleData, bookName)
    case None => []
    case Some(book) =>
      if chapter - 1 < 0 || chapter - 1 >= |book.chapters| then []
      else Join(TrimmedRange(book.chapters[chapter - 1], verseStart, verseEnd), " ")
  }

  /** `getVerseText` as written: the lookups with their early returns, the loop, and the join. */
  method GetVerseText(bibleData: seq<BibleBook>, bookName: string, chapter: int, verseStart: int, verseEnd: int)
    returns (text: string)
    ensures text == VerseText(bibleData, bookName, chapter, verseStart, verseEnd)
  {
    var book := FindBookByName(bibleData, bookName);
    if book.None? {
      return [];
    }
    var chapterIndex := chapter - 1;
    if chapterIndex < 0 || chapterIndex >= |book.value.chapters| {
      return [];
    }
    var verses := CollectVerses(book.value.chapters[chapterIndex], verseStart, verseEnd);
    text := Join(verses, " ");
  }

  /** The loop of `getVerseText`: from the first verse, stopping at the last verse or the chapter's end. */
  method CollectVerses(chapterVerses: seq<string>, verseStart: int, verseEnd: int) returns (verses: seq<string>)
    ensures verses == TrimmedRange(chapterVerses, verseStart, verseEnd)
  {
    verses := [];
    var v := verseStart;
    while v <= verseEnd && v <= |chapterVerses|
      invariant verseStart <= v
      invariant v == verseStart || (v - 1 <= verseEnd && v - 1 <= |chapterVerses|)
      invariant verses == TrimmedRange(chapterVerses, verseStart, v - 1)
      decreases |chapterVerses| - v
    {
      var verseIndex := v - 1;
      if verseIndex >= 0 && verseIndex < |chapterVerses| {
        TrimmedRangeStep(chapterVerses, verseStart, v);
        verses := verses + [Trim(chapterVerses[verseIndex])];
      } else {
        TrimmedRangeSameWindow(chapterVerses, verseStart, v - 1, v);
      }
      v := v + 1;
    }
    TrimmedRangeAtExit(chapterVerses, verseStart, verseEnd, v);
  }

  /** Where the loop of `getVerseText` stops, it has collected the whole window. */
  lemma TrimmedRangeAtExit(texts: seq<string>, from: int, upTo: int, v: int)
    requires from <= v
    requires v == from || (v - 1 <= upTo && v - 1 <= |texts|)
    requires !(v <= upTo && v <= |texts|)
    ensures TrimmedRange(texts, from, v - 1) == TrimmedRange(texts, from, upTo)
  {
    TrimmedRangeSameWindow(texts, from, v - 1, upTo);
  }

  /** A single verse inside the chapter is its trimmed text, alone. */
  lemma SingleVerseText(bibleData: seq<BibleBook>, bookName: string, chapter: int, verse: int)
    requires FindBookByName(bibleData, bookName).Some?
    requires 1 <= chapter <= |FindBookByName(bibleData, bookName).value.chapters|
    requires 1 <= verse <= |FindBookByName(bibleData, bookName).value.chapters[chapter - 1]|
    ensures VerseText(bibleData, bookName, chapter, verse, verse)
         == Trim(FindBookByName(bibleData, bookName).value.chapters[chapter - 1][verse - 1])
  {
    var texts := FindBookByName(bibleData, bookName).value.chapters[chapter - 1];
    TrimmedRangeStep(texts, verse, verse);
    assert TrimmedRange(texts, verse, verse - 1) == [];
    assert TrimmedRange(texts, verse, verse) == [Trim(texts[verse - 1])];
  }

  // ---------------------------------------------------------------------
  // The golden list
  // ---------------------------------------------------------------------

  /**
   * What one line of the list contributes: its name, its reference and
   * the text found for it, or nothing when the line does not parse or no
   * text is found.
   */
  function GoldenEntry(bibleData: seq<BibleBook>, line: string): (r: Option<GoldenVerse>)
    ensures ParseVerseLine(line).None? ==> r.None?
    ensures ParseVerseLine(line).Some? ==>
      var parsed := ParseVerseLine(line).value;
      && (r.Some? <==> LineText(bibleData, parsed) != [])
      && (r.Some? ==> r.value == GoldenVerse(parsed.bookName, parsed.reference, LineText(bibleData, parsed)))
  {
    match ParseVerseLine(line)
    case None => None
    case Some(parsed) =>
      var text := LineText(bibleData, parsed);
      if text != [] then Some(GoldenVerse(parsed.bookName, parsed.reference, text)) else None
  }

  /** The text of a parsed list line: its reference read as numbers and looked up in the Bible data. */
  function LineText(bibleData: seq<BibleBook>, parsed: VerseLine): string
    requires IsReference(parsed.reference)
  {
    WellFormedReferenceIsNumeric(parsed.reference);
    var ref := ParseReference(parsed.reference);
    VerseText(bibleData, parsed.bookName, ref.chapter.value, ref.verseStart.value, ref.verseEnd.value)
  }

  function GoldenEntryFor(bibleData: seq<BibleBook>): string -> Option<GoldenVerse>
  {
    (line: string) => GoldenEntry(bibleData, line)
  }

  /** The loop of `loadGoldenVerses`: each line that parses and has text, in list order. */
  function GoldenList(versesList: seq<string>, bibleData: seq<BibleBook>): (r: seq<GoldenVerse>)
    ensures |r| <= |versesList|
  {
    Collect(versesList, GoldenEntryFor(bibleData))
  }

  /** Every golden verse comes from a line of the list, with that line's name and reference and a non-empty text. */
  lemma GoldenVerseComesFromLine(versesList: seq<string>, bibleData: seq<BibleBook>, k: nat)
    requires k < |GoldenList(versesList, bibleData)|
    ensures var g := GoldenList(versesList, bibleData)[k];
      exists m ::
        && 0 <= m < |versesList|
        && ParseVerseLine(versesList[m]).Some?
        && ParseVerseLine(versesList[m]).value == VerseLine(g.bookName, g.reference)
        && g.text != []
  {
    CollectedComeFromInput(versesList, GoldenEntryFor(bibleData), k);
  }

  /** One more line of the list adds its entry at the end, when it has one. */
  lemma GoldenListAppendLine(versesList: seq<string>, bibleData: seq<BibleBook>, line: string)
    ensures GoldenList(versesList + [line], bibleData) == GoldenList(versesList, bibleData) +
      (if GoldenEntry(bibleData, line).Some? then [GoldenEntry(bibleData, line).value] else [])
  {
    CollectAppend(versesList, [line], GoldenEntryFor(bibleData));
    assert [line][..0] == [];
  }

  /**
   * A line that parses and has text is kept: its entry comes after the
   * entries of the lines before it and before those of the lines after it.
   */
  lemma GoldenListKeepsLine(versesList: seq<string>, bibleData: seq<BibleBook>, m: nat)
    requires m < |versesList| && GoldenEntry(bibleData, versesList[m]).Some?
    ensures GoldenList(versesList, bibleData) ==
      GoldenList(versesList[..m], bibleData) + [GoldenEntry(bibleData, versesList[m]).value]
        + GoldenList(versesList[m + 1..], bibleData)
  {
    CollectSplitsAt(versesList, GoldenEntryFor(bibleData), m);
  }

  /** The body of the list loop: parse one line, look its text up, keep it when there is text. */
  method GoldenEntryOfLine(bibleData: seq<BibleBook>, line: string) returns (r: Option<GoldenVerse>)
    ensures r == GoldenEntry(bibleData, line)
  {
    var parsed := ParseVerseLine(line);
    if parsed.None? {
      return None;
    }
    WellFormedReferenceIsNumeric(parsed.value.reference);
    var ref := ParseReference(parsed.value.reference);
    var text := GetVerseText(bibleData, parsed.value.bookName,
                             ref.chapter.value, ref.verseStart.value, ref.verseEnd.value);
    if text != [] {
      r := Some(GoldenVerse(parsed.value.bookName, parsed.value.reference, text));
    } else {
      r := None;
    }
  }

  /** The list loop as written: push each entry that has text, in list order. */
  method BuildGoldenVerses(versesList: seq<string>, bibleData: seq<BibleBook>) returns (goldenVerses: seq<GoldenVerse>)
    ensures goldenVerses == GoldenList(versesList, bibleData)
  {
    goldenVerses := [];
    for i := 0 to |versesList|
      invariant goldenVerses == Collect(versesList[..i], GoldenEntryFor(bibleData))
    {
      var entry := GoldenEntryOfLine(bibleData, versesList[i]);
      CollectStep(versesList, i, GoldenEntryFor(bibleData));
      if entry.Some? {
        goldenVerses := goldenVerses + [entry.value];
      }
    }
    assert versesList[..|versesList|] == versesList;
  }

  /** The lines of the list file: split at `\n`, trimmed, empty lines dropped. */
  function VersesListLines(text: string): (r: seq<string>)
    ensures forall k :: 0 <= k < |r| ==> r[k] != [] && Trim(r[k]) == r[k]
    ensures var pieces := SplitBy(text, {'\n'});
      forall k :: 0 <= k < |pieces| && Trim(pieces[k]) != [] ==> Trim(pieces[k]) in r
  {
    var pieces := SplitBy(text, {'\n'});
    var trimmed := TrimmedLines(pieces);
    var r := Filter(trimmed, IsNonEmpty);
    FilterKeepsEvery(trimmed, IsNonEmpty);
    assert forall k :: 0 <= k < |r| ==> r[k] in trimmed;
    forall k | 0 <= k < |r|
      ensures Trim(r[k]) == r[k]
    {
      var i :| 0 <= i < |trimmed| && trimmed[i] == r[k];
      TrimIdempotent(pieces[i]);
    }
    r
  }

  /** The pieces of the list file, each trimmed. */
  function TrimmedLines(pieces: seq<string>): (r: seq<string>)
    ensures |r| == |pieces|
    ensures forall k :: 0 <= k < |pieces| ==> r[k] == Trim(pieces[k])
  {
    seq(|pieces|, i requires 0 <= i < |pieces| => Trim(pieces[i]))
  }

  predicate IsNonEmpty(line: string)
  {
    |line| > 0
  }

  /** Every non-empty trimmed line is kept, after the lines kept before it and before those kept after it. */
  lemma VersesListLinesInOrder(text: string, m: nat)
    requires m < |SplitBy(text, {'\n'})|
    requires Trim(SplitBy(text, {'\n'})[m]) != []
    ensures var trimmed := TrimmedLines(SplitBy(text, {'\n'}));
      VersesListLines(text) == Filter(trimmed[..m], IsNonEmpty) + [trimmed[m]] + Filter(trimmed[m + 1..], IsNonEmpty)
  {
    FilterSplitsAt(TrimmedLines(SplitBy(text, {'\n'})), IsNonEmpty, m);
  }

  // ---------------------------------------------------------------------
  // The verse of the day
  // ---------------------------------------------------------------------

  /** `getFallbackVerses`. */
  const FALLBACK_VERSES: seq<GoldenVerse> := [
    GoldenVerse("詩篇", "119:105", "你的話是我腳前的燈，是我路上的光。"),
    GoldenVerse("腓立比書", "4:13", "我靠著那加給我力量的，凡事都能做。"),
    GoldenVerse("約翰福音", "3:16", "神愛世人，甚至將他的獨生子賜給他們，叫一切信他的，不至滅亡，反得永生。")
  ]

  /** The fallback verses carry well-formed references and non-empty texts. */
  lemma FallbackVersesAreWellFormed()
    ensures |FALLBACK_VERSES| == 3
    ensures forall k :: 0 <= k < |FALLBACK_VERSES| ==>
      IsReference(FALLBACK_VERSES[k].reference) && FALLBACK_VERSES[k].text != []
  {
    forall k | 0 <= k < |FALLBACK_VERSES|
      ensures IsReference(FALLBACK_VERSES[k].reference) && FALLBACK_VERSES[k].text != []
    {
      if k == 0 {
        ChapterVerseIsReference("119", "105");
        assert "119" + ":" + "105" == FALLBACK_VERSES[0].reference;
      } else if k == 1 {
        ChapterVerseIsReference("4", "13");
        assert "4" + ":" + "13" == FALLBACK_VERSES[1].reference;
      } else {
        ChapterVerseIsReference("3", "16");
        assert "3" + ":" + "16" == FALLBACK_VERSES[2].reference;
      }
    }
  }

  /** `chapter:verse` with two runs of digits is a reference. */
  lemma ChapterVerseIsReference(chapter: string, verse: string)
    requires chapter != [] && AllDigits(chapter)
    requires verse != [] && AllDigits(verse)
    ensures IsReference(chapter + ":" + verse)
  {
    var r := chapter + ":" + verse;
    DigitRunOfDigits(chapter, ":" + verse);
    assert chapter + (":" + verse) == r;
    assert r[|chapter| + 1..] == verse;
    DigitRunOfDigits(verse, []);
    assert verse + [] == verse;
  }

  /**
   * `getDailyVerse` with the day of the year as input: the first fallback
   * verse for an empty list, otherwise the entry at `dayOfYear % length`.
   */
  function GetDailyVerse(verses: seq<GoldenVerse>, dayOfYear: nat): (r: GoldenVerse)
    ensures verses == [] ==> r == FALLBACK_VERSES[0] && r.reference == "119:105"
    ensures verses != [] ==> r in verses
  {
    if |verses| == 0 then FALLBACK_VERSES[0]
    else verses[dayOfYear % |verses|]
  }

  /** The choice depends only on the day modulo the list length. */
  lemma DailyVersePeriodic(verses: seq<GoldenVerse>, dayOfYear: nat, cycles: nat)
    ensures GetDailyVerse(verses, dayOfYear + cycles * |verses|) == GetDailyVerse(verses, dayOfYear)
  {
    if verses != [] {
      ShiftModulo(dayOfYear, cycles, |verses|);
    }
  }

  /** A non-zero multiple of `n` is at least `n` away from zero. */
  lemma MultipleBounds(k: int, n: int)
    requires n > 0
    ensures k >= 1 ==> k * n >= n
    ensures k <= -1 ==> k * n <= -n
  {
    if k >= 1 {
      assert k * n == (k - 1) * n + n;
    } else if k <= -1 {
      assert k * n == (k + 1) * n - n;
    }
  }

  lemma ModuloOfOneCycle(x: nat, n: nat)
    requires n > 0
    ensures (x + n) % n == x % n
  {
    var q, r := x / n, x % n;
    var q2, r2 := (x + n) / n, (x + n) % n;
    assert q * n + r == x;
    assert q2 * n + r2 == x + n;
    var k := q2 - q - 1;
    assert k * n == q2 * n - q * n - n;
    MultipleBounds(k, n);
  }

  lemma {:induction false} ShiftModulo(d: nat, cycles: nat, n: nat)
    requires n > 0
    ensures (d + cycles * n) % n == d % n
  {
    if cycles > 0 {
      ShiftModulo(d, cycles - 1, n);
      assert cycles * n == (cycles - 1) * n + n;
      ModuloOfOneCycle(d + (cycles - 1) * n, n);
    }
  }

  /** Consecutive days within one pass over the list pick consecutive entries. */
  lemma DailyVerseWalksTheList(verses: seq<GoldenVerse>, k: nat)
    requires k < |verses|
    ensures GetDailyVerse(verses, k) == verses[k]
  {
  }

  // ---------------------------------------------------------------------
  // The caches of the service
  // ---------------------------------------------------------------------

  /** The cached value, or nothing: what a loader returns from its cache after it ran. */
  function ValueOr<T>(cache: Option<seq<T>>): seq<T>
  {
    if cache.Some? then cache.value else []
  }

  /** The list cache after `loadVersesList`: kept when set, else the lines of a fetched file, else still empty. */
  function ListCacheAfter(cache: Option<seq<string>>, fetched: Option<string>): Option<seq<string>>
  {
    if cache.Some? then cache
    else if fetched.Some? then Some(VersesListLines(fetched.value))
    else None
  }

  /** The Bible cache after `loadBibleData`: kept when set, else the fetched books, else still empty. */
  function BibleCacheAfter(cache: Option<seq<BibleBook>>, fetched: Option<seq<BibleBook>>): Option<seq<BibleBook>>
  {
    if cache.Some? then cache
    else fetched
  }

  /**
   * The three module-level caches: the list lines, the Bible data and the
   * golden verses. Fetched files are parameters: `None` stands for a failed
   * request.
   */
  class GoldenVerseStore {
    var versesListCache: Option<seq<string>>
    var bibleDataCache: Option<seq<BibleBook>>
    var goldenVersesCache: Option<seq<GoldenVerse>>

    constructor()
      ensures versesListCache.None? && bibleDataCache.None? && goldenVersesCache.None?
    {
      versesListCache := None;
      bibleDataCache := None;
      goldenVersesCache := None;
    }

    /** `loadVersesList`: the cached lines, else the fetched file's lines, now cached, else none. */
    method LoadVersesList(fetched: Option<string>) returns (lines: seq<string>)
      modifies this
      ensures old(versesListCache).Some? ==> lines == old(versesListCache).value && versesListCache == old(versesListCache)
      ensures old(versesListCache).None? && fetched.Some? ==>
        lines == VersesListLines(fetched.value) && versesListCache == Some(lines)
      ensures old(versesListCache).None? && fetched.None? ==> lines == [] && versesListCache.None?
      ensures versesListCache == ListCacheAfter(old(versesListCache), fetched) && lines == ValueOr(versesListCache)
      ensures bibleDataCache == old(bibleDataCache) && goldenVersesCache == old(goldenVersesCache)
    {
      if versesListCache.Some? {
        return versesListCache.value;
      }
      if fetched.None? {
        return [];
      }
      lines := VersesListLines(fetched.value);
      versesListCache := Some(lines);
    }

    /** `loadBibleData`: the cached books, else the fetched ones, now cached, else none. */
    method LoadBibleData(fetched: Option<seq<BibleBook>>) returns (data: seq<BibleBook>)
      modifies this
      ensures old(bibleDataCache).Some? ==> data == old(bibleDataCache).value && bibleDataCache == old(bibleDataCache)
      ensures old(bibleDataCache).None? && fetched.Some? ==> data == fetched.value && bibleDataCache == Some(data)
      ensures old(bibleDataCache).None? && fetched.None? ==> data == [] && bibleDataCache.None?
      ensures bibleDataCache == BibleCacheAfter(old(bibleDataCache), fetched) && data == ValueOr(bibleDataCache)
      ensures versesListCache == old(versesListCache) && goldenVersesCache == old(goldenVersesCache)
    {
      if bibleDataCache.Some? {
        return bibleDataCache.value;
      }
      if fetched.None? {
        return [];
      }
      data := fetched.value;
      bibleDataCache := Some(data);
    }

    /**
     * `loadGoldenVerses`: the cached list; otherwise, when either resource
     * is empty, the fallback verses (not cached); otherwise the golden list,
     * now cached.
     */
    method LoadGoldenVerses(fetchedList: Option<string>, fetchedBible: Option<seq<BibleBook>>)
      returns (verses: seq<GoldenVerse>)
      modifies this
      ensures old(goldenVersesCache).Some? ==>
        && verses == old(goldenVersesCache).value
        && versesListCache == old(versesListCache) && bibleDataCache == old(bibleDataCache)
        && goldenVersesCache == old(goldenVersesCache)
      ensures old(goldenVersesCache).None? ==>
        && versesListCache == ListCacheAfter(old(versesListCache), fetchedList)
        && bibleDataCache == BibleCacheAfter(old(bibleDataCache), fetchedBible)
        && var lines, data := ValueOr(versesListCache), ValueOr(bibleDataCache);
           if |lines| == 0 || |data| == 0 then verses == FALLBACK_VERSES && goldenVersesCache.None?
           else verses == GoldenList(lines, data) && goldenVersesCache == Some(verses)
      ensures verses != []
        || (goldenVersesCache.Some? && goldenVersesCache.value == [])
    {
      if goldenVersesCache.Some? {
        return goldenVersesCache.value;
      }
      var versesList := LoadVersesList(fetchedList);
      var bibleData := LoadBibleData(fetchedBible);
      if |versesList| == 0 || |bibleData| == 0 {
        return FALLBACK_VERSES;
      }
      verses := BuildGoldenVerses(versesList, bibleData);
      goldenVersesCache := Some(verses);
    }

    /** `clearGoldenVersesCache`. */
    method ClearGoldenVersesCache()
      modifies this
      ensures versesListCache.None? && bibleDataCache.None? && goldenVersesCache.None?
    {
      versesListCache := None;
      bibleDataCache := None;
      goldenVersesCache := None;
    }
  }
}
