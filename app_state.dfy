/**
 * The state of the application shell and the handlers that change it:
 * the reading checklist, the favourite verses and the tab navigation.
 * Persistence to local storage and rendering are not part of this model.
 */
module AppState {

  import opened JsText
  import opened JsArray
  import opened Types
  import ReadingView

  /** Which readings are ticked, keyed by `date-book-chapter`. */
  type CheckList = map<string, bool>

  /** Where the Bible tab should open. */
  datatype NavTarget = NavTarget(bookId: string, chapter: int)

  /** The plan reading shown over the current tab. */
  datatype ReadingTarget = ReadingTarget(reading: Reading, dateStr: string)

  // ---------------------------------------------------------------------
  // Checklist
  // ---------------------------------------------------------------------

  /** A key counts as ticked when it is present with the value `true`. */
  predicate IsChecked(checks: CheckList, key: string)
  {
    key in checks && checks[key]
  }

  /**
   * The checklist after toggling `key`: a ticked key is deleted, any other
   * key is set to `true`; the rest of the map is kept.
   */
  function ToggleCheck(checks: CheckList, key: string): (r: CheckList)
    ensures IsChecked(r, key) <==> !IsChecked(checks, key)
    ensures key in r ==> r[key]
    ensures forall k :: k != key ==> (k in r <==> k in checks)
    ensures forall k :: k != key && k in checks ==> r[k] == checks[k]
  {
    if IsChecked(checks, key) then checks - {key} else checks[key := true]
  }

  /** Toggling twice restores a checklist whose values are all `true`. */
  lemma ToggleCheckTwice(checks: CheckList, key: string)
    requires forall k :: k in checks ==> checks[k]
    ensures ToggleCheck(ToggleCheck(checks, key), key) == checks
  {
    var twice := ToggleCheck(ToggleCheck(checks, key), key);
    assert forall k :: k in twice <==> k in checks;
  }

  /** An explicit `false` entry is not restored: the second toggle deletes it. */
  lemma ToggleCheckTwiceDropsFalse(key: string)
    ensures ToggleCheck(ToggleCheck(map[key := false], key), key) == map[]
  {
    assert ToggleCheck(map[key := false], key) == map[key := true];
  }

  // ---------------------------------------------------------------------
  // Favourites
  // ---------------------------------------------------------------------

  /**
   * The favourites after toggling `verse`: the first favourite that is the
   * same verse is removed, or, when there is none, the verse is appended.
   */
  function ToggleFavorite(favorites: seq<Verse>, verse: Verse): (r: seq<Verse>)
    ensures var i := FindIndex(favorites, ReadingView.SameVerseAs(verse));
      && (i != -1 ==> r == favorites[..i] + favorites[i + 1..] && |r| == |favorites| - 1)
      && (i == -1 ==> r == favorites + [verse] && |r| == |favorites| + 1)
  {
    var existingIndex := FindIndex(favorites, ReadingView.SameVerseAs(verse));
    if existingIndex != -1 then favorites[..existingIndex] + favorites[existingIndex + 1..]
    else favorites + [verse]
  }

  /** A verse that is not yet a favourite becomes one, at the end. */
  lemma ToggleAddsMissing(favorites: seq<Verse>, verse: Verse)
    requires !ReadingView.IsFavorited(favorites, verse)
    ensures ReadingView.IsFavorited(ToggleFavorite(favorites, verse), verse)
    ensures ToggleFavorite(favorites, verse)[|favorites|] == verse
  {
    assert ToggleFavorite(favorites, verse)[|favorites|] == verse;
  }

  /** When no favourite is the verse, toggling it twice gives the list back. */
  lemma ToggleFavoriteTwice(favorites: seq<Verse>, verse: Verse)
    requires !ReadingView.IsFavorited(favorites, verse)
    ensures ToggleFavorite(ToggleFavorite(favorites, verse), verse) == favorites
  {
    var once := favorites + [verse];
    var i := FindIndex(once, ReadingView.SameVerseAs(verse));
    assert ReadingView.SameVerseAs(verse)(once[|favorites|]);
    assert forall m :: 0 <= m < |favorites| ==> once[m] == favorites[m];
    assert i == |favorites|;
    assert once[..i] == favorites;
  }

  function DifferentFrom(verse: Verse): Verse -> bool
  {
    (f: Verse) => !SameVerse(f, verse)
  }

  /** `handleRemoveFavorite`'s filter: every favourite that is the same verse goes, the others stay in order. */
  function RemoveFavorite(favorites: seq<Verse>, verse: Verse): (r: seq<Verse>)
    ensures !ReadingView.IsFavorited(r, verse)
    ensures |r| <= |favorites|
  {
    Filter(favorites, DifferentFrom(verse))
  }

  /** Every favourite that is another verse survives the removal. */
  lemma {:induction false} RemoveKeepsOthers(favorites: seq<Verse>, verse: Verse, f: Verse)
    requires f in favorites && !SameVerse(f, verse)
    ensures f in RemoveFavorite(favorites, verse)
    decreases |favorites|
  {
    var init := favorites[..|favorites| - 1];
    if f != favorites[|favorites| - 1] {
      assert f in init;
      RemoveKeepsOthers(init, verse, f);
    }
  }

  /** A favourite that is another verse survives between the survivors before it and those after it: order and repeats are kept. */
  lemma RemoveFavoriteSplitsAt(favorites: seq<Verse>, verse: Verse, m: nat)
    requires m < |favorites| && !SameVerse(favorites[m], verse)
    ensures RemoveFavorite(favorites, verse) ==
      RemoveFavorite(favorites[..m], verse) + [favorites[m]] + RemoveFavorite(favorites[m + 1..], verse)
  {
    FilterSplitsAt(favorites, DifferentFrom(verse), m);
  }

  /** Removing twice removes nothing more. */
  lemma RemoveFavoriteIdempotent(favorites: seq<Verse>, verse: Verse)
    ensures RemoveFavorite(RemoveFavorite(favorites, verse), verse) == RemoveFavorite(favorites, verse)
  {
    FilterIdempotent(favorites, DifferentFrom(verse));
  }

  /** Removing a verse that is not a favourite changes nothing. */
  lemma RemoveMissingIsIdentity(favorites: seq<Verse>, verse: Verse)
    requires !ReadingView.IsFavorited(favorites, verse)
    ensures RemoveFavorite(favorites, verse) == favorites
  {
    FilterKeepsAll(favorites, DifferentFrom(verse));
  }

  /** After a toggle, removing the verse leaves what removing it alone would have left. */
  lemma RemoveAfterToggle(favorites: seq<Verse>, verse: Verse)
    ensures RemoveFavorite(ToggleFavorite(favorites, verse), verse) == RemoveFavorite(favorites, verse)
  {
    var keep := DifferentFrom(verse);
    var i := FindIndex(favorites, ReadingView.SameVerseAs(verse));
    if i == -1 {
      FilterAppend(favorites, [verse], keep);
      assert Filter([verse], keep) == [];
    } else {
      var a, b := favorites[..i], favorites[i + 1..];
      assert favorites == a + [favorites[i]] + b;
      FilterAppend(a, b, keep);
      FilterAppend(a + [favorites[i]], b, keep);
      FilterAppend(a, [favorites[i]], keep);
      assert Filter([favorites[i]], keep) == [];
    }
  }

  // ---------------------------------------------------------------------
  // The application state
  // ---------------------------------------------------------------------

  /** The state fields of the application shell that the handlers change. */
  class AppShell {
    var activeTab: Tab
    var checkedReadings: CheckList
    var favorites: seq<Verse>
    var navTarget: Option<NavTarget>
    var readingTarget: Option<ReadingTarget>

    /** The initial state when nothing was saved: the home tab, no ticks, no favourites, no targets. */
    constructor()
      ensures activeTab == Home && checkedReadings == map[] && favorites == []
      ensures navTarget.None? && readingTarget.None?
    {
      activeTab := Home;
      checkedReadings := map[];
      favorites := [];
      navTarget := None;
      readingTarget := None;
    }

    /** `handleToggleCheck`: copy the checklist, delete a ticked key or tick it, store the copy. */
    method HandleToggleCheck(key: string)
      modifies this
      ensures checkedReadings == ToggleCheck(old(checkedReadings), key)
      ensures activeTab == old(activeTab) && favorites == old(favorites)
      ensures navTarget == old(navTarget) && readingTarget == old(readingTarget)
    {
      var next := checkedReadings;
      if key in next && next[key] {
        next := next - {key};
      } else {
        next := next[key := true];
      }
      checkedReadings := next;
    }

    /** `handleToggleFavorite`. */
    method HandleToggleFavorite(verse: Verse)
      modifies this
      ensures favorites == ToggleFavorite(old(favorites), verse)
      ensures activeTab == old(activeTab) && checkedReadings == old(checkedReadings)
      ensures navTarget == old(navTarget) && readingTarget == old(readingTarget)
    {
      favorites := ToggleFavorite(favorites, verse);
    }

    /** `handleRemoveFavorite`. */
    method HandleRemoveFavorite(verse: Verse)
      modifies this
      ensures favorites == RemoveFavorite(old(favorites), verse)
      ensures activeTab == old(activeTab) && checkedReadings == old(checkedReadings)
      ensures navTarget == old(navTarget) && readingTarget == old(readingTarget)
    {
      favorites := RemoveFavorite(favorites, verse);
    }

    /**
     * `handleTabChange`: switch to the tab, drop the Bible target unless the
     * tab is the Bible tab, and always close the reading view.
     */
    method HandleTabChange(tab: Tab)
      modifies this
      ensures activeTab == tab
      ensures readingTarget.None?
      ensures navTarget == (if tab == Bible then old(navTarget) else None)
      ensures checkedReadings == old(checkedReadings) && favorites == old(favorites)
    {
      activeTab := tab;
      if tab != Bible {
        navTarget := None;
      }
      readingTarget := None;
    }
  }
}
