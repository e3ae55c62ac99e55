/**
 * The search modal: `filteredWallpapers`, which (unlike the search page)
 * filters even for an empty query, what the modal shows, and its count line.
 */
module SearchModal {
  import opened Text
  import opened Seqs
  import opened WallpaperTransform
  import SearchPage

  /** Title, some tag, or category contains `q` once lower-cased (`q` is already lower-case). */
  predicate ModalMatches(w: Wallpaper, q: string) {
    Contains(Lower(w.title), q) ||
    (exists i :: 0 <= i < |w.tags| && Contains(Lower(w.tags[i]), q)) ||
    Contains(Lower(w.category), q)
  }

  /** `filteredWallpapers`: the matching wallpapers, in order. */
  function FilteredWallpapers(wallpapers: seq<Wallpaper>, query: string): (r: seq<Wallpaper>)
    ensures IsSubsequence(r, wallpapers)
    ensures forall w :: w in r <==> w in wallpapers && ModalMatches(w, Lower(query))
  {
    Filter(wallpapers, (w: Wallpaper) => ModalMatches(w, Lower(query)))
  }

  /** The empty query is contained in every title, so it keeps every wallpaper. */
  lemma EmptyQueryKeepsAll(wallpapers: seq<Wallpaper>)
    ensures FilteredWallpapers(wallpapers, "") == wallpapers
  {
    forall w | w in wallpapers
      ensures ModalMatches(w, Lower(""))
    {
      ContainsEmpty(Lower(w.title));
    }
    FilterKeepsAll(wallpapers, (w: Wallpaper) => ModalMatches(w, Lower("")));
  }

  /** For every query the modal keeps exactly the wallpapers the search page keeps. */
  lemma AgreesWithSearchPage(wallpapers: seq<Wallpaper>, query: string)
    ensures FilteredWallpapers(wallpapers, query) == SearchPage.Filtered(wallpapers, query)
  {
    if query == "" {
      EmptyQueryKeepsAll(wallpapers);
    } else {
      FilterCongruent(wallpapers,
        (w: Wallpaper) => ModalMatches(w, Lower(query)),
        (w: Wallpaper) => SearchPage.Matches(w, Lower(query)));
    }
  }

  /** `Found N wallpaper`, with an `s` exactly when N is not 1. */
  function CountText(count: nat): (r: string)
    ensures |r| > 6 && r[..6] == "Found "
    ensures r[|r| - 1] == 's' <==> count != 1
  {
    "Found " + NatToString(count) + " wallpaper" + (if count != 1 then "s" else "")
  }

  /** The count line states the count unambiguously. */
  lemma CountTextReadBack(m: nat, n: nat)
    requires CountText(m) == CountText(n)
    ensures m == n
  {
    var t1 := " wallpaper" + (if m != 1 then "s" else "");
    var t2 := " wallpaper" + (if n != 1 then "s" else "");
    assert CountText(m) == "Found " + NatToString(m) + t1;
    assert CountText(n) == "Found " + NatToString(n) + t2;
    RenderedNumberUnique("Found ", m, t1, n, t2);
  }

  /** What the modal renders. */
  datatype View =
    | Hidden
    | Prompt
    | NoMatches(query: string)
    | Results(countText: string, items: seq<Wallpaper>)

  /** Nothing when closed; a prompt for an empty query; else the results or a no-match notice. */
  function Render(isOpen: bool, query: string, wallpapers: seq<Wallpaper>): (v: View)
    ensures !isOpen <==> v.Hidden?
    ensures v.Prompt? <==> isOpen && query == ""
    ensures v.NoMatches? ==> v.query == query && FilteredWallpapers(wallpapers, query) == []
    ensures v.Results? ==> query != "" && v.items == FilteredWallpapers(wallpapers, query) &&
                           v.items != [] && v.countText == CountText(|v.items|)
  {
    var filtered := FilteredWallpapers(wallpapers, query);
    if !isOpen then Hidden
    else if query == "" then Prompt
    else if |filtered| == 0 then NoMatches(query)
    else Results(CountText(|filtered|), filtered)
  }
}
