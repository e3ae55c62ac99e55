/**
 * The search page: the `filtered` list it derives from the loaded
 * wallpapers and the query, and the summary line above the results.
 */
module SearchPage {
  import opened Text
  import opened Seqs
  import opened WallpaperTransform

  /** Title, category or some tag contains `q` once lower-cased (`q` is already lower-case). */
  predicate Matches(w: Wallpaper, q: string) {
    Contains(Lower(w.title), q) || Contains(Lower(w.category), q) ||
    exists i :: 0 <= i < |w.tags| && Contains(Lower(w.tags[i]), q)
  }

  /** `filtered`: the whole list for an empty query, else the matching wallpapers in order. */
  function Filtered(wallpapers: seq<Wallpaper>, query: string): (r: seq<Wallpaper>)
    ensures query == "" ==> r == wallpapers
    ensures IsSubsequence(r, wallpapers)
    ensures query != "" ==> forall w :: w in r <==> w in wallpapers && Matches(w, Lower(query))
  {
    if query == "" then
      SubsequenceReflexive(wallpapers);
      wallpapers
    else
      Filter(wallpapers, (w: Wallpaper) => Matches(w, Lower(query)))
  }

  /** A wallpaper matching a query also matches every substring of it. */
  lemma MatchesSubstring(w: Wallpaper, q1: string, q2: string)
    requires Contains(q2, q1) && Matches(w, q2)
    ensures Matches(w, q1)
  {
    if Contains(Lower(w.title), q2) {
      ContainsTransitive(Lower(w.title), q2, q1);
    } else if Contains(Lower(w.category), q2) {
      ContainsTransitive(Lower(w.category), q2, q1);
    } else {
      var i :| 0 <= i < |w.tags| && Contains(Lower(w.tags[i]), q2);
      ContainsTransitive(Lower(w.tags[i]), q2, q1);
    }
  }

  /**
   * Refining a query narrows the results: when `q1` (lower-cased) is a
   * substring of `q2` (lower-cased), the results for `q2` are a subsequence
   * of those for `q1`.
   */
  lemma {:induction false} QueryRefinementNarrows(wallpapers: seq<Wallpaper>, q1: string, q2: string)
    requires Contains(Lower(q2), Lower(q1))
    ensures IsSubsequence(Filtered(wallpapers, q2), Filtered(wallpapers, q1))
  {
    if q1 != "" {
      var i :| OccursAt(Lower(q2), Lower(q1), i);
      assert |q2| >= |q1| > 0;
      forall w | w in wallpapers && Matches(w, Lower(q2))
        ensures Matches(w, Lower(q1))
      {
        MatchesSubstring(w, Lower(q1), Lower(q2));
      }
      FilterMonotone(wallpapers, (w: Wallpaper) => Matches(w, Lower(q2)), (w: Wallpaper) => Matches(w, Lower(q1)));
    }
  }

  /** The summary: `Found N result(s)` while searching, else `Showing N wallpapers`. */
  function Summary(query: string, count: nat): (r: string)
    ensures query != "" ==> r == "Found " + NatToString(count) + " result" + (if count != 1 then "s" else "")
    ensures query == "" ==> r == "Showing " + NatToString(count) + " wallpapers"
  {
    if query != "" then "Found " + NatToString(count) + " result" + (if count != 1 then "s" else "")
    else "Showing " + NatToString(count) + " wallpapers"
  }

  /** The summary states the count unambiguously: equal summaries for one query mean equal counts. */
  lemma SummaryCountReadBack(query: string, m: nat, n: nat)
    requires Summary(query, m) == Summary(query, n)
    ensures m == n
  {
    if query != "" {
      var t1 := " result" + (if m != 1 then "s" else "");
      var t2 := " result" + (if n != 1 then "s" else "");
      assert Summary(query, m) == "Found " + NatToString(m) + t1;
      assert Summary(query, n) == "Found " + NatToString(n) + t2;
      RenderedNumberUnique("Found ", m, t1, n, t2);
    } else {
      RenderedNumberUnique("Showing ", m, " wallpapers", n, " wallpapers");
    }
  }
}
