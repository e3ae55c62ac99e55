/**
 * The wallpaper detail modal: whether it renders, and the "related
 * wallpapers" strip it shows below the selected wallpaper.
 */
module DetailModal {
  import opened Wrappers
  import opened Seqs
  import opened WallpaperTransform

  /** Another wallpaper (by id) of the same category or with a tag in common. */
  predicate IsRelated(w: Wallpaper, current: Wallpaper) {
    w.id != current.id &&
    (w.category == current.category || exists i :: 0 <= i < |w.tags| && w.tags[i] in current.tags)
  }

  const RelatedLimit := 4

  /**
   * `relatedWallpapers`: nothing when the modal is closed or has no
   * wallpaper; otherwise the first four related wallpapers of
   * `allWallpapers`, in their order.
   */
  function Related(current: Option<Wallpaper>, isOpen: bool, allWallpapers: seq<Wallpaper>): (r: Option<seq<Wallpaper>>)
    ensures r.None? <==> !isOpen || current.None?
    ensures r.Some? ==> |r.value| <= RelatedLimit && IsSubsequence(r.value, allWallpapers)
    ensures r.Some? ==> forall w :: w in r.value ==> IsRelated(w, current.value) && w.id != current.value.id
    ensures r.Some? ==>
              var qualifying := Filter(allWallpapers, (w: Wallpaper) => IsRelated(w, current.value));
              r.value <= qualifying &&
              |r.value| == if |qualifying| < RelatedLimit then |qualifying| else RelatedLimit
  {
    if !isOpen || current.None? then None
    else
      var qualifying := Filter(allWallpapers, (w: Wallpaper) => IsRelated(w, current.value));
      JsSlicePrefix(qualifying, RelatedLimit);
      var r := JsSlice(qualifying, 0, RelatedLimit);
      JsSliceSubsequence(qualifying, 0, RelatedLimit);
      SubsequenceTransitive(r, qualifying, allWallpapers);
      SubsequenceMembers(r, qualifying);
      Some(r)
  }
}
