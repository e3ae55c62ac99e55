/**
 * The client's offline catalogue (`mockWallpapers`) and the mock API over
 * it: paged listing with category and case-insensitive text filters,
 * trending, lookup by id and related wallpapers. Every operation takes the
 * catalogue as its first argument; `MockWallpapers` is the one the client
 * ships. The simulated network delays are not modelled.
 */
module MockData {
  import opened Wrappers
  import opened Text
  import opened Seqs

  datatype MockWallpaper = MockWallpaper(
    id: nat,
    title: string,
    category: string,
    tags: seq<string>,
    imageUrl: string,
    downloadUrl: string)

  const MockWallpapers: seq<MockWallpaper> := [
    MockWallpaper(1, "Mountain Sunset", "Nature", ["sunset", "mountains", "landscape"],
      "https://images.unsplash.com/photo-1506905925346-21bda4d32df4?w=800", "https://drive.google.com/file/d/example1"),
    MockWallpaper(2, "Abstract Waves", "Abstract", ["abstract", "colorful", "waves"],
      "https://images.unsplash.com/photo-1557672172-298e090bd0f1?w=800", "https://drive.google.com/file/d/example2"),
    MockWallpaper(3, "Sports Car", "Cars", ["car", "sports", "luxury"],
      "https://images.unsplash.com/photo-1492144534655-ae79c964c9d7?w=800", "https://drive.google.com/file/d/example3"),
    MockWallpaper(4, "Anime Girl", "Anime", ["anime", "art", "character"],
      "https://images.unsplash.com/photo-1578632767115-351597cf2477?w=800", "https://drive.google.com/file/d/example4"),
    MockWallpaper(5, "Forest Path", "Nature", ["forest", "trees", "nature"],
      "https://images.unsplash.com/photo-1441974231531-c6227db76b6e?w=800", "https://drive.google.com/file/d/example5"),
    MockWallpaper(6, "Neon Lights", "Abstract", ["neon", "lights", "city"],
      "https://images.unsplash.com/photo-1550745165-9bc0b252726f?w=800", "https://drive.google.com/file/d/example6"),
    MockWallpaper(7, "Ocean Waves", "Nature", ["ocean", "waves", "sea"],
      "https://images.unsplash.com/photo-1505142468610-359e7d316be0?w=800", "https://drive.google.com/file/d/example7"),
    MockWallpaper(8, "Muscle Car", "Cars", ["car", "classic", "vintage"],
      "https://images.unsplash.com/photo-1552519507-da3b142c6e3d?w=800", "https://drive.google.com/file/d/example8"),
    MockWallpaper(9, "Cherry Blossoms", "Nature", ["flowers", "spring", "pink"],
      "https://images.unsplash.com/photo-1522383225653-ed111181a951?w=800", "https://drive.google.com/file/d/example9"),
    MockWallpaper(10, "Geometric Art", "Abstract", ["geometric", "patterns", "modern"],
      "https://images.unsplash.com/photo-1541701494587-cb58502866ab?w=800", "https://drive.google.com/file/d/example10"),
    MockWallpaper(11, "Racing Car", "Cars", ["racing", "speed", "track"],
      "https://images.unsplash.com/photo-1568605117036-5fe5e7bab0b7?w=800", "https://drive.google.com/file/d/example11"),
    MockWallpaper(12, "Anime Landscape", "Anime", ["anime", "scenery", "sunset"],
      "https://images.unsplash.com/photo-1613376023733-0a73315d9b06?w=800", "https://drive.google.com/file/d/example12")
  ]

  /** The exported `categories` list. */
  const Categories: seq<string> := ["All", "Nature", "Abstract", "Cars", "Anime"]

  /** No two wallpapers of a catalogue share an id. */
  predicate DistinctIds(catalog: seq<MockWallpaper>) {
    forall i, j :: 0 <= i < j < |catalog| ==> catalog[i].id != catalog[j].id
  }

  /** The shipped catalogue numbers its wallpapers 1 to 12 in order, so its ids are distinct. */
  lemma MockWallpapersNumbered()
    ensures |MockWallpapers| == 12
    ensures forall i :: 0 <= i < |MockWallpapers| ==> MockWallpapers[i].id == i + 1
    ensures DistinctIds(MockWallpapers)
  {
  }

  // ------------------------------------------------------------------ getAll

  /** `category && category !== 'All'`: the category filter applies. */
  predicate FiltersCategory(category: string) {
    category != "" && category != "All"
  }

  /** Title, category or some tag contains `q` once lower-cased (`q` is already lower-case). */
  predicate MatchesQuery(w: MockWallpaper, q: string) {
    Contains(Lower(w.title), q) || Contains(Lower(w.category), q) ||
    exists i :: 0 <= i < |w.tags| && Contains(Lower(w.tags[i]), q)
  }

  /** The wallpapers `getAll` counts: the category filter, then the text filter. */
  function Listed(catalog: seq<MockWallpaper>, category: string, query: string): (r: seq<MockWallpaper>)
    ensures IsSubsequence(r, catalog)
    ensures forall w :: w in r <==>
              w in catalog &&
              (FiltersCategory(category) ==> w.category == category) &&
              (query != "" ==> MatchesQuery(w, Lower(query)))
  {
    var q := Lower(query);
    if FiltersCategory(category) then
      var byCategory := Filter(catalog, (w: MockWallpaper) => w.category == category);
      if query != "" then
        var r := Filter(byCategory, (w: MockWallpaper) => MatchesQuery(w, q));
        SubsequenceTransitive(r, byCategory, catalog);
        r
      else byCategory
    else if query != "" then Filter(catalog, (w: MockWallpaper) => MatchesQuery(w, q))
    else
      SubsequenceReflexive(catalog);
      catalog
  }

  datatype Page = Page(items: seq<MockWallpaper>, total: nat, hasMore: bool)

  const DefaultCategory := "All"
  const DefaultPage := 1
  const DefaultPageSize := 12
  const DefaultQuery := ""

  /**
   * `api.getAll({category, page, pageSize, query})`: the listed wallpapers
   * sliced from `(page - 1) * pageSize` to `page * pageSize`, their total,
   * and whether the slice stops before the end.
   */
  function GetAll(catalog: seq<MockWallpaper>, category: string, page: int, pageSize: int, query: string): (p: Page)
    ensures p.total == |Listed(catalog, category, query)|
    ensures p.items == JsSlice(Listed(catalog, category, query), (page - 1) * pageSize, page * pageSize)
    ensures p.hasMore <==> page * pageSize < p.total
  {
    var list := Listed(catalog, category, query);
    var start := (page - 1) * pageSize;
    var end := start + pageSize;
    assert end == page * pageSize;
    Page(JsSlice(list, start, end), |list|, end < |list|)
  }

  /**
   * `getAll()` with its default arguments (`'All'`, page 1, 12 per page, no
   * query): the first twelve wallpapers, the catalogue's size, and more
   * exactly when the catalogue holds over twelve.
   */
  lemma GetAllDefaults(catalog: seq<MockWallpaper>)
    ensures var p := GetAll(catalog, DefaultCategory, DefaultPage, DefaultPageSize, DefaultQuery);
            p.items == (if |catalog| <= 12 then catalog else catalog[..12]) &&
            p.total == |catalog| && (p.hasMore <==> |catalog| > 12)
  {
    assert Listed(catalog, DefaultCategory, DefaultQuery) == catalog;
    JsSlicePrefix(catalog, 12);
  }

  /**
   * What `getAll` returns is an order-preserving selection from the
   * catalogue, in the requested category and matching the query.
   */
  lemma GetAllItems(catalog: seq<MockWallpaper>, category: string, page: int, pageSize: int, query: string)
    ensures IsSubsequence(GetAll(catalog, category, page, pageSize, query).items, catalog)
    ensures FiltersCategory(category) ==>
              forall w :: w in GetAll(catalog, category, page, pageSize, query).items ==> w.category == category
    ensures query != "" ==>
              forall w :: w in GetAll(catalog, category, page, pageSize, query).items ==> MatchesQuery(w, Lower(query))
  {
    var list := Listed(catalog, category, query);
    var start, end := (page - 1) * pageSize, page * pageSize;
    var items := GetAll(catalog, category, page, pageSize, query).items;
    assert items == JsSlice(list, start, end);
    JsSliceSubsequence(list, start, end);
    SubsequenceTransitive(items, list, catalog);
    SubsequenceMembers(items, list);
  }

  /** From page 1 on, a page holds at most `pageSize` wallpapers. */
  lemma GetAllPageBound(catalog: seq<MockWallpaper>, category: string, page: int, pageSize: int, query: string)
    requires page >= 1 && pageSize >= 0
    ensures |GetAll(catalog, category, page, pageSize, query).items| <= pageSize
  {
    var list := Listed(catalog, category, query);
    var start, end := (page - 1) * pageSize, page * pageSize;
    assert end == start + pageSize;
    assert start >= 0 by {
      assert page - 1 >= 0;
    }
    JsSliceBounds(list, start, end);
  }

  // ------------------------------------------------------------------ lookups

  /** `getTrending()`: the first eight wallpapers, in order. */
  function GetTrending(catalog: seq<MockWallpaper>): (r: seq<MockWallpaper>)
    ensures r <= catalog
    ensures |r| == if |catalog| < 8 then |catalog| else 8
  {
    JsSlicePrefix(catalog, 8);
    JsSlice(catalog, 0, 8)
  }

  /** `String(w.id) === String(id)` */
  predicate HasKey(w: MockWallpaper, key: string) {
    NatToString(w.id) == key
  }

  /** `getById(id)`: the first wallpaper whose id renders as `key`, else `null`. */
  function GetById(catalog: seq<MockWallpaper>, key: string): (r: Option<MockWallpaper>)
    ensures r.Some? ==> r.value in catalog && HasKey(r.value, key)
    ensures r.None? <==> forall w :: w in catalog ==> !HasKey(w, key)
    ensures r.Some? ==>
              (exists i :: 0 <= i < |catalog| && catalog[i] == r.value &&
                 forall j :: 0 <= j < i ==> !HasKey(catalog[j], key))
  {
    Find(catalog, w => HasKey(w, key))
  }

  /** Every wallpaper of a catalogue with distinct ids is found by its own id. */
  lemma GetByIdFindsEach(catalog: seq<MockWallpaper>, w: MockWallpaper)
    requires DistinctIds(catalog) && w in catalog
    ensures GetById(catalog, NatToString(w.id)) == Some(w)
  {
    var r := GetById(catalog, NatToString(w.id));
    var i :| 0 <= i < |catalog| && catalog[i] == w;
    assert HasKey(catalog[i], NatToString(w.id));
    var j :| 0 <= j < |catalog| && catalog[j] == r.value;
    NatToStringInjective(catalog[j].id, w.id);
    assert i == j;
  }

  /** `w.tags.some(t => current.tags.includes(t))` */
  predicate SharesTag(w: MockWallpaper, current: MockWallpaper) {
    exists i :: 0 <= i < |w.tags| && w.tags[i] in current.tags
  }

  /** The `getRelated` condition: another wallpaper of the same category or with a common tag. */
  predicate IsRelated(w: MockWallpaper, current: MockWallpaper) {
    w.id != current.id && (w.category == current.category || SharesTag(w, current))
  }

  /**
   * `getRelated(id)`: `[]` for an unknown id; otherwise the first eight
   * related wallpapers, in catalogue order.
   */
  function GetRelated(catalog: seq<MockWallpaper>, key: string): (r: seq<MockWallpaper>)
    ensures GetById(catalog, key).None? ==> r == []
    ensures |r| <= 8
    ensures IsSubsequence(r, catalog)
    ensures GetById(catalog, key).Some? ==>
              var current := GetById(catalog, key).value;
              (forall w :: w in r ==> IsRelated(w, current)) &&
              r <= Filter(catalog, w => IsRelated(w, current)) &&
              |r| == if |Filter(catalog, w => IsRelated(w, current))| < 8 then |Filter(catalog, w => IsRelated(w, current))| else 8
  {
    match GetById(catalog, key)
    case None => []
    case Some(current) =>
      var related := Filter(catalog, w => IsRelated(w, current));
      JsSlicePrefix(related, 8);
      var r := JsSlice(related, 0, 8);
      JsSliceSubsequence(related, 0, 8);
      SubsequenceTransitive(r, related, catalog);
      SubsequenceMembers(r, related);
      r
  }

  /** The current wallpaper is never among its related ones. */
  lemma GetRelatedExcludesCurrent(catalog: seq<MockWallpaper>, key: string)
    requires GetById(catalog, key).Some?
    ensures GetById(catalog, key).value !in GetRelated(catalog, key)
  {
  }
}
