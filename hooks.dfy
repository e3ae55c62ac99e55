/**
 * The data hooks of the client: `useWallpapers`, `useCategories` and
 * `useWallpaperActions`. Each hook's state cells become the fields of a
 * class; each asynchronous body becomes one method that receives the
 * already-settled API outcome and performs the same sequence of state
 * updates, ending with `loading` false as the `finally` blocks do.
 */
module Hooks {
  import opened Wrappers
  import opened ApiClient
  import opened WallpaperTransform
  import BackendApi

  /** A settled listing response: an array, or anything else (`null`, an object). */
  datatype Listing<T> = NotAList | List(items: seq<T>)

  /** The listing endpoint a fetch calls, with its query parameters. */
  datatype ListingRequest =
    | AllWallpapers(skip: int, limit: int)
    | ByCategory(name: string, skip: int, limit: int)

  /** `'All'` selects the unfiltered listing; any other category its own listing. */
  function RequestFor(category: string, skip: int, limit: int): (r: ListingRequest)
    ensures r.AllWallpapers? <==> category == "All"
    ensures r.ByCategory? ==> r.name == category
    ensures r.skip == skip && r.limit == limit
  {
    if category == "All" then AllWallpapers(skip, limit) else ByCategory(category, skip, limit)
  }

  /** `useWallpapers(category, skip, limit)` */
  class WallpaperList {
    const category: string
    const skip: int
    const limit: int
    var wallpapers: seq<Wallpaper>
    var loading: bool
    var error: Option<string>
    var hasMore: bool

    constructor (category: string, skip: int, limit: int)
      ensures this.category == category && this.skip == skip && this.limit == limit
      ensures wallpapers == [] && !loading && error == None && hasMore
    {
      this.category := category;
      this.skip := skip;
      this.limit := limit;
      wallpapers := [];
      loading := false;
      error := None;
      hasMore := true;
    }

    /**
     * `fetchWallpapers`, given the settled outcome of the request it issues.
     * No guard discards an outcome: the last one applied wins.
     */
    method Fetch(outcome: Result<Listing<RawWallpaper>, RequestError>) returns (request: ListingRequest)
      modifies this
      ensures request == RequestFor(category, skip, limit)
      ensures !loading
      ensures outcome.Ok? ==> error == None
      ensures outcome.Ok? && outcome.value.NotAList? ==> wallpapers == [] && !hasMore
      ensures outcome.Ok? && outcome.value.List? ==>
                wallpapers == TransformAll(outcome.value.items) &&
                hasMore == (|outcome.value.items| == limit)
      ensures outcome.Err? ==> wallpapers == [] && error == Some(outcome.error.message) && hasMore == old(hasMore)
    {
      loading := true;
      error := None;
      request := RequestFor(category, skip, limit);
      match outcome {
        case Ok(NotAList) =>
          wallpapers := [];
          hasMore := false;
        case Ok(List(items)) =>
          wallpapers := TransformAll(items);
          hasMore := |items| == limit;  // `data.length === limit`: a full page
        case Err(e) =>
          error := Some(e.message);
          wallpapers := [];
      }
      loading := false;
    }
  }

  /**
   * `hasMore` against the server's `.skip(skip).limit(limit)` with a positive
   * limit: a short page is the last one, and whenever wallpapers remain past
   * the page `hasMore` is set (it can also be set when none remain).
   */
  lemma HasMoreAgainstWindow(ws: seq<BackendApi.WallpaperDoc>, skip: nat, limit: nat)
    requires limit > 0
    ensures var page := BackendApi.Window(ws, skip, limit).value;
            (|page| != limit ==> skip + |page| >= |ws|) &&
            (skip + |page| < |ws| ==> |page| == limit)
  {
  }

  /** A category as `GET /categories/` lists it. */
  datatype CategoryRecord = CategoryRecord(id: string, name: string)

  /** The fixed fallback list. */
  const DefaultCategories: seq<string> := ["All", "Nature", "Abstract", "Cars", "Anime"]

  /** `data.map(cat => cat.name)` */
  function Names(records: seq<CategoryRecord>): (r: seq<string>)
    ensures |r| == |records|
    ensures forall i :: 0 <= i < |records| ==> r[i] == records[i].name
  {
    seq(|records|, i requires 0 <= i < |records| => records[i].name)
  }

  /** `useCategories()` */
  class CategoryList {
    var categories: seq<string>
    var loading: bool
    var error: Option<string>

    /** `'All'` always heads the list. */
    predicate Valid()
      reads this
    {
      |categories| >= 1 && categories[0] == "All"
    }

    constructor ()
      ensures Valid() && categories == ["All"]
      ensures !loading && error == None
    {
      categories := ["All"];
      loading := false;
      error := None;
    }

    /** `fetchCategories`, given the settled outcome of `GET /categories/`. */
    method Fetch(outcome: Result<Listing<CategoryRecord>, RequestError>)
      modifies this
      ensures Valid()
      ensures !loading
      ensures outcome.Ok? ==> error == None
      ensures outcome.Ok? && outcome.value.List? ==> categories == ["All"] + Names(outcome.value.items)
      ensures outcome.Ok? && outcome.value.NotAList? ==> categories == DefaultCategories
      ensures outcome.Err? ==> categories == DefaultCategories && error == Some(outcome.error.message)
    {
      loading := true;
      error := None;
      match outcome {
        case Ok(NotAList) =>
          categories := DefaultCategories;
        case Ok(List(items)) =>
          categories := ["All"] + Names(items);
        case Err(e) =>
          error := Some(e.message);
          categories := DefaultCategories;
      }
      loading := false;
    }
  }

  const LikeFailed := "Failed to like wallpaper"
  const DownloadFailed := "Failed to download wallpaper"

  /** `useWallpaperActions()`: neither action ever rejects. */
  class WallpaperActions {
    var loading: bool
    var error: Option<string>

    constructor ()
      ensures !loading && error == None
    {
      loading := false;
      error := None;
    }

    /** `likeWallpaper(id)`, given the settled outcome of the like request (the reply's `message`). */
    method Like(outcome: Result<Option<string>, RequestError>) returns (r: ActionResult)
      modifies this
      ensures !loading
      ensures outcome.Ok? ==> r == Succeeded(outcome.value) && error == None
      ensures outcome.Err? ==> r == Failed(outcome.error.DetailOr(LikeFailed)) && error == Some(r.error)
      ensures r.Failed? ==> r.error != ""
    {
      loading := true;
      error := None;
      match outcome {
        case Ok(message) =>
          r := Succeeded(message);
        case Err(e) =>
          var text := e.DetailOr(LikeFailed);
          error := Some(text);
          r := Failed(text);
      }
      loading := false;
    }

    /** `downloadWallpaper(id)`, given the settled outcome of the download-count request. */
    method Download(outcome: Result<(), RequestError>) returns (r: ActionResult)
      modifies this
      ensures !loading
      ensures outcome.Ok? ==> r == Succeeded(None) && error == None
      ensures outcome.Err? ==> r == Failed(outcome.error.DetailOr(DownloadFailed)) && error == Some(r.error)
      ensures r.Failed? ==> r.error != ""
    {
      loading := true;
      error := None;
      match outcome {
        case Ok(_) =>
          r := Succeeded(None);
        case Err(e) =>
          var text := e.DetailOr(DownloadFailed);
          error := Some(text);
          r := Failed(text);
      }
      loading := false;
    }
  }
}
