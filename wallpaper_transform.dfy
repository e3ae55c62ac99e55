/**
 * The pure part of the `useWallpapers` hook: how one backend listing record
 * (`WallpaperPublic`, or an older payload carrying a Drive file URL) becomes
 * the record the pages display, and the `hasMore` rule.
 */
module WallpaperTransform {
  import opened Wrappers
  import opened Text
  import opened Seqs
  import opened DriveUrls

  /** A listing record as received; absent optional fields are `None`. */
  datatype RawWallpaper = RawWallpaper(
    id: string,
    title: string,
    description: Option<string>,
    categoryName: string,
    likesCount: int,
    downloadCount: int,
    driveFileUrl: Option<string>,
    driveFileId: Option<string>)

  /** The record the pages and components display. */
  datatype Wallpaper = Wallpaper(
    id: string,
    title: string,
    category: string,
    description: Option<string>,
    imageUrl: string,
    downloadUrl: string,
    likesCount: int,
    downloadCount: int,
    tags: seq<string>)

  const ViewBase := "https://drive.google.com/uc?export=view&id="

  /**
   * The file URL of a record: `google_drive_file_url` when truthy, else the
   * view link of a truthy `google_drive_file_id`, else `''`.
   */
  function ResolveFileUrl(raw: RawWallpaper): (r: string)
    ensures Truthy(raw.driveFileUrl) ==> r == raw.driveFileUrl.value
    ensures !Truthy(raw.driveFileUrl) && Truthy(raw.driveFileId) ==> r == ViewBase + raw.driveFileId.value
    ensures !Truthy(raw.driveFileUrl) && !Truthy(raw.driveFileId) ==> r == ""
  {
    if Truthy(raw.driveFileUrl) then raw.driveFileUrl.value
    else if Truthy(raw.driveFileId) then ViewBase + raw.driveFileId.value
    else ""
  }

  /** `description ? description.split(' ').slice(0, 3) : []` */
  function Tags(description: Option<string>): (r: seq<string>)
    ensures |r| <= 3
    ensures !Truthy(description) ==> r == []
    ensures Truthy(description) ==> |r| >= 1 && r <= SplitOn(description.value, ' ')
    ensures Truthy(description) ==> |r| == if |SplitOn(description.value, ' ')| < 3 then |SplitOn(description.value, ' ')| else 3
    ensures forall k :: 0 <= k < |r| ==> ' ' !in r[k]
  {
    if Truthy(description) then
      var pieces := SplitOn(description.value, ' ');
      JsSlicePrefix(pieces, 3);
      JsSlice(pieces, 0, 3)
    else []
  }

  /** A description of at most three words is exactly its tags joined by spaces. */
  lemma TagsRejoin(description: string)
    requires description != ""
    requires |SplitOn(description, ' ')| <= 3
    ensures JoinWith(Tags(Some(description)), ' ') == description
  {
    JoinSplit(description, ' ');
    assert Tags(Some(description)) == SplitOn(description, ' ');
  }

  /** The display record of one listing record (the body of `data.map`). */
  function Transform(raw: RawWallpaper): (w: Wallpaper)
    ensures w.id == raw.id && w.title == raw.title && w.description == raw.description
    ensures w.category == raw.categoryName
    ensures w.likesCount == raw.likesCount && w.downloadCount == raw.downloadCount
    ensures w.imageUrl == ThumbnailUrl(Some(ResolveFileUrl(raw)), DefaultThumbnailSize)
    ensures w.downloadUrl == DownloadUrl(Some(ResolveFileUrl(raw)))
    ensures w.tags == Tags(raw.description)
  {
    var fileUrl := ResolveFileUrl(raw);
    Wallpaper(
      raw.id, raw.title, raw.categoryName, raw.description,
      ThumbnailUrl(Some(fileUrl), DefaultThumbnailSize),
      DownloadUrl(Some(fileUrl)),
      raw.likesCount, raw.downloadCount,
      Tags(raw.description))
  }

  /** `data.map(transform)`: same length, same order. */
  function TransformAll(raws: seq<RawWallpaper>): (r: seq<Wallpaper>)
    ensures |r| == |raws|
    ensures forall i :: 0 <= i < |raws| ==> r[i] == Transform(raws[i])
  {
    seq(|raws|, i requires 0 <= i < |raws| => Transform(raws[i]))
  }

  /** A record with neither file field gets empty image and download URLs. */
  lemma TransformWithoutFile(raw: RawWallpaper)
    requires !Truthy(raw.driveFileUrl) && !Truthy(raw.driveFileId)
    ensures Transform(raw).imageUrl == ""
    ensures Transform(raw).downloadUrl == ""
  {
    assert ResolveFileUrl(raw) == "";
    assert FileId(Some("")) == "";
  }

  /** `String(800)` */
  lemma DefaultSizeText()
    ensures NatToString(DefaultThumbnailSize) == "800"
  {
    assert NatToString(8) == "8";
    assert NatToString(80) == NatToString(8) + [DigitChar(0)];
  }

  /** The view link built from an id re-extracts that id. */
  lemma FileIdOfViewUrl(x: string)
    requires x != "" && AllIdChars(x)
    ensures FileId(Some(ViewBase + x)) == x
  {
    assert ViewBase + x == "https://drive.google.com/uc" + "?" + "export=view" + "&id=" + x;
    FileIdOfQueryUrl("https://drive.google.com/uc", "export=view", x);
  }

  /** A record carrying only a file id `x` gets the thumbnail and download links of `x`. */
  lemma TransformWithIdOnly(raw: RawWallpaper, x: string)
    requires !Truthy(raw.driveFileUrl) && raw.driveFileId == Some(x)
    requires x != "" && AllIdChars(x)
    ensures Transform(raw).imageUrl == ThumbnailBase + x + "&sz=w800"
    ensures Transform(raw).downloadUrl == DownloadBase + x
  {
    var url := ResolveFileUrl(raw);
    assert url == ViewBase + x;
    FileIdOfViewUrl(x);
    DefaultSizeText();
    assert ThumbnailBase + x + "&sz=w" + "800" == ThumbnailBase + x + "&sz=w800";
  }
}
