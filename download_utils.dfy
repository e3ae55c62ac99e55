/**
 * The Google Drive download helpers of the client: the file-id validator,
 * the three download URL templates, the primary-then-fallback control flow
 * of `downloadFromGoogleDrive` and the text of the download notification.
 * The page is a `Browser` object recording the downloads it starts (links
 * clicked) and the tabs it opens; the outcomes of the `HEAD` probe and of
 * `window.open` are parameters.
 */
module DownloadUtils {
  import opened Wrappers
  import opened Text
  import opened DriveUrls

  /** `/^[a-zA-Z0-9_-]{25,}$/.test(fileId)` after the `!fileId` guard; `None` is `null`/`undefined`. */
  function IsValidGoogleDriveFileId(fileId: Option<string>): (r: bool)
    ensures r <==> fileId.Some? && |fileId.value| >= 25 && AllIdChars(fileId.value)
  {
    match fileId
    case None => false
    case Some(s) =>
      var run := IdRun(s, 0);
      assert |run| == |s| ==> run == s[0..|s|] == s;
      s != "" && |run| == |s| && |s| >= 25
  }

  const DriveFilePath := "https://drive.google.com/file/d/"
  const SharingSuffix := "/view?usp=sharing"

  /** Method 1: the direct download link. */
  function PrimaryUrl(id: string): string {
    DownloadBase + id
  }

  /** Method 2: the direct download link with its parameters swapped. */
  function AlternateUrl(id: string): string {
    "https://drive.google.com/uc?id=" + id + "&export=download"
  }

  /** Method 3: the sharing page. */
  function SharingUrl(id: string): string {
    DriveFilePath + id + SharingSuffix
  }

  /** The `downloadMethods` array. */
  function DownloadMethods(id: string): (r: seq<string>)
    ensures |r| == 3 && r[0] == PrimaryUrl(id) && r[1] == AlternateUrl(id) && r[2] == SharingUrl(id)
  {
    [PrimaryUrl(id), AlternateUrl(id), SharingUrl(id)]
  }

  /** The sharing link names the same file: the API service turns it into the primary link. */
  lemma SharingUrlDownloadsPrimary(id: string)
    requires id != "" && AllIdChars(id)
    ensures FileId(Some(SharingUrl(id))) == id
    ensures DownloadUrl(Some(SharingUrl(id))) == PrimaryUrl(id)
  {
    assert SharingUrl(id) == DriveHost + "/file/d/" + id + ("/view" + "?" + "usp=sharing");
    NoQueryMarkerIn("/view", "usp=sharing");
    FileIdOfPathUrl(id, "/view" + "?" + "usp=sharing");
    DownloadUrlOfPathUrl(id, "/view" + "?" + "usp=sharing");
  }

  /** The alternate link names the same file too. */
  lemma {:induction false} AlternateUrlFileId(id: string)
    requires id != "" && AllIdChars(id)
    ensures FileId(Some(AlternateUrl(id))) == id
  {
    var head := "https://drive.google.com/uc";
    var s := AlternateUrl(id);
    assert s == head + "?id=" + id + "&export=download";
    var k := |head|;
    assert s[k] == '?' && s[k + 1..k + 4] == "id=" && s[k + 4] == id[0];
    assert MatchAt(QueryParam, s, k);
    forall j | 0 <= j < k
      ensures !MatchAt(QueryParam, s, j)
    {
      assert s[j] == head[j] && head[j] in head;
    }
    assert IsFirstMatch(QueryParam, s, k);
    assert s[k + 4..k + 4 + |id|] == id;
    assert s[k + 4 + |id|] == '&';
    IdRunIs(s, k + 4, id);
  }

  const IdRequired := "Google Drive file ID is required"
  const Unable := "Unable to initiate download. Please try again."
  const DefaultFilename := "wallpaper"

  /** The page: links clicked to start a download (`href`, `download`), and tabs opened. */
  class Browser {
    var downloads: seq<(string, string)>
    var openedTabs: seq<string>

    constructor ()
      ensures downloads == [] && openedTabs == []
    {
      downloads := [];
      openedTabs := [];
    }
  }

  /**
   * `downloadFromGoogleDrive(fileId, filename)`. `headCheck` is the settled
   * `HEAD` probe of the primary link (`None`: the request failed;
   * `Some(ok)`: `response.ok`); `canOpenTab` says whether `window.open`
   * succeeds. A missing id fails before any request; an ok probe clicks a
   * link to the primary URL; otherwise the sharing page is opened in a tab.
   */
  method DownloadFromGoogleDrive(browser: Browser, fileId: Option<string>, filename: Option<string>,
                                 headCheck: Option<bool>, canOpenTab: bool)
    returns (r: Result<bool, string>)
    modifies browser
    ensures r.Ok? ==> r.value
    ensures !Truthy(fileId) ==>
              r == Err(IdRequired) && browser.downloads == old(browser.downloads) && browser.openedTabs == old(browser.openedTabs)
    ensures Truthy(fileId) && headCheck == Some(true) ==>
              r == Ok(true) && browser.openedTabs == old(browser.openedTabs) &&
              browser.downloads == old(browser.downloads) + [(PrimaryUrl(fileId.value), filename.GetOr(DefaultFilename))]
    ensures Truthy(fileId) && headCheck != Some(true) && canOpenTab ==>
              r == Ok(true) && browser.downloads == old(browser.downloads) &&
              browser.openedTabs == old(browser.openedTabs) + [SharingUrl(fileId.value)]
    ensures Truthy(fileId) && headCheck != Some(true) && !canOpenTab ==>
              r == Err(Unable) && browser.downloads == old(browser.downloads) && browser.openedTabs == old(browser.openedTabs)
  {
    if !Truthy(fileId) {
      return Err(IdRequired);
    }
    var methods := DownloadMethods(fileId.value);
    if headCheck == Some(true) {
      browser.downloads := browser.downloads + [(methods[0], filename.GetOr(DefaultFilename))];
      return Ok(true);
    }
    if canOpenTab {
      browser.openedTabs := browser.openedTabs + [methods[2]];
      return Ok(true);
    }
    return Err(Unable);
  }

  const DownloadStarted := "Download started! Check your downloads folder."
  const DownloadFailedText := "Download failed. Please try again."

  /** The text of `showDownloadNotification(success, message)`: the message unless empty, else the default for `success`. */
  function NotificationText(success: bool, message: Option<string>): (r: string)
    ensures r != ""
    ensures Truthy(message) ==> r == message.value
    ensures !Truthy(message) ==> r == if success then DownloadStarted else DownloadFailedText
  {
    if Truthy(message) then message.value
    else if success then DownloadStarted
    else DownloadFailedText
  }
}
