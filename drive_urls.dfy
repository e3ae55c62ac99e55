/**
 * Google Drive URL derivation of the wallpaper client's API service
 * (`wallpapersApi.getFileIdFromFileUrl`, `getDownloadUrlFromFileUrl`,
 * `getThumbnailFromFileUrl`, `getPreviewFromFileUrl`).
 *
 * A file id is pulled out of a share link by two regular expressions,
 * `/[?&]id=([a-zA-Z0-9_-]+)/` (query-parameter form) and
 * `/\/file\/d\/([a-zA-Z0-9_-]+)/` (path-segment form). Each is modelled as
 * its literal marker, the leftmost index where the marker is followed by at
 * least one id character, and the greedy run of id characters captured there.
 * URL arguments are `Option<string>`: `None` stands for `null`/`undefined`.
 */
module DriveUrls {
  import opened Wrappers
  import opened Text

  datatype Pattern = QueryParam | PathSegment

  function MarkerLength(p: Pattern): nat {
    match p
    case QueryParam => 4
    case PathSegment => 8
  }

  /** The literal part of pattern `p` (`[?&]id=` or `/file/d/`) occurs at index `i` of `s`. */
  predicate MarkerAt(p: Pattern, s: string, i: int) {
    0 <= i && i + MarkerLength(p) <= |s| &&
    match p
    case QueryParam => (s[i] == '?' || s[i] == '&') && s[i + 1..i + 4] == "id="
    case PathSegment => s[i..i + 8] == "/file/d/"
  }

  /** The regular expression of `p` matches at index `i`: its marker followed by an id character. */
  predicate MatchAt(p: Pattern, s: string, i: int) {
    MarkerAt(p, s, i) && i + MarkerLength(p) < |s| && IsIdChar(s[i + MarkerLength(p)])
  }

  /** `i` is the leftmost match, the one `exec` reports. */
  predicate IsFirstMatch(p: Pattern, s: string, i: int) {
    MatchAt(p, s, i) && forall j :: 0 <= j < i ==> !MatchAt(p, s, j)
  }

  function FirstMatchFrom(p: Pattern, s: string, from: nat): (r: Option<nat>)
    ensures r.Some? ==> from <= r.value && MatchAt(p, s, r.value)
    ensures r.Some? ==> forall j :: from <= j < r.value ==> !MatchAt(p, s, j)
    ensures r.None? ==> forall j :: from <= j ==> !MatchAt(p, s, j)
    decreases |s| - from
  {
    if from >= |s| then None
    else if MatchAt(p, s, from) then Some(from)
    else FirstMatchFrom(p, s, from + 1)
  }

  /** The greedy run `[a-zA-Z0-9_-]*` starting at index `k`. */
  function IdRun(s: string, k: nat): (r: string)
    requires k <= |s|
    ensures k + |r| <= |s| && s[k..k + |r|] == r
    ensures AllIdChars(r)
    ensures k + |r| == |s| || !IsIdChar(s[k + |r|])
    decreases |s| - k
  {
    if k < |s| && IsIdChar(s[k]) then [s[k]] + IdRun(s, k + 1) else ""
  }

  /** A block of id characters that ends the string or is followed by a non-id character is the run. */
  lemma IdRunIs(s: string, k: nat, id: string)
    requires k + |id| <= |s| && s[k..k + |id|] == id && AllIdChars(id)
    requires k + |id| == |s| || !IsIdChar(s[k + |id|])
    ensures IdRun(s, k) == id
  {
  }

  /** `pattern.exec(s)?.[1]`: the group captured by the leftmost match, if any. */
  function Capture(p: Pattern, s: string): (r: Option<string>)
    ensures r.None? <==> forall i :: !MatchAt(p, s, i)
    ensures forall i :: IsFirstMatch(p, s, i) ==> r == Some(IdRun(s, i + MarkerLength(p)))
    ensures r.Some? ==> r.value != ""
  {
    match FirstMatchFrom(p, s, 0)
    case None => None
    case Some(i) => Some(IdRun(s, i + MarkerLength(p)))
  }

  /**
   * `getFileIdFromFileUrl`: the id after the first `?id=`/`&id=` if there is
   * one, else the id after the first `/file/d/`, else `''`.
   */
  function FileId(url: Option<string>): (id: string)
    ensures id != "" ==> AllIdChars(id)
    ensures id == "" <==>
              (forall i :: !MatchAt(QueryParam, OrEmpty(url), i)) && (forall i :: !MatchAt(PathSegment, OrEmpty(url), i))
    ensures forall i :: IsFirstMatch(QueryParam, OrEmpty(url), i) ==> id == IdRun(OrEmpty(url), i + 4)
    ensures (forall j :: !MatchAt(QueryParam, OrEmpty(url), j)) ==>
              forall i :: IsFirstMatch(PathSegment, OrEmpty(url), i) ==> id == IdRun(OrEmpty(url), i + 8)
  {
    if !Truthy(url) then ""
    else
      match Capture(QueryParam, url.value)
      case Some(fromQuery) => fromQuery
      case None =>
        match Capture(PathSegment, url.value)
        case Some(fromPath) =>
          assert forall i :: IsFirstMatch(PathSegment, url.value, i) ==> fromPath == IdRun(url.value, i + 8);
          fromPath
        case None => ""
  }

  const DownloadBase := "https://drive.google.com/uc?export=download&id="
  const ThumbnailBase := "https://drive.google.com/thumbnail?id="
  const DefaultThumbnailSize: nat := 800

  /**
   * `getDownloadUrlFromFileUrl`: the canonical direct-download URL when an id
   * is found; otherwise the first `export=view` becomes `export=download`.
   */
  function DownloadUrl(url: Option<string>): (r: string)
    ensures !Truthy(url) ==> r == ""
    ensures FileId(url) != "" ==> r == DownloadBase + FileId(url)
    ensures Truthy(url) && FileId(url) == "" ==> r == ReplaceFirst(url.value, "export=view", "export=download")
  {
    if !Truthy(url) then ""
    else
      var id := FileId(url);
      if id != "" then DownloadBase + id
      else ReplaceFirst(url.value, "export=view", "export=download")
  }

  /** `getThumbnailFromFileUrl(fileUrl, size)` */
  function ThumbnailUrl(url: Option<string>, size: nat): (r: string)
    ensures FileId(url) == "" ==> r == OrEmpty(url)
    ensures FileId(url) != "" ==> r == ThumbnailBase + FileId(url) + "&sz=w" + NatToString(size)
  {
    var id := FileId(url);
    if id == "" then OrEmpty(url) else ThumbnailBase + id + "&sz=w" + NatToString(size)
  }

  /** `getPreviewFromFileUrl`: the URL itself, `''` when absent. */
  function PreviewUrl(url: Option<string>): (r: string)
    ensures Truthy(url) ==> r == url.value
    ensures !Truthy(url) ==> r == ""
  {
    OrEmpty(url)
  }

  // ------------------------------------------------------------------ lemmas

  /** No id means the fallback leaves a URL without `export=view` untouched. */
  lemma DownloadUrlFallbackUnchanged(url: string)
    requires url != "" && FileId(Some(url)) == ""
    requires !Contains(url, "export=view")
    ensures DownloadUrl(Some(url)) == url
  {
  }

  /** The fallback replaces only the first `export=view`. */
  lemma DownloadUrlFallbackReplacesFirst(url: string, i: nat)
    requires FileId(Some(url)) == ""
    requires OccursAt(url, "export=view", i) && forall j :: 0 <= j < i ==> !OccursAt(url, "export=view", j)
    ensures DownloadUrl(Some(url)) == url[..i] + "export=download" + url[i + 11..]
  {
  }

  /**
   * The id of a query-parameter URL `a ? b &id= id`, where neither `a` nor `b`
   * holds `?` or `&` and `b` does not start with `id=`, is `id`.
   */
  lemma {:induction false} FileIdOfQueryUrl(a: string, b: string, id: string)
    requires '?' !in a && '&' !in a && '?' !in b && '&' !in b
    requires b != [] && b[0] != 'i'
    requires id != "" && AllIdChars(id)
    ensures FileId(Some(a + "?" + b + "&id=" + id)) == id
  {
    var head := a + "?" + b + "&id=";
    var s := head + id;
    QueryUrlFirstMatch(a, b, id);
    FileIdFromQueryMatch(s, |a| + 1 + |b|);
  }

  /** In `a ? b &id= id` the leftmost query-parameter match is the `&` before `id=`. */
  lemma {:induction false} QueryUrlFirstMatch(a: string, b: string, id: string)
    requires '?' !in a && '&' !in a && '?' !in b && '&' !in b
    requires b != [] && b[0] != 'i'
    requires id != "" && AllIdChars(id)
    ensures IsFirstMatch(QueryParam, a + "?" + b + "&id=" + id, |a| + 1 + |b|)
  {
    var s := a + "?" + b + "&id=" + id;
    var k := |a| + 1 + |b|;
    assert s[k] == '&' && s[k + 1..k + 4] == "id=" && s[k + 4] == id[0];
    assert MatchAt(QueryParam, s, k);
    forall j | 0 <= j < k
      ensures !MatchAt(QueryParam, s, j)
    {
      if j < |a| {
        assert s[j] == a[j];
      } else if j == |a| {
        assert s[j + 1] == b[0];
      } else {
        assert s[j] == b[j - |a| - 1];
      }
    }
  }

  /** The id is the run after the leftmost query-parameter match, when there is one. */
  lemma FileIdFromQueryMatch(s: string, k: nat)
    requires IsFirstMatch(QueryParam, s, k)
    ensures FileId(Some(s)) == IdRun(s, k + 4)
  {
  }

  const DriveHost := "https://drive.google.com"

  /** A string with neither `?` nor `&` holds no query-parameter marker. */
  lemma NoQueryMarkerWithout(x: string)
    requires '?' !in x && '&' !in x
    ensures forall j :: !MarkerAt(QueryParam, x, j)
  {
  }

  /** `u ? v`, with `?` and `&` absent from `u` and `v` and `v` not starting with `id=`, holds no query-parameter marker. */
  lemma NoQueryMarkerIn(u: string, v: string)
    requires '?' !in u && '&' !in u && '?' !in v && '&' !in v
    requires v != [] && v[0] != 'i'
    ensures forall j :: !MarkerAt(QueryParam, u + "?" + v, j)
  {
    var x := u + "?" + v;
    forall j | 0 <= j && j + 4 <= |x|
      ensures !MarkerAt(QueryParam, x, j)
    {
      if j < |u| {
        assert x[j] == u[j] && u[j] in u;
      } else if j == |u| {
        assert x[j + 1..j + 4][0] == v[0];
      } else {
        assert x[j] == v[j - |u| - 1] && v[j - |u| - 1] in v;
      }
    }
  }

  /** No query-parameter match in `head id rest` when `head` holds neither `?` nor `&` and `rest` holds no marker. */
  lemma {:induction false} NoQueryMatchAfterId(head: string, id: string, rest: string)
    requires '?' !in head && '&' !in head && AllIdChars(id)
    requires forall j :: !MarkerAt(QueryParam, rest, j)
    ensures forall j :: !MatchAt(QueryParam, head + id + rest, j)
  {
    var s := head + id + rest;
    var off := |head| + |id|;
    forall j | 0 <= j && j + 4 <= |s|
      ensures !MarkerAt(QueryParam, s, j)
    {
      if j < |head| {
        assert s[j] == head[j] && head[j] in head;
      } else if j < off {
        assert s[j] == id[j - |head|];
      } else {
        assert s[j] == rest[j - off];
        assert s[j + 1..j + 4] == rest[j - off + 1..j - off + 4];
        assert !MarkerAt(QueryParam, rest, j - off);
      }
    }
  }

  /**
   * In `h1 // h2 /file/d/ id rest`, with no `/` in `h1` or `h2` and `h2` not
   * starting with `f`, the leftmost `/file/d/` match is the one after `h2`.
   */
  lemma {:induction false} PathMatchAfterHost(h1: string, h2: string, id: string, rest: string)
    requires '/' !in h1 && '/' !in h2 && h2 != [] && h2[0] != 'f'
    requires id != "" && AllIdChars(id)
    ensures IsFirstMatch(PathSegment, h1 + "//" + h2 + "/file/d/" + id + rest, |h1| + 2 + |h2|)
  {
    var s := h1 + "//" + h2 + "/file/d/" + id + rest;
    var k := |h1| + 2 + |h2|;
    assert s[k..k + 8] == "/file/d/" && s[k + 8] == id[0];
    forall j | 0 <= j < k
      ensures !MarkerAt(PathSegment, s, j)
    {
      if j + 8 <= |s| {
        if j < |h1| {
          assert s[j] == h1[j] && h1[j] in h1;
        } else if j == |h1| {
          assert s[j + 1] == '/';
        } else if j == |h1| + 1 {
          assert s[j + 1] == h2[0];
        } else {
          assert s[j] == h2[j - |h1| - 2] && h2[j - |h1| - 2] in h2;
        }
        assert s[j..j + 8][0] == s[j] && s[j..j + 8][1] == s[j + 1];
      }
    }
  }

  /** With no query-parameter match, the id is the run after the leftmost `/file/d/`. */
  lemma FileIdFromPathMatch(s: string, k: nat)
    requires forall j :: !MatchAt(QueryParam, s, j)
    requires IsFirstMatch(PathSegment, s, k)
    ensures FileId(Some(s)) == IdRun(s, k + 8)
  {
  }

  /**
   * The id of a path-segment URL `https://drive.google.com/file/d/ id rest`,
   * where `rest` starts with a non-id character and holds no query-parameter
   * marker, is `id`.
   */
  lemma {:induction false} FileIdOfPathUrl(id: string, rest: string)
    requires id != "" && AllIdChars(id)
    requires rest == [] || !IsIdChar(rest[0])
    requires forall j :: !MarkerAt(QueryParam, rest, j)
    ensures FileId(Some(DriveHost + "/file/d/" + id + rest)) == id
  {
    var s := DriveHost + "/file/d/" + id + rest;
    PathUrlMatches(id, rest);
    FileIdFromPathMatch(s, 24);
    PathUrlIdBlock(id, rest);
    IdRunIs(s, 32, id);
  }

  /** In `https://drive.google.com/file/d/ id rest` only the path pattern matches, first at index 24. */
  lemma {:induction false} PathUrlMatches(id: string, rest: string)
    requires id != "" && AllIdChars(id)
    requires forall j :: !MarkerAt(QueryParam, rest, j)
    ensures forall j :: !MatchAt(QueryParam, DriveHost + "/file/d/" + id + rest, j)
    ensures IsFirstMatch(PathSegment, DriveHost + "/file/d/" + id + rest, 24)
  {
    var h1, h2, marker := "https:", "drive.google.com", "/file/d/";
    var head := h1 + "//" + h2 + marker;
    assert head == DriveHost + "/file/d/";
    assert '?' !in head && '&' !in head;
    NoQueryMatchAfterId(head, id, rest);
    assert '/' !in h1 && '/' !in h2 && h2[0] != 'f';
    assert DriveHost + "/file/d/" + id + rest == h1 + "//" + h2 + marker + id + rest;
    PathMatchAfterHost(h1, h2, id, rest);
  }

  /** The id sits at index 32 of a path link, followed by the first character of `rest`. */
  lemma PathUrlIdBlock(id: string, rest: string)
    ensures var s := DriveHost + "/file/d/" + id + rest;
            |s| == 32 + |id| + |rest| && s[32..32 + |id|] == id &&
            (rest != [] ==> s[32 + |id|] == rest[0])
  {
  }

  /** The canonical download URL re-extracts its own id. */
  lemma DownloadBaseFileId(id: string)
    requires id != "" && AllIdChars(id)
    ensures FileId(Some(DownloadBase + id)) == id
  {
    assert DownloadBase + id == "https://drive.google.com/uc" + "?" + "export=download" + "&id=" + id;
    FileIdOfQueryUrl("https://drive.google.com/uc", "export=download", id);
  }

  /** `getDownloadUrlFromFileUrl` is idempotent once an id has been found. */
  lemma DownloadUrlIdempotent(url: Option<string>)
    requires FileId(url) != ""
    ensures FileId(Some(DownloadUrl(url))) == FileId(url)
    ensures DownloadUrl(Some(DownloadUrl(url))) == DownloadUrl(url)
  {
    DownloadBaseFileId(FileId(url));
  }

  /** A `/file/d/` link maps to the canonical download link of its id. */
  lemma DownloadUrlOfPathUrl(id: string, rest: string)
    requires id != "" && AllIdChars(id)
    requires rest == [] || !IsIdChar(rest[0])
    requires forall j :: !MarkerAt(QueryParam, rest, j)
    ensures DownloadUrl(Some(DriveHost + "/file/d/" + id + rest)) == DownloadBase + id
  {
    FileIdOfPathUrl(id, rest);
  }

  /** The documented example: a `/file/d/` link becomes a direct-download link. */
  lemma DownloadUrlOfPathExample(id: string, url: string)
    requires id == "ABC123" && url == DriveHost + "/file/d/" + id + "/view"
    ensures DownloadUrl(Some(url)) == DownloadBase + id
  {
    assert AllIdChars(id);
    NoQueryMarkerWithout("/view");
    DownloadUrlOfPathUrl(id, "/view");
  }
}
