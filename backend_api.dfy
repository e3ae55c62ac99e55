/**
 * The backend's endpoints over its three MongoDB collections (`users`,
 * `categories`, `wallpapers`): registration, category creation, likes,
 * download counting, the public listings and the admin upload. The
 * database is a class whose fields are the collections, in insertion
 * (natural) order; the Google Drive upload is a function from the file
 * name to its outcome, and the clock and new document ids are parameters.
 */
module BackendApi {
  import opened Wrappers
  import opened Text
  import opened Seqs
  import opened BackendSecurity

  // ---------------------------------------------------------------- ids

  /** A BSON ObjectId, kept as its 24-digit lower-case hex text (what `str(oid)` gives). */
  datatype ObjectId = ObjectId(hex: string)

  predicate IsHexChar(c: char) {
    ('0' <= c <= '9') || ('a' <= c <= 'f') || ('A' <= c <= 'F')
  }

  predicate IsCanonical(id: ObjectId) {
    |id.hex| == 24 && forall i :: 0 <= i < |id.hex| ==> IsLowerHexDigit(id.hex[i])
  }

  /** `ObjectId(s)` for a string: 24 hex digits of either case, else the constructor raises. */
  function ParseObjectId(s: string): (r: Option<ObjectId>)
    ensures r.Some? <==> |s| == 24 && forall i :: 0 <= i < |s| ==> IsHexChar(s[i])
    ensures r.Some? ==> r.value.hex == Lower(s) && IsCanonical(r.value)
  {
    if |s| == 24 && forall i :: 0 <= i < |s| ==> IsHexChar(s[i]) then Some(ObjectId(Lower(s))) else None
  }

  /** The text of an id parses back to the same id. */
  lemma ParseObjectIdOfText(id: ObjectId)
    requires IsCanonical(id)
    ensures ParseObjectId(id.hex) == Some(id)
  {
    assert forall i :: 0 <= i < |id.hex| ==> IsHexChar(id.hex[i]);
    assert Lower(id.hex) == id.hex;
  }

  /** Parsing is insensitive to the case of the hex digits. */
  lemma ParseObjectIdIgnoresCase(s: string)
    ensures ParseObjectId(Lower(s)) == ParseObjectId(s)
  {
    if ParseObjectId(s).Some? {
      ParseObjectIdOfText(ParseObjectId(s).value);
    } else if |s| == 24 {
      var i :| 0 <= i < |s| && !IsHexChar(s[i]);
      assert !IsHexChar(Lower(s)[i]);
    }
  }

  // ---------------------------------------------------------------- documents

  datatype UserDoc = UserDoc(id: ObjectId, email: string, hashedPassword: PasswordHash, role: string)

  datatype CategoryDoc = CategoryDoc(id: ObjectId, name: string)

  /** A stored wallpaper; `likes` and `download_count` may be missing from a document. */
  datatype WallpaperDoc = WallpaperDoc(
    id: ObjectId,
    title: string,
    description: Option<string>,
    categoryId: ObjectId,
    driveFileId: string,
    likes: Option<seq<ObjectId>>,
    downloadCount: Option<int>,
    uploadDate: int)

  /** The `WallpaperPublic` response model. */
  datatype WallpaperPublic = WallpaperPublic(
    id: string,
    title: string,
    description: Option<string>,
    categoryName: string,
    likesCount: nat,
    downloadCount: int,
    driveFileId: string)

  const NotEnoughPrivileges := "The user doesn't have enough privileges"
  const EmailRegistered := "Email already registered"
  const CategoryExists := "Category already exists"
  const InvalidId := "Invalid ID format"
  const InvalidWallpaperId := "Invalid Wallpaper ID format"
  const WallpaperNotFound := "Wallpaper not found"
  const InvalidCategoryId := "Invalid Category ID format."
  const CategoryIdNotFound := "Category not found for the provided ID."
  const DriveFailurePrefix := "Failed to upload to Google Drive: "
  const Uncategorized := "Uncategorized"
  /** The response FastAPI gives for an exception no handler catches. */
  const ServerError := HttpError(500, "Internal Server Error")

  /** `get_current_admin_user`: the user when their role is `admin`, else 403. */
  function RequireAdmin(user: UserDoc): (r: Result<UserDoc, HttpError>)
    ensures r.Ok? <==> user.role == "admin"
    ensures r.Ok? ==> r.value == user
    ensures r.Err? ==> r.error == HttpError(403, NotEnoughPrivileges)
  {
    if user.role != "admin" then Err(HttpError(403, NotEnoughPrivileges)) else Ok(user)
  }

  /** `find_one({"email": email})` finds a user. */
  predicate EmailTaken(users: seq<UserDoc>, email: string) {
    Find(users, (u: UserDoc) => u.email == email).Some?
  }

  predicate UniqueEmails(users: seq<UserDoc>) {
    forall i, j :: 0 <= i < j < |users| ==> users[i].email != users[j].email
  }

  /** `find_one({"name": name})` finds a category. */
  predicate NameTaken(categories: seq<CategoryDoc>, name: string) {
    Find(categories, (c: CategoryDoc) => c.name == name).Some?
  }

  predicate UniqueNames(categories: seq<CategoryDoc>) {
    forall i, j :: 0 <= i < j < |categories| ==> categories[i].name != categories[j].name
  }

  /** The position of the document `find_one({"_id": id})` returns. */
  function WallpaperIndex(wallpapers: seq<WallpaperDoc>, id: ObjectId): (r: Option<nat>)
    ensures r.Some? ==> r.value < |wallpapers| && wallpapers[r.value].id == id
    ensures r.None? <==> forall k :: 0 <= k < |wallpapers| ==> wallpapers[k].id != id
  {
    FindIndex(wallpapers, (w: WallpaperDoc) => w.id == id)
  }

  // ---------------------------------------------------------------- likes

  predicate NoDuplicates(s: seq<ObjectId>) {
    forall i, j :: 0 <= i < j < |s| ==> s[i] != s[j]
  }

  /** `$pull` of a liker (every occurrence) or `$addToSet` of a new one. */
  function ToggleLike(likes: seq<ObjectId>, user: ObjectId): (r: seq<ObjectId>)
    ensures user in likes ==> user !in r && forall x :: x in r <==> x in likes && x != user
    ensures user !in likes ==> r == likes + [user]
  {
    if user in likes then Filter(likes, (x: ObjectId) => x != user) else likes + [user]
  }

  /** Liking twice gives back the same set of likers. */
  lemma ToggleLikeTwice(likes: seq<ObjectId>, user: ObjectId)
    ensures forall x :: x in ToggleLike(ToggleLike(likes, user), user) <==> x in likes
  {
  }

  lemma {:induction false} FilterOutOne(s: seq<ObjectId>, user: ObjectId)
    requires NoDuplicates(s) && user in s
    ensures |Filter(s, (x: ObjectId) => x != user)| == |s| - 1
    ensures NoDuplicates(Filter(s, (x: ObjectId) => x != user))
    decreases |s|
  {
    var p := (x: ObjectId) => x != user;
    var rest := s[1..];
    assert NoDuplicates(rest) by {
      forall i, j | 0 <= i < j < |rest| ensures rest[i] != rest[j] {
        assert rest[i] == s[i + 1] && rest[j] == s[j + 1];
      }
    }
    if s[0] == user {
      assert user !in rest by {
        forall k | 0 <= k < |rest| ensures rest[k] != user {
          assert rest[k] == s[k + 1];
        }
      }
      FilterKeepsAll(rest, p);
    } else {
      assert user in rest by {
        var k :| 0 <= k < |s| && s[k] == user;
        assert k > 0 && rest[k - 1] == user;
      }
      FilterOutOne(rest, user);
      var r := Filter(rest, p);
      assert Filter(s, p) == [s[0]] + r;
      assert s[0] !in r by {
        SubsequenceMembers(r, rest);
      }
    }
  }

  /**
   * With a duplicate-free list of likers (what `$addToSet` keeps), a like
   * adds exactly one liker and an unlike removes exactly one.
   */
  lemma ToggleLikeCount(likes: seq<ObjectId>, user: ObjectId)
    requires NoDuplicates(likes)
    ensures NoDuplicates(ToggleLike(likes, user))
    ensures user !in likes ==> |ToggleLike(likes, user)| == |likes| + 1
    ensures user in likes ==> |ToggleLike(likes, user)| == |likes| - 1
  {
    if user in likes {
      FilterOutOne(likes, user);
    }
  }

  /** The message of `like_wallpaper`, from whether the user liked the wallpaper before. */
  function LikeMessage(wasLiked: bool): (r: string)
    ensures r == "Wallpaper unliked" <==> wasLiked
    ensures r == "Wallpaper liked" <==> !wasLiked
  {
    if wasLiked then "Wallpaper unliked" else "Wallpaper liked"
  }

  // ---------------------------------------------------------------- listing

  /** What a listing shows of a stored wallpaper, under a category name. */
  function ToPublic(w: WallpaperDoc, categoryName: string): (r: WallpaperPublic)
    ensures r.id == w.id.hex && r.title == w.title && r.description == w.description
    ensures r.categoryName == categoryName && r.driveFileId == w.driveFileId
    ensures r.likesCount == if w.likes.Some? then |w.likes.value| else 0
    ensures r.downloadCount == if w.downloadCount.Some? then w.downloadCount.value else 0
  {
    WallpaperPublic(w.id.hex, w.title, w.description, categoryName,
      |w.likes.GetOr([])|, w.downloadCount.GetOr(0), w.driveFileId)
  }

  /** The id a listing shows is one the id-taking endpoints accept, naming the same wallpaper. */
  lemma ShownIdParsesBack(w: WallpaperDoc, categoryName: string)
    requires IsCanonical(w.id)
    ensures ParseObjectId(ToPublic(w, categoryName).id) == Some(w.id)
  {
    ParseObjectIdOfText(w.id);
  }

  /** The name of the first category with this id, else `Uncategorized`. */
  function CategoryNameOf(categories: seq<CategoryDoc>, id: ObjectId): (r: string)
    ensures (forall k :: 0 <= k < |categories| ==> categories[k].id != id) ==> r == Uncategorized
    ensures forall k :: (0 <= k < |categories| && categories[k].id == id &&
              (forall j :: 0 <= j < k ==> categories[j].id != id)) ==> r == categories[k].name
  {
    match FindIndex(categories, (c: CategoryDoc) => c.id == id)
    case Some(k) => categories[k].name
    case None => Uncategorized
  }

  /** A like shows up in the listing as one more like, an unlike as one fewer. */
  lemma LikesCountShown(w: WallpaperDoc, user: ObjectId, name: string)
    requires NoDuplicates(w.likes.GetOr([]))
    ensures var after := w.(likes := Some(ToggleLike(w.likes.GetOr([]), user)));
            ToPublic(after, name).likesCount ==
              if user in w.likes.GetOr([]) then ToPublic(w, name).likesCount - 1
              else ToPublic(w, name).likesCount + 1
  {
    ToggleLikeCount(w.likes.GetOr([]), user);
  }

  /** A download shows up as one more download, a missing counter counting as 0. */
  lemma DownloadCountShown(w: WallpaperDoc, name: string)
    ensures ToPublic(w.(downloadCount := Some(w.downloadCount.GetOr(0) + 1)), name).downloadCount ==
            ToPublic(w, name).downloadCount + 1
  {
  }

  predicate NewestFirstOrder(ws: seq<WallpaperDoc>) {
    forall i, j :: 0 <= i < j < |ws| ==> ws[i].uploadDate >= ws[j].uploadDate
  }

  function Insert(w: WallpaperDoc, sorted: seq<WallpaperDoc>): (r: seq<WallpaperDoc>)
    requires NewestFirstOrder(sorted)
    ensures |r| == |sorted| + 1
    ensures r[0] == w || (sorted != [] && r[0] == sorted[0])
    ensures NewestFirstOrder(r)
    ensures multiset(r) == multiset(sorted) + multiset{w}
    decreases |sorted|
  {
    if sorted == [] || sorted[0].uploadDate <= w.uploadDate then
      ConsNewestFirst(w, sorted);
      [w] + sorted
    else
      var rest := Insert(w, sorted[1..]);
      assert sorted == [sorted[0]] + sorted[1..];
      assert rest[0].uploadDate <= sorted[0].uploadDate;
      ConsNewestFirst(sorted[0], rest);
      [sorted[0]] + rest
  }

  /** A wallpaper no older than the head of a newest-first list can go in front of it. */
  lemma ConsNewestFirst(w: WallpaperDoc, ws: seq<WallpaperDoc>)
    requires NewestFirstOrder(ws)
    requires ws == [] || ws[0].uploadDate <= w.uploadDate
    ensures NewestFirstOrder([w] + ws)
  {
    var r := [w] + ws;
    forall i, j | 0 <= i < j < |r|
      ensures r[i].uploadDate >= r[j].uploadDate
    {
      assert r[j] == ws[j - 1];
      if i > 0 {
        assert r[i] == ws[i - 1];
      } else if j > 1 {
        assert ws[0].uploadDate >= ws[j - 1].uploadDate;
      }
    }
  }

  /** `.sort("upload_date", -1)`: newest first; documents with equal dates keep their stored order. */
  function NewestFirst(ws: seq<WallpaperDoc>): (r: seq<WallpaperDoc>)
    ensures NewestFirstOrder(r)
    ensures multiset(r) == multiset(ws)
    decreases |ws|
  {
    if ws == [] then []
    else
      assert ws == [ws[0]] + ws[1..];
      Insert(ws[0], NewestFirst(ws[1..]))
  }

  function Abs(n: int): nat {
    if n < 0 then -n else n
  }

  /**
   * `.skip(skip).limit(limit)`: a negative skip raises (a server error);
   * otherwise the first `skip` wallpapers are passed over, and of the rest a
   * limit of 0 keeps all while a limit `n` keeps the first `abs(n)`.
   */

  function Window(ws: seq<WallpaperDoc>, skip: int, limit: int): (r: Result<seq<WallpaperDoc>, HttpError>)
    ensures r.Err? <==> skip < 0
    ensures r.Err? ==> r.error == ServerError
    ensures r.Ok? && limit == 0 ==> r.value == (if skip <= |ws| then ws[skip..] else [])
    ensures r.Ok? && limit != 0 ==> |r.value| <= Abs(limit)
    ensures r.Ok? ==> exists lo, hi :: 0 <= lo <= hi <= |ws| && r.value == ws[lo..hi]
    ensures 0 <= skip <= |ws| ==> r.Ok? && r.value <= ws[skip..]
    ensures skip > |ws| ==> r == Ok([])
    ensures 0 <= skip <= |ws| && limit != 0 ==>
              |r.value| == if |ws| - skip < Abs(limit) then |ws| - skip else Abs(limit)
  {
    if skip < 0 then Err(ServerError)
    else
      var lo := if skip <= |ws| then skip else |ws|;
      var n := Abs(limit);
      var hi := if limit == 0 || lo + n > |ws| then |ws| else lo + n;
      Ok(ws[lo..hi])
  }

  /** A window of a newest-first list is newest first and drawn from it. */
  lemma WindowOfNewestFirst(ws: seq<WallpaperDoc>, skip: int, limit: int)
    requires NewestFirstOrder(ws) && Window(ws, skip, limit).Ok?
    ensures NewestFirstOrder(Window(ws, skip, limit).value)
    ensures forall w :: w in Window(ws, skip, limit).value ==> w in ws
  {
    var page := Window(ws, skip, limit).value;
    if skip <= |ws| {
      assert page <= ws[skip..];
      assert forall k :: 0 <= k < |page| ==> page[k] == ws[skip + k];
    }
  }

  /** The response of a listing: each wallpaper of the window under its category's name. */
  function Listing(page: seq<WallpaperDoc>, categories: seq<CategoryDoc>): (r: seq<WallpaperPublic>)
    ensures |r| == |page|
    ensures forall k :: 0 <= k < |page| ==> r[k] == ToPublic(page[k], CategoryNameOf(categories, page[k].categoryId))
  {
    seq(|page|, k requires 0 <= k < |page| => ToPublic(page[k], CategoryNameOf(categories, page[k].categoryId)))
  }

  /** Listing one more wallpaper of a page appends its public record. */
  lemma ListingExtend(page: seq<WallpaperDoc>, i: nat, categories: seq<CategoryDoc>)
    requires i < |page|
    ensures Listing(page[..i + 1], categories) ==
            Listing(page[..i], categories) + [ToPublic(page[i], CategoryNameOf(categories, page[i].categoryId))]
  {
    assert forall k :: 0 <= k <= i ==> page[..i + 1][k] == page[k];
    assert forall k :: 0 <= k < i ==> page[..i][k] == page[k];
  }

  /** A listing in which every wallpaper is shown under the same category name. */
  function ListingUnder(page: seq<WallpaperDoc>, name: string): (r: seq<WallpaperPublic>)
    ensures |r| == |page|
    ensures forall k :: 0 <= k < |page| ==> r[k] == ToPublic(page[k], name)
  {
    seq(|page|, k requires 0 <= k < |page| => ToPublic(page[k], name))
  }

  lemma ListingUnderExtend(page: seq<WallpaperDoc>, i: nat, name: string)
    requires i < |page|
    ensures ListingUnder(page[..i + 1], name) == ListingUnder(page[..i], name) + [ToPublic(page[i], name)]
  {
    assert forall k :: 0 <= k <= i ==> page[..i + 1][k] == page[k];
    assert forall k :: 0 <= k < i ==> page[..i][k] == page[k];
  }

  /** The first category whose name equals `name` ignoring case (`{"$regex": "^name$", "$options": "i"}`). */
  function CategoryByName(categories: seq<CategoryDoc>, name: string): (r: Option<CategoryDoc>)
    ensures r.Some? ==> r.value in categories && Lower(r.value.name) == Lower(name)
    ensures r.None? <==> forall c :: c in categories ==> Lower(c.name) != Lower(name)
    ensures r.Some? ==>
              (exists i :: 0 <= i < |categories| && categories[i] == r.value &&
                 forall j :: 0 <= j < i ==> Lower(categories[j].name) != Lower(name))
  {
    Find(categories, (c: CategoryDoc) => Lower(c.name) == Lower(name))
  }

  function CategoryNotFound(name: string): string {
    "Category '" + name + "' not found"
  }

  // ---------------------------------------------------------------- upload

  predicate IsAsciiAlnum(c: char) {
    ('0' <= c <= '9') || ('a' <= c <= 'z') || ('A' <= c <= 'Z')
  }

  /** The characters a title keeps in its Drive file name. */
  predicate KeptInFileName(c: char) {
    IsAsciiAlnum(c) || c == ' ' || c == '_'
  }

  /** `s.rstrip()` on a string whose only whitespace is the space. */
  function TrimEndSpaces(s: string): (r: string)
    ensures r <= s
    ensures r == [] || r[|r| - 1] != ' '
    ensures forall k :: |r| <= k < |s| ==> s[k] == ' '
  {
    if s == [] || s[|s| - 1] != ' ' then s else TrimEndSpaces(s[..|s| - 1])
  }

  /** Trimming trailing spaces keeps every other character as often as it occurs. */
  lemma {:induction false} TrimEndSpacesKeepsCounts(s: string)
    ensures forall c :: c != ' ' ==> multiset(TrimEndSpaces(s))[c] == multiset(s)[c]
    decreases |s|
  {
    if s != [] && s[|s| - 1] == ' ' {
      var init := s[..|s| - 1];
      TrimEndSpacesKeepsCounts(init);
      assert s == init + [' '];
      assert multiset(s) == multiset(init) + multiset{' '};
    }
  }

  /**
   * The sanitised title: the kept characters, in order, without trailing
   * spaces. Every letter, digit and `_` of the title survives, as often as
   * it occurs; only trailing spaces of the kept text are dropped.
   */
  function SanitizeTitle(title: string): (r: string)
    ensures forall c :: c in r ==> KeptInFileName(c)
    ensures r == [] || r[|r| - 1] != ' '
    ensures IsSubsequence(r, title)
    ensures forall c :: c in title && KeptInFileName(c) && c != ' ' ==> multiset(r)[c] == multiset(title)[c]
    ensures r <= Filter(title, KeptInFileName)
    ensures forall k :: |r| <= k < |Filter(title, KeptInFileName)| ==> Filter(title, KeptInFileName)[k] == ' '
  {
    var kept := Filter(title, KeptInFileName);
    var r := TrimEndSpaces(kept);
    PrefixOfSubsequence(r, kept, title);
    assert forall c :: c in r ==> c in kept;
    FilterKeepsCounts(title, KeptInFileName);
    TrimEndSpacesKeepsCounts(kept);
    r
  }

  /** Sanitising a sanitised title changes nothing. */
  lemma SanitizeTitleIdempotent(title: string)
    ensures SanitizeTitle(SanitizeTitle(title)) == SanitizeTitle(title)
  {
    var s := SanitizeTitle(title);
    FilterKeepsAll(s, KeptInFileName);
  }

  /** The Drive file name: the sanitised title, `_`, and the upload time in whole seconds. */
  function DriveFileName(title: string, now: nat): (r: string)
    ensures forall c :: c in r ==> KeptInFileName(c)
    ensures SanitizeTitle(title) + "_" <= r
    ensures var stamp := r[|SanitizeTitle(title)| + 1..];
            stamp != [] && AllDigits(stamp) && DecimalValue(stamp) == now
  {
    var prefix := SanitizeTitle(title) + "_";
    var name := prefix + NatToString(now);
    assert forall c :: c in NatToString(now) ==> '0' <= c <= '9';
    assert name[|prefix|..] == NatToString(now);
    DecimalValueOfNatToString(now);
    name
  }

  /** Uploads of one title at different seconds get different file names. */
  lemma DriveFileNamesDiffer(title: string, m: nat, n: nat)
    requires m != n
    ensures DriveFileName(title, m) != DriveFileName(title, n)
  {
  }

  datatype UploadReply = UploadReply(message: string, wallpaperId: string, driveFileId: string)

  // ---------------------------------------------------------------- database

  class Database {
    var users: seq<UserDoc>
    var categories: seq<CategoryDoc>
    var wallpapers: seq<WallpaperDoc>

    /**
     * What the endpoints keep true when each request runs to completion
     * before the next starts: e-mails and category names are unique.
     */
    predicate Valid()
      reads this
    {
      UniqueEmails(users) && UniqueNames(categories)
    }

    constructor ()
      ensures users == [] && categories == [] && wallpapers == []
      ensures Valid()
    {
      users, categories, wallpapers := [], [], [];
    }

    /**
     * `register_user`: 400 when the e-mail is registered, else a new user
     * with role `user` whose stored hash the password verifies against.
     */
    method RegisterUser(email: string, password: string, sha256Hex: string -> string, salt: string, newId: ObjectId)
      returns (r: Result<UserDoc, HttpError>)
      requires IsSha256Hex(sha256Hex)
      modifies this
      ensures categories == old(categories) && wallpapers == old(wallpapers)
      ensures EmailTaken(old(users), email) ==>
                r == Err(HttpError(400, EmailRegistered)) && users == old(users)
      ensures !EmailTaken(old(users), email) ==>
                r == Ok(UserDoc(newId, email, HashPassword(password, sha256Hex, salt), "user")) &&
                users == old(users) + [r.value]
      ensures r.Ok? ==> VerifyPassword(password, r.value.hashedPassword, sha256Hex)
      ensures old(Valid()) ==> Valid()
    {
      if EmailTaken(users, email) {
        return Err(HttpError(400, EmailRegistered));
      }
      var user := UserDoc(newId, email, HashPassword(password, sha256Hex, salt), "user");
      VerifyOwnHash(password, sha256Hex, salt);
      users := users + [user];
      r := Ok(user);
    }

    /** `create_category`: admins only, then 400 for a name already used, else a new category. */
    method CreateCategory(current: UserDoc, name: string, newId: ObjectId) returns (r: Result<CategoryDoc, HttpError>)
      modifies this
      ensures users == old(users) && wallpapers == old(wallpapers)
      ensures current.role != "admin" ==>
                r == Err(HttpError(403, NotEnoughPrivileges)) && categories == old(categories)
      ensures current.role == "admin" && NameTaken(old(categories), name) ==>
                r == Err(HttpError(400, CategoryExists)) && categories == old(categories)
      ensures current.role == "admin" && !NameTaken(old(categories), name) ==>
                r == Ok(CategoryDoc(newId, name)) && categories == old(categories) + [r.value]
      ensures old(Valid()) ==> Valid()
    {
      var admin := RequireAdmin(current);
      if admin.Err? {
        return Err(admin.error);
      }
      if NameTaken(categories, name) {
        return Err(HttpError(400, CategoryExists));
      }
      var category := CategoryDoc(newId, name);
      categories := categories + [category];
      r := Ok(category);
    }

    /**
     * `like_wallpaper`: 400 for a malformed id, 404 for an unknown one;
     * else the user's like is removed when present and added when not,
     * and nothing else in the database changes.
     */
    method LikeWallpaper(user: UserDoc, wallpaperId: string) returns (r: Result<string, HttpError>)
      modifies this
      ensures users == old(users) && categories == old(categories)
      ensures ParseObjectId(wallpaperId).None? ==>
                r == Err(HttpError(400, InvalidId)) && wallpapers == old(wallpapers)
      ensures ParseObjectId(wallpaperId).Some? && WallpaperIndex(old(wallpapers), ParseObjectId(wallpaperId).value).None? ==>
                r == Err(HttpError(404, WallpaperNotFound)) && wallpapers == old(wallpapers)
      ensures ParseObjectId(wallpaperId).Some? && WallpaperIndex(old(wallpapers), ParseObjectId(wallpaperId).value).Some? ==>
                var i := WallpaperIndex(old(wallpapers), ParseObjectId(wallpaperId).value).value;
                var likes := old(wallpapers)[i].likes.GetOr([]);
                r == Ok(LikeMessage(user.id in likes)) &&
                wallpapers == old(wallpapers)[i := old(wallpapers)[i].(likes := Some(ToggleLike(likes, user.id)))]
    {
      var id := ParseObjectId(wallpaperId);
      if id.None? {
        return Err(HttpError(400, InvalidId));
      }
      var index := WallpaperIndex(wallpapers, id.value);
      if index.None? {
        return Err(HttpError(404, WallpaperNotFound));
      }
      var i := index.value;
      var likes := wallpapers[i].likes.GetOr([]);
      var wasLiked := user.id in likes;
      wallpapers := wallpapers[i := wallpapers[i].(likes := Some(ToggleLike(likes, user.id)))];
      r := Ok(LikeMessage(wasLiked));
    }

    /**
     * `increment_download_count`: 400 for a malformed id, 404 when no
     * wallpaper matches; else its counter (0 when missing) goes up by one.
     */
    method IncrementDownloadCount(wallpaperId: string) returns (r: Result<string, HttpError>)
      modifies this
      ensures users == old(users) && categories == old(categories)
      ensures ParseObjectId(wallpaperId).None? ==>
                r == Err(HttpError(400, InvalidWallpaperId)) && wallpapers == old(wallpapers)
      ensures ParseObjectId(wallpaperId).Some? && WallpaperIndex(old(wallpapers), ParseObjectId(wallpaperId).value).None? ==>
                r == Err(HttpError(404, WallpaperNotFound)) && wallpapers == old(wallpapers)
      ensures ParseObjectId(wallpaperId).Some? && WallpaperIndex(old(wallpapers), ParseObjectId(wallpaperId).value).Some? ==>
                var i := WallpaperIndex(old(wallpapers), ParseObjectId(wallpaperId).value).value;
                r == Ok("Download count incremented") &&
                wallpapers == old(wallpapers)[i := old(wallpapers)[i].(downloadCount := Some(old(wallpapers)[i].downloadCount.GetOr(0) + 1))]
    {
      var id := ParseObjectId(wallpaperId);
      if id.None? {
        return Err(HttpError(400, InvalidWallpaperId));
      }
      var index := WallpaperIndex(wallpapers, id.value);
      if index.None? {
        return Err(HttpError(404, WallpaperNotFound));
      }
      var i := index.value;
      wallpapers := wallpapers[i := wallpapers[i].(downloadCount := Some(wallpapers[i].downloadCount.GetOr(0) + 1))];
      r := Ok("Download count incremented");
    }

    /**
     * `get_all_wallpapers`: the newest-first window of all wallpapers, each
     * under the name of its category or `Uncategorized`.
     */
    method GetAllWallpapers(skip: int, limit: int) returns (r: Result<seq<WallpaperPublic>, HttpError>)
      ensures r.Err? <==> skip < 0
      ensures r.Err? ==> r.error == ServerError
      ensures r.Ok? ==> r.value == Listing(Window(NewestFirst(wallpapers), skip, limit).value, categories)
    {
      var window := Window(NewestFirst(wallpapers), skip, limit);
      if window.Err? {
        return Err(window.error);
      }
      var page := window.value;
      var response: seq<WallpaperPublic> := [];
      var i := 0;
      while i < |page|
        invariant 0 <= i <= |page|
        invariant response == Listing(page[..i], categories)
      {
        var w := page[i];
        ListingExtend(page, i, categories);
        response := response + [ToPublic(w, CategoryNameOf(categories, w.categoryId))];
        i := i + 1;
      }
      assert page[..|page|] == page;
      r := Ok(response);
    }

    /**
     * `get_wallpapers_by_category`: 404 when no category name matches
     * ignoring case; else the newest-first window of that category's
     * wallpapers, each under the stored category name.
     */
    method GetWallpapersByCategory(categoryName: string, skip: int, limit: int)
      returns (r: Result<seq<WallpaperPublic>, HttpError>)
      ensures CategoryByName(categories, categoryName).None? ==>
                r == Err(HttpError(404, CategoryNotFound(categoryName)))
      ensures CategoryByName(categories, categoryName).Some? ==>
                var category := CategoryByName(categories, categoryName).value;
                var window := Window(NewestFirst(Filter(wallpapers, (w: WallpaperDoc) => w.categoryId == category.id)), skip, limit);
                (skip < 0 ==> r == Err(ServerError)) &&
                (skip >= 0 ==> (r.Ok? && |r.value| == |window.value| &&
                   forall k :: 0 <= k < |r.value| ==> r.value[k] == ToPublic(window.value[k], category.name)))
    {
      var found := CategoryByName(categories, categoryName);
      if found.None? {
        return Err(HttpError(404, CategoryNotFound(categoryName)));
      }
      var category := found.value;
      var window := Window(NewestFirst(Filter(wallpapers, (w: WallpaperDoc) => w.categoryId == category.id)), skip, limit);
      if window.Err? {
        return Err(window.error);
      }
      var page := window.value;
      var response: seq<WallpaperPublic> := [];
      var i := 0;
      while i < |page|
        invariant 0 <= i <= |page|
        invariant response == ListingUnder(page[..i], category.name)
      {
        ListingUnderExtend(page, i, category.name);
        response := response + [ToPublic(page[i], category.name)];
        i := i + 1;
      }
      assert page[..|page|] == page;
      r := Ok(response);
    }

    /**
     * `upload_wallpaper_to_drive`: admins only; 400 for a malformed category
     * id, 404 for an unknown one, 500 when the Drive upload fails; else a
     * new wallpaper with no likes and no downloads, dated `now`.
     */
    method UploadWallpaper(current: UserDoc, title: string, description: string, categoryId: string,
                           driveUpload: string -> Result<string, string>, now: nat, newId: ObjectId)
      returns (r: Result<UploadReply, HttpError>)
      modifies this
      ensures users == old(users) && categories == old(categories)
      ensures r.Err? ==> wallpapers == old(wallpapers)
      ensures current.role != "admin" ==> r == Err(HttpError(403, NotEnoughPrivileges))
      ensures current.role == "admin" && ParseObjectId(categoryId).None? ==>
                r == Err(HttpError(400, InvalidCategoryId))
      ensures current.role == "admin" && ParseObjectId(categoryId).Some? &&
              (forall c :: c in categories ==> c.id != ParseObjectId(categoryId).value) ==>
                r == Err(HttpError(404, CategoryIdNotFound))
      ensures current.role == "admin" && ParseObjectId(categoryId).Some? &&
              (exists c :: c in categories && c.id == ParseObjectId(categoryId).value) ==>
                match driveUpload(DriveFileName(title, now))
                case Err(e) => r == Err(HttpError(500, DriveFailurePrefix + e))
                case Ok(fileId) =>
                  r == Ok(UploadReply("Wallpaper uploaded", newId.hex, fileId)) &&
                  wallpapers == old(wallpapers) +
                    [WallpaperDoc(newId, title, Some(description), ParseObjectId(categoryId).value, fileId, Some([]), Some(0), now)]
    {
      var admin := RequireAdmin(current);
      if admin.Err? {
        return Err(admin.error);
      }
      var id := ParseObjectId(categoryId);
      if id.None? {
        return Err(HttpError(400, InvalidCategoryId));
      }
      var category := Find(categories, (c: CategoryDoc) => c.id == id.value);
      if category.None? {
        return Err(HttpError(404, CategoryIdNotFound));
      }
      var uploaded := driveUpload(DriveFileName(title, now));
      if uploaded.Err? {
        return Err(HttpError(500, DriveFailurePrefix + uploaded.error));
      }
      wallpapers := wallpapers +
        [WallpaperDoc(newId, title, Some(description), id.value, uploaded.value, Some([]), Some(0), now)];
      r := Ok(UploadReply("Wallpaper uploaded", newId.hex, uploaded.value));
    }
  }

  /**
   * Every wallpaper `get_all_wallpapers` returns is a stored one, the list
   * is newest first, and a positive limit bounds its length.
   */
  lemma AllWallpapersListing(wallpapers: seq<WallpaperDoc>, skip: int, limit: int)
    requires skip >= 0
    ensures var page := Window(NewestFirst(wallpapers), skip, limit).value;
            NewestFirstOrder(page) && (forall w :: w in page ==> w in wallpapers) &&
            (limit > 0 ==> |page| <= limit)
  {
    var sorted := NewestFirst(wallpapers);
    WindowOfNewestFirst(sorted, skip, limit);
    assert forall w :: w in sorted ==> w in multiset(wallpapers);
  }
}
