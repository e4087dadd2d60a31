/** The request handlers of backend/server.py as atomic steps on an abstract
    database: `users`, a map from ObjectId to user document, and `files`, the
    file collection in its natural order. The authentication dependency, the
    password hash and check, token issuing, id generation and the disk are
    not modelled; what they produce is passed in. */
module Server {
  import opened Wrappers
  import opened Models
  import opened Paths
  import opened Strings

  /** The HTTP errors the handlers answer with (RFC 9110, section 15.5 and 15.6). */
  datatype HttpError =
    | BadRequest(detail: string)       // 400, section 15.5.1
    | Unauthorized(detail: string)     // 401, section 15.5.2
    | NotFound(detail: string)         // 404, section 15.5.5
    | PayloadTooLarge(detail: string)  // 413, section 15.5.14
    | Unprocessable                    // 422, section 15.5.21: the body failed validation
    | InternalError(detail: string)    // 500, section 15.6.1

  function StatusCode(e: HttpError): (code: int)
    ensures 400 <= code < 600
    ensures code < 500 <==> !e.InternalError?
  {
    match e
    case BadRequest(_) => 400
    case Unauthorized(_) => 401
    case NotFound(_) => 404
    case PayloadTooLarge(_) => 413
    case Unprocessable => 422
    case InternalError(_) => 500
  }

  /** What the server answers for an exception no handler catches. */
  const UnhandledDetail: string := "Internal Server Error"

  // ---------------------------------------------------------------------
  // Route table of the `/api` router, in declaration order

  const ApiPrefix: seq<Seg> := [Lit("api")]

  const RegisterRoute: Route := Route(POST, ApiPrefix + [Lit("auth"), Lit("register")])
  const LoginRoute: Route := Route(POST, ApiPrefix + [Lit("auth"), Lit("login")])
  const MeRoute: Route := Route(GET, ApiPrefix + [Lit("auth"), Lit("me")])
  const UploadRoute: Route := Route(POST, ApiPrefix + [Lit("files"), Lit("upload")])
  const FilesRoute: Route := Route(GET, ApiPrefix + [Lit("files")])
  const DeleteRoute: Route := Route(DELETE, ApiPrefix + [Lit("files"), Param("file_id")])
  const DownloadRoute: Route := Route(GET, ApiPrefix + [Lit("files"), Param("file_id"), Lit("download")])
  const StatsRoute: Route := Route(GET, ApiPrefix + [Lit("dashboard"), Lit("stats")])
  const RootRoute: Route := Route(GET, ApiPrefix + [Lit("")])

  const Routes: seq<Route> :=
    [RegisterRoute, LoginRoute, MeRoute, UploadRoute, FilesRoute, DeleteRoute,
     DownloadRoute, StatsRoute, RootRoute]

  /** The name of the multipart field `upload_file` reads the file from. */
  const UploadParameter: string := "file"

  /** The page size `get_user_files` reads with. */
  const ListLimit: nat := 1000

  // ---------------------------------------------------------------------
  // Replies and inputs

  datatype RegisterReply = RegisterReply(message: string, userId: string)
  datatype LoginReply = LoginReply(accessToken: string, tokenType: string, user: UserResponse)
  datatype UploadedFile = UploadedFile(filename: string, size: nat, contentType: string)
  datatype UploadReply = UploadReply(message: string, fileId: string, filename: string)
  datatype DownloadReply = DownloadReply(path: string, filename: string, mediaType: string)

  /** What removing the stored copy from disk did. */
  datatype RemoveOutcome = Removed | AlreadyGone | RemoveFailed

  // ---------------------------------------------------------------------
  // Functions over the file collection

  /** The bytes one file counts towards `owner`'s usage. */
  function Share(f: FileUpload, owner: ObjectId): int
  {
    if f.userId == owner then f.size else 0
  }

  /** Total size of `owner`'s file records. */
  function UsedBy(files: seq<FileUpload>, owner: ObjectId): int
  {
    if files == [] then 0 else Share(files[0], owner) + UsedBy(files[1..], owner)
  }

  /** `owner`'s file records, in collection order. */
  function Owned(files: seq<FileUpload>, owner: ObjectId): (r: seq<FileUpload>)
    ensures |r| <= |files|
    ensures forall f :: f in r <==> f in files && f.userId == owner
  {
    if files == [] then []
    else (if files[0].userId == owner then [files[0]] else []) + Owned(files[1..], owner)
  }

  /** The first record with id `id` owned by `owner`: the document
      `find_one({"_id": id, "user_id": owner})` returns. */
  function FindOwned(files: seq<FileUpload>, id: ObjectId, owner: ObjectId): (r: Option<nat>)
    ensures r.Some? ==> r.value < |files| && files[r.value].id == id && files[r.value].userId == owner
    ensures r.None? <==> forall i :: 0 <= i < |files| ==> !(files[i].id == id && files[i].userId == owner)
  {
    if files == [] then None
    else if files[0].id == id && files[0].userId == owner then Some(0)
    else match FindOwned(files[1..], id, owner)
      case None => None
      case Some(i) => Some(i + 1)
  }

  lemma {:induction false} UsedByAppend(a: seq<FileUpload>, b: seq<FileUpload>, owner: ObjectId)
    ensures UsedBy(a + b, owner) == UsedBy(a, owner) + UsedBy(b, owner)
  {
    if a == [] {
      assert a + b == b;
    } else {
      assert (a + b)[1..] == a[1..] + b;
      UsedByAppend(a[1..], b, owner);
    }
  }

  /** Removing one record lowers its owner's total by its size and leaves every other total alone. */
  lemma UsedByRemove(files: seq<FileUpload>, i: nat, owner: ObjectId)
    requires i < |files|
    ensures UsedBy(files[..i] + files[i + 1..], owner) == UsedBy(files, owner) - Share(files[i], owner)
  {
    assert files == files[..i] + ([files[i]] + files[i + 1..]);
    UsedByAppend(files[..i], [files[i]] + files[i + 1..], owner);
    UsedByAppend([files[i]], files[i + 1..], owner);
    UsedByAppend(files[..i], files[i + 1..], owner);
    assert UsedBy([files[i]], owner) == Share(files[i], owner) by {
      assert [files[i]][1..] == [];
    }
  }

  lemma {:induction false} UsedByNone(files: seq<FileUpload>, owner: ObjectId)
    requires forall i :: 0 <= i < |files| ==> files[i].userId != owner
    ensures UsedBy(files, owner) == 0
  {
    if files != [] {
      UsedByNone(files[1..], owner);
    }
  }

  lemma {:induction false} UsedByNonNegative(files: seq<FileUpload>, owner: ObjectId)
    requires forall i :: 0 <= i < |files| ==> files[i].size >= 0
    ensures UsedBy(files, owner) >= 0
  {
    if files != [] {
      UsedByNonNegative(files[1..], owner);
    }
  }

  // ---------------------------------------------------------------------
  // Stored file names

  /** Position of the last occurrence of `c` in `s`, if any (Python's `rfind`). */
  function LastIndexOf(s: string, c: char): (r: Option<nat>)
    ensures r.Some? ==> r.value < |s| && s[r.value] == c && c !in s[r.value + 1..]
    ensures r.None? <==> c !in s
  {
    if s == [] then None
    else if s[|s| - 1] == c then Some(|s| - 1)
    else
      assert s == s[..|s| - 1] + [s[|s| - 1]];
      match LastIndexOf(s[..|s| - 1], c)
      case None => None
      case Some(k) =>
        assert s[k + 1..] == s[k + 1..|s| - 1] + [s[|s| - 1]];
        Some(k)
  }

  /** The text after the last '/' of `p`, or all of `p` when it has none. */
  function LastPart(p: string): (r: string)
    ensures '/' !in r && |r| <= |p| && p[|p| - |r|..] == r
    ensures r != p ==> p[|p| - |r| - 1] == '/'
  {
    match LastIndexOf(p, '/')
    case None => p
    case Some(k) => p[k + 1..]
  }

  /** `Path(p).name`: the final part of `p` once trailing '/' and "." parts
      are dropped, as `pathlib` normalises a path; "" when no part is left. */
  function PathName(p: string): (r: string)
    ensures '/' !in r && r != "."
    decreases |p|
  {
    if p != [] && p[|p| - 1] == '/' then PathName(p[..|p| - 1])
    else if LastPart(p) == "." then PathName(p[..|p| - 1])
    else LastPart(p)
  }

  /** A part `pathlib` keeps: empty parts and "." are dropped. */
  function Kept(part: string): seq<string>
  {
    if part == "" || part == "." then [] else [part]
  }

  /** The parts of `p` that `pathlib` keeps, in order: the pieces between
      slashes without the empty ones and the "." ones. */
  function Parts(p: string): (r: seq<string>)
    decreases |p|
  {
    match LastIndexOf(p, '/')
    case None => Kept(p)
    case Some(k) => Parts(p[..k]) + Kept(p[k + 1..])
  }

  /** The last of a list of parts, or "" when there is none. */
  function Final(parts: seq<string>): string
  {
    if parts == [] then "" else parts[|parts| - 1]
  }

  /** The final part is the last part `pathlib` keeps, or "" when it keeps none. */
  lemma {:induction false} PathNameIsLastPart(p: string)
    ensures PathName(p) == Final(Parts(p))
    decreases |p|
  {
    if p != [] && p[|p| - 1] == '/' {
      TrailingSlash(p);
      PathNameIsLastPart(p[..|p| - 1]);
    } else if LastPart(p) == "." && '/' in p {
      var k := TrailingDot(p);
      PathNameIsLastPart(p[..k]);
    } else {
      NoTrailingPart(p);
    }
  }

  /** Without a trailing '/' or "/." the final part is the text after the
      last slash, and it is the last kept part unless it is empty or ".". */
  lemma NoTrailingPart(p: string)
    requires !(p != [] && p[|p| - 1] == '/') && !(LastPart(p) == "." && '/' in p)
    ensures PathName(p) == Final(Parts(p))
  {
    if '/' in p {
      AfterLastSlash(p);
    } else {
      WithoutSlash(p);
    }
  }

  lemma WithoutSlash(p: string)
    requires '/' !in p
    ensures PathName(p) == Final(Parts(p))
  {
    assert LastIndexOf(p, '/') == None;
    assert LastPart(p) == p && Parts(p) == Kept(p);
    if p == "." {
      assert p[..|p| - 1] == "";
      assert PathName("") == "";
    } else if p != "" {
      assert Kept(p) == [p];
    }
  }

  lemma AfterLastSlash(p: string)
    requires '/' in p && p[|p| - 1] != '/' && LastPart(p) != "."
    ensures PathName(p) == Final(Parts(p))
  {
    var k := LastIndexOf(p, '/').value;
    var x := p[k + 1..];
    assert LastPart(p) == x && k < |p| - 1;
    assert Kept(x) == [x];
    assert Parts(p) == Parts(p[..k]) + [x];
  }

  /** A trailing '/' adds no part and does not change the final part. */
  lemma TrailingSlash(p: string)
    requires p != [] && p[|p| - 1] == '/'
    ensures Parts(p) == Parts(p[..|p| - 1])
    ensures PathName(p) == PathName(p[..|p| - 1])
  {
    assert LastIndexOf(p, '/') == Some(|p| - 1);
    assert p[|p|..] == "";
  }

  /** A trailing "/." adds no part and does not change the final part. */
  lemma TrailingDot(p: string) returns (k: nat)
    requires '/' in p && LastPart(p) == "."
    ensures k < |p| && Parts(p) == Parts(p[..k]) && PathName(p) == PathName(p[..k])
  {
    k := LastIndexOf(p, '/').value;
    assert k == |p| - 2;
    var q := p[..|p| - 1];
    assert q[|q| - 1] == '/' && q[..|q| - 1] == p[..k];
    TrailingSlash(q);
  }

  /** A name without '/' that is not "." is its own final part. */
  lemma PathNameOfPlainName(n: string)
    requires '/' !in n && n != "."
    ensures PathName(n) == n
  {
    if n != [] {
      assert n[|n| - 1] in n;
    }
  }

  /** `Path(filename).suffix`: from the last '.' of the final part on, when
      that dot is neither the first nor the last character; otherwise empty. */
  function Suffix(filename: string): (r: string)
  {
    var name := PathName(filename);
    match LastIndexOf(name, '.')
    case Some(i) => if 0 < i < |name| - 1 then name[i..] else ""
    case None => ""
  }

  /** The last dot of `name` sits at `i`. */
  predicate LastDotAt(name: string, i: int)
  {
    0 <= i < |name| && name[i] == '.' && '.' !in name[i + 1..]
  }

  /** The last dot of `name` is neither its first nor its last character. */
  predicate InnerLastDot(name: string)
  {
    exists i :: LastDotAt(name, i) && 0 < i < |name| - 1
  }

  /** A name has at most one last dot. */
  lemma LastDotUnique(n: string, j: int)
    requires LastDotAt(n, j)
    ensures forall i :: LastDotAt(n, i) ==> i == j
  {
    forall i | LastDotAt(n, i)
      ensures i == j
    {
    }
  }

  /** The suffix is not empty exactly when the last dot of the final part is
      neither its first nor its last character, and it is then the final part
      from that dot on; in every case it is empty or a dot, at least one more
      character and no other dot or slash, taken from the end of the final part. */
  lemma SuffixMeaning(filename: string)
    ensures Suffix(filename) != "" <==> InnerLastDot(PathName(filename))
    ensures var n, r := PathName(filename), Suffix(filename);
            forall i :: LastDotAt(n, i) && 0 < i < |n| - 1 ==> r == n[i..]
    ensures var n, r := PathName(filename), Suffix(filename);
            r == "" || (|r| >= 2 && r[0] == '.' && '.' !in r[1..] && '/' !in r && n[|n| - |r|..] == r)
  {
    var n, r := PathName(filename), Suffix(filename);
    match LastIndexOf(n, '.')
    case None =>
      assert forall i :: !LastDotAt(n, i) by {
        forall i | 0 <= i < |n| ensures n[i] != '.' { assert n[i] in n; }
      }
    case Some(j) =>
      assert r == if 0 < j < |n| - 1 then n[j..] else "";
      LastDotUnique(n, j);
      if r != "" {
        assert LastDotAt(n, j) && 0 < j < |n| - 1;
        assert r == n[j..] && |r| >= 2 && r[0] == '.';
        assert r[1..] == n[j + 1..];
        assert n[|n| - |r|..] == r;
        assert '/' !in r by {
          forall k | 0 <= k < |r| ensures r[k] != '/' { assert r[k] == n[j + k]; assert n[j + k] in n; }
        }
        assert InnerLastDot(n);
      } else {
        assert !(0 < j < |n| - 1);
      }
  }

  /** A trailing '/' or "/." changes neither the final part nor the suffix. */
  lemma SuffixIgnoresTrailing(p: string)
    ensures PathName(p + "/") == PathName(p) && Suffix(p + "/") == Suffix(p)
    ensures PathName(p + "/.") == PathName(p) && Suffix(p + "/.") == Suffix(p)
  {
    AppendSlash(p);
    AppendSlashDot(p);
    SameNameSameSuffix(p + "/", p);
    SameNameSameSuffix(p + "/.", p);
  }

  lemma AppendSlash(p: string)
    ensures PathName(p + "/") == PathName(p)
  {
    var q := p + "/";
    assert q[|q| - 1] == '/' && q[..|q| - 1] == p;
  }

  lemma AppendSlashDot(p: string)
    ensures PathName(p + "/.") == PathName(p)
  {
    var d := p + "/.";
    assert d[|p|] == '/' && d[|p| + 1] == '.';
    assert LastIndexOf(d, '/') == Some(|p|);
    assert LastPart(d) == ".";
    assert d[..|d| - 1] == p + "/";
    AppendSlash(p);
  }

  lemma SameNameSameSuffix(a: string, b: string)
    requires PathName(a) == PathName(b)
    ensures Suffix(a) == Suffix(b)
  {
  }

  /** A plain name "stem.ext" has the suffix ".ext", with or without a
      trailing '/' or "/." (so "report.pdf/" keeps ".pdf"). */
  lemma SuffixOfExtension(stem: string, ext: string)
    requires stem != "" && ext != "" && '/' !in stem && '/' !in ext && '.' !in ext
    ensures var n := stem + "." + ext;
            Suffix(n) == "." + ext && Suffix(n + "/") == "." + ext && Suffix(n + "/.") == "." + ext
  {
    var n := stem + "." + ext;
    ExtensionName(stem, ext);
    PathNameOfPlainName(n);
    SuffixMeaning(n);
    SuffixIgnoresTrailing(n);
  }

  lemma ExtensionName(stem: string, ext: string)
    requires stem != "" && ext != "" && '/' !in stem && '/' !in ext && '.' !in ext
    ensures var n := stem + "." + ext;
            && '/' !in n && n != "." && n[|stem|..] == "." + ext
            && LastDotAt(n, |stem|) && 0 < |stem| < |n| - 1
  {
    var n := stem + "." + ext;
    assert '/' !in n by {
      forall k | 0 <= k < |n| ensures n[k] != '/' {
        if k < |stem| { assert n[k] == stem[k]; }
        else if k > |stem| { assert n[k] == ext[k - |stem| - 1]; }
      }
    }
    assert n[|stem| + 1..] == ext && n[|stem|..] == "." + ext;
  }

  /** `f"{uuid}{suffix}"`: the name the upload is stored under. */
  function StoredName(uuid: string, originalName: string): (r: string)
    ensures |r| >= |uuid| && r[..|uuid|] == uuid && r[|uuid|..] == Suffix(originalName)
  {
    uuid + Suffix(originalName)
  }

  /** The stored name keeps the original's suffix, for a uuid text with no
      dot and no slash (uuid4 prints hexadecimal digits and hyphens). */
  lemma StoredNameKeepsSuffix(uuid: string, originalName: string)
    requires uuid != "" && '.' !in uuid && '/' !in uuid
    ensures Suffix(StoredName(uuid, originalName)) == Suffix(originalName)
  {
    var s := Suffix(originalName);
    var name := StoredName(uuid, originalName);
    SuffixMeaning(originalName);
    assert name == uuid + s;
    assert '/' !in name by {
      forall i | 0 <= i < |name| ensures name[i] != '/' {
        if i < |uuid| { assert name[i] in uuid; } else { assert name[i] == s[i - |uuid|]; assert s[i - |uuid|] in s; }
      }
    }
    assert name[0] == uuid[0] && uuid[0] in uuid;
    PathNameOfPlainName(name);
    SuffixMeaning(name);
    if s == "" {
      assert name == uuid;
    } else {
      var i := |uuid|;
      assert name[i] == '.';
      assert name[i + 1..] == s[1..];
      assert LastDotAt(name, i);
    }
  }

  // ---------------------------------------------------------------------
  // The database and its invariant

  /** The two collections the handlers read and write. */
  datatype Db = Db(users: map<ObjectId, User>, files: seq<FileUpload>)

  /** Every user is stored under its own id. */
  ghost predicate UsersKeyed(users: map<ObjectId, User>)
  {
    forall id :: id in users ==> users[id].id == id
  }

  /** No two users share an e-mail address. */
  ghost predicate EmailsDistinct(users: map<ObjectId, User>)
  {
    forall a, b :: a in users && b in users && users[a].email == users[b].email ==> a == b
  }

  /** Every file record has an existing owner and a non-negative size. */
  ghost predicate FilesOwned(users: map<ObjectId, User>, files: seq<FileUpload>)
  {
    forall i :: 0 <= i < |files| ==> files[i].userId in users && files[i].size >= 0
  }

  /** No two file records share an id. */
  ghost predicate IdsDistinct(files: seq<FileUpload>)
  {
    forall i, j :: 0 <= i < j < |files| ==> files[i].id != files[j].id
  }

  /** Every user's `storage_used` is the sum of the sizes of its file records
      and does not exceed its `storage_limit`. */
  ghost predicate UsageAgrees(users: map<ObjectId, User>, files: seq<FileUpload>)
  {
    forall id {:trigger users[id]} :: id in users ==>
      users[id].storageUsed == UsedBy(files, id) && users[id].storageUsed <= users[id].storageLimit
  }

  /** The invariant the handlers keep. */
  ghost predicate Consistent(db: Db)
  {
    && UsersKeyed(db.users) && EmailsDistinct(db.users)
    && FilesOwned(db.users, db.files) && IdsDistinct(db.files)
    && UsageAgrees(db.users, db.files)
  }

  /** An id no file record carries yet. */
  ghost predicate FreshFileId(db: Db, id: ObjectId)
  {
    forall i :: 0 <= i < |db.files| ==> db.files[i].id != id
  }

  /** Whether some stored user has this e-mail address. */
  predicate EmailTaken(users: map<ObjectId, User>, email: string)
  {
    exists id :: id in users && users[id].email == email
  }

  /** `db.users[uid]` with `delta` added to its `storage_used` (the `$inc` update). */
  function AddUsage(users: map<ObjectId, User>, uid: ObjectId, delta: int): (r: map<ObjectId, User>)
    requires uid in users
    ensures r.Keys == users.Keys
    ensures r[uid].storageUsed == users[uid].storageUsed + delta
    ensures r[uid] == users[uid].(storageUsed := r[uid].storageUsed)
    ensures forall id :: id in users && id != uid ==> r[id] == users[id]
  {
    users[uid := users[uid].(storageUsed := users[uid].storageUsed + delta)]
  }

  /** The database with record `f` appended and its size added to its owner's usage. */
  function Insert(db: Db, f: FileUpload): Db
    requires f.userId in db.users
  {
    Db(AddUsage(db.users, f.userId, f.size), db.files + [f])
  }

  /** The database without record `i`, its size taken off its owner's usage. */
  function Remove(db: Db, i: nat): Db
    requires i < |db.files| && db.files[i].userId in db.users
  {
    Db(AddUsage(db.users, db.files[i].userId, -db.files[i].size), db.files[..i] + db.files[i + 1..])
  }

  // ---------------------------------------------------------------------
  // What the state-changing handlers do, as transitions of the database

  /** POST /api/auth/register. */
  function RegisterStep(db: Db, body: UserRegister, checkEmail: EmailCheck, hash: string -> string,
                        newId: ObjectId): (out: (Db, Result<RegisterReply, HttpError>))
  {
    if !ValidUserRegister(body, checkEmail) then (db, Failure(Unprocessable))
    else
      var email := checkEmail(body.email).value;
      if EmailTaken(db.users, email) then (db, Failure(BadRequest("Email already registered")))
      else
        (db.(users := db.users[newId := NewUser(newId, body.name, email, hash(body.password))]),
         Success(RegisterReply("User registered successfully", newId.hex)))
  }

  /** The record an accepted upload inserts. */
  function UploadRecord(uploadDir: string, uid: ObjectId, file: UploadedFile, uuid: string,
                        newId: ObjectId): FileUpload
  {
    var name := StoredName(uuid, file.filename);
    NewFileUpload(newId, uid, name, file.filename, file.size, file.contentType, uploadDir + "/" + name)
  }

  /** POST /api/files/upload. */
  function UploadStep(db: Db, uploadDir: string, uid: ObjectId, file: UploadedFile, uuid: string,
                      newId: ObjectId, writeError: Option<string>): (out: (Db, Result<UploadReply, HttpError>))
    requires uid in db.users
  {
    var user := db.users[uid];
    if user.storageUsed + file.size > user.storageLimit then
      (db, Failure(PayloadTooLarge("Storage limit exceeded")))
    else if writeError.Some? then
      (db, Failure(InternalError("Could not upload file: " + writeError.value)))
    else
      (Insert(db, UploadRecord(uploadDir, uid, file, uuid, newId)),
       Success(UploadReply("File uploaded successfully", newId.hex, file.filename)))
  }

  /** DELETE /api/files/{file_id}. */
  function DeleteStep(db: Db, uid: ObjectId, fileId: string, isValid: string -> bool,
                      removal: RemoveOutcome): (out: (Db, Result<string, HttpError>))
    requires uid in db.users
  {
    match ValidateObjectId(fileId, isValid)
    case Failure(_) => (db, Failure(InternalError(UnhandledDetail)))
    case Success(oid) =>
      match FindOwned(db.files, oid, uid)
      case None => (db, Failure(NotFound("File not found")))
      case Some(i) =>
        if removal == RemoveFailed then (db, Failure(InternalError(UnhandledDetail)))
        else
          (Remove(db, i),
           Success("File deleted successfully"))
  }

  // ---------------------------------------------------------------------
  // Properties of the transitions

  /** Registration fails with 422 on an invalid body and 400 when the
      address, in its normal form, is taken, changing nothing; otherwise it
      succeeds and adds exactly one user, under the normal form of the
      address, with no usage and the default limit. */
  lemma RegisterOutcome(db: Db, body: UserRegister, checkEmail: EmailCheck, hash: string -> string,
                        newId: ObjectId)
    requires newId !in db.users
    ensures var (db', r) := RegisterStep(db, body, checkEmail, hash, newId);
            && (r.Failure? ==> db' == db)
            && (r == Failure(Unprocessable) <==> !ValidUserRegister(body, checkEmail))
            && (r == Failure(BadRequest("Email already registered")) <==>
                  ValidUserRegister(body, checkEmail) && EmailTaken(db.users, checkEmail(body.email).value))
            && (r.Success? <==>
                  ValidUserRegister(body, checkEmail) && !EmailTaken(db.users, checkEmail(body.email).value))
            && (r.Success? ==>
                  && db'.files == db.files && db'.users.Keys == db.users.Keys + {newId}
                  && db'.users[newId].storageUsed == 0 && db'.users[newId].storageLimit == DefaultStorageLimit
                  && db'.users[newId].email == checkEmail(body.email).value
                  && forall id :: id in db.users ==> db'.users[id] == db.users[id])
  {
  }

  /** Two texts with the same normal form are the same address: once one is
      registered, registering the other answers 400 and changes nothing. */
  lemma RegisterSameAddress(db: Db, first: UserRegister, second: UserRegister, checkEmail: EmailCheck,
                            hash: string -> string, newId: ObjectId, laterId: ObjectId)
    requires newId !in db.users
    requires RegisterStep(db, first, checkEmail, hash, newId).1.Success?
    requires ValidUserRegister(second, checkEmail) && checkEmail(second.email) == checkEmail(first.email)
    ensures var db' := RegisterStep(db, first, checkEmail, hash, newId).0;
            RegisterStep(db', second, checkEmail, hash, laterId) == (db', Failure(BadRequest("Email already registered")))
  {
    var db' := RegisterStep(db, first, checkEmail, hash, newId).0;
    assert db'.users[newId].email == checkEmail(second.email).value;
  }

  lemma RegisterKeepsConsistent(db: Db, body: UserRegister, checkEmail: EmailCheck, hash: string -> string,
                                newId: ObjectId)
    requires Consistent(db) && newId !in db.users
    ensures Consistent(RegisterStep(db, body, checkEmail, hash, newId).0)
  {
    UsedByNone(db.files, newId);
  }

  /** Upload is refused with 413 exactly when it would take the caller past the
      limit (filling the quota exactly is allowed); a failed disk write gives
      500; a refused upload changes nothing; an accepted one appends one record
      owned by the caller, not shared and without a share link, and adds its
      size to the caller's usage only. */
  lemma UploadOutcome(db: Db, uploadDir: string, uid: ObjectId, file: UploadedFile, uuid: string,
                      newId: ObjectId, writeError: Option<string>)
    requires uid in db.users
    ensures var (db', r) := UploadStep(db, uploadDir, uid, file, uuid, newId, writeError);
            var fits := db.users[uid].storageUsed + file.size <= db.users[uid].storageLimit;
            && (r.Failure? ==> db' == db)
            && (r == Failure(PayloadTooLarge("Storage limit exceeded")) <==> !fits)
            && (r.Success? <==> fits && writeError.None?)
            && (r.Success? ==>
                  && |db'.files| == |db.files| + 1 && db'.files[..|db.files|] == db.files
                  && var f := db'.files[|db.files|];
                     && f.id == newId && f.userId == uid && f.size == file.size
                     && f.originalName == file.filename && !f.isShared && f.shareLink == None
                     && f.filename == StoredName(uuid, file.filename)
                     && db'.users[uid].storageUsed == db.users[uid].storageUsed + file.size
                     && db'.users.Keys == db.users.Keys
                     && forall id :: id in db.users && id != uid ==> db'.users[id] == db.users[id])
  {
    var (db', r) := UploadStep(db, uploadDir, uid, file, uuid, newId, writeError);
    if r.Success? {
      assert db'.files[..|db.files|] == db.files;
    }
  }

  lemma UploadKeepsConsistent(db: Db, uploadDir: string, uid: ObjectId, file: UploadedFile, uuid: string,
                              newId: ObjectId, writeError: Option<string>)
    requires Consistent(db) && uid in db.users && FreshFileId(db, newId)
    ensures Consistent(UploadStep(db, uploadDir, uid, file, uuid, newId, writeError).0)
  {
    var (db', r) := UploadStep(db, uploadDir, uid, file, uuid, newId, writeError);
    if r.Success? {
      AppendKeepsConsistent(db, UploadRecord(uploadDir, uid, file, uuid, newId));
    }
  }

  /** Appending a record with a fresh id for an existing owner, with its size
      added to the owner's usage and within the owner's limit, keeps the
      database consistent. */
  lemma AppendKeepsConsistent(db: Db, f: FileUpload)
    requires Consistent(db) && f.userId in db.users && f.size >= 0 && FreshFileId(db, f.id)
    requires db.users[f.userId].storageUsed + f.size <= db.users[f.userId].storageLimit
    ensures Consistent(Insert(db, f))
  {
    AddUsageKeepsUsers(db.users, f.userId, f.size);
    AppendKeepsOwners(db.users, db.files, f);
    AppendKeepsIds(db.files, f);
    AppendKeepsUsage(db.users, db.files, f);
  }

  lemma AddUsageKeepsUsers(users: map<ObjectId, User>, uid: ObjectId, delta: int)
    requires uid in users && UsersKeyed(users) && EmailsDistinct(users)
    ensures UsersKeyed(AddUsage(users, uid, delta)) && EmailsDistinct(AddUsage(users, uid, delta))
  {
    var users' := AddUsage(users, uid, delta);
    assert forall id :: id in users' ==> users'[id].email == users[id].email && users'[id].id == users[id].id;
  }

  lemma AppendKeepsOwners(users: map<ObjectId, User>, files: seq<FileUpload>, f: FileUpload)
    requires FilesOwned(users, files) && f.userId in users && f.size >= 0
    ensures FilesOwned(AddUsage(users, f.userId, f.size), files + [f])
  {
  }

  lemma AppendKeepsIds(files: seq<FileUpload>, f: FileUpload)
    requires IdsDistinct(files) && forall i :: 0 <= i < |files| ==> files[i].id != f.id
    ensures IdsDistinct(files + [f])
  {
  }

  lemma AppendKeepsUsage(users: map<ObjectId, User>, files: seq<FileUpload>, f: FileUpload)
    requires UsageAgrees(users, files) && f.userId in users
    requires users[f.userId].storageUsed + f.size <= users[f.userId].storageLimit
    ensures UsageAgrees(AddUsage(users, f.userId, f.size), files + [f])
  {
    var users' := AddUsage(users, f.userId, f.size);
    forall id | id in users'
      ensures users'[id].storageUsed == UsedBy(files + [f], id)
    {
      UsedByAppend(files, [f], id);
      assert UsedBy([f], id) == Share(f, id) by { assert [f][1..] == []; }
    }
  }

  /** The caller owns a record whose id the text `fileId` names. */
  predicate OwnsId(db: Db, uid: ObjectId, fileId: string)
  {
    exists i :: 0 <= i < |db.files| && db.files[i].id == ObjectIdOf(fileId) && db.files[i].userId == uid
  }

  /** Delete answers 404 (and changes nothing) exactly when the caller owns no
      record with the id `fileId` names; an owned record is deleted exactly
      when the disk removal did not raise, and then that record goes and its
      size comes off the caller's usage only. */
  lemma DeleteOutcome(db: Db, uid: ObjectId, fileId: string, isValid: string -> bool, removal: RemoveOutcome)
    requires uid in db.users
    ensures var (db', r) := DeleteStep(db, uid, fileId, isValid, removal);
            && (r.Failure? ==> db' == db)
            && (!isValid(fileId) ==> r == Failure(InternalError(UnhandledDetail)))
            && (isValid(fileId) ==> (r == Failure(NotFound("File not found")) <==> !OwnsId(db, uid, fileId)))
            && (isValid(fileId) && OwnsId(db, uid, fileId) ==>
                  (r.Success? <==> removal != RemoveFailed)
                  && (!r.Success? ==> r == Failure(InternalError(UnhandledDetail))))
            && (r.Success? ==>
                  exists i :: 0 <= i < |db.files| && db.files[i].id == ObjectIdOf(fileId) && db.files[i].userId == uid
                    && db'.files == db.files[..i] + db.files[i + 1..]
                    && db'.users[uid].storageUsed == db.users[uid].storageUsed - db.files[i].size
                    && db'.users.Keys == db.users.Keys
                    && forall id :: id in db.users && id != uid ==> db'.users[id] == db.users[id])
  {
    var (db', r) := DeleteStep(db, uid, fileId, isValid, removal);
    if isValid(fileId) {
      var found := FindOwned(db.files, ObjectIdOf(fileId), uid);
      if found.Some? {
        assert db.files[found.value].id == ObjectIdOf(fileId);
      }
    }
  }

  /** Delete reads the id's hexadecimal digits in either case: two texts that
      differ only in the case of their letters, and that the validity check
      treats alike, delete alike. */
  lemma DeleteIgnoresIdCase(db: Db, uid: ObjectId, a: string, b: string, isValid: string -> bool,
                            removal: RemoveOutcome)
    requires uid in db.users
    requires |a| == |b| && forall i :: 0 <= i < |a| ==> LowerChar(a[i]) == LowerChar(b[i])
    requires isValid(a) == isValid(b)
    ensures DeleteStep(db, uid, a, isValid, removal) == DeleteStep(db, uid, b, isValid, removal)
  {
    ObjectIdIgnoresCase(a, b);
  }

  lemma DeleteKeepsConsistent(db: Db, uid: ObjectId, fileId: string, isValid: string -> bool,
                              removal: RemoveOutcome)
    requires Consistent(db) && uid in db.users
    ensures Consistent(DeleteStep(db, uid, fileId, isValid, removal).0)
  {
    match ValidateObjectId(fileId, isValid)
    case Failure(_) =>
    case Success(oid) =>
      match FindOwned(db.files, oid, uid)
      case None =>
      case Some(i) =>
        if removal != RemoveFailed {
          RemoveKeepsConsistent(db, i);
        }
  }

  /** Removing record i and taking its size off its owner's usage keeps the
      database consistent. */
  lemma RemoveKeepsConsistent(db: Db, i: nat)
    requires Consistent(db) && i < |db.files|
    ensures Consistent(Remove(db, i))
  {
    AddUsageKeepsUsers(db.users, db.files[i].userId, -db.files[i].size);
    RemoveKeepsOwners(db.users, db.files, i);
    RemoveKeepsIds(db.files, i);
    RemoveKeepsUsage(db.users, db.files, i);
  }

  lemma RemoveKeepsOwners(users: map<ObjectId, User>, files: seq<FileUpload>, i: nat)
    requires FilesOwned(users, files) && i < |files|
    ensures FilesOwned(AddUsage(users, files[i].userId, -files[i].size), files[..i] + files[i + 1..])
  {
    var files' := files[..i] + files[i + 1..];
    assert forall k :: 0 <= k < |files'| ==> files'[k] == files[if k < i then k else k + 1];
  }

  lemma RemoveKeepsIds(files: seq<FileUpload>, i: nat)
    requires IdsDistinct(files) && i < |files|
    ensures IdsDistinct(files[..i] + files[i + 1..])
  {
    var files' := files[..i] + files[i + 1..];
    forall a, b | 0 <= a < b < |files'|
      ensures files'[a].id != files'[b].id
    {
      assert files'[a] == files[if a < i then a else a + 1];
      assert files'[b] == files[if b < i then b else b + 1];
    }
  }

  lemma RemoveKeepsUsage(users: map<ObjectId, User>, files: seq<FileUpload>, i: nat)
    requires UsageAgrees(users, files) && FilesOwned(users, files) && i < |files|
    ensures UsageAgrees(AddUsage(users, files[i].userId, -files[i].size), files[..i] + files[i + 1..])
  {
    var f := files[i];
    var users' := AddUsage(users, f.userId, -f.size);
    var files' := files[..i] + files[i + 1..];
    forall id | id in users'
      ensures users'[id].storageUsed == UsedBy(files', id)
    {
      UsedByRemove(files, i, id);
    }
    assert forall k :: 0 <= k < |files'| ==> files'[k] == files[if k < i then k else k + 1];
    UsedByNonNegative(files', f.userId);
  }

  /** After a successful delete no record with that id is left, so deleting it
      again answers 404. */
  lemma DeleteTwice(db: Db, uid: ObjectId, fileId: string, isValid: string -> bool, removal: RemoveOutcome)
    requires Consistent(db) && uid in db.users
    requires DeleteStep(db, uid, fileId, isValid, removal).1.Success?
    ensures var db' := DeleteStep(db, uid, fileId, isValid, removal).0;
            && (forall k :: 0 <= k < |db'.files| ==> db'.files[k].id != ObjectIdOf(fileId))
            && uid in db'.users
            && DeleteStep(db', uid, fileId, isValid, removal) == (db', Failure(NotFound("File not found")))
  {
    var db' := DeleteStep(db, uid, fileId, isValid, removal).0;
    var i := FindOwned(db.files, ObjectIdOf(fileId), uid).value;
    forall k | 0 <= k < |db'.files|
      ensures db'.files[k].id != ObjectIdOf(fileId)
    {
      var k' := if k < i then k else k + 1;
      assert db'.files[k] == db.files[k'];
    }
  }

  // ---------------------------------------------------------------------
  // The handlers, on the database held by the server

  class Backend {
    /** The upload directory (`ROOT_DIR / "uploads"`). */
    const uploadDir: string
    var users: map<ObjectId, User>
    var files: seq<FileUpload>

    function State(): Db
      reads this
    {
      Db(users, files)
    }

    ghost predicate Valid()
      reads this
    {
      Consistent(State())
    }

    constructor (uploadDir: string)
      ensures Valid()
      ensures this.uploadDir == uploadDir && users == map[] && files == []
    {
      this.uploadDir := uploadDir;
      users := map[];
      files := [];
    }

    /** POST /api/auth/register. */
    method Register(body: UserRegister, checkEmail: EmailCheck, hash: string -> string, newId: ObjectId)
      returns (r: Result<RegisterReply, HttpError>)
      requires Valid() && newId !in users
      modifies this
      ensures r == RegisterStep(old(State()), body, checkEmail, hash, newId).1
      ensures users == RegisterStep(old(State()), body, checkEmail, hash, newId).0.users
      ensures files == RegisterStep(old(State()), body, checkEmail, hash, newId).0.files
      ensures Valid()
    {
      RegisterKeepsConsistent(State(), body, checkEmail, hash, newId);
      if !ValidUserRegister(body, checkEmail) {
        return Failure(Unprocessable);
      }
      var email := checkEmail(body.email).value;
      if EmailTaken(users, email) {
        return Failure(BadRequest("Email already registered"));
      }
      var hashed := hash(body.password);
      users := users[newId := NewUser(newId, body.name, email, hashed)];
      r := Success(RegisterReply("User registered successfully", newId.hex));
    }

    /** POST /api/auth/login: the user is looked up by the normal form of the
        address; the same 401 whether it is unknown or the password wrong; on
        success a bearer token for the user's id and the user without its
        password. */
    method Login(body: UserLogin, checkEmail: EmailCheck, verify: (string, string) -> bool,
                 issueToken: string -> string)
      returns (r: Result<LoginReply, HttpError>)
      requires Valid()
      ensures !ValidUserLogin(body, checkEmail) ==> r == Failure(Unprocessable)
      ensures ValidUserLogin(body, checkEmail) && !EmailTaken(users, checkEmail(body.email).value) ==>
                r == Failure(Unauthorized("Invalid email or password"))
      ensures ValidUserLogin(body, checkEmail) ==>
                forall id :: id in users && users[id].email == checkEmail(body.email).value ==>
                  if verify(body.password, users[id].password)
                  then r == Success(LoginReply(issueToken(id.hex), "bearer", UserResponseOf(users[id])))
                  else r == Failure(Unauthorized("Invalid email or password"))
    {
      if !ValidUserLogin(body, checkEmail) {
        return Failure(Unprocessable);
      }
      var email := checkEmail(body.email).value;
      if !EmailTaken(users, email) {
        return Failure(Unauthorized("Invalid email or password"));
      }
      var id :| id in users && users[id].email == email;
      var user := users[id];
      if !verify(body.password, user.password) {
        return Failure(Unauthorized("Invalid email or password"));
      }
      var token := issueToken(user.id.hex);
      r := Success(LoginReply(token, "bearer", UserResponseOf(user)));
    }

    /** GET /api/auth/me: the current user, without its password. */
    method Me(uid: ObjectId) returns (r: UserResponse)
      requires Valid() && uid in users
      ensures r.id == uid.hex && r.name == users[uid].name && r.email == users[uid].email
      ensures r.storageUsed == users[uid].storageUsed && r.storageLimit == users[uid].storageLimit
      ensures r.storageUsed == UsedBy(files, uid) && r.storageUsed <= r.storageLimit
    {
      r := UserResponseOf(users[uid]);
    }

    /** POST /api/files/upload. */
    method UploadFile(uid: ObjectId, file: UploadedFile, uuid: string, newId: ObjectId,
                      writeError: Option<string>)
      returns (r: Result<UploadReply, HttpError>)
      requires Valid() && uid in users && FreshFileId(State(), newId)
      modifies this
      ensures r == UploadStep(old(State()), uploadDir, uid, file, uuid, newId, writeError).1
      ensures users == UploadStep(old(State()), uploadDir, uid, file, uuid, newId, writeError).0.users
      ensures files == UploadStep(old(State()), uploadDir, uid, file, uuid, newId, writeError).0.files
      ensures Valid()
    {
      var user := users[uid];
      if user.storageUsed + file.size > user.storageLimit {
        return Failure(PayloadTooLarge("Storage limit exceeded"));
      }
      var name := StoredName(uuid, file.filename);
      var path := uploadDir + "/" + name;
      if writeError.Some? {
        return Failure(InternalError("Could not upload file: " + writeError.value));
      }
      var record := NewFileUpload(newId, uid, name, file.filename, file.size, file.contentType, path);
      AppendKeepsConsistent(State(), record);
      files := files + [record];
      users := AddUsage(users, uid, file.size);
      r := Success(UploadReply("File uploaded successfully", newId.hex, file.filename));
    }

    /** GET /api/files: the first 1000 of the caller's records, in collection
        order, without path or owner. */
    method GetUserFiles(uid: ObjectId) returns (r: seq<FileResponse>)
      ensures |r| == if |Owned(files, uid)| < ListLimit then |Owned(files, uid)| else ListLimit
      ensures forall k :: 0 <= k < |r| ==> r[k] == FileResponseOf(Owned(files, uid)[k])
    {
      var owned := Owned(files, uid);
      var page := if |owned| < ListLimit then owned else owned[..ListLimit];
      r := seq(|page|, k requires 0 <= k < |page| => FileResponseOf(page[k]));
    }

    /** DELETE /api/files/{file_id}. */
    method DeleteFile(uid: ObjectId, fileId: string, isValid: string -> bool, removal: RemoveOutcome)
      returns (r: Result<string, HttpError>)
      requires Valid() && uid in users
      modifies this
      ensures r == DeleteStep(old(State()), uid, fileId, isValid, removal).1
      ensures users == DeleteStep(old(State()), uid, fileId, isValid, removal).0.users
      ensures files == DeleteStep(old(State()), uid, fileId, isValid, removal).0.files
      ensures Valid()
    {
      var oid := ValidateObjectId(fileId, isValid);
      if oid.Failure? {
        return Failure(InternalError(UnhandledDetail));
      }
      var found := FindOwned(files, oid.value, uid);
      if found.None? {
        return Failure(NotFound("File not found"));
      }
      var i := found.value;
      var doc := files[i];
      if removal == RemoveFailed {
        return Failure(InternalError(UnhandledDetail));
      }
      assert doc.userId == uid;
      var after := Remove(State(), i);
      assert DeleteStep(State(), uid, fileId, isValid, removal) == (after, Success("File deleted successfully"));
      RemoveKeepsConsistent(State(), i);
      files := after.files;
      users := after.users;
      r := Success("File deleted successfully");
    }

    /** GET /api/files/{file_id}/download, the lookup part: 404 when the caller
        has no such record or its copy is not on disk; otherwise the stored
        path, served under the original name and content type. */
    method DownloadFile(uid: ObjectId, fileId: string, isValid: string -> bool, onDisk: string -> bool)
      returns (r: Result<DownloadReply, HttpError>)
      ensures !isValid(fileId) ==> r == Failure(InternalError(UnhandledDetail))
      ensures isValid(fileId) && FindOwned(files, ObjectIdOf(fileId), uid).None? ==>
                r == Failure(NotFound("File not found"))
      ensures isValid(fileId) && FindOwned(files, ObjectIdOf(fileId), uid).Some? ==>
                var f := files[FindOwned(files, ObjectIdOf(fileId), uid).value];
                && f.id == ObjectIdOf(fileId) && f.userId == uid
                && r == if onDisk(f.path) then Success(DownloadReply(f.path, f.originalName, f.mimeType))
                        else Failure(NotFound("File not found on disk"))
    {
      var oid := ValidateObjectId(fileId, isValid);
      if oid.Failure? {
        return Failure(InternalError(UnhandledDetail));
      }
      var found := FindOwned(files, oid.value, uid);
      if found.None? {
        return Failure(NotFound("File not found"));
      }
      var doc := files[found.value];
      if !onDisk(doc.path) {
        return Failure(NotFound("File not found on disk"));
      }
      r := Success(DownloadReply(doc.path, doc.originalName, doc.mimeType));
    }

    /** GET /api/dashboard/stats: the caller's record count (also reported as
        recent uploads), no folders, no shared files, and the caller's counters. */
    method GetDashboardStats(uid: ObjectId) returns (r: DashboardStats)
      requires Valid() && uid in users
      ensures r.totalFiles == |Owned(files, uid)| && r.recentUploads == r.totalFiles
      ensures r.totalFolders == 0 && r.sharedFiles == 0
      ensures r.storageUsed == UsedBy(files, uid) && r.storageLimit == users[uid].storageLimit
      ensures 0 <= r.storageUsed <= r.storageLimit
    {
      var total := |Owned(files, uid)|;
      UsedByNonNegative(files, uid);
      r := DashboardStats(total, 0, 0, total, users[uid].storageUsed, users[uid].storageLimit);
    }
  }
}
