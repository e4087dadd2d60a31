/** The record shapes, field constraints and defaults of backend/models.py.
    Library checks the model cannot see (e-mail syntax and normal form,
    ObjectId validity) are passed in as functions. Timestamps are not
    modelled. */
module Models {
  import opened Wrappers
  import opened Strings

  /** A MongoDB ObjectId, identified by its text: 24 hexadecimal digits,
      which bson always prints in lower case. */
  datatype ObjectId = ObjectId(hex: string)

  /** `ObjectId(v)` on a valid id text: bson reads the hexadecimal digits in
      either case, so the id is the one whose text is `v` lower-cased. */
  function ObjectIdOf(v: string): (id: ObjectId)
    ensures |id.hex| == |v|
    ensures forall i :: 0 <= i < |v| && !('A' <= v[i] <= 'Z') ==> id.hex[i] == v[i]
    ensures forall i :: 0 <= i < |v| && 'A' <= v[i] <= 'Z' ==> id.hex[i] as int == v[i] as int + 32
    ensures forall i :: 0 <= i < |v| ==> !('A' <= id.hex[i] <= 'Z')
  {
    ObjectId(Lower(v))
  }

  /** PyObjectId.validate: rejects every value the ObjectId validity check
      rejects and converts every other one. */
  function ValidateObjectId(v: string, isValid: string -> bool): (r: Result<ObjectId, string>)
    ensures r.Failure? <==> !isValid(v)
    ensures r.Failure? ==> r.error == "Invalid ObjectId"
    ensures r.Success? ==> r.value == ObjectIdOf(v)
  {
    if !isValid(v) then Failure("Invalid ObjectId") else Success(ObjectIdOf(v))
  }

  /** Two texts that differ only in the case of their letters name the same id. */
  lemma ObjectIdIgnoresCase(a: string, b: string)
    requires |a| == |b|
    requires forall i :: 0 <= i < |a| ==> LowerChar(a[i]) == LowerChar(b[i])
    ensures ObjectIdOf(a) == ObjectIdOf(b)
  {
    assert Lower(a) == Lower(b);
  }

  /** The text of an id read back from its own (lower-case) text is that text. */
  lemma ObjectIdOfOwnText(id: ObjectId)
    requires forall i :: 0 <= i < |id.hex| ==> !('A' <= id.hex[i] <= 'Z')
    ensures ObjectIdOf(id.hex) == id
  {
    assert Lower(id.hex) == id.hex;
  }

  /** Request body of registration. */
  datatype UserRegister = UserRegister(name: string, email: string, password: string)

  /** Request body of login. */
  datatype UserLogin = UserLogin(email: string, password: string)

  /** What `EmailStr` makes of a text: None when it is not an e-mail address,
      otherwise the address in its normal form (surrounding spaces dropped,
      the domain lower-cased, a "Name <address>" reduced to the address). The
      handlers only ever see the normal form. */
  type EmailCheck = string -> Option<string>

  /** The constraints UserRegister declares: a name of 1 to 100 characters,
      a valid e-mail address, a password of at least 6 characters. */
  predicate ValidUserRegister(body: UserRegister, checkEmail: EmailCheck)
  {
    1 <= |body.name| <= 100 && checkEmail(body.email).Some? && |body.password| >= 6
  }

  predicate ValidUserLogin(body: UserLogin, checkEmail: EmailCheck)
  {
    checkEmail(body.email).Some?
  }

  /** 1 TB in bytes. */
  const DefaultStorageLimit: int := 1099511627776

  /** A stored user document; `password` holds the password hash. */
  datatype User = User(id: ObjectId, name: string, email: string, password: string,
                       storageUsed: int, storageLimit: int)

  /** A User built with the declared defaults for the storage counters. */
  function NewUser(id: ObjectId, name: string, email: string, password: string): (u: User)
    ensures u.id == id && u.name == name && u.email == email && u.password == password
    ensures u.storageUsed == 0 && u.storageLimit == DefaultStorageLimit
  {
    User(id, name, email, password, 0, DefaultStorageLimit)
  }

  /** A stored file document. */
  datatype FileUpload = FileUpload(id: ObjectId, userId: ObjectId, filename: string,
                                   originalName: string, size: int, mimeType: string,
                                   path: string, isShared: bool, shareLink: Option<string>)

  /** A FileUpload built with the declared defaults: not shared, no share link. */
  function NewFileUpload(id: ObjectId, userId: ObjectId, filename: string, originalName: string,
                         size: int, mimeType: string, path: string): (f: FileUpload)
    ensures f.id == id && f.userId == userId && f.filename == filename
    ensures f.originalName == originalName && f.size == size && f.mimeType == mimeType && f.path == path
    ensures !f.isShared && f.shareLink == None
  {
    FileUpload(id, userId, filename, originalName, size, mimeType, path, false, None)
  }

  /** What the API returns about a user: no password. */
  datatype UserResponse = UserResponse(id: string, name: string, email: string,
                                       storageUsed: int, storageLimit: int)

  /** What the API returns about a file: no path, no owner, no share link. */
  datatype FileResponse = FileResponse(id: string, filename: string, originalName: string,
                                       size: int, mimeType: string, isShared: bool)

  /** Six integer counters. */
  datatype DashboardStats = DashboardStats(totalFiles: int, totalFolders: int, sharedFiles: int,
                                           recentUploads: int, storageUsed: int, storageLimit: int)

  function UserResponseOf(u: User): UserResponse
  {
    UserResponse(u.id.hex, u.name, u.email, u.storageUsed, u.storageLimit)
  }

  function FileResponseOf(f: FileUpload): FileResponse
  {
    FileResponse(f.id.hex, f.filename, f.originalName, f.size, f.mimeType, f.isShared)
  }

  /** A user response does not depend on the stored password hash, and two
      stored users with distinct ids never give the same response. */
  lemma UserResponseDropsPassword(u: User, v: User)
    ensures UserResponseOf(u) == UserResponseOf(u.(password := v.password))
    ensures u.id != v.id ==> UserResponseOf(u) != UserResponseOf(v)
  {
  }

  /** A file response does not depend on the stored path, owner or share link,
      and keeps everything else a stored file describes. */
  lemma FileResponseDropsServerFields(f: FileUpload, g: FileUpload)
    ensures FileResponseOf(f) == FileResponseOf(f.(path := g.path, userId := g.userId, shareLink := g.shareLink))
    ensures FileResponseOf(f) == FileResponseOf(g) <==>
            f.(path := g.path, userId := g.userId, shareLink := g.shareLink) == g
  {
  }

  /** The default limit is 1024^4 bytes. */
  lemma DefaultLimitIsOneTebibyte()
    ensures DefaultStorageLimit == 1024 * 1024 * 1024 * 1024
  {
  }
}
