/** The documents of the `users` and `files` collections, and the `findOne`
    lookups the controllers and the worker run against them. */
module Records {
  import opened Js

  /** The string form of a database document id (an ObjectId). */
  type Id = string

  /** A `users` document: the password is stored only as its SHA-1 digest. */
  datatype User = User(id: Id, email: JsValue, password: string)

  datatype FileType = Folder | File | Image

  /** A `files` document. `userId` is the owner's id as the session store
      holds it; `localPath` is absent exactly for folders. */
  datatype FileRecord = FileRecord(
    id: Id,
    userId: Id,
    name: JsValue,
    kind: FileType,
    isPublic: JsValue,
    parentId: JsValue,
    localPath: Option<string>)

  function TypeName(t: FileType): string {
    match t
    case Folder => "folder"
    case File => "file"
    case Image => "image"
  }

  /** `['folder', 'file', 'image'].includes(type)`, giving the kind it names. */
  function ParseType(v: JsValue): (r: Option<FileType>)
    ensures r.Some? ==> v == Str(TypeName(r.value))
    ensures r.None? ==> forall t: FileType :: v != Str(TypeName(t))
  {
    match v
    case Str(s) =>
      if s == "folder" then Some(Folder)
      else if s == "file" then Some(File)
      else if s == "image" then Some(Image)
      else None
    case _ => None
  }

  predicate DistinctUserIds(users: seq<User>) {
    forall i, j :: 0 <= i < j < |users| ==> users[i].id != users[j].id
  }

  predicate DistinctEmails(users: seq<User>) {
    forall i, j :: 0 <= i < j < |users| ==> users[i].email != users[j].email
  }

  predicate DistinctFileIds(files: seq<FileRecord>) {
    forall i, j :: 0 <= i < j < |files| ==> files[i].id != files[j].id
  }

  /** What the code that reads a `findOne` result gets: a pending Promise when
      the call is not awaited, otherwise the document found, or `null`. */
  datatype Lookup<T> = Pending | Resolved(found: Option<T>)

  /** `!lookup` is false for a Promise and for a document, true for `null`. */
  predicate LookupTruthy<T>(v: Lookup<T>) {
    v.Pending? || v.found.Some?
  }

  /** `lookup.type`: a Promise has no such field. */
  function TypeField(v: Lookup<FileRecord>): JsValue {
    match v
    case Resolved(Some(f)) => Str(TypeName(f.kind))
    case _ => Undefined
  }

  /** `lookup.password`: a Promise has no such field. */
  function PasswordField(v: Lookup<User>): JsValue {
    match v
    case Resolved(Some(u)) => Str(u.password)
    case _ => Undefined
  }

  /** `findOne(collection, query)` on an equality query: the first stored
      document whose `key` field equals `k`, or none when no document has it. */
  function Find<T, K(==)>(xs: seq<T>, key: T -> K, k: K): (r: Option<T>)
    ensures r.Some? ==> r.value in xs && key(r.value) == k
    ensures r.None? <==> forall x :: x in xs ==> key(x) != k
  {
    if |xs| == 0 then None
    else if key(xs[0]) == k then Some(xs[0])
    else Find(xs[1..], key, k)
  }

  /** With keys distinct across the collection, looking a stored document up
      by its own key finds that document. */
  lemma {:induction false} FindFindsMember<T, K>(xs: seq<T>, key: T -> K, x: T)
    requires forall i, j :: 0 <= i < j < |xs| ==> key(xs[i]) != key(xs[j])
    requires x in xs
    ensures Find(xs, key, key(x)) == Some(x)
  {
    if xs[0] != x {
      var k :| 0 < k < |xs| && xs[k] == x;
      assert key(xs[0]) != key(x);
      assert xs[1..][k - 1] == x;
      forall i, j | 0 <= i < j < |xs| - 1 ensures key(xs[1..][i]) != key(xs[1..][j]) {
        assert xs[1..][i] == xs[i + 1] && xs[1..][j] == xs[j + 1];
      }
      FindFindsMember(xs[1..], key, x);
    }
  }

  function UserIdOf(u: User): Id { u.id }

  function EmailOf(u: User): JsValue { u.email }

  /** A `files` document's `_id` as the value a reference must equal. */
  function FileRefOf(f: FileRecord): JsValue { Str(f.id) }

  /** `findOne('users', { _id: id })` */
  function FindUserById(users: seq<User>, id: Id): (r: Option<User>)
    ensures r.Some? ==> r.value in users && r.value.id == id
    ensures r.None? <==> forall u :: u in users ==> u.id != id
  {
    Find(users, UserIdOf, id)
  }

  /** `findOne('users', { email })`, comparing the email value as a whole. */
  function FindUserByEmail(users: seq<User>, email: JsValue): (r: Option<User>)
    ensures r.Some? ==> r.value in users && r.value.email == email
    ensures r.None? <==> forall u :: u in users ==> u.email != email
  {
    Find(users, EmailOf, email)
  }

  /** `findOne('users', { _id: new ObjectId(ref) })`: only a string can name
      a stored document; any other value names none. */
  function FindUserByRef(users: seq<User>, ref: JsValue): (r: Option<User>)
    ensures r.Some? ==> r.value in users && ref == Str(r.value.id)
    ensures r.None? <==> forall u :: u in users ==> ref != Str(u.id)
  {
    match ref
    case Str(id) => FindUserById(users, id)
    case _ => None
  }

  /** `findOne('files', { _id: new ObjectId(ref) })`: only a string can name
      a stored document; any other value names none. */
  function FindFile(files: seq<FileRecord>, ref: JsValue): (r: Option<FileRecord>)
    ensures r.Some? ==> r.value in files && ref == Str(r.value.id)
    ensures r.None? <==> forall f :: f in files ==> ref != Str(f.id)
  {
    Find(files, FileRefOf, ref)
  }

  /** With distinct ids, looking a user up by its own id finds that user. */
  lemma FindUserByIdFindsMember(users: seq<User>, u: User)
    requires DistinctUserIds(users) && u in users
    ensures FindUserById(users, u.id) == Some(u)
  {
    FindFindsMember(users, UserIdOf, u);
  }

  /** With distinct ids, looking a file up by its own id finds that file. */
  lemma FindFileFindsMember(files: seq<FileRecord>, f: FileRecord)
    requires DistinctFileIds(files) && f in files
    ensures FindFile(files, Str(f.id)) == Some(f)
  {
    FindFindsMember(files, FileRefOf, f);
  }

  /** With distinct emails, looking a user up by its own email finds that user. */
  lemma FindUserByEmailFindsMember(users: seq<User>, u: User)
    requires DistinctEmails(users) && u in users
    ensures FindUserByEmail(users, u.email) == Some(u)
  {
    FindFindsMember(users, EmailOf, u);
  }
}
