/** The three stores the controllers and the worker change: the document
    database, the session cache and the file system. Each is an object whose
    fields the operations update in place, as the source's shared client
    instances are. */
module Stores {
  import opened Js
  import opened Records

  /** The session-store key of a token: `auth_<token>`. */
  function SessionKey(token: string): string {
    "auth_" + token
  }

  /** The user id a request's `x-token` header resolves to: none when the
      header is missing or empty, or when no session holds the token. */
  function ResolveToken(entries: map<string, Id>, token: Option<string>): (r: Option<Id>)
    ensures !Supplied(token) ==> r.None?
    ensures Supplied(token) ==>
      (r.Some? <==> SessionKey(token.value) in entries)
      && (r.Some? ==> r.value == entries[SessionKey(token.value)])
  {
    if Supplied(token) && SessionKey(token.value) in entries then Some(entries[SessionKey(token.value)]) else None
  }

  /** The `users` and `files` collections. Inserting never reuses an id. */
  class Database {
    var users: seq<User>
    var files: seq<FileRecord>

    ghost predicate Valid()
      reads this
    {
      DistinctUserIds(users) && DistinctFileIds(files)
    }

    constructor ()
      ensures Valid() && users == [] && files == []
    {
      users := [];
      files := [];
    }

    /** `insertOne('users', u)`; the database generates an id no document has. */
    method InsertUser(u: User)
      requires Valid() && FindUserById(users, u.id).None?
      modifies this
      ensures Valid()
      ensures users == old(users) + [u] && files == old(files)
    {
      users := users + [u];
    }

    /** `insertOne('files', f)`; the database generates an id no document has. */
    method InsertFile(f: FileRecord)
      requires Valid() && FindFile(files, Str(f.id)).None?
      modifies this
      ensures Valid()
      ensures files == old(files) + [f] && users == old(users)
    {
      files := files + [f];
    }
  }

  /** The key-value session store. `get` answers absent both for a missing
      key and for a failed connection, so a fault can never authenticate
      anyone; the expiry of each key is kept as ghost state only, because
      expiry is the store's own behaviour. */
  class Cache {
    var entries: map<string, Id>
    ghost var ttl: map<string, nat>

    constructor ()
      ensures entries == map[] && ttl == map[]
    {
      entries := map[];
      ttl := map[];
    }

    function Resolve(token: Option<string>): Option<Id>
      reads this
    {
      ResolveToken(entries, token)
    }

    /** `setex(key, seconds, value)`: puts one key, leaves every other key. */
    method SetEx(key: string, value: Id, seconds: nat)
      modifies this
      ensures entries == old(entries)[key := value]
      ensures ttl == old(ttl)[key := seconds]
    {
      entries := entries[key := value];
      ttl := ttl[key := seconds];
    }
  }

  /** The file system, as path to content; a write overwrites. */
  class Disk {
    var blobs: map<string, string>

    constructor ()
      ensures blobs == map[]
    {
      blobs := map[];
    }

    method WriteFile(path: string, content: string)
      modifies this
      ensures blobs == old(blobs)[path := content]
    {
      blobs := blobs[path := content];
    }
  }
}
