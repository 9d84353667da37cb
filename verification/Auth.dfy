// Basic authentication behind two caches: credentials that were read from Elasticsearch, and
// passwords that bcrypt has accepted.

module Auth {
  import opened Wrappers

  datatype Credential =
    | User(username: string, hash: string, isAdmin: bool, categories: set<string>)
    | Permission(username: string, password: string, categories: set<string>)

  // The users and the permissions index, by document id.
  datatype Store = Store(users: map<string, Credential>, permissions: map<string, Credential>)

  // What the checks after the password look at.
  datatype Access = Access(rootRead: bool, rootGet: bool, category: string, fromES: bool, fromRS: bool)

  // bcrypt.CompareHashAndPassword(hash, password) == nil
  type Bcrypt = (string, string) -> bool

  const REACTIVESEARCH := "reactivesearch"

  // ---------- Elasticsearch ----------

  ghost predicate TypedStore(es: Store) {
    && (forall id :: id in es.users ==> es.users[id].User?)
    && (forall id :: id in es.permissions ==> es.permissions[id].Permission?)
  }

  // Every document is stored under the username it carries.
  ghost predicate WellKeyed(es: Store) {
    && (forall id :: id in es.users ==> es.users[id].username == id)
    && (forall id :: id in es.permissions ==> es.permissions[id].username == id)
  }

  function Named(index: map<string, Credential>, username: string): set<string> {
    set id | id in index && index[id].username == username
  }

  lemma {:induction false} OnlyMember(ids: set<string>, a: string, b: string)
    requires |ids| == 1 && a in ids && b in ids
    ensures a == b
  {
    assert |ids - {a}| == 0;
    assert b !in ids - {a};
  }

  function TheOne(index: map<string, Credential>, username: string): Credential
    requires |Named(index, username)| == 1
  {
    var ids := Named(index, username);
    assert exists id :: id in ids by {
      assert ids != {};
    }
    assert forall a, b :: a in ids && b in ids ==> a == b by {
      forall a, b | a in ids && b in ids ensures a == b { OnlyMember(ids, a, b); }
    }
    var id :| id in ids;
    index[id]
  }

  // getCredential searches both indices by the username field; more than one hit is an error.
  function Lookup(es: Store, username: string): Option<Credential> {
    var us, ps := |Named(es.users, username)|, |Named(es.permissions, username)|;
    if us == 1 && ps == 0 then Some(TheOne(es.users, username))
    else if us == 0 && ps == 1 then Some(TheOne(es.permissions, username))
    else None
  }

  lemma NamedWhenKeyed(es: Store, username: string)
    requires WellKeyed(es)
    ensures Named(es.users, username) == if username in es.users then {username} else {}
    ensures Named(es.permissions, username) == if username in es.permissions then {username} else {}
    ensures Lookup(es, username) ==
            if username in es.users && username !in es.permissions then Some(es.users[username])
            else if username in es.permissions && username !in es.users then Some(es.permissions[username])
            else None
  {
    assert Named(es.users, username) == if username in es.users then {username} else {};
    assert Named(es.permissions, username) == if username in es.permissions then {username} else {};
  }

  // ---------- Requests ----------

  // The two caches of one node.
  datatype Node = Node(creds: map<string, Credential>, passwords: map<string, string>)

  predicate Allowed(c: Credential, a: Access) {
    match c
    case User(_, _, isAdmin, categories) =>
      || a.rootRead || isAdmin
      || (if a.fromES then a.category in categories else a.fromRS ==> REACTIVESEARCH in categories)
    case Permission(_, _, categories) => a.rootGet || a.category in categories
  }

  predicate PasswordOk(verify: Bcrypt, c: Credential, password: string) {
    if c.User? then verify(c.hash, password) else c.password == password
  }

  // What authentication without any cache decides.
  predicate FreeAuth(verify: Bcrypt, es: Store, username: string, password: string, a: Access) {
    var c := Lookup(es, username);
    c.Some? && PasswordOk(verify, c.value, password) && Allowed(c.value, a)
  }

  function Without<V>(m: map<string, V>, key: string): map<string, V> {
    map k | k in m && k != key :: m[k]
  }

  function Cleared(n: Node, username: string): Node {
    Node(Without(n.creds, username), Without(n.passwords, username))
  }

  function FoundCredential(es: Store, n: Node, username: string): Option<Credential> {
    if username in n.creds then Some(n.creds[username]) else Lookup(es, username)
  }

  predicate CachedPasswordOk(verify: Bcrypt, n: Node, c: Credential, password: string) {
    || (c.User? && c.username in n.passwords && n.passwords[c.username] == password)
    || PasswordOk(verify, c, password)
  }

  predicate Accepts(verify: Bcrypt, es: Store, n: Node, username: string, password: string, a: Access) {
    var c := FoundCredential(es, n, username);
    c.Some? && CachedPasswordOk(verify, n, c.value, password) && Allowed(c.value, a)
  }

  // The caches after a request with basic auth; target is the username in the path of a write.
  function AfterAuth(verify: Bcrypt, es: Store, n: Node, username: string, password: string, a: Access, target: Option<string>): Node {
    var c := FoundCredential(es, n, username);
    if c.None? || !CachedPasswordOk(verify, n, c.value, password) then n
    else
      var passwords := if c.value.User? then n.passwords[c.value.username := password] else n.passwords;
      var creds := if username in n.creds then n.creds else n.creds[username := c.value];
      Node(if Allowed(c.value, a) && target.Some? then Without(creds, target.value) else creds, passwords)
  }

  class Caches {
    var credentials: map<string, Credential>
    var userToPassword: map<string, string>

    function View(): Node
      reads this
    {
      Node(credentials, userToPassword)
    }

    method SavePassword(username: string, password: string)
      modifies this`userToPassword
      ensures userToPassword == old(userToPassword)[username := password]
    {
      userToPassword := userToPassword[username := password];
    }

    method ClearPassword(username: string)
      modifies this`userToPassword
      ensures userToPassword == Without(old(userToPassword), username)
    {
      userToPassword := Without(userToPassword, username);
    }

    method IsPasswordExist(username: string, password: string) returns (exist: bool)
      ensures exist <==> username in userToPassword && userToPassword[username] == password
    {
      exist := username in userToPassword && userToPassword[username] == password;
    }

    method SaveCredentialToCache(username: string, c: Credential)
      modifies this`credentials
      ensures credentials == old(credentials)[username := c]
    {
      credentials := credentials[username := c];
    }

    method RemoveCredentialFromCache(username: string)
      modifies this`credentials
      ensures credentials == Without(old(credentials), username)
    {
      credentials := Without(credentials, username);
    }

    method ClearLocalUser(username: string)
      modifies this
      ensures View() == Cleared(old(View()), username)
    {
      ClearPassword(username);
      RemoveCredentialFromCache(username);
    }

    // basicAuth for a request with basic auth.
    method BasicAuth(verify: Bcrypt, es: Store, username: string, password: string, a: Access, target: Option<string>)
      returns (authenticated: bool)
      modifies this
      ensures authenticated == Accepts(verify, es, old(View()), username, password, a)
      ensures View() == AfterAuth(verify, es, old(View()), username, password, a, target)
      ensures TypedStore(es) && Coherent(verify, es, old(View())) && username != "" ==>
                authenticated == Entitled(verify, es, username, password, a)
      ensures CachesUpdated(verify, es, old(View()), View(), username, password, a, target)
    {
      ghost var n := View();
      AuthUpdates(verify, es, n, username, password, a, target);
      if TypedStore(es) && Coherent(verify, es, n) && username != "" {
        AcceptsIffEntitled(verify, es, n, username, password, a);
      }
      authenticated := Authenticate(verify, es, username, password, a, target);
    }

    method Authenticate(verify: Bcrypt, es: Store, username: string, password: string, a: Access, target: Option<string>)
      returns (authenticated: bool)
      modifies this
      ensures authenticated == Accepts(verify, es, old(View()), username, password, a)
      ensures View() == AfterAuth(verify, es, old(View()), username, password, a, target)
    {
      var obj := if username in credentials then Some(credentials[username]) else Lookup(es, username);
      if obj.None? {
        return false;
      }
      var c := obj.value;
      if c.User? {
        var exist := IsPasswordExist(c.username, password);
        if !exist && !verify(c.hash, password) {
          return false;
        }
        SavePassword(c.username, password);
      } else if c.password != password {
        return false;
      }
      authenticated := Allowed(c, a);
      if username !in credentials {
        SaveCredentialToCache(username, c);
      }
      if authenticated && target.Some? {
        RemoveCredentialFromCache(target.value);
      }
    }

    // The tail of the handlers that change users and permissions: first Elasticsearch, then, only
    // when that succeeded and no other process takes care of it, the caches of this node.
    method Handle(es: Store, change: Change, written: bool, proxied: bool) returns (es': Store)
      modifies this
      ensures es' == StoreAfter(es, change, written)
      ensures View() == NodeAfter(es, old(View()), change, written, proxied)
    {
      es' := es;
      if change.LocalClear? {
        ClearLocalUser(change.id);
      } else if written && Applicable(es, change) {
        es' := Write(es, change);
        if !proxied && !change.PostUser? && !change.PostPermission? {
          ClearLocalUser(change.id);
        }
      }
    }

    // GetCachedCredentials: the cached values, in whatever order Go iterates the map.
    method GetCachedCredentials() returns (list: seq<Credential>)
      ensures Lists(list, credentials)
    {
      list := [];
      var rest := credentials.Keys;
      while rest != {}
        invariant rest <= credentials.Keys
        invariant forall c :: c in list <==> exists u :: u in credentials && u !in rest && credentials[u] == c
        decreases rest
      {
        var u :| u in rest;
        list := list + [credentials[u]];
        rest := rest - {u};
      }
    }

    // SetCache of the users plugin on the users found in Elasticsearch.
    method SyncUsers(users: map<string, Credential>)
      modifies this
      ensures View() == UsersSynced(old(View()), users)
    {
      var list := GetCachedCredentials();
      ghost var n := View();
      for i := 0 to |list|
        invariant View() == SyncedFrom(n, users, list[..i])
      {
        assert list[..i + 1][..i] == list[..i];
        var c := list[i];
        if c.User? {
          if c.username in users {
            if HashChanged(c, users) {
              ClearPassword(c.username);
            }
            SaveCredentialToCache(c.username, users[c.username]);
          } else {
            RemoveCredentialFromCache(c.username);
            ClearPassword(c.username);
          }
        }
      }
      assert list[..|list|] == list;
      SyncedFromIs(n, users, list);
    }

    // SetCache of the permissions plugin.
    method SyncPermissions(permissions: map<string, Credential>)
      modifies this`credentials
      ensures View() == PermissionsSynced(old(View()), permissions)
    {
      var list := GetCachedCredentials();
      ghost var n := View();
      for i := 0 to |list|
        invariant View() == PermissionsSyncedFrom(n, permissions, list[..i])
        invariant userToPassword == n.passwords
      {
        assert list[..i + 1][..i] == list[..i];
        var c := list[i];
        if c.Permission? {
          if c.username in permissions {
            SaveCredentialToCache(c.username, permissions[c.username]);
          } else {
            RemoveCredentialFromCache(c.username);
          }
        }
      }
      assert list[..|list|] == list;
      PermissionsSyncedFromIs(n, permissions, list);
    }
  }

  // A patch carries the whole document as it is after the update.
  datatype Change =
    | PatchUser(id: string, doc: Credential)
    | DeleteUser(id: string)
    | PostUser(doc: Credential)
    | PatchPermission(id: string, doc: Credential)
    | DeletePermission(id: string)
    | PostPermission(doc: Credential)
    | LocalClear(id: string)

  // Updating or deleting a missing document is an error.
  predicate Applicable(es: Store, change: Change) {
    match change
    case PatchUser(id, _) => id in es.users
    case DeleteUser(id) => id in es.users
    case PatchPermission(id, _) => id in es.permissions
    case DeletePermission(id) => id in es.permissions
    case _ => true
  }

  function Write(es: Store, change: Change): Store {
    match change
    case PatchUser(id, doc) => es.(users := es.users[id := doc])
    case DeleteUser(id) => es.(users := Without(es.users, id))
    case PostUser(doc) => es.(users := es.users[doc.username := doc])
    case PatchPermission(id, doc) => es.(permissions := es.permissions[id := doc])
    case DeletePermission(id) => es.(permissions := Without(es.permissions, id))
    case PostPermission(doc) => es.(permissions := es.permissions[doc.username := doc])
    case LocalClear(_) => es
  }

  function StoreAfter(es: Store, change: Change, written: bool): Store {
    if written && Applicable(es, change) then Write(es, change) else es
  }

  function NodeAfter(es: Store, n: Node, change: Change, written: bool, proxied: bool): Node {
    if change.LocalClear? then Cleared(n, change.id)
    else if !written || !Applicable(es, change) || proxied || change.PostUser? || change.PostPermission? then n
    else Cleared(n, change.id)
  }

  // ---------- Caches that agree with Elasticsearch ----------

  // Cached credentials are what a search would find, and cached passwords verify against the
  // stored hash. The empty username is set apart: requests with a JWT role are cached under it.
  ghost predicate Coherent(verify: Bcrypt, es: Store, n: Node) {
    && (forall u :: u in n.creds && u != "" ==> Lookup(es, u) == Some(n.creds[u]))
    && (forall u :: u in n.passwords && u != "" ==>
          Lookup(es, u).Some? && Lookup(es, u).value.User? && verify(Lookup(es, u).value.hash, n.passwords[u]))
  }

  lemma LookupName(es: Store, username: string)
    requires Lookup(es, username).Some?
    ensures Lookup(es, username).value.username == username
  {
  }

  // Behind coherent caches a request is decided as without caches, and they stay coherent.
  lemma CachedIsFree(verify: Bcrypt, es: Store, n: Node, username: string, password: string, a: Access, target: Option<string>)
    requires Coherent(verify, es, n) && username != ""
    ensures Accepts(verify, es, n, username, password, a) == FreeAuth(verify, es, username, password, a)
    ensures Coherent(verify, es, AfterAuth(verify, es, n, username, password, a, target))
  {
    if Lookup(es, username).Some? {
      LookupName(es, username);
    }
  }

  // ---------- What a change does ----------

  // An update or delete of a document that is there, and every post, is carried out once it is
  // written. Updates and deletes that were carried out make a node that is not proxied forget the
  // name, and so does a local clear; nothing else does.
  lemma ChangeEffect(es: Store, n: Node, change: Change, written: bool, proxied: bool)
    ensures var es', n' := StoreAfter(es, change, written), NodeAfter(es, n, change, written, proxied);
            && es'.users == (match change
                             case PatchUser(id, doc) => if written && id in es.users then es.users[id := doc] else es.users
                             case DeleteUser(id) => if written then es.users - {id} else es.users
                             case PostUser(doc) => if written then es.users[doc.username := doc] else es.users
                             case _ => es.users)
            && es'.permissions == (match change
                                   case PatchPermission(id, doc) =>
                                     if written && id in es.permissions then es.permissions[id := doc] else es.permissions
                                   case DeletePermission(id) => if written then es.permissions - {id} else es.permissions
                                   case PostPermission(doc) => if written then es.permissions[doc.username := doc] else es.permissions
                                   case _ => es.permissions)
            && (var clears := match change
                              case PatchUser(id, _) => written && !proxied && id in es.users
                              case DeleteUser(id) => written && !proxied && id in es.users
                              case PatchPermission(id, _) => written && !proxied && id in es.permissions
                              case DeletePermission(id) => written && !proxied && id in es.permissions
                              case LocalClear(_) => true
                              case _ => false;
                if clears then n' == Node(n.creds - {change.id}, n.passwords - {change.id}) else n' == n)
  {
    assert change.DeleteUser? ==> Without(es.users, change.id) == es.users - {change.id};
    assert change.DeletePermission? ==> Without(es.permissions, change.id) == es.permissions - {change.id};
    if !change.PostUser? && !change.PostPermission? {
      assert Without(n.creds, change.id) == n.creds - {change.id} && Without(n.passwords, change.id) == n.passwords - {change.id};
    }
  }

  // ---------- Who is let in ----------

  // A search for the username finds exactly one document. It is a user whose hash bcrypt accepts the
  // password for, or a permission with this very password; and it may do what is asked: anyone at
  // the root, an admin anything, other users what their categories say, a permission its categories.
  ghost predicate Entitled(verify: Bcrypt, es: Store, username: string, password: string, a: Access) {
    var us := set id | id in es.users && es.users[id].username == username;
    var ps := set id | id in es.permissions && es.permissions[id].username == username;
    || (|us| == 1 && ps == {} && exists id :: id in us && UserMay(es.users[id], verify, password, a))
    || (us == {} && |ps| == 1 && exists id :: id in ps && PermissionMay(es.permissions[id], password, a))
  }

  ghost predicate UserMay(c: Credential, verify: Bcrypt, password: string, a: Access) {
    && c.User? && verify(c.hash, password)
    && (|| a.rootRead
        || c.isAdmin
        || (a.fromES && a.category in c.categories)
        || (!a.fromES && a.fromRS && "reactivesearch" in c.categories)
        || (!a.fromES && !a.fromRS))
  }

  ghost predicate PermissionMay(c: Credential, password: string, a: Access) {
    c.Permission? && c.password == password && (a.rootGet || a.category in c.categories)
  }

  lemma FreeAuthIffEntitled(verify: Bcrypt, es: Store, username: string, password: string, a: Access)
    requires TypedStore(es)
    ensures FreeAuth(verify, es, username, password, a) <==> Entitled(verify, es, username, password, a)
  {
    var us, ps := Named(es.users, username), Named(es.permissions, username);
    OneDocument(es.users, username);
    OneDocument(es.permissions, username);
    assert us == (set id | id in es.users && es.users[id].username == username);
    assert ps == (set id | id in es.permissions && es.permissions[id].username == username);
  }

  lemma OneDocument(index: map<string, Credential>, username: string)
    ensures |Named(index, username)| == 0 <==> Named(index, username) == {}
    ensures |Named(index, username)| == 1 ==> forall id :: id in Named(index, username) ==> index[id] == TheOne(index, username)
    ensures |Named(index, username)| == 1 ==> exists id :: id in Named(index, username)
  {
    var ids := Named(index, username);
    if |ids| == 1 {
      assert ids != {};
      forall a, b | a in ids && b in ids
        ensures a == b
      {
        OnlyMember(ids, a, b);
      }
    }
  }

  // Behind coherent caches exactly those requests are let in.
  lemma AcceptsIffEntitled(verify: Bcrypt, es: Store, n: Node, username: string, password: string, a: Access)
    requires TypedStore(es) && Coherent(verify, es, n) && username != ""
    ensures Accepts(verify, es, n, username, password, a) <==> Entitled(verify, es, username, password, a)
  {
    CachedIsFree(verify, es, n, username, password, a, None);
    FreeAuthIffEntitled(verify, es, username, password, a);
  }

  // Where a request that passes the password check leaves its marks: a user's password and the
  // credential are remembered, and the name in the path of an allowed write is forgotten. A request
  // that fails it leaves none, and other names are never touched.
  ghost predicate CachesUpdated(verify: Bcrypt, es: Store, n: Node, n': Node, username: string, password: string, a: Access, target: Option<string>) {
    var c := if username in n.creds then Some(n.creds[username]) else Lookup(es, username);
    var passes := c.Some? && (if c.value.User? then
                                verify(c.value.hash, password) || (c.value.username in n.passwords && n.passwords[c.value.username] == password)
                              else c.value.password == password);
    if !passes then n' == n
    else
      var forgotten := target.Some? && (if c.value.User? then UserMay(c.value, (h, p) => true, password, a)
                                        else PermissionMay(c.value, password, a));
      && (forall u :: u in n'.passwords <==> u in n.passwords || (c.value.User? && u == c.value.username))
      && (forall u :: u in n'.passwords ==>
            n'.passwords[u] == if c.value.User? && u == c.value.username then password else n.passwords[u])
      && (forall u :: u in n'.creds <==> (u in n.creds || u == username) && !(forgotten && target == Some(u)))
      && (forall u :: u in n'.creds ==> n'.creds[u] == if u == username then c.value else n.creds[u])
  }

  lemma AuthUpdates(verify: Bcrypt, es: Store, n: Node, username: string, password: string, a: Access, target: Option<string>)
    ensures CachesUpdated(verify, es, n, AfterAuth(verify, es, n, username, password, a, target), username, password, a, target)
  {
    var c := FoundCredential(es, n, username);
    if c.Some? && CachedPasswordOk(verify, n, c.value, password) {
      var n' := AfterAuth(verify, es, n, username, password, a, target);
      if c.value.User? {
        assert n'.passwords == n.passwords[c.value.username := password];
      } else {
        assert n'.passwords == n.passwords;
      }
    }
  }

  // A change that neither renames a document nor takes a name that exists.
  ghost predicate Orderly(es: Store, change: Change) {
    match change
    case PatchUser(id, doc) => doc.User? && doc.username == id
    case PostUser(doc) => doc.User? && doc.username !in es.users && doc.username !in es.permissions
    case PatchPermission(id, doc) => doc.Permission? && doc.username == id
    case PostPermission(doc) => doc.Permission? && doc.username !in es.users && doc.username !in es.permissions
    case _ => true
  }

  ghost predicate Invariant(verify: Bcrypt, es: Store, n: Node) {
    TypedStore(es) && WellKeyed(es) && Coherent(verify, es, n)
  }

  lemma OrderlyKeepsInvariant(verify: Bcrypt, es: Store, n: Node, change: Change, written: bool)
    requires Invariant(verify, es, n) && Orderly(es, change)
    ensures Invariant(verify, StoreAfter(es, change, written), NodeAfter(es, n, change, written, false))
  {
    var es', n' := StoreAfter(es, change, written), NodeAfter(es, n, change, written, false);
    forall u | u != "" && (u in n'.creds || u in n'.passwords)
      ensures Lookup(es', u) == Lookup(es, u)
    {
      CachedLookupKept(verify, es, n, change, written, u);
    }
  }

  lemma CachedLookupKept(verify: Bcrypt, es: Store, n: Node, change: Change, written: bool, u: string)
    requires Invariant(verify, es, n) && Orderly(es, change) && u != ""
    requires var n' := NodeAfter(es, n, change, written, false); u in n'.creds || u in n'.passwords
    ensures Lookup(StoreAfter(es, change, written), u) == Lookup(es, u)
  {
    NamedWhenKeyed(es, u);
    NamedWhenKeyed(StoreAfter(es, change, written), u);
  }

  // What the caches hold for a name fits a document that a search for the name would find.
  ghost predicate Fits(verify: Bcrypt, n: Node, u: string, doc: Credential) {
    && (u in n.creds ==> n.creds[u] == doc)
    && (u in n.passwords ==> doc.User? && verify(doc.hash, n.passwords[u]))
  }

  predicate HoldsNothing(n: Node, u: string) { u !in n.creds && u !in n.passwords }

  // When only the lookup of one name changes, coherence is decided at that name.
  lemma CoherentAtName(verify: Bcrypt, es: Store, es': Store, n: Node, u: string)
    requires Coherent(verify, es, n) && u != "" && forall v :: v != u ==> Lookup(es', v) == Lookup(es, v)
    ensures Coherent(verify, es', n) <==>
            if Lookup(es', u).Some? then Fits(verify, n, u, Lookup(es', u).value) else HoldsNothing(n, u)
  {
  }

  // Posting over a name keeps the caches coherent exactly when what they hold for it fits the new
  // document, or they hold nothing for it if the other index has the name too: a search then finds
  // two documents and fails.
  lemma PostKeepsIff(verify: Bcrypt, es: Store, n: Node, doc: Credential)
    requires Invariant(verify, es, n) && doc.username != ""
    ensures var change := if doc.User? then PostUser(doc) else PostPermission(doc);
            Coherent(verify, StoreAfter(es, change, true), NodeAfter(es, n, change, true, false)) <==>
              if doc.username in (if doc.User? then es.permissions else es.users) then HoldsNothing(n, doc.username)
              else Fits(verify, n, doc.username, doc)
  {
    var es' := StoreAfter(es, if doc.User? then PostUser(doc) else PostPermission(doc), true);
    forall u
      ensures u != doc.username ==> Lookup(es', u) == Lookup(es, u)
      ensures u == doc.username ==>
                Lookup(es', u) == if u in (if doc.User? then es.permissions else es.users) then None else Some(doc)
    {
      NamedWhenKeyed(es, u);
      NamedWhenKeyed(es', u);
    }
    CoherentAtName(verify, es, es', n, doc.username);
  }

  function Patching(id: string, doc: Credential): Change {
    if doc.User? then PatchUser(id, doc) else PatchPermission(id, doc)
  }

  // On a proxied node, which clears nothing, a patch of a user or of a permission leaves the caches
  // coherent exactly when what they hold for the name fits the new document.
  lemma ProxiedPatchKeepsIff(verify: Bcrypt, es: Store, n: Node, id: string, doc: Credential)
    requires Invariant(verify, es, n) && doc.username == id != "" && id in (if doc.User? then es.users else es.permissions)
    ensures var change := Patching(id, doc);
            Coherent(verify, StoreAfter(es, change, true), NodeAfter(es, n, change, true, true)) <==> Fits(verify, n, id, doc)
  {
    var es' := StoreAfter(es, Patching(id, doc), true);
    forall u
      ensures u != id ==> Lookup(es', u) == Lookup(es, u)
      ensures u == id ==> Lookup(es', u) == if id in es.users && id in es.permissions then None else Some(doc)
      ensures u == id && id in es.users && id in es.permissions ==> Lookup(es, u) == None
    {
      NamedWhenKeyed(es, u);
      NamedWhenKeyed(es', u);
    }
    CoherentAtName(verify, es, es', n, id);
  }

  // On a proxied node a delete leaves the caches coherent exactly when they hold nothing for the
  // name; if the other index has the name too they never do.
  lemma ProxiedDeleteKeepsIff(verify: Bcrypt, es: Store, n: Node, change: Change)
    requires Invariant(verify, es, n) && (change.DeleteUser? || change.DeletePermission?)
    requires change.id != "" && Applicable(es, change)
    ensures Coherent(verify, StoreAfter(es, change, true), NodeAfter(es, n, change, true, true)) <==> HoldsNothing(n, change.id)
    ensures change.id in es.users && change.id in es.permissions ==> HoldsNothing(n, change.id)
  {
    var es' := StoreAfter(es, change, true);
    forall u
      ensures u != change.id ==> Lookup(es', u) == Lookup(es, u)
      ensures u == change.id && u in es.users && u in es.permissions ==> Lookup(es, u) == None
      ensures u == change.id && !(u in es.users && u in es.permissions) ==> Lookup(es', u) == None
    {
      NamedWhenKeyed(es, u);
      NamedWhenKeyed(es', u);
    }
    CoherentAtName(verify, es, es', n, change.id);
  }

  // ---------- Runs ----------

  datatype Step =
    | Request(username: string, password: string, access: Access, target: Option<string>)
    | JwtRole(permission: Credential)
    | Admin(change: Change, written: bool)

  function StepStore(es: Store, step: Step): Store {
    if step.Admin? then StoreAfter(es, step.change, step.written) else es
  }

  function StepNode(verify: Bcrypt, es: Store, n: Node, step: Step): Node {
    match step
    case Request(username, password, access, target) => AfterAuth(verify, es, n, username, password, access, target)
    case JwtRole(permission) => if "" in n.creds then n else n.(creds := n.creds["" := permission])
    case Admin(change, written) => NodeAfter(es, n, change, written, false)
  }

  // The decisions of a run, one for each request with basic auth.
  function Decisions(verify: Bcrypt, es: Store, n: Node, steps: seq<Step>): seq<bool>
    decreases |steps|
  {
    if steps == [] then []
    else
      var step := steps[0];
      (if step.Request? then [Accepts(verify, es, n, step.username, step.password, step.access)] else [])
      + Decisions(verify, StepStore(es, step), StepNode(verify, es, n, step), steps[1..])
  }

  // The decisions by what Elasticsearch holds at each step.
  ghost function FreeDecisions(verify: Bcrypt, es: Store, steps: seq<Step>): seq<bool>
    decreases |steps|
  {
    if steps == [] then []
    else
      var step := steps[0];
      (if step.Request? then [Entitled(verify, es, step.username, step.password, step.access)] else [])
      + FreeDecisions(verify, StepStore(es, step), steps[1..])
  }

  ghost predicate OrderlyRun(es: Store, steps: seq<Step>)
    decreases |steps|
  {
    steps == [] ||
    (&& (steps[0].Request? ==> steps[0].username != "")
     && (steps[0].Admin? ==> Orderly(es, steps[0].change))
     && OrderlyRun(StepStore(es, steps[0]), steps[1..]))
  }

  // Over every orderly run, the node with caches decides every request as the node without them.
  lemma {:induction false} CachesAreTransparent(verify: Bcrypt, es: Store, n: Node, steps: seq<Step>)
    requires Invariant(verify, es, n) && OrderlyRun(es, steps)
    ensures Decisions(verify, es, n, steps) == FreeDecisions(verify, es, steps)
    decreases |steps|
  {
    if steps != [] {
      var step := steps[0];
      match step {
        case Request(username, password, access, target) =>
          CachedIsFree(verify, es, n, username, password, access, target);
          FreeAuthIffEntitled(verify, es, username, password, access);
        case Admin(change, written) =>
          OrderlyKeepsInvariant(verify, es, n, change, written);
        case JwtRole(_) =>
      }
      CachesAreTransparent(verify, StepStore(es, step), StepNode(verify, es, n, step), steps[1..]);
    }
  }

  lemma LookupAfterRename(es: Store, id: string, doc: Credential, u: string)
    requires WellKeyed(es) && Applicable(es, Patching(id, doc)) && doc.username != id && u != id
    ensures var es' := StoreAfter(es, Patching(id, doc), true);
            && (u != doc.username ==> Lookup(es', u) == Lookup(es, u))
            && (u == doc.username && Lookup(es, u).Some? ==> Lookup(es', u).None?)
  {
    if u == doc.username {
      NewNameAmbiguous(es, id, doc);
    } else {
      OtherNamesKept(es, id, doc, u);
    }
  }

  lemma NewNameAmbiguous(es: Store, id: string, doc: Credential)
    requires WellKeyed(es) && Applicable(es, Patching(id, doc)) && doc.username != id
    ensures Lookup(es, doc.username).Some? ==> Lookup(StoreAfter(es, Patching(id, doc), true), doc.username).None?
  {
    var u := doc.username;
    NamedWhenKeyed(es, u);
    NamedAfterRename(if doc.User? then es.users else es.permissions, id, doc, u);
    assert |{u, id}| == 2;
  }

  lemma OtherNamesKept(es: Store, id: string, doc: Credential, u: string)
    requires WellKeyed(es) && Applicable(es, Patching(id, doc)) && u != doc.username && u != id
    ensures Lookup(StoreAfter(es, Patching(id, doc), true), u) == Lookup(es, u)
  {
    NamedWhenKeyed(es, u);
    NamedAfterRename(if doc.User? then es.users else es.permissions, id, doc, u);
  }

  lemma NamedAfterRename(users: map<string, Credential>, id: string, doc: Credential, u: string)
    requires id in users && users[id].username == id && u != id
    ensures Named(users[id := doc], u) == if u == doc.username then Named(users, u) + {id} else Named(users, u)
  {
  }

  // A patch that renames a document leaves the caches coherent exactly when they hold nothing for
  // the new name. Only patches of users get this far: those that rename a permission are rejected.
  lemma RenameKeepsIff(verify: Bcrypt, es: Store, n: Node, id: string, doc: Credential)
    requires Invariant(verify, es, n) && Applicable(es, Patching(id, doc)) && doc.username != id && doc.username != ""
    ensures Coherent(verify, StoreAfter(es, Patching(id, doc), true), NodeAfter(es, n, Patching(id, doc), true, false)) <==>
            HoldsNothing(n, doc.username)
  {
    var es', n' := StoreAfter(es, Patching(id, doc), true), Cleared(n, id);
    assert NodeAfter(es, n, Patching(id, doc), true, false) == n';
    forall u | u != id
      ensures u != doc.username ==> Lookup(es', u) == Lookup(es, u)
      ensures u == doc.username && Lookup(es, u).Some? ==> Lookup(es', u).None?
    {
      LookupAfterRename(es, id, doc, u);
    }
  }

  // A stale password at work: ann has logged in, then bob is renamed to ann. A search now finds
  // two users of that name and fails, but the node with caches still lets ann in.
  lemma StalePasswordAfterRename(verify: Bcrypt, password: string, hash: string)
    requires verify(hash, password)
    ensures var ann, bob, renamed := User("ann", hash, true, {}), User("bob", hash, true, {}), User("ann", hash, true, {});
            var es, access := Store(map["ann" := ann, "bob" := bob], map[]), Access(true, true, "", false, false);
            var n := AfterAuth(verify, es, Node(map[], map[]), "ann", password, access, None);
            var patch := PatchUser("bob", renamed);
            var es', n' := StoreAfter(es, patch, true), NodeAfter(es, n, patch, true, false);
            && Invariant(verify, es, n) && "ann" in n'.passwords
            && Accepts(verify, es', n', "ann", password, access) && !FreeAuth(verify, es', "ann", password, access)
  {
    var ann, bob, renamed := User("ann", hash, true, {}), User("bob", hash, true, {}), User("ann", hash, true, {});
    var es := Store(map["ann" := ann, "bob" := bob], map[]);
    NamedWhenKeyed(es, "ann");
    LookupAfterRename(es, "bob", renamed, "ann");
  }

  // ---------- Synchronisation ----------

  ghost predicate Lists(list: seq<Credential>, creds: map<string, Credential>) {
    forall c :: c in list <==> exists u :: u in creds && creds[u] == c
  }

  // The usernames of the user hits, to the hits.
  ghost predicate UserMap(users: map<string, Credential>) {
    forall u :: u in users ==> users[u].User? && users[u].username == u
  }

  ghost predicate PermissionMap(permissions: map<string, Credential>) {
    forall u :: u in permissions ==> permissions[u].Permission? && permissions[u].username == u
  }

  predicate HashChanged(c: Credential, users: map<string, Credential>)
    requires c.User? && c.username in users
  {
    !users[c.username].User? || c.hash != users[c.username].hash
  }

  // A cached user that is gone from the snapshot or has another hash there.
  predicate Stale(c: Credential, users: map<string, Credential>) {
    c.User? && (c.username !in users || HashChanged(c, users))
  }

  function SyncedOne(n: Node, users: map<string, Credential>, c: Credential): Node {
    if !c.User? then n
    else if c.username !in users then Cleared(n, c.username)
    else Node(n.creds[c.username := users[c.username]], if Stale(c, users) then Without(n.passwords, c.username) else n.passwords)
  }

  function SyncedFrom(n: Node, users: map<string, Credential>, list: seq<Credential>): Node {
    if list == [] then n
    else SyncedOne(SyncedFrom(n, users, list[..|list| - 1]), users, list[|list| - 1])
  }

  function PermissionsSyncedFrom(n: Node, permissions: map<string, Credential>, list: seq<Credential>): Node {
    if list == [] then n
    else
      var m, c := PermissionsSyncedFrom(n, permissions, list[..|list| - 1]), list[|list| - 1];
      if !c.Permission? then m
      else if c.username in permissions then m.(creds := m.creds[c.username := permissions[c.username]])
      else m.(creds := Without(m.creds, c.username))
  }

  // Some cached credential, under whatever key, is a user, or a permission, of that name.
  ghost predicate UserNamed(n: Node, u: string) {
    exists k :: k in n.creds && n.creds[k].User? && n.creds[k].username == u
  }

  ghost predicate PermissionNamed(n: Node, u: string) {
    exists k :: k in n.creds && n.creds[k].Permission? && n.creds[k].username == u
  }

  // A cached user of the name is gone from the snapshot or has another hash there.
  ghost predicate Outdated(n: Node, users: map<string, Credential>, u: string) {
    exists k :: k in n.creds && n.creds[k].User? && n.creds[k].username == u
                && (u !in users || !users[u].User? || users[u].hash != n.creds[k].hash)
  }

  // What the scripts leave, stated on whole maps: the names of the cached users, or permissions, get
  // what the snapshot has for them, and nothing else changes.
  ghost function UsersSynced(n: Node, users: map<string, Credential>): Node {
    Node(map u | u in n.creds.Keys + users.Keys && (if UserNamed(n, u) then u in users else u in n.creds) ::
           if UserNamed(n, u) then users[u] else n.creds[u],
         map u | u in n.passwords && !Outdated(n, users, u) :: n.passwords[u])
  }

  ghost function PermissionsSynced(n: Node, permissions: map<string, Credential>): Node {
    Node(map u | u in n.creds.Keys + permissions.Keys && (if PermissionNamed(n, u) then u in permissions else u in n.creds) ::
           if PermissionNamed(n, u) then permissions[u] else n.creds[u],
         n.passwords)
  }

  // One name after the credentials in the list were synchronised.
  lemma {:induction false} SyncedFromAt(n: Node, users: map<string, Credential>, list: seq<Credential>, u: string)
    ensures var m, covered := SyncedFrom(n, users, list), exists c :: c in list && c.User? && c.username == u;
            && (u in m.creds <==> if covered then u in users else u in n.creds)
            && (u in m.creds ==> m.creds[u] == if covered then users[u] else n.creds[u])
            && (u in m.passwords <==> u in n.passwords && forall c :: c in list && c.username == u ==> !Stale(c, users))
            && (u in m.passwords ==> m.passwords[u] == n.passwords[u])
  {
    if list != [] {
      var init, last := list[..|list| - 1], list[|list| - 1];
      SyncedFromAt(n, users, init, u);
      assert forall c :: c in list <==> c in init || c == last;
    }
  }

  lemma SyncedFromIs(n: Node, users: map<string, Credential>, list: seq<Credential>)
    requires Lists(list, n.creds)
    ensures SyncedFrom(n, users, list) == UsersSynced(n, users)
  {
    var m, w := SyncedFrom(n, users, list), UsersSynced(n, users);
    forall u
      ensures u in m.creds <==> u in w.creds
      ensures u in m.creds ==> m.creds[u] == w.creds[u]
      ensures u in m.passwords <==> u in w.passwords
      ensures u in m.passwords ==> m.passwords[u] == w.passwords[u]
    {
      SyncedFromAt(n, users, list, u);
      ListedUsers(n, users, list, u);
    }
    assert m.creds == w.creds && m.passwords == w.passwords;
  }

  lemma ListedUsers(n: Node, users: map<string, Credential>, list: seq<Credential>, u: string)
    requires Lists(list, n.creds)
    ensures UserNamed(n, u) <==> exists c :: c in list && c.User? && c.username == u
    ensures Outdated(n, users, u) <==> exists c :: c in list && c.username == u && Stale(c, users)
    ensures PermissionNamed(n, u) <==> exists c :: c in list && c.Permission? && c.username == u
  {
    assert forall k :: k in n.creds ==> n.creds[k] in list;
  }

  lemma {:induction false} PermissionsSyncedFromAt(n: Node, permissions: map<string, Credential>, list: seq<Credential>, u: string)
    ensures var m, covered := PermissionsSyncedFrom(n, permissions, list), exists c :: c in list && c.Permission? && c.username == u;
            && (u in m.creds <==> if covered then u in permissions else u in n.creds)
            && (u in m.creds ==> m.creds[u] == if covered then permissions[u] else n.creds[u])
            && m.passwords == n.passwords
  {
    if list != [] {
      var init, last := list[..|list| - 1], list[|list| - 1];
      PermissionsSyncedFromAt(n, permissions, init, u);
      assert forall c :: c in list <==> c in init || c == last;
    }
  }

  lemma PermissionsSyncedFromIs(n: Node, permissions: map<string, Credential>, list: seq<Credential>)
    requires Lists(list, n.creds)
    ensures PermissionsSyncedFrom(n, permissions, list) == PermissionsSynced(n, permissions)
  {
    var m, w := PermissionsSyncedFrom(n, permissions, list), PermissionsSynced(n, permissions);
    forall u
      ensures u in m.creds <==> u in w.creds
      ensures u in m.creds ==> m.creds[u] == w.creds[u]
    {
      PermissionsSyncedFromAt(n, permissions, list, u);
      ListedUsers(n, map[], list, u);
    }
    assert m.creds == w.creds;
    PermissionsSyncedFromAt(n, permissions, list, "");
  }

  // ---------- Both scripts ----------

  // Credentials are cached under their own username, except for the permission of a request with a
  // JWT role, which is cached under the empty one.
  ghost predicate Keyed(creds: map<string, Credential>) {
    && (forall u :: u in creds && u != "" ==> creds[u].username == u)
    && ("" in creds ==> creds[""].Permission?)
  }

  // Every step of a run keeps the cache keyed like that.
  lemma StepKeepsKeyed(verify: Bcrypt, es: Store, n: Node, step: Step)
    requires Keyed(n.creds)
    requires (step.Request? ==> step.username != "") && (step.JwtRole? ==> step.permission.Permission?)
    ensures Keyed(StepNode(verify, es, n, step).creds)
  {
    if step.Request? && Lookup(es, step.username).Some? {
      LookupName(es, step.username);
    }
  }

  // The credentials that both scripts leave: a name that some cached permission has gets the
  // snapshot's permission; other cached users get the snapshot's user.
  ghost function BothSynced(n: Node, users: map<string, Credential>, permissions: map<string, Credential>): map<string, Credential> {
    map u | u in n.creds.Keys + permissions.Keys
            && (if PermissionNamed(n, u) then u in permissions else u in n.creds && (n.creds[u].User? ==> u in users))
         :: if PermissionNamed(n, u) then permissions[u] else if n.creds[u].User? then users[u] else n.creds[u]
  }

  lemma KeyedUser(n: Node, users: map<string, Credential>, u: string)
    requires Keyed(n.creds)
    ensures UserNamed(n, u) <==> u in n.creds && n.creds[u].User?
    ensures Outdated(n, users, u) <==> u in n.creds && Stale(n.creds[u], users)
  {
  }

  lemma UsersKeepPermissions(n: Node, users: map<string, Credential>, u: string)
    requires UserMap(users) && Keyed(n.creds)
    ensures PermissionNamed(UsersSynced(n, users), u) <==> PermissionNamed(n, u)
  {
    var m := UsersSynced(n, users);
    forall k
      ensures k in m.creds && m.creds[k].Permission? <==> k in n.creds && n.creds[k].Permission?
      ensures k in m.creds && m.creds[k].Permission? ==> m.creds[k] == n.creds[k]
    {
      KeyedUser(n, users, k);
    }
  }

  lemma PermissionsHideUsers(n: Node, users: map<string, Credential>, permissions: map<string, Credential>, u: string)
    requires PermissionMap(permissions) && Keyed(n.creds)
    ensures var m := PermissionsSynced(n, permissions);
            && (UserNamed(m, u) <==> UserNamed(n, u) && !PermissionNamed(n, u))
            && (Outdated(m, users, u) <==> Outdated(n, users, u) && !PermissionNamed(n, u))
  {
    var m := PermissionsSynced(n, permissions);
    KeyedUser(n, users, u);
    forall k
      ensures k in m.creds && m.creds[k].User? <==> k in n.creds && n.creds[k].User? && !PermissionNamed(n, k)
      ensures k in m.creds && m.creds[k].User? ==> m.creds[k] == n.creds[k]
    {
    }
  }

  function At<V>(m: map<string, V>, u: string): Option<V> {
    if u in m then Some(m[u]) else None
  }

  lemma SameMap<V>(a: map<string, V>, b: map<string, V>)
    requires forall u :: At(a, u) == At(b, u)
    ensures a == b
  {
    assert forall u :: (u in a <==> At(a, u).Some?) && (u in b <==> At(b, u).Some?);
    assert forall u :: u in a ==> a[u] == At(a, u).value && b[u] == At(b, u).value;
  }

  lemma UsersAt(n: Node, users: map<string, Credential>, u: string)
    ensures At(UsersSynced(n, users).creds, u) == if UserNamed(n, u) then At(users, u) else At(n.creds, u)
    ensures At(UsersSynced(n, users).passwords, u) == if Outdated(n, users, u) then None else At(n.passwords, u)
  {
  }

  lemma PermissionsAt(n: Node, permissions: map<string, Credential>, u: string)
    ensures At(PermissionsSynced(n, permissions).creds, u) == if PermissionNamed(n, u) then At(permissions, u) else At(n.creds, u)
    ensures PermissionsSynced(n, permissions).passwords == n.passwords
  {
  }

  lemma BothAt(n: Node, users: map<string, Credential>, permissions: map<string, Credential>, u: string)
    requires Keyed(n.creds)
    ensures At(BothSynced(n, users, permissions), u) ==
              if PermissionNamed(n, u) then At(permissions, u) else if UserNamed(n, u) then At(users, u) else At(n.creds, u)
  {
    KeyedUser(n, users, u);
  }

  // After a request with a JWT role the permissions script caches a name that was not cached, and
  // leaves the entry under the empty name as it is.
  lemma JwtEntryAddsName(c: Credential, permissions: map<string, Credential>)
    requires c.Permission? && c.username != "" && c.username in permissions
    ensures PermissionsSynced(Node(map["" := c], map[]), permissions).creds == map["" := c, c.username := permissions[c.username]]
  {
    var n := Node(map["" := c], map[]);
    forall u
      ensures PermissionNamed(n, u) <==> u == c.username
    {
      assert "" in n.creds && n.creds[""] == c;
    }
  }

  // The passwords whose cached user is not outdated.
  ghost function CurrentPasswords(n: Node, users: map<string, Credential>): map<string, string> {
    map u | u in n.passwords && !Outdated(n, users, u) :: n.passwords[u]
  }

  // Those, and the passwords of outdated users that the permission under the empty name has hidden.
  ghost function UnseenPasswords(n: Node, users: map<string, Credential>): map<string, string> {
    map u | u in n.passwords && (Outdated(n, users, u) ==> PermissionNamed(n, u)) :: n.passwords[u]
  }

  // With the users script first, the two scripts leave the credentials of both snapshots and the
  // passwords that are not outdated.
  lemma SyncUsersFirst(n: Node, users: map<string, Credential>, permissions: map<string, Credential>)
    requires UserMap(users) && Keyed(n.creds)
    ensures PermissionsSynced(UsersSynced(n, users), permissions)
         == Node(BothSynced(n, users, permissions), CurrentPasswords(n, users))
  {
    var m := PermissionsSynced(UsersSynced(n, users), permissions);
    forall u
      ensures At(m.creds, u) == At(BothSynced(n, users, permissions), u)
    {
      UsersAt(n, users, u);
      PermissionsAt(UsersSynced(n, users), permissions, u);
      UsersKeepPermissions(n, users, u);
      BothAt(n, users, permissions, u);
    }
    SameMap(m.creds, BothSynced(n, users, permissions));
  }

  // With the permissions script first, they leave the same credentials, but also the unseen passwords.
  lemma SyncPermissionsFirst(n: Node, users: map<string, Credential>, permissions: map<string, Credential>)
    requires PermissionMap(permissions) && Keyed(n.creds)
    ensures UsersSynced(PermissionsSynced(n, permissions), users)
         == Node(BothSynced(n, users, permissions), UnseenPasswords(n, users))
  {
    PermissionsFirstCredentials(n, users, permissions);
    PermissionsFirstPasswords(n, users, permissions);
  }

  lemma PermissionsFirstCredentials(n: Node, users: map<string, Credential>, permissions: map<string, Credential>)
    requires PermissionMap(permissions) && Keyed(n.creds)
    ensures UsersSynced(PermissionsSynced(n, permissions), users).creds == BothSynced(n, users, permissions)
  {
    var w := UsersSynced(PermissionsSynced(n, permissions), users);
    forall u
      ensures At(w.creds, u) == At(BothSynced(n, users, permissions), u)
    {
      PermissionsAt(n, permissions, u);
      UsersAt(PermissionsSynced(n, permissions), users, u);
      PermissionsHideUsers(n, users, permissions, u);
      BothAt(n, users, permissions, u);
    }
    SameMap(w.creds, BothSynced(n, users, permissions));
  }

  lemma PermissionsFirstPasswords(n: Node, users: map<string, Credential>, permissions: map<string, Credential>)
    requires PermissionMap(permissions) && Keyed(n.creds)
    ensures UsersSynced(PermissionsSynced(n, permissions), users).passwords == UnseenPasswords(n, users)
  {
    var w := UsersSynced(PermissionsSynced(n, permissions), users);
    forall u
      ensures At(w.passwords, u) == At(UnseenPasswords(n, users), u)
    {
      UsersAt(PermissionsSynced(n, permissions), users, u);
      PermissionsAt(n, permissions, u);
      PermissionsHideUsers(n, users, permissions, u);
    }
    SameMap(w.passwords, UnseenPasswords(n, users));
  }

  // The order matters exactly when the permission of a JWT role hides an outdated user of the same
  // name whose password is cached.
  lemma SyncOrderFreeIff(n: Node, users: map<string, Credential>, permissions: map<string, Credential>)
    requires UserMap(users) && PermissionMap(permissions) && Keyed(n.creds)
    ensures PermissionsSynced(UsersSynced(n, users), permissions) == UsersSynced(PermissionsSynced(n, permissions), users)
       <==> forall u :: u in n.passwords && Outdated(n, users, u) ==> !PermissionNamed(n, u)
  {
    SyncUsersFirst(n, users, permissions);
    SyncPermissionsFirst(n, users, permissions);
    SamePasswordsIff(n, users);
  }

  lemma SamePasswordsIff(n: Node, users: map<string, Credential>)
    ensures CurrentPasswords(n, users) == UnseenPasswords(n, users) <==>
            forall u :: u in n.passwords && Outdated(n, users, u) ==> !PermissionNamed(n, u)
  {
    var current, unseen := CurrentPasswords(n, users), UnseenPasswords(n, users);
    if u :| u in n.passwords && Outdated(n, users, u) && PermissionNamed(n, u) {
      assert u in unseen && u !in current;
    } else {
      assert current == unseen;
    }
  }

  // What Elasticsearch has for the names that only one index knows.
  function Snapshot(users: map<string, Credential>, permissions: map<string, Credential>): map<string, Credential> {
    map u | u in users.Keys + permissions.Keys && !(u in users && u in permissions) :: if u in users then users[u] else permissions[u]
  }

  // The snapshot restricted to the cached names.
  function Restricted(n: Node, users: map<string, Credential>, permissions: map<string, Credential>): map<string, Credential> {
    map u | u in n.creds && u in Snapshot(users, permissions) :: Snapshot(users, permissions)[u]
  }

  // The credential was cached under its own name, and the snapshot has no other kind of that name.
  predicate OwnKind(n: Node, users: map<string, Credential>, permissions: map<string, Credential>, u: string)
    requires u in n.creds
  {
    n.creds[u].username == u && (if n.creds[u].User? then u !in permissions else u !in users)
  }

  // The credentials left are the snapshot restricted to the cached names exactly when every
  // credential was cached under its own name and no cached name is of the other kind in the snapshot.
  lemma SyncIsRestriction(n: Node, users: map<string, Credential>, permissions: map<string, Credential>)
    requires UserMap(users) && PermissionMap(permissions) && Keyed(n.creds)
    ensures PermissionsSynced(UsersSynced(n, users), permissions).creds == Restricted(n, users, permissions)
       <==> forall u :: u in n.creds ==> OwnKind(n, users, permissions, u)
  {
    SyncUsersFirst(n, users, permissions);
    RestrictionIff(n, users, permissions);
  }

  lemma RestrictionIff(n: Node, users: map<string, Credential>, permissions: map<string, Credential>)
    requires UserMap(users) && PermissionMap(permissions) && Keyed(n.creds)
    ensures BothSynced(n, users, permissions) == Restricted(n, users, permissions)
       <==> forall u :: u in n.creds ==> OwnKind(n, users, permissions, u)
  {
    var synced, restricted := BothSynced(n, users, permissions), Restricted(n, users, permissions);
    if "" in n.creds && n.creds[""].username != "" {
      WrongKindDiffers(n, users, permissions, "");
    } else if u :| u in n.creds && !OwnKind(n, users, permissions, u) {
      WrongKindDiffers(n, users, permissions, u);
    } else {
      forall u
        ensures At(synced, u) == At(restricted, u)
      {
        OwnKindAgrees(n, users, permissions, u);
      }
      SameMap(synced, restricted);
    }
  }

  lemma WrongKindDiffers(n: Node, users: map<string, Credential>, permissions: map<string, Credential>, u: string)
    requires UserMap(users) && PermissionMap(permissions) && Keyed(n.creds) && u in n.creds && !OwnKind(n, users, permissions, u)
    requires u == "" || ("" in n.creds ==> n.creds[""].username == "")
    ensures At(BothSynced(n, users, permissions), u) != At(Restricted(n, users, permissions), u)
  {
    BothAt(n, users, permissions, u);
    KeyedUser(n, users, u);
    OwnPermission(n, u);
  }

  lemma OwnKindAgrees(n: Node, users: map<string, Credential>, permissions: map<string, Credential>, u: string)
    requires UserMap(users) && PermissionMap(permissions) && Keyed(n.creds)
    requires forall v :: v in n.creds ==> OwnKind(n, users, permissions, v)
    ensures At(BothSynced(n, users, permissions), u) == At(Restricted(n, users, permissions), u)
  {
    BothAt(n, users, permissions, u);
    KeyedUser(n, users, u);
    OwnPermission(n, u);
  }

  lemma OwnPermission(n: Node, u: string)
    requires Keyed(n.creds)
    ensures u in n.creds && n.creds[u].Permission? && n.creds[u].username == u ==> PermissionNamed(n, u)
    ensures PermissionNamed(n, u) ==> (u in n.creds && n.creds[u].Permission?) || ("" in n.creds && n.creds[""].username == u)
  {
  }

  // A node whose cached passwords verify against its own cached users.
  ghost predicate LocallyConsistent(verify: Bcrypt, n: Node) {
    && Keyed(n.creds)
    && (forall u :: u in n.passwords && u in n.creds && u != "" ==> n.creds[u].User? && verify(n.creds[u].hash, n.passwords[u]))
  }

  // The node knows the name: as a key, of a password, or as the name of the JWT role's permission.
  ghost predicate Knows(n: Node, u: string) {
    u in n.creds || u in n.passwords || PermissionNamed(n, u)
  }

  // After both scripts, users first, have run on what Elasticsearch holds now, the caches agree with
  // it again exactly when the node knows no name that both indices have, and every cached password
  // without a cached credential still verifies: the scripts never look at those.
  lemma SyncRestoresCoherence(verify: Bcrypt, es: Store, n: Node)
    requires TypedStore(es) && WellKeyed(es) && LocallyConsistent(verify, n)
    ensures Coherent(verify, es, PermissionsSynced(UsersSynced(n, es.users), es.permissions)) <==>
            && (forall u :: u in es.users && u in es.permissions && u != "" ==> !Knows(n, u))
            && (forall u :: u in n.passwords && u !in n.creds && u != "" ==> u in es.users && verify(es.users[u].hash, n.passwords[u]))
  {
    SyncUsersFirst(n, es.users, es.permissions);
    SyncedCoherentIff(verify, es, n, Node(BothSynced(n, es.users, es.permissions), CurrentPasswords(n, es.users)));
  }

  lemma SyncedCoherentIff(verify: Bcrypt, es: Store, n: Node, m: Node)
    requires TypedStore(es) && WellKeyed(es) && LocallyConsistent(verify, n)
    requires m == Node(BothSynced(n, es.users, es.permissions), CurrentPasswords(n, es.users))
    ensures Coherent(verify, es, m) <==>
            && (forall u :: u in es.users && u in es.permissions && u != "" ==> !Knows(n, u))
            && (forall u :: u in n.passwords && u !in n.creds && u != "" ==> u in es.users && verify(es.users[u].hash, n.passwords[u]))
  {
    CoherentPointwise(verify, es, m);
    forall u | u != ""
      ensures FitsAt(verify, es, m, u) <==>
              && (u in es.users && u in es.permissions ==> !Knows(n, u))
              && (u in n.passwords && u !in n.creds ==> u in es.users && verify(es.users[u].hash, n.passwords[u]))
    {
      SyncedFitsIff(verify, es, n, m, u);
    }
  }

  lemma CoherentPointwise(verify: Bcrypt, es: Store, n: Node)
    ensures Coherent(verify, es, n) <==> forall u :: u != "" ==> FitsAt(verify, es, n, u)
  {
    if forall u :: u != "" ==> FitsAt(verify, es, n, u) {
      forall u | u != "" && (u in n.creds || u in n.passwords)
        ensures u in n.creds ==> Lookup(es, u) == Some(n.creds[u])
        ensures u in n.passwords ==>
                  Lookup(es, u).Some? && Lookup(es, u).value.User? && verify(Lookup(es, u).value.hash, n.passwords[u])
      {
        assert FitsAt(verify, es, n, u);
      }
    }
  }

  ghost predicate FitsAt(verify: Bcrypt, es: Store, n: Node, u: string) {
    && (u in n.creds ==> Lookup(es, u) == Some(n.creds[u]))
    && (u in n.passwords ==> Lookup(es, u).Some? && Lookup(es, u).value.User? && verify(Lookup(es, u).value.hash, n.passwords[u]))
  }

  lemma SyncedFitsIff(verify: Bcrypt, es: Store, n: Node, m: Node, u: string)
    requires TypedStore(es) && WellKeyed(es) && LocallyConsistent(verify, n) && u != ""
    requires m == Node(BothSynced(n, es.users, es.permissions), CurrentPasswords(n, es.users))
    ensures FitsAt(verify, es, m, u) <==>
            && (u in es.users && u in es.permissions ==> !Knows(n, u))
            && (u in n.passwords && u !in n.creds ==> u in es.users && verify(es.users[u].hash, n.passwords[u]))
  {
    NamedWhenKeyed(es, u);
    KeyedUser(n, es.users, u);
    OwnPermission(n, u);
  }
}
