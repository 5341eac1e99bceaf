/**
 * Operations on the two record collections that both the local store and
 * the session controller apply: the `map` that patches records by id, the
 * `map` that rewrites the owner's name and phone on requests, and the
 * `filter`s by owner.
 */
module Records {
  import opened Types
  import opened Seqs

  /**
   * `saved ? JSON.parse(saved) : []` for `localStorage.getItem(key)`:
   * `storage` is what the browser storage holds, already decoded, and a key
   * never written reads as empty.
   */
  function ReadOrEmpty<T>(storage: map<string, seq<T>>, key: string): (r: seq<T>)
    ensures key !in storage ==> r == []
    ensures key in storage ==> r == storage[key]
  {
    if key in storage then storage[key] else []
  }

  /** A write under one key leaves what every other key reads unchanged. */
  lemma WriteLeavesOtherKeys<T>(storage: map<string, seq<T>>, written: string, items: seq<T>, key: string)
    requires written != key
    ensures ReadOrEmpty(storage[written := items], key) == ReadOrEmpty(storage, key)
  {
  }

  /** `users.findIndex(u => u.id === id)`: the first index with that id, or -1. */
  function IndexOfUser(users: seq<User>, id: string): (i: int)
    ensures -1 <= i < |users|
    ensures i == -1 <==> forall k :: 0 <= k < |users| ==> users[k].id != id
    ensures i >= 0 ==> users[i].id == id && forall k :: 0 <= k < i ==> users[k].id != id
  {
    FirstIndex(users, (u: User) => u.id == id)
  }

  /**
   * `saveUser`'s upsert: an existing id is overwritten where it stands
   * (merging a complete user over the old entry yields that user), a new id
   * is appended; no other entry moves or changes.
   */
  function Upsert(users: seq<User>, user: User): (r: seq<User>)
    ensures user in r
    ensures (exists k :: 0 <= k < |users| && users[k].id == user.id) ==> |r| == |users|
    ensures (forall k :: 0 <= k < |users| ==> users[k].id != user.id) ==> r == users + [user]
    ensures forall k :: 0 <= k < |users| && users[k].id != user.id ==> r[k] == users[k]
    ensures forall k :: 0 <= k < |users| && users[k].id == user.id && (forall j :: 0 <= j < k ==> users[j].id != user.id)
              ==> r[k] == user
    ensures forall k :: 0 <= k < |users| && (exists j :: 0 <= j < k && users[j].id == user.id) ==> r[k] == users[k]
  {
    var i := IndexOfUser(users, user.id);
    if i >= 0 then
      var r := users[i := user];
      assert r[i] == user;
      r
    else users + [user]
  }

  /** No two users share an id. */
  predicate UniqueIds(users: seq<User>)
  {
    forall i, j :: 0 <= i < j < |users| ==> users[i].id != users[j].id
  }

  /** An upsert keeps ids unique, and afterwards `user` is the only entry with its id. */
  lemma {:induction false} UpsertKeepsIdsUnique(users: seq<User>, user: User)
    requires UniqueIds(users)
    ensures UniqueIds(Upsert(users, user))
    ensures forall u :: u in Upsert(users, user) && u.id == user.id ==> u == user
  {
    var r := Upsert(users, user);
    var i := IndexOfUser(users, user.id);
    forall a, b | 0 <= a < b < |r|
      ensures r[a].id != r[b].id
    {
      if i < 0 {
        if b == |users| {
          assert r[a] == users[a];
        }
      }
    }
    forall u | u in r && u.id == user.id
      ensures u == user
    {
      var k :| 0 <= k < |r| && r[k] == u;
    }
  }

  /** `users.map(u => u.id === id ? { ...u, ...updates } : u)`. */
  function PatchUsers(users: seq<User>, id: string, updates: UserPatch): (r: seq<User>)
    ensures |r| == |users|
    ensures forall i :: 0 <= i < |users| && users[i].id == id ==> r[i] == MergeUser(users[i], updates)
    ensures forall i :: 0 <= i < |users| && users[i].id != id ==> r[i] == users[i]
    ensures (forall i :: 0 <= i < |users| ==> users[i].id != id) ==> r == users
  {
    if users == [] then []
    else
      var rest := PatchUsers(users[1..], id, updates);
      var r := [if users[0].id == id then MergeUser(users[0], updates) else users[0]] + rest;
      assert forall i :: 0 < i < |users| ==> r[i] == rest[i - 1] && users[i] == users[1..][i - 1];
      r
  }

  /** `reqs.map(r => r.id === id ? { ...r, ...updates } : r)`. */
  function PatchRequests(reqs: seq<RequestItem>, id: string, updates: RequestPatch): (r: seq<RequestItem>)
    ensures |r| == |reqs|
    ensures forall i :: 0 <= i < |reqs| && reqs[i].id == id ==> r[i] == MergeRequest(reqs[i], updates)
    ensures forall i :: 0 <= i < |reqs| && reqs[i].id != id ==> r[i] == reqs[i]
  {
    if reqs == [] then []
    else
      var rest := PatchRequests(reqs[1..], id, updates);
      var r := [if reqs[0].id == id then MergeRequest(reqs[0], updates) else reqs[0]] + rest;
      assert forall i :: 0 < i < |reqs| ==> r[i] == rest[i - 1] && reqs[i] == reqs[1..][i - 1];
      r
  }

  /**
   * Patching by id twice, where the first patch keeps the id, is one patch
   * by the combination of the two.
   */
  lemma {:induction false} PatchRequestsTwice(reqs: seq<RequestItem>, id: string, p: RequestPatch, q: RequestPatch)
    requires p.id.None?
    ensures PatchRequests(PatchRequests(reqs, id, p), id, q) == PatchRequests(reqs, id, ThenPatch(p, q))
  {
    if reqs != [] {
      PatchRequestsTwice(reqs[1..], id, p, q);
      MergeTwice(reqs[0], p, q);
    }
  }

  /** The request `r` with its owner copies replaced. */
  function WithOwnerFields(r: RequestItem, name: string, phone: string): RequestItem
  {
    r.(userName := name, userPhone := phone)
  }

  /** `syncUserToRequests`' map: rewrites the owner copies on every request of `userId`. */
  function SyncOwnerFields(reqs: seq<RequestItem>, userId: string, name: string, phone: string): (r: seq<RequestItem>)
    ensures |r| == |reqs|
    ensures forall i :: 0 <= i < |reqs| && reqs[i].userId == userId ==> r[i].userName == name && r[i].userPhone == phone
    ensures forall i :: 0 <= i < |reqs| ==> r[i] == WithOwnerFields(reqs[i], r[i].userName, r[i].userPhone)
    ensures forall i :: 0 <= i < |reqs| && reqs[i].userId != userId ==> r[i] == reqs[i]
  {
    if reqs == [] then []
    else
      var rest := SyncOwnerFields(reqs[1..], userId, name, phone);
      var r := [if reqs[0].userId == userId then WithOwnerFields(reqs[0], name, phone) else reqs[0]] + rest;
      assert forall i :: 0 < i < |reqs| ==> r[i] == rest[i - 1] && reqs[i] == reqs[1..][i - 1];
      r
  }

  /** Re-running the propagation is harmless: it is idempotent. */
  lemma {:induction false} SyncIdempotent(reqs: seq<RequestItem>, userId: string, name: string, phone: string)
    ensures SyncOwnerFields(SyncOwnerFields(reqs, userId, name, phone), userId, name, phone)
         == SyncOwnerFields(reqs, userId, name, phone)
  {
    if reqs != [] {
      SyncIdempotent(reqs[1..], userId, name, phone);
      var once := SyncOwnerFields(reqs, userId, name, phone);
      assert once[1..] == SyncOwnerFields(reqs[1..], userId, name, phone);
    }
  }

  /** Every request `u` owns shows `u`'s current name and phone. */
  ghost predicate InSync(u: User, reqs: seq<RequestItem>)
  {
    forall r :: r in reqs && r.userId == u.id ==> r.userName == u.fullName && r.userPhone == u.phoneNumber
  }

  /**
   * Editing a user's name and phone and then propagating them leaves every
   * user with that id in sync with its requests, whatever the copies held before.
   */
  lemma EditThenSyncAgrees(users: seq<User>, reqs: seq<RequestItem>, id: string, name: string, phone: string)
    ensures forall u :: u in PatchUsers(users, id, UserPatch(None, Some(name), Some(phone), None)) && u.id == id
                        ==> InSync(u, SyncOwnerFields(reqs, id, name, phone))
  {
    var edited := PatchUsers(users, id, UserPatch(None, Some(name), Some(phone), None));
    forall u | u in edited && u.id == id
      ensures u.fullName == name && u.phoneNumber == phone
    {
      var i :| 0 <= i < |edited| && edited[i] == u;
      assert users[i].id == id;
    }
  }

  /** `requests.filter(r => r.userId === userId)`. */
  function RequestsOf(reqs: seq<RequestItem>, userId: string): (r: seq<RequestItem>)
    ensures forall x :: x in r <==> x in reqs && x.userId == userId
  {
    Filter(reqs, (x: RequestItem) => x.userId == userId)
  }

  /** `requests.filter(r => r.userId !== userId)`: the cascade of a user delete. */
  function RequestsNotOf(reqs: seq<RequestItem>, userId: string): (r: seq<RequestItem>)
    ensures forall x :: x in r <==> x in reqs && x.userId != userId
    ensures RequestsOf(r, userId) == []
  {
    var kept := Filter(reqs, (x: RequestItem) => x.userId != userId);
    FilterKeepsNone(kept, (x: RequestItem) => x.userId == userId);
    kept
  }

  /** `users.filter(u => u.id !== id)`. */
  function UsersExcept(users: seq<User>, id: string): (r: seq<User>)
    ensures forall u :: u in r <==> u in users && u.id != id
  {
    Filter(users, (u: User) => u.id != id)
  }

  /** A user's requests and the rest split the collection. */
  lemma OwnerSplit(reqs: seq<RequestItem>, userId: string)
    ensures multiset(RequestsOf(reqs, userId)) + multiset(RequestsNotOf(reqs, userId)) == multiset(reqs)
  {
    FilterPartition(reqs, (x: RequestItem) => x.userId == userId, (x: RequestItem) => x.userId != userId);
  }
}
