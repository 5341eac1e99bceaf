/**
 * The local branch of the record store: two collections, users and
 * requests, each persisted as one blob under its own key. Every operation
 * reads the collection, changes it, and writes the whole collection back;
 * here the collections are the two fields of `LocalStore`.
 */
module DataStore {
  import opened Types
  import opened Records

  const UsersKey: string := "apfiles_users"
  const RequestsKey: string := "apfiles_requests"

  class LocalStore {
    var users: seq<User>
    var requests: seq<RequestItem>

    /**
     * Opens the store from what the browser storage holds under the store's
     * two keys, read as users and as requests.
     */
    constructor (storedUsers: map<string, seq<User>>, storedRequests: map<string, seq<RequestItem>>)
      ensures users == ReadOrEmpty(storedUsers, UsersKey)
      ensures requests == ReadOrEmpty(storedRequests, RequestsKey)
    {
      users := ReadOrEmpty(storedUsers, UsersKey);
      requests := ReadOrEmpty(storedRequests, RequestsKey);
    }

    /** `saveUser`: upsert by id; the position is found with `findIndex` and written in place or pushed. */
    method SaveUser(user: User)
      modifies this
      ensures users == Upsert(old(users), user)
      ensures requests == old(requests)
    {
      var index := IndexOfUser(users, user.id);
      if index >= 0 {
        users := users[index := user];
      } else {
        users := users + [user];
      }
    }

    /** `updateUserPartial`: merges `updates` into every user with that id. */
    method UpdateUserPartial(id: string, updates: UserPatch)
      modifies this
      ensures users == PatchUsers(old(users), id, updates)
      ensures requests == old(requests)
    {
      users := PatchUsers(users, id, updates);
    }

    /** `deleteUser`: removes the user and, in the same call, every request it owns. */
    method DeleteUser(id: string)
      modifies this
      ensures users == UsersExcept(old(users), id)
      ensures requests == RequestsNotOf(old(requests), id)
    {
      users := UsersExcept(users, id);
      requests := RequestsNotOf(requests, id);
    }

    /** `addRequest`: appends. */
    method AddRequest(request: RequestItem)
      modifies this
      ensures requests == old(requests) + [request]
      ensures users == old(users)
    {
      requests := requests + [request];
    }

    /** `updateRequest`: merges `updates` into every request with that id. */
    method UpdateRequest(id: string, updates: RequestPatch)
      modifies this
      ensures requests == PatchRequests(old(requests), id, updates)
      ensures users == old(users)
    {
      requests := PatchRequests(requests, id, updates);
    }

    /** `syncUserToRequests`: rewrites the owner copies on the user's requests. */
    method SyncUserToRequests(userId: string, name: string, phone: string)
      modifies this
      ensures requests == SyncOwnerFields(old(requests), userId, name, phone)
      ensures users == old(users)
    {
      requests := SyncOwnerFields(requests, userId, name, phone);
    }
  }
}
