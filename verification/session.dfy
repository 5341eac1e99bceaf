/**
 * The top-level controller: the logged-in user and in-memory copies of the
 * users and requests, loaded once from their own storage keys (not the
 * store's keys; this controller never goes through the store). Which screen
 * it shows depends only on the logged-in user.
 */
module Session {
  import opened Types
  import opened Seqs
  import opened Records
  import StudentDashboard
  import BuilderDashboard
  import DataStore

  const RequestsKey: string := "edulink_requests"
  const UsersKey: string := "edulink_users"

  /**
   * The controller persists under its own keys, so what it writes is never
   * what the store reads back: a write of users or requests by the
   * controller leaves the store's view of the storage as it was.
   */
  lemma ControllerWritesMissStore(storedUsers: map<string, seq<User>>, users: seq<User>,
                                  storedRequests: map<string, seq<RequestItem>>, requests: seq<RequestItem>)
    ensures ReadOrEmpty(storedUsers[UsersKey := users], DataStore.UsersKey) == ReadOrEmpty(storedUsers, DataStore.UsersKey)
    ensures ReadOrEmpty(storedRequests[RequestsKey := requests], DataStore.RequestsKey)
         == ReadOrEmpty(storedRequests, DataStore.RequestsKey)
  {
    WriteLeavesOtherKeys(storedUsers, UsersKey, users, DataStore.UsersKey);
    WriteLeavesOtherKeys(storedRequests, RequestsKey, requests, DataStore.RequestsKey);
  }

  datatype Screen = AuthScreen | BuilderScreen | StudentScreen

  /** Nobody logged in sees the login form; a builder the builder dashboard; anyone else the student one. */
  function ScreenFor(user: Option<User>): (s: Screen)
    ensures s == AuthScreen <==> user.None?
    ensures s == BuilderScreen <==> user.Some? && user.value.role == Builder
    ensures s == StudentScreen <==> user.Some? && user.value.role == Student
  {
    match user
    case None => AuthScreen
    case Some(u) =>
      match u.role
      case Builder => BuilderScreen
      case Student => StudentScreen
  }

  /**
   * The request a student submission creates: fresh id and timestamp, the
   * owner's current name and phone copied on, status PENDING, no content.
   */
  function NewRequest(owner: User, id: string, now: int, subject: Subject, unit: string, requestType: RequestType,
                      materialCategory: Option<MaterialCategory>, attachedFile: Option<File>, description: Option<string>): (r: RequestItem)
    ensures r.id == id && r.createdAt == now && r.status == Pending && r.content.None?
    ensures r.userId == owner.id && r.userName == owner.fullName && r.userPhone == owner.phoneNumber
    ensures r.subject == subject && r.unit == unit && r.requestType == requestType && r.materialCategory == materialCategory
    ensures r.attachedFileName.Some? <==> attachedFile.Some?
    ensures attachedFile.Some? ==> r.attachedFileName == Some(attachedFile.value.name)
    ensures r.description.Some? <==> description.Some? && description.value != ""
    ensures r.description.Some? ==> r.description == description
  {
    RequestItem(
      id, owner.id, owner.fullName, owner.phoneNumber, subject, unit, requestType, materialCategory,
      if attachedFile.Some? then Some(attachedFile.value.name) else None,
      NonEmpty(description),
      Pending, None, now)
  }

  /** A submission the student form lets through becomes a well-formed request. */
  lemma SubmittedRequestWellFormed(view: StudentDashboard.View, form: StudentDashboard.Form, owner: User, id: string, now: int)
    requires StudentDashboard.SubmissionFor(view, form).Some?
    ensures var s := StudentDashboard.SubmissionFor(view, form).value;
            WellFormed(NewRequest(owner, id, now, s.subject, s.unit, s.requestType, s.materialCategory, s.attachedFile, s.description))
  {
  }

  /** A submitted request shows up at the end of its owner's feed and nobody else's. */
  lemma {:induction false} SubmissionJoinsFeed(reqs: seq<RequestItem>, r: RequestItem, viewer: User)
    ensures r.userId == viewer.id ==> RequestsOf(reqs + [r], viewer.id) == RequestsOf(reqs, viewer.id) + [r]
    ensures r.userId != viewer.id ==> RequestsOf(reqs + [r], viewer.id) == RequestsOf(reqs, viewer.id)
  {
    FilterAppend(reqs, [r], (x: RequestItem) => x.userId == viewer.id);
    assert [r][1..] == [];
  }

  /**
   * The builder screen as this controller renders it: it passes the requests,
   * the users and the request callback, but neither `onUpdateUser` nor
   * `onDeleteUser`, so saving an edit or deleting a student throws there.
   */
  method RenderBuilderScreen() returns (screen: BuilderDashboard.Dashboard)
    ensures fresh(screen) && !screen.userCallbacks
    ensures screen.activeTab == BuilderDashboard.RequestsTab && screen.processingId.None? && screen.editingUser.None?
  {
    screen := new BuilderDashboard.Dashboard(false);
  }

  class App {
    var user: Option<User>
    var requests: seq<RequestItem>
    var users: seq<User>

    /** The first render: nobody logged in, both copies loaded from storage. */
    constructor (storedRequests: map<string, seq<RequestItem>>, storedUsers: map<string, seq<User>>)
      ensures user.None?
      ensures requests == ReadOrEmpty(storedRequests, RequestsKey)
      ensures users == ReadOrEmpty(storedUsers, UsersKey)
    {
      user := None;
      requests := ReadOrEmpty(storedRequests, RequestsKey);
      users := ReadOrEmpty(storedUsers, UsersKey);
    }

    method HandleLogin(loggedInUser: User)
      modifies this
      ensures user == Some(loggedInUser)
      ensures requests == old(requests) && users == old(users)
    {
      user := Some(loggedInUser);
    }

    /** Appends the new user as given: no uniqueness check happens here. */
    method HandleRegister(newUser: User)
      modifies this
      ensures users == old(users) + [newUser]
      ensures user == old(user) && requests == old(requests)
    {
      users := users + [newUser];
    }

    method HandleLogout()
      modifies this
      ensures user.None?
      ensures requests == old(requests) && users == old(users)
    {
      user := None;
    }

    /**
     * Ignored when nobody is logged in; otherwise appends the new request
     * built from the logged-in user. `id` and `now` stand for
     * `crypto.randomUUID()` and `Date.now()`.
     */
    method HandleStudentRequest(subject: Subject, unit: string, requestType: RequestType,
                                materialCategory: Option<MaterialCategory>, attachedFile: Option<File>,
                                description: Option<string>, id: string, now: int)
      modifies this
      ensures old(user).None? ==> requests == old(requests)
      ensures old(user).Some? ==>
        requests == old(requests) + [NewRequest(old(user).value, id, now, subject, unit, requestType,
                                                materialCategory, attachedFile, description)]
      ensures user == old(user) && users == old(users)
    {
      if user.None? {
        return;
      }
      var newRequest := NewRequest(user.value, id, now, subject, unit, requestType, materialCategory, attachedFile, description);
      requests := requests + [newRequest];
    }

    /** Merges `updates` into the requests with that id; nothing else moves. */
    method HandleBuilderUpdate(id: string, updates: RequestPatch)
      modifies this
      ensures requests == PatchRequests(old(requests), id, updates)
      ensures user == old(user) && users == old(users)
    {
      requests := PatchRequests(requests, id, updates);
    }
  }
}
