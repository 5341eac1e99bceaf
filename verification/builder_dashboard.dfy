/**
 * The builder screen: the request queue split into pending and completed,
 * the activity log, the student table with per-student totals and a
 * request history, the two-step processing of a request, and the modal
 * that edits a student's name and phone. The screen changes nothing itself:
 * it hands updates to its parent, and those are its results here.
 */
module BuilderDashboard {
  import opened Types
  import opened Seqs
  import opened Constants
  import opened Records
  import opened Generation

  /** `requests.filter(r => r.status !== 'COMPLETED')`. */
  function PendingRequests(requests: seq<RequestItem>): (pending: seq<RequestItem>)
    ensures forall r :: r in pending <==> r in requests && r.status != Completed
  {
    Filter(requests, (r: RequestItem) => r.status != Completed)
  }

  /** `requests.filter(r => r.status === 'COMPLETED')`. */
  function CompletedRequests(requests: seq<RequestItem>): (completed: seq<RequestItem>)
    ensures forall r :: r in completed <==> r in requests && r.status == Completed
  {
    Filter(requests, (r: RequestItem) => r.status == Completed)
  }

  /** Every request is in exactly one of the two lists, as many times as it is stored. */
  lemma QueuePartition(requests: seq<RequestItem>)
    ensures multiset(PendingRequests(requests)) + multiset(CompletedRequests(requests)) == multiset(requests)
    ensures |PendingRequests(requests)| + |CompletedRequests(requests)| == |requests|
  {
    FilterPartition(requests, (r: RequestItem) => r.status != Completed, (r: RequestItem) => r.status == Completed);
  }

  /** Both lists keep the stored order: the lists of a concatenation are the concatenated lists. */
  lemma QueueKeepsStoredOrder(older: seq<RequestItem>, newer: seq<RequestItem>)
    ensures PendingRequests(older + newer) == PendingRequests(older) + PendingRequests(newer)
    ensures CompletedRequests(older + newer) == CompletedRequests(older) + CompletedRequests(newer)
  {
    FilterAppend(older, newer, (r: RequestItem) => r.status != Completed);
    FilterAppend(older, newer, (r: RequestItem) => r.status == Completed);
  }

  /** `completedRequests.slice().reverse()`: the completed requests, last stored first. */
  function ActivityLog(requests: seq<RequestItem>): (log: seq<RequestItem>)
    ensures |log| == |CompletedRequests(requests)|
    ensures forall i :: 0 <= i < |log| ==> log[i] == CompletedRequests(requests)[|log| - 1 - i]
    ensures multiset(log) == multiset(CompletedRequests(requests))
    ensures forall r :: r in log <==> r in requests && r.status == Completed
  {
    var completed := CompletedRequests(requests);
    var log := Reverse(completed);
    assert forall r :: r in log <==> r in multiset(completed);
    log
  }

  /** `users.filter(u => u.role !== 'BUILDER')`: with two roles, exactly the students. */
  function Students(users: seq<User>): (students: seq<User>)
    ensures forall u :: u in students <==> u in users && u.role == Student
  {
    Filter(users, (u: User) => u.role != Builder)
  }

  /** The count on the students tab, zero exactly when every user is a builder. */
  function StudentCount(users: seq<User>): (n: nat)
    ensures n == |users| - |Filter(users, (u: User) => u.role == Builder)|
    ensures n == 0 <==> forall u :: u in users ==> u.role == Builder
  {
    FilterPartition(users, (u: User) => u.role != Builder, (u: User) => u.role == Builder);
    var students := Students(users);
    assert students != [] ==> students[0] in students;
    |students|
  }

  /** A student's "total requests": the requests they own, the rest being everybody else's. */
  function RequestCount(requests: seq<RequestItem>, student: User): (n: nat)
    ensures n == |requests| - |RequestsNotOf(requests, student.id)|
    ensures n == 0 <==> forall r :: r in requests ==> r.userId != student.id
  {
    OwnerSplit(requests, student.id);
    var mine := RequestsOf(requests, student.id);
    assert |multiset(mine)| + |multiset(RequestsNotOf(requests, student.id))| == |multiset(requests)|;
    assert mine != [] ==> mine[0] in mine;
    |mine|
  }

  /** Newest first: `createdAt` never increases along the sequence. */
  predicate NewestFirst(rs: seq<RequestItem>)
  {
    forall i, j :: 0 <= i < j < |rs| ==> rs[i].createdAt >= rs[j].createdAt
  }

  /** Puts `x` in front of the first request that is not newer than it. */
  function InsertByNewest(x: RequestItem, rs: seq<RequestItem>): (r: seq<RequestItem>)
    ensures multiset(r) == multiset(rs) + multiset{x}
    ensures |r| == |rs| + 1
  {
    if rs == [] then [x]
    else if rs[0].createdAt <= x.createdAt then [x] + rs
    else
      assert rs == [rs[0]] + rs[1..];
      [rs[0]] + InsertByNewest(x, rs[1..])
  }

  /** A request no newer than `a` heads a newest-first sequence to give one. */
  lemma ConsNewestFirst(a: RequestItem, s: seq<RequestItem>)
    requires NewestFirst(s)
    requires forall y :: y in s ==> y.createdAt <= a.createdAt
    ensures NewestFirst([a] + s)
  {
    var r := [a] + s;
    forall i, j | 0 <= i < j < |r|
      ensures r[i].createdAt >= r[j].createdAt
    {
      assert r[j] == s[j - 1];
      if i == 0 {
        assert s[j - 1] in s;
      } else {
        assert r[i] == s[i - 1];
      }
    }
  }

  /** Inserting into a newest-first sequence keeps it newest first. */
  lemma {:induction false} InsertKeepsNewestFirst(x: RequestItem, rs: seq<RequestItem>)
    requires NewestFirst(rs)
    ensures NewestFirst(InsertByNewest(x, rs))
  {
    if rs == [] {
    } else if rs[0].createdAt <= x.createdAt {
      forall y | y in rs
        ensures y.createdAt <= x.createdAt
      {
        var j :| 0 <= j < |rs| && rs[j] == y;
      }
      ConsNewestFirst(x, rs);
    } else {
      var rest := InsertByNewest(x, rs[1..]);
      InsertKeepsNewestFirst(x, rs[1..]);
      forall y | y in rest
        ensures y.createdAt <= rs[0].createdAt
      {
        assert y in multiset(rest);
        if y != x {
          assert y in multiset(rs[1..]);
          var j :| 0 <= j < |rs[1..]| && rs[1..][j] == y;
          assert rs[j + 1] == y;
        }
      }
      ConsNewestFirst(rs[0], rest);
    }
  }

  /**
   * `.sort((a, b) => b.createdAt - a.createdAt)`: newest first, and stable,
   * as the language's sort is; this is an insertion sort from the back.
   */
  function SortNewestFirst(rs: seq<RequestItem>): (sorted: seq<RequestItem>)
    ensures NewestFirst(sorted)
    ensures multiset(sorted) == multiset(rs)
    ensures |sorted| == |rs|
  {
    if rs == [] then []
    else
      assert rs == [rs[0]] + rs[1..];
      var rest := SortNewestFirst(rs[1..]);
      InsertKeepsNewestFirst(rs[0], rest);
      InsertByNewest(rs[0], rest)
  }

  /** The requests created at time `t`, in order. */
  function Ties(rs: seq<RequestItem>, t: int): seq<RequestItem>
  {
    Filter(rs, (r: RequestItem) => r.createdAt == t)
  }

  /** Inserting `x` puts it before every request with the same timestamp. */
  lemma {:induction false} InsertKeepsTies(x: RequestItem, rs: seq<RequestItem>, t: int)
    ensures Ties(InsertByNewest(x, rs), t) == Ties([x] + rs, t)
  {
    var tie := (r: RequestItem) => r.createdAt == t;
    if rs != [] && rs[0].createdAt > x.createdAt {
      var rest := InsertByNewest(x, rs[1..]);
      InsertKeepsTies(x, rs[1..], t);
      FilterAppend([rs[0]], rest, tie);
      FilterAppend([x], rs[1..], tie);
      FilterAppend([rs[0]], rs[1..], tie);
      FilterAppend([x], rs, tie);
      assert rs == [rs[0]] + rs[1..];
      assert InsertByNewest(x, rs) == [rs[0]] + rest;
      if rs[0].createdAt == t {
        assert x.createdAt != t;
        assert Filter([x], tie) == [];
      }
    }
  }

  /** The sort is stable: requests created at the same time keep their stored order. */
  lemma {:induction false} SortIsStable(rs: seq<RequestItem>, t: int)
    ensures Ties(SortNewestFirst(rs), t) == Ties(rs, t)
  {
    if rs != [] {
      var tie := (r: RequestItem) => r.createdAt == t;
      SortIsStable(rs[1..], t);
      InsertKeepsTies(rs[0], SortNewestFirst(rs[1..]), t);
      FilterAppend([rs[0]], SortNewestFirst(rs[1..]), tie);
      FilterAppend([rs[0]], rs[1..], tie);
      assert rs == [rs[0]] + rs[1..];
    }
  }

  /** The history modal: the user's own requests, newest first. */
  function History(requests: seq<RequestItem>, user: User): (history: seq<RequestItem>)
    ensures NewestFirst(history)
    ensures multiset(history) == multiset(RequestsOf(requests, user.id))
    ensures forall r :: r in history <==> r in requests && r.userId == user.id
  {
    var mine := RequestsOf(requests, user.id);
    var history := SortNewestFirst(mine);
    assert forall r :: r in history <==> r in multiset(mine);
    history
  }

  /**
   * `getCategoryLabel`: the option's label for a category; no category has
   * no label. The code itself would only be shown for a category without a
   * labelled option, and every category has one.
   */
  function CategoryLabel(category: Option<MaterialCategory>): (shown: Option<string>)
    ensures category.None? ==> shown.None?
    ensures category.Some? ==> shown.Some? && exists o :: o in MaterialOptions && o.value == category.value && o.caption == shown.value
  {
    match category
    case None => None
    case Some(c) =>
      MaterialOptionsComplete();
      match FindOption(MaterialOptions, c)
      case Some(o) => if o.caption != "" then Some(o.caption) else Some(CategoryCode(c))
      case None => Some(CategoryCode(c))
  }

  /** A call of `onUpdateRequest`. */
  datatype RequestUpdate = RequestUpdate(id: string, updates: RequestPatch)

  /** A call of `onUpdateUser`. */
  datatype UserUpdate = UserUpdate(userId: string, updates: UserPatch)

  /**
   * What a handler does with an optional callback prop: no call, a call with
   * its argument, or the `TypeError` of calling a prop the parent left
   * undefined, which ends the handler there.
   */
  datatype Handoff<T> = NoCall | Called(arg: T) | Threw

  /** The patch the edit modal sends: both fields, whether edited or not. */
  function EditPatch(name: string, phone: string): (p: UserPatch)
    ensures p.fullName == Some(name) && p.phoneNumber == Some(phone)
    ensures p.id.None? && p.role.None?
  {
    UserPatch(None, Some(name), Some(phone), None)
  }

  /**
   * The two updates of processing, applied in order, leave every request with
   * that id completed with the text and otherwise as it was: the intermediate
   * PROCESSING status leaves no trace.
   */
  lemma {:induction false} ProcessingEndsCompleted(requests: seq<RequestItem>, id: string, text: string)
    ensures var after := PatchRequests(PatchRequests(requests, id, StatusPatch(Processing)), id, CompletionPatch(text));
            && after == PatchRequests(requests, id, CompletionPatch(text))
            && |after| == |requests|
            && forall i :: 0 <= i < |requests| && requests[i].id == id ==>
                 after[i] == requests[i].(status := Completed, content := Some(text))
  {
    PatchRequestsTwice(requests, id, StatusPatch(Processing), CompletionPatch(text));
    assert ThenPatch(StatusPatch(Processing), CompletionPatch(text)) == CompletionPatch(text);
  }

  /**
   * Saving an edit nobody changed is harmless: when ids are unique, patching
   * a stored user with its own name and phone changes no user.
   */
  lemma {:induction false} UneditedSaveChangesNothing(users: seq<User>, u: User)
    requires UniqueIds(users) && u in users
    ensures PatchUsers(users, u.id, EditPatch(u.fullName, u.phoneNumber)) == users
  {
    var patched := PatchUsers(users, u.id, EditPatch(u.fullName, u.phoneNumber));
    var k :| 0 <= k < |users| && users[k] == u;
    forall i | 0 <= i < |users| && users[i].id == u.id
      ensures users[i] == u
    {
      assert i == k;
    }
    assert MergeUser(u, EditPatch(u.fullName, u.phoneNumber)) == u;
  }

  datatype Tab = RequestsTab | StudentsTab

  class Dashboard {
    /** Whether the parent supplies `onUpdateUser` and `onDeleteUser`; the controller does not. */
    const userCallbacks: bool
    var activeTab: Tab
    var processingId: Option<string>
    var editingUser: Option<User>
    var viewingHistoryUser: Option<User>
    var editName: string
    var editPhone: string

    constructor (userCallbacks: bool)
      ensures this.userCallbacks == userCallbacks
      ensures activeTab == RequestsTab && processingId.None?
      ensures editingUser.None? && viewingHistoryUser.None? && editName == "" && editPhone == ""
    {
      this.userCallbacks := userCallbacks;
      activeTab := RequestsTab;
      processingId := None;
      editingUser := None;
      viewingHistoryUser := None;
      editName := "";
      editPhone := "";
    }

    /**
     * `disabled={!!processingId}`: every process button is disabled while a
     * request is processing; an empty id does not count, being falsy.
     */
    predicate ProcessDisabled(): (disabled: bool)
      reads this
      ensures processingId.None? ==> !disabled
      ensures processingId == Some("") ==> !disabled
      ensures processingId.Some? && processingId.value != "" ==> disabled
    {
      processingId.Some? && processingId.value != ""
    }

    method SelectTab(tab: Tab)
      modifies this
      ensures activeTab == tab
      ensures processingId == old(processingId) && editingUser == old(editingUser)
      ensures viewingHistoryUser == old(viewingHistoryUser) && editName == old(editName) && editPhone == old(editPhone)
    {
      activeTab := tab;
    }

    /** The first half of `handleProcess`: marks the request and asks for PROCESSING. */
    method BeginProcess(req: RequestItem) returns (update: RequestUpdate)
      modifies this
      ensures processingId == Some(req.id)
      ensures ProcessDisabled() <==> req.id != ""
      ensures update == RequestUpdate(req.id, StatusPatch(Processing))
      ensures activeTab == old(activeTab) && editingUser == old(editingUser)
      ensures viewingHistoryUser == old(viewingHistoryUser) && editName == old(editName) && editPhone == old(editPhone)
    {
      processingId := Some(req.id);
      update := RequestUpdate(req.id, StatusPatch(Processing));
    }

    /**
     * The second half, once the generator has answered: asks for COMPLETED
     * with the generated text and clears the mark. `model` stands for the
     * text model behind the generator.
     */
    method FinishProcess(req: RequestItem, model: Prompt -> ModelReply) returns (update: RequestUpdate)
      modifies this
      ensures processingId.None? && !ProcessDisabled()
      ensures update.id == req.id
      ensures update.updates == CompletionPatch(GenerateStudyMaterial(req.subject, req.unit, req.requestType, req.materialCategory,
                                                                     req.attachedFileName, req.description, model))
      ensures update.updates.content.Some? && update.updates.content.value.Some? && update.updates.content.value.value != ""
      ensures activeTab == old(activeTab) && editingUser == old(editingUser)
      ensures viewingHistoryUser == old(viewingHistoryUser) && editName == old(editName) && editPhone == old(editPhone)
    {
      var content := GenerateStudyMaterial(req.subject, req.unit, req.requestType, req.materialCategory,
                                           req.attachedFileName, req.description, model);
      update := RequestUpdate(req.id, CompletionPatch(content));
      processingId := None;
    }

    /** `handleProcess`: exactly two updates for the request, PROCESSING and then COMPLETED. */
    method HandleProcess(req: RequestItem, model: Prompt -> ModelReply) returns (updates: seq<RequestUpdate>)
      modifies this
      ensures |updates| == 2
      ensures updates[0] == RequestUpdate(req.id, StatusPatch(Processing))
      ensures updates[1] == RequestUpdate(req.id, CompletionPatch(GenerateStudyMaterial(req.subject, req.unit, req.requestType,
                                                    req.materialCategory, req.attachedFileName, req.description, model)))
      ensures processingId.None?
      ensures activeTab == old(activeTab) && editingUser == old(editingUser)
      ensures viewingHistoryUser == old(viewingHistoryUser) && editName == old(editName) && editPhone == old(editPhone)
    {
      var first := BeginProcess(req);
      var second := FinishProcess(req, model);
      updates := [first, second];
    }

    /** `openEditModal`: the form starts from the user's current name and phone. */
    method OpenEditModal(user: User)
      modifies this
      ensures editingUser == Some(user) && editName == user.fullName && editPhone == user.phoneNumber
      ensures activeTab == old(activeTab) && processingId == old(processingId) && viewingHistoryUser == old(viewingHistoryUser)
    {
      editingUser := Some(user);
      editName := user.fullName;
      editPhone := user.phoneNumber;
    }

    method SetEditName(value: string)
      modifies this
      ensures editName == value
      ensures activeTab == old(activeTab) && processingId == old(processingId) && editingUser == old(editingUser)
      ensures viewingHistoryUser == old(viewingHistoryUser) && editPhone == old(editPhone)
    {
      editName := value;
    }

    method SetEditPhone(value: string)
      modifies this
      ensures editPhone == value
      ensures activeTab == old(activeTab) && processingId == old(processingId) && editingUser == old(editingUser)
      ensures viewingHistoryUser == old(viewingHistoryUser) && editName == old(editName)
    {
      editPhone := value;
    }

    /** The close and cancel buttons of the edit modal. */
    method CloseEditModal()
      modifies this
      ensures editingUser.None?
      ensures activeTab == old(activeTab) && processingId == old(processingId)
      ensures viewingHistoryUser == old(viewingHistoryUser) && editName == old(editName) && editPhone == old(editPhone)
    {
      editingUser := None;
    }

    /**
     * `handleSaveUser`: with a user being edited, sends both fields for its
     * id and then closes the modal; without one, does nothing. When the
     * parent supplied no `onUpdateUser` the call throws before the modal is
     * closed, so the modal stays open with its fields.
     */
    method HandleSaveUser() returns (call: Handoff<UserUpdate>)
      modifies this
      ensures old(editingUser).None? ==> call == NoCall && editingUser.None?
      ensures old(editingUser).Some? && userCallbacks ==>
        call == Called(UserUpdate(old(editingUser).value.id, EditPatch(old(editName), old(editPhone))))
        && editingUser.None?
      ensures old(editingUser).Some? && !userCallbacks ==> call == Threw && editingUser == old(editingUser)
      ensures activeTab == old(activeTab) && processingId == old(processingId)
      ensures viewingHistoryUser == old(viewingHistoryUser) && editName == old(editName) && editPhone == old(editPhone)
    {
      call := NoCall;
      if editingUser.Some? {
        if !userCallbacks {
          return Threw;
        }
        call := Called(UserUpdate(editingUser.value.id, EditPatch(editName, editPhone)));
        editingUser := None;
      }
    }

    /**
     * The delete button of a student row: passes the student's id to
     * `onDeleteUser`, which throws when the parent supplied none; the screen's
     * own state never changes.
     */
    method DeleteStudent(student: User) returns (call: Handoff<string>)
      ensures userCallbacks ==> call == Called(student.id)
      ensures !userCallbacks ==> call == Threw
    {
      call := if userCallbacks then Called(student.id) else Threw;
    }

    /** The history button of a student row, and the modal's close buttons. */
    method ViewHistory(user: Option<User>)
      modifies this
      ensures viewingHistoryUser == user
      ensures activeTab == old(activeTab) && processingId == old(processingId) && editingUser == old(editingUser)
      ensures editName == old(editName) && editPhone == old(editPhone)
    {
      viewingHistoryUser := user;
    }
  }
}
