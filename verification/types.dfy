/**
 * The domain records of the request broker: users (students and the single
 * builder/admin identity) and the study-material or answer-key requests
 * they own, plus the `Partial<...>` patches the handlers merge into them.
 */
module Types {

  datatype Option<+T> = None | Some(value: T)

  /** `UserRole`: the builder is the administrator. */
  datatype UserRole = Student | Builder

  datatype User = User(id: string, fullName: string, phoneNumber: string, role: UserRole)

  datatype Subject = Chemistry | Biology | Physics | Calculus

  datatype RequestType = StudyGuide | AnswerKey

  datatype MaterialCategory = MockExam | Assignment | Practice | All

  datatype Status = Pending | Processing | Completed

  /**
   * `RequestItem`. `userName` and `userPhone` are copies of the owner's
   * `fullName` and `phoneNumber`, kept for display and for sending.
   */
  datatype RequestItem = RequestItem(
    id: string,
    userId: string,
    userName: string,
    userPhone: string,
    subject: Subject,
    unit: string,
    requestType: RequestType,
    materialCategory: Option<MaterialCategory>,
    attachedFileName: Option<string>,
    description: Option<string>,
    status: Status,
    content: Option<string>,
    createdAt: int)

  /** A browser `File`; only its name is ever read. */
  datatype File = File(name: string)

  /** The string value of a material category. */
  function CategoryCode(c: MaterialCategory): string
  {
    match c
    case MockExam => "MOCK_EXAM"
    case Assignment => "ASSIGNMENT"
    case Practice => "PRACTICE"
    case All => "ALL"
  }

  /** `text || undefined`: the empty string becomes absent. */
  function NonEmpty(text: Option<string>): (r: Option<string>)
    ensures r.Some? <==> text.Some? && text.value != ""
    ensures r.Some? ==> r == text
  {
    match text
    case None => None
    case Some(t) => if t == "" then None else Some(t)
  }

  /** The well-formedness rule for requests: each type carries what it needs. */
  predicate WellFormed(r: RequestItem)
  {
    && (r.requestType == StudyGuide ==> r.materialCategory.Some?)
    && (r.requestType == AnswerKey ==> r.attachedFileName.Some?)
  }

  /** The value a patch field gives: the supplied one, else the current one. */
  function Pick<T>(supplied: Option<T>, current: T): T
  {
    match supplied
    case Some(v) => v
    case None => current
  }

  /** `Partial<User>`: a field that is `None` is left as it is. */
  datatype UserPatch = UserPatch(
    id: Option<string>,
    fullName: Option<string>,
    phoneNumber: Option<string>,
    role: Option<UserRole>)

  /** `{ ...u, ...updates }` for users: every key the patch has wins, every other key is kept. */
  function MergeUser(u: User, p: UserPatch): (m: User)
    ensures p.id.Some? ==> m.id == p.id.value
    ensures p.id.None? ==> m.id == u.id
    ensures p.fullName.Some? ==> m.fullName == p.fullName.value
    ensures p.fullName.None? ==> m.fullName == u.fullName
    ensures p.phoneNumber.Some? ==> m.phoneNumber == p.phoneNumber.value
    ensures p.phoneNumber.None? ==> m.phoneNumber == u.phoneNumber
    ensures p.role.Some? ==> m.role == p.role.value
    ensures p.role.None? ==> m.role == u.role
  {
    User(Pick(p.id, u.id), Pick(p.fullName, u.fullName), Pick(p.phoneNumber, u.phoneNumber), Pick(p.role, u.role))
  }

  /**
   * `Partial<RequestItem>`. For an optional field the outer `None` means the
   * key is absent and `Some(None)` means it is present and `undefined`.
   */
  datatype RequestPatch = RequestPatch(
    id: Option<string>,
    userId: Option<string>,
    userName: Option<string>,
    userPhone: Option<string>,
    subject: Option<Subject>,
    unit: Option<string>,
    requestType: Option<RequestType>,
    materialCategory: Option<Option<MaterialCategory>>,
    attachedFileName: Option<Option<string>>,
    description: Option<Option<string>>,
    status: Option<Status>,
    content: Option<Option<string>>,
    createdAt: Option<int>)

  const NoRequestChanges: RequestPatch :=
    RequestPatch(None, None, None, None, None, None, None, None, None, None, None, None, None)

  /** `{ status }`. */
  function StatusPatch(s: Status): RequestPatch
  {
    NoRequestChanges.(status := Some(s))
  }

  /** `{ status: 'COMPLETED', content }`. */
  function CompletionPatch(text: string): RequestPatch
  {
    NoRequestChanges.(status := Some(Completed), content := Some(Some(text)))
  }

  /** `{ ...r, ...updates }` for requests: every key the patch has wins, every other key is kept. */
  function MergeRequest(r: RequestItem, p: RequestPatch): (m: RequestItem)
    ensures p.id.Some? ==> m.id == p.id.value
    ensures p.id.None? ==> m.id == r.id
    ensures p.userId.Some? ==> m.userId == p.userId.value
    ensures p.userId.None? ==> m.userId == r.userId
    ensures p.userName.Some? ==> m.userName == p.userName.value
    ensures p.userName.None? ==> m.userName == r.userName
    ensures p.userPhone.Some? ==> m.userPhone == p.userPhone.value
    ensures p.userPhone.None? ==> m.userPhone == r.userPhone
    ensures p.subject.Some? ==> m.subject == p.subject.value
    ensures p.subject.None? ==> m.subject == r.subject
    ensures p.unit.Some? ==> m.unit == p.unit.value
    ensures p.unit.None? ==> m.unit == r.unit
    ensures p.requestType.Some? ==> m.requestType == p.requestType.value
    ensures p.requestType.None? ==> m.requestType == r.requestType
    ensures p.materialCategory.Some? ==> m.materialCategory == p.materialCategory.value
    ensures p.materialCategory.None? ==> m.materialCategory == r.materialCategory
    ensures p.attachedFileName.Some? ==> m.attachedFileName == p.attachedFileName.value
    ensures p.attachedFileName.None? ==> m.attachedFileName == r.attachedFileName
    ensures p.description.Some? ==> m.description == p.description.value
    ensures p.description.None? ==> m.description == r.description
    ensures p.status.Some? ==> m.status == p.status.value
    ensures p.status.None? ==> m.status == r.status
    ensures p.content.Some? ==> m.content == p.content.value
    ensures p.content.None? ==> m.content == r.content
    ensures p.createdAt.Some? ==> m.createdAt == p.createdAt.value
    ensures p.createdAt.None? ==> m.createdAt == r.createdAt
  {
    RequestItem(
      Pick(p.id, r.id),
      Pick(p.userId, r.userId),
      Pick(p.userName, r.userName),
      Pick(p.userPhone, r.userPhone),
      Pick(p.subject, r.subject),
      Pick(p.unit, r.unit),
      Pick(p.requestType, r.requestType),
      Pick(p.materialCategory, r.materialCategory),
      Pick(p.attachedFileName, r.attachedFileName),
      Pick(p.description, r.description),
      Pick(p.status, r.status),
      Pick(p.content, r.content),
      Pick(p.createdAt, r.createdAt))
  }

  /** The patch that applies `p` and then `q`: later keys win. */
  function ThenPatch(p: RequestPatch, q: RequestPatch): RequestPatch
  {
    RequestPatch(
      if q.id.Some? then q.id else p.id,
      if q.userId.Some? then q.userId else p.userId,
      if q.userName.Some? then q.userName else p.userName,
      if q.userPhone.Some? then q.userPhone else p.userPhone,
      if q.subject.Some? then q.subject else p.subject,
      if q.unit.Some? then q.unit else p.unit,
      if q.requestType.Some? then q.requestType else p.requestType,
      if q.materialCategory.Some? then q.materialCategory else p.materialCategory,
      if q.attachedFileName.Some? then q.attachedFileName else p.attachedFileName,
      if q.description.Some? then q.description else p.description,
      if q.status.Some? then q.status else p.status,
      if q.content.Some? then q.content else p.content,
      if q.createdAt.Some? then q.createdAt else p.createdAt)
  }

  /** Merging two patches one after the other is merging their combination. */
  lemma MergeTwice(r: RequestItem, p: RequestPatch, q: RequestPatch)
    ensures MergeRequest(MergeRequest(r, p), q) == MergeRequest(r, ThenPatch(p, q))
  {
  }

  /** Merging the same patch again changes nothing. */
  lemma MergeIdempotent(r: RequestItem, p: RequestPatch)
    ensures MergeRequest(MergeRequest(r, p), p) == MergeRequest(r, p)
  {
  }
}
