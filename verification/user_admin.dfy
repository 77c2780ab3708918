/**
  The user pages of the admin area: the `createUser` request cleaning, the new-user form
  (validation, error clearing, submit), the handler hook over the user API, the user
  section (search, first load, pagination control) and the older in-memory user list.
*/
module UserAdmin {
  import opened Wrappers
  import opened Text
  import Lists
  import JsNumber
  import MockIds
  import EmailRules

  datatype User = User(
    id: string,
    name: string,
    email: string,
    phone: string,
    cpfOrCnpj: string,
    plan: string,
    apiKey: string,
    maxQueries: int,
    isOnline: Option<string>,
    activeAccount: bool,
    isAdmin: bool,
    createdAt: string,
    updatedAt: string)

  function Id(u: User): string {
    u.id
  }

  /** The five fields a new user is typed with. */
  datatype UserDraft = UserDraft(name: string, email: string, phone: string, cpfOrCnpj: string, plan: string)

  /** The handler hook's empty draft. */
  const EmptyUserDraft := UserDraft("", "", "", "", "")

  // ---------------------------------------------------------------------------------------
  // `userService.createUser`: the required-field check and the cleaning of the record

  datatype CreateInput = CreateInput(
    name: string,
    email: string,
    password: string,
    phone: Option<string>,
    cpfOrCnpj: string,
    plan: string,
    apiKey: Option<string>)

  /** The body posted to `/users`: exactly these seven keys. */
  datatype CleanedUser = CleanedUser(
    name: string,
    email: string,
    password: string,
    phone: string,
    cpfOrCnpj: string,
    plan: string,
    apiKey: string)

  /** The five fields `createUser` requires, and the key it reports for each. */
  datatype Required = RequiredName | RequiredEmail | RequiredPassword | RequiredPlan | RequiredCpfOrCnpj

  function RequiredKey(f: Required): string {
    match f
    case RequiredName => "name"
    case RequiredEmail => "email"
    case RequiredPassword => "password"
    case RequiredPlan => "plan"
    case RequiredCpfOrCnpj => "cpfOrCnpj"
  }

  /** The order in which the service checks the required fields. */
  const RequiredOrder := [RequiredName, RequiredEmail, RequiredPassword, RequiredPlan, RequiredCpfOrCnpj]

  function RequiredValue(input: CreateInput, f: Required): string {
    match f
    case RequiredName => input.name
    case RequiredEmail => input.email
    case RequiredPassword => input.password
    case RequiredPlan => input.plan
    case RequiredCpfOrCnpj => input.cpfOrCnpj
  }

  /** The required fields that are empty, in the service's order. */
  function MissingFields(input: CreateInput): (r: seq<Required>)
    ensures forall f :: f in r <==> RequiredValue(input, f) == []
    ensures r == [] <==> input.name != [] && input.email != [] && input.password != [] && input.plan != [] && input.cpfOrCnpj != []
  {
    Lists.Kept(input.name == [], RequiredName)
    + (Lists.Kept(input.email == [], RequiredEmail)
    + (Lists.Kept(input.password == [], RequiredPassword)
    + (Lists.Kept(input.plan == [], RequiredPlan)
    + Lists.Kept(input.cpfOrCnpj == [], RequiredCpfOrCnpj))))
  }

  /** The missing fields are reported in the service's order: name, email, password, plan, cpfOrCnpj. */
  lemma MissingFieldsInOrder(input: CreateInput)
    ensures Lists.IsSubseq(MissingFields(input), RequiredOrder)
  {
    Lists.KeptInOrder(RequiredName, RequiredEmail, RequiredPassword, RequiredPlan, RequiredCpfOrCnpj,
      input.name == [], input.email == [], input.password == [], input.plan == [], input.cpfOrCnpj == []);
  }

  /** `value?.trim() || ""`. */
  function TrimmedOrEmpty(value: Option<string>): (r: string)
    ensures value.None? ==> r == []
    ensures value.Some? ==> r == Trim(value.value)
  {
    if value.None? then [] else Trim(value.value)
  }

  /**
    The cleaning: name, phone, CPF/CNPJ and plan trimmed, the e-mail trimmed and
    lower-cased, the password sent as given, a missing api key sent as "".
  */
  function Clean(input: CreateInput): (r: CleanedUser)
    ensures r.name == Trim(input.name) && r.plan == Trim(input.plan) && r.cpfOrCnpj == Trim(input.cpfOrCnpj)
    ensures r.email == Lower(Trim(input.email))
    ensures r.password == input.password
    ensures r.phone == TrimmedOrEmpty(input.phone)
    ensures r.apiKey == input.apiKey.GetOr([])
  {
    CleanedUser(Trim(input.name), Lower(Trim(input.email)), input.password, TrimmedOrEmpty(input.phone),
                Trim(input.cpfOrCnpj), Trim(input.plan), input.apiKey.GetOr([]))
  }

  /** What `createUser` does: throw naming the missing fields, or post the cleaned record. */
  datatype CreateOutcome = MissingRequired(fields: seq<Required>) | Post(body: CleanedUser)

  function CreateUser(input: CreateInput): (r: CreateOutcome)
    ensures r.MissingRequired? <==> MissingFields(input) != []
    ensures r.MissingRequired? ==> r.fields == MissingFields(input)
    ensures r.Post? ==> r.body == Clean(input)
  {
    var missing := MissingFields(input);
    if missing != [] then MissingRequired(missing) else Post(Clean(input))
  }

  /** `missingFields.join(', ')`. */
  function JoinComma(names: seq<string>): string {
    if |names| == 0 then []
    else if |names| == 1 then names[0]
    else names[0] + ", " + JoinComma(names[1..])
  }

  /** The thrown message. */
  function MissingMessage(fields: seq<Required>): string {
    "Missing required fields: " + JoinComma(Lists.Map(fields, RequiredKey))
  }

  /** The cleaned body read back as input. */
  function AsInput(c: CleanedUser): CreateInput {
    CreateInput(c.name, c.email, c.password, Some(c.phone), c.cpfOrCnpj, c.plan, Some(c.apiKey))
  }

  /** Cleaning a cleaned record changes nothing: every text it trims is already trimmed. */
  lemma CleanIsIdempotent(input: CreateInput)
    ensures Clean(AsInput(Clean(input))) == Clean(input)
  {
    TrimIdempotent(input.name);
    TrimIdempotent(input.plan);
    TrimIdempotent(input.cpfOrCnpj);
    PhoneCleanIdempotent(input.phone);
    EmailCleanIdempotent(input.email);
  }

  lemma PhoneCleanIdempotent(phone: Option<string>)
    ensures TrimmedOrEmpty(Some(TrimmedOrEmpty(phone))) == TrimmedOrEmpty(phone)
  {
    if phone.Some? {
      TrimIdempotent(phone.value);
    } else {
      assert IsTrimmed([]);
      TrimOfTrimmed([]);
    }
  }

  /** A lower-cased, trimmed address is left as it is by trimming and lower-casing again. */
  lemma EmailCleanIdempotent(email: string)
    ensures Lower(Trim(Lower(Trim(email)))) == Lower(Trim(email))
  {
    var e := Trim(email);
    LowerTrimmed(e);
    TrimOfTrimmed(Lower(e));
    LowerIdempotent(e);
  }

  /** A name of blanks passes the check, which looks at the raw text, and is sent empty. */
  lemma BlankNamePassesCheck(input: CreateInput)
    requires input.name != [] && Blank(input.name)
    requires input.email != [] && input.password != [] && input.plan != [] && input.cpfOrCnpj != []
    ensures CreateUser(input).Post? && CreateUser(input).body.name == []
  {
  }

  // ---------------------------------------------------------------------------------------
  // The new-user form

  datatype Field = NameField | EmailField | PasswordField | PhoneField | CpfOrCnpjField | PlanField

  datatype FormData = FormData(name: string, email: string, password: string, phone: string, cpfOrCnpj: string, plan: string)

  /** The form starts from the parent's draft, with an empty password. */
  function InitialForm(d: UserDraft): (r: FormData)
    ensures r.password == [] && r.name == d.name && r.email == d.email && r.plan == d.plan
    ensures r.phone == d.phone && r.cpfOrCnpj == d.cpfOrCnpj
  {
    FormData(d.name, d.email, [], d.phone, d.cpfOrCnpj, d.plan)
  }

  /** `value || previous`. */
  function OrPrevious(value: string, previous: string): string {
    if value == [] then previous else value
  }

  /**
    The effect that follows the parent's draft: each non-empty field of the draft replaces
    the form's, an empty one keeps it; the password is untouched.
  */
  function SyncForm(prev: FormData, d: UserDraft): (r: FormData)
    ensures r.password == prev.password
    ensures d.name != [] ==> r.name == d.name
    ensures d.name == [] ==> r.name == prev.name
    ensures d.email != [] ==> r.email == d.email
    ensures d.email == [] ==> r.email == prev.email
    ensures r.phone == (if d.phone == [] then prev.phone else d.phone)
    ensures r.cpfOrCnpj == (if d.cpfOrCnpj == [] then prev.cpfOrCnpj else d.cpfOrCnpj)
    ensures r.plan == (if d.plan == [] then prev.plan else d.plan)
  {
    FormData(OrPrevious(d.name, prev.name), OrPrevious(d.email, prev.email), prev.password,
             OrPrevious(d.phone, prev.phone), OrPrevious(d.cpfOrCnpj, prev.cpfOrCnpj), OrPrevious(d.plan, prev.plan))
  }

  /** An emptied draft does not clear the form: the typed values stay. */
  lemma EmptyDraftKeepsForm(prev: FormData)
    ensures SyncForm(prev, EmptyUserDraft) == prev
  {
  }

  const NameRequired := "Nome é obrigatório"
  const EmailRequired := "Email é obrigatório"
  const PasswordRequired := "Senha é obrigatória"
  const PlanRequired := "Plano é obrigatório"
  const EmailInvalid := "Email inválido"

  /** `validateForm`'s error map. */
  function FormErrors(f: FormData): (r: map<Field, string>)
    ensures NameField in r <==> f.name == []
    ensures EmailField in r <==> !EmailRules.FormEmail(f.email)
    ensures PasswordField in r <==> f.password == []
    ensures PlanField in r <==> f.plan == []
    ensures PhoneField !in r && CpfOrCnpjField !in r
    ensures EmailField in r ==> r[EmailField] == (if f.email == [] then EmailRequired else EmailInvalid)
  {
    var m0: map<Field, string> := map[];
    var m1 := if f.name == [] then m0[NameField := NameRequired] else m0;
    var m2 := if f.email == [] then m1[EmailField := EmailRequired] else m1;
    var m3 := if f.password == [] then m2[PasswordField := PasswordRequired] else m2;
    var m4 := if f.plan == [] then m3[PlanField := PlanRequired] else m3;
    if f.email != [] && !EmailRules.FormEmail(f.email) then m4[EmailField := EmailInvalid] else m4
  }

  /** The form is valid when the error map has no key. */
  predicate FormValid(f: FormData) {
    |FormErrors(f)| == 0
  }

  /** Valid exactly when name, password and plan are non-empty and the e-mail fits the pattern. */
  lemma FormValidIff(f: FormData)
    ensures FormValid(f) <==> f.name != [] && f.password != [] && f.plan != [] && EmailRules.FormEmail(f.email)
  {
    var e := FormErrors(f);
    if !(f.name != [] && f.password != [] && f.plan != [] && EmailRules.FormEmail(f.email)) {
      assert NameField in e || EmailField in e || PasswordField in e || PlanField in e;
      assert e.Keys != {};
    } else {
      assert forall k :: k !in e;
      assert e.Keys == {};
    }
  }

  /** The value a form field holds. */
  function FieldValue(f: FormData, g: Field): string {
    match g
    case NameField => f.name
    case EmailField => f.email
    case PasswordField => f.password
    case PhoneField => f.phone
    case CpfOrCnpjField => f.cpfOrCnpj
    case PlanField => f.plan
  }

  /** Typing into a field: the field takes the value; its error, if it shows one, is blanked. */
  function InputChange(f: FormData, errors: map<Field, string>, field: Field, value: string): (r: (FormData, map<Field, string>))
    ensures FieldValue(r.0, field) == value
    ensures forall g :: g != field ==> FieldValue(r.0, g) == FieldValue(f, g)
    ensures field in errors && errors[field] != [] ==> r.1 == errors[field := []]
    ensures !(field in errors && errors[field] != []) ==> r.1 == errors
    ensures forall g :: g != field ==> (g in r.1 <==> g in errors) && (g in errors ==> r.1[g] == errors[g])
  {
    var f' := match field
      case NameField => f.(name := value)
      case EmailField => f.(email := value)
      case PasswordField => f.(password := value)
      case PhoneField => f.(phone := value)
      case CpfOrCnpjField => f.(cpfOrCnpj := value)
      case PlanField => f.(plan := value);
    var errors' := if field in errors && errors[field] != [] then errors[field := []] else errors;
    (f', errors')
  }

  /** The value typed lands in its field and in no other. */
  lemma InputChangeSetsOnlyItsField(f: FormData, errors: map<Field, string>, value: string)
    ensures InputChange(f, errors, NameField, value).0 == f.(name := value)
    ensures InputChange(f, errors, PlanField, value).0 == f.(plan := value)
    ensures InputChange(f, errors, PasswordField, value).0 == f.(password := value)
    ensures InputChange(f, errors, EmailField, value).0 == f.(email := value)
    ensures InputChange(f, errors, PhoneField, value).0 == f.(phone := value)
    ensures InputChange(f, errors, CpfOrCnpjField, value).0 == f.(cpfOrCnpj := value)
  {
  }

  /** The draft handed to the parent on a valid submit: every field but the password. */
  function DraftOf(f: FormData): (r: UserDraft)
    ensures r.name == f.name && r.email == f.email && r.phone == f.phone && r.cpfOrCnpj == f.cpfOrCnpj && r.plan == f.plan
  {
    UserDraft(f.name, f.email, f.phone, f.cpfOrCnpj, f.plan)
  }

  // ---------------------------------------------------------------------------------------
  // The handler hook

  /** `quantityRegisters` when `loadUsers` is called without one. */
  const PageQuantity := 50

  /** The error message the create toast shows, when the thrown error carries the parts. */
  datatype CreateError = CreateError(responseMessage: Option<string>, responseError: Option<string>, message: Option<string>)

  const DefaultCreateMessage := "Não foi possível criar o usuário."

  /** The first present, non-empty one of the response's message, its error, the error's own message. */
  function CreateErrorMessage(e: CreateError): (r: string)
    ensures e.responseMessage.Some? && e.responseMessage.value != [] ==> r == e.responseMessage.value
    ensures (e.responseMessage.None? || e.responseMessage.value == []) && e.responseError.Some? && e.responseError.value != [] ==>
      r == e.responseError.value
    ensures ((e.responseMessage.None? || e.responseMessage.value == []) && (e.responseError.None? || e.responseError.value == [])
             && e.message.Some? && e.message.value != []) ==> r == e.message.value
    ensures r == DefaultCreateMessage || Some(r) == e.responseMessage || Some(r) == e.responseError || Some(r) == e.message
  {
    if e.responseMessage.Some? && e.responseMessage.value != [] then e.responseMessage.value
    else if e.responseError.Some? && e.responseError.value != [] then e.responseError.value
    else if e.message.Some? && e.message.value != [] then e.message.value
    else DefaultCreateMessage
  }

  /** The message of the client-side check's error. */
  const RequiredMessage := "Campos obrigatórios não preenchidos. Verifique nome, email, senha e plano."

  /** The client-side error carries only its own message, so that message is shown. */
  lemma LocalErrorShowsItsMessage(m: string)
    requires m != []
    ensures CreateErrorMessage(CreateError(None, None, Some(m))) == m
  {
  }

  datatype UserUpdate = UserUpdate(name: string, email: string, phone: string, cpfOrCnpj: string, plan: string)

  /** The API calls the hook makes. */
  datatype Request =
    | LoadUsers(page: int, quantity: int)
    | UpdateUser(id: string, data: UserUpdate)
    | CreateUserRequest(input: CreateInput)
    | DeleteUser(id: string)

  datatype Handlers = Handlers(
    users: seq<User>,
    loading: bool,
    currentPage: int,
    totalPages: int,
    userToEdit: Option<User>,
    editOpen: bool,
    newOpen: bool,
    userToDelete: Option<string>,
    hasLoadedInitially: bool,
    newUser: UserDraft)

  const InitialHandlers := Handlers([], false, 1, 1, None, false, false, None, false, EmptyUserDraft)

  /** The answer to `getUsers`: a failure, a body without `objRecords`, or `objRecords`' three parts. */
  datatype UsersAnswer =
    | LoadFailed
    | NoRecordsObject
    | RecordsObject(records: Option<seq<User>>, page: Option<int>, totalPages: Option<int>)

  /** `n || 1` on a number: a missing or zero number gives 1. */
  function OrOne(n: Option<int>): (r: int)
    ensures r != 0
    ensures n.Some? && n.value != 0 ==> r == n.value
  {
    if n.None? || n.value == 0 then 1 else n.value
  }

  datatype Event =
    | Load(page: int)
    | LoadAnswered(answer: UsersAnswer)
    | Edit(u: User)
    | Update
    | UpdateSucceeded
    | SetNewUser(draft: UserDraft)
    | Create(password: string)
    | CreateSucceeded
    | CreateFailed(error: CreateError)
    | UpdateFailed
    | OpenDelete(id: string)
    | Delete
    | DeleteSucceeded
    | DeleteFailed
    | OpenNew
    | PageChange(page: int)

  /** The descriptions of the load, update and delete failure toasts. */
  const LoadFailedMessage := "Não foi possível carregar a lista de usuários."
  const UpdateFailedMessage := "Não foi possível atualizar o usuário."
  const DeleteFailedMessage := "Não foi possível remover o usuário."

  /** The state after an event, the request it sends, and the error toast it shows, if any. */
  datatype Step = Step(state: Handlers, request: Option<Request>, error: Option<string>)

  function UpdateOf(u: User): (r: UserUpdate)
    ensures r.name == u.name && r.email == u.email && r.phone == u.phone && r.cpfOrCnpj == u.cpfOrCnpj && r.plan == u.plan
  {
    UserUpdate(u.name, u.email, u.phone, u.cpfOrCnpj, u.plan)
  }

  /** The create data: the draft's fields and the password; the api key is left out. */
  function CreateDataOf(d: UserDraft, password: string): (r: CreateInput)
    ensures r.name == d.name && r.email == d.email && r.password == password && r.plan == d.plan
    ensures r.phone == Some(d.phone) && r.cpfOrCnpj == d.cpfOrCnpj && r.apiKey.None?
  {
    CreateInput(d.name, d.email, password, Some(d.phone), d.cpfOrCnpj, d.plan, None)
  }

  /** The hook's own check before a create: name, e-mail, plan and password non-empty. */
  predicate PassesCreateCheck(d: UserDraft, password: string) {
    d.name != [] && d.email != [] && d.plan != [] && password != []
  }

  /** `loadUsers(page)`: the loading flag is raised and the page is requested. */
  function Reload(s: Handlers, page: int): Step {
    Step(s.(loading := true), Some(LoadUsers(page, PageQuantity)), None)
  }

  function Handle(s: Handlers, e: Event): (r: Step)
    ensures e.Load? ==> r.request == Some(LoadUsers(e.page, PageQuantity)) && r.state.loading
    ensures e.LoadAnswered? ==> !r.state.loading && r.request.None?
    ensures e.LoadAnswered? && !e.answer.RecordsObject? ==> r.state == s.(loading := false)
    ensures e.LoadAnswered? ==> (r.error.Some? <==> e.answer.LoadFailed?)
    ensures e.LoadAnswered? && e.answer.LoadFailed? ==> r.error == Some(LoadFailedMessage)
    ensures e.LoadAnswered? && e.answer.RecordsObject? ==>
      && r.state.users == e.answer.records.GetOr([])
      && r.state.currentPage == OrOne(e.answer.page)
      && r.state.totalPages == OrOne(e.answer.totalPages)
      && r.state.hasLoadedInitially
    ensures e.Update? && s.userToEdit.None? ==> r == Step(s, None, None)
    ensures e.Update? && s.userToEdit.Some? ==> r.request == Some(UpdateUser(s.userToEdit.value.id, UpdateOf(s.userToEdit.value)))
    ensures e.UpdateSucceeded? ==>
      r.request == Some(LoadUsers(s.currentPage, PageQuantity)) && !r.state.editOpen && r.state.userToEdit.None?
    ensures e.Create? ==> (r.request.Some? <==> PassesCreateCheck(s.newUser, e.password))
    ensures e.Create? && r.request.Some? ==> r.request.value == CreateUserRequest(CreateDataOf(s.newUser, e.password))
    ensures e.Create? && r.request.None? ==> r.error == Some(RequiredMessage) && r.state == s
    ensures e.CreateSucceeded? ==>
      r.request == Some(LoadUsers(s.currentPage, PageQuantity)) && !r.state.newOpen && r.state.newUser == EmptyUserDraft
    ensures e.CreateFailed? ==> r == Step(s, None, Some(CreateErrorMessage(e.error)))
    ensures e.UpdateFailed? ==> r == Step(s, None, Some(UpdateFailedMessage))
    ensures e.DeleteFailed? ==> r == Step(s, None, Some(DeleteFailedMessage))
    ensures e.Delete? && (s.userToDelete.None? || s.userToDelete.value == []) ==> r == Step(s, None, None)
    ensures e.Delete? && s.userToDelete.Some? && s.userToDelete.value != [] ==> r.request == Some(DeleteUser(s.userToDelete.value))
    ensures e.DeleteSucceeded? ==> r.state.userToDelete.None? && r.request == Some(LoadUsers(s.currentPage, PageQuantity))
    ensures e.OpenNew? ==> r.state == s.(newUser := EmptyUserDraft, newOpen := true)
    ensures e.PageChange? ==> r.state.currentPage == e.page && r.request == Some(LoadUsers(e.page, PageQuantity))
  {
    match e
    case Load(page) => Reload(s, page)
    case LoadAnswered(answer) =>
      if answer.RecordsObject? then
        Step(s.(users := answer.records.GetOr([]), currentPage := OrOne(answer.page), totalPages := OrOne(answer.totalPages),
                hasLoadedInitially := true, loading := false), None, None)
      else Step(s.(loading := false), None, if answer.LoadFailed? then Some(LoadFailedMessage) else None)
    case Edit(u) => Step(s.(userToEdit := Some(u), editOpen := true), None, None)
    case Update =>
      if s.userToEdit.None? then Step(s, None, None)
      else Step(s, Some(UpdateUser(s.userToEdit.value.id, UpdateOf(s.userToEdit.value))), None)
    case UpdateSucceeded => Reload(s.(editOpen := false, userToEdit := None), s.currentPage)
    case SetNewUser(draft) => Step(s.(newUser := draft), None, None)
    case Create(password) =>
      if !PassesCreateCheck(s.newUser, password) then Step(s, None, Some(RequiredMessage))
      else Step(s, Some(CreateUserRequest(CreateDataOf(s.newUser, password))), None)
    case CreateSucceeded => Reload(s.(newOpen := false, newUser := EmptyUserDraft), s.currentPage)
    case CreateFailed(error) => Step(s, None, Some(CreateErrorMessage(error)))
    case UpdateFailed => Step(s, None, Some(UpdateFailedMessage))
    case OpenDelete(id) => Step(s.(userToDelete := Some(id)), None, None)
    case Delete =>
      if s.userToDelete.None? || s.userToDelete.value == [] then Step(s, None, None)
      else Step(s, Some(DeleteUser(s.userToDelete.value)), None)
    case DeleteSucceeded => Reload(s.(userToDelete := None), s.currentPage)
    case DeleteFailed => Step(s, None, Some(DeleteFailedMessage))
    case OpenNew => Step(s.(newUser := EmptyUserDraft, newOpen := true), None, None)
    case PageChange(page) => Reload(s.(currentPage := page), page)
  }

  /**
    A draft that passes the hook's check but has no CPF/CNPJ is sent, and the service then
    refuses it for the one missing field the hook does not check.
  */
  lemma CpfCheckedOnlyByService(s: Handlers, password: string)
    requires PassesCreateCheck(s.newUser, password) && s.newUser.cpfOrCnpj == []
    ensures Handle(s, Create(password)).request == Some(CreateUserRequest(CreateDataOf(s.newUser, password)))
    ensures CreateUser(CreateDataOf(s.newUser, password)) == MissingRequired([RequiredCpfOrCnpj])
  {
  }

  /** A failed or empty load leaves the hook not loaded: the section's effect will ask again. */
  lemma FailedLoadStaysUnloaded(s: Handlers, answer: UsersAnswer)
    requires !answer.RecordsObject? && !s.hasLoadedInitially
    ensures ShouldLoad(Handle(s, LoadAnswered(answer)).state.hasLoadedInitially, Handle(s, LoadAnswered(answer)).state.loading)
  {
  }

  /** A load with `objRecords` ends the section's automatic loading for good. */
  lemma AnsweredLoadStopsAutoLoad(s: Handlers, records: Option<seq<User>>, page: Option<int>, totalPages: Option<int>)
    ensures !ShouldLoad(Handle(s, LoadAnswered(RecordsObject(records, page, totalPages))).state.hasLoadedInitially,
                        Handle(s, LoadAnswered(RecordsObject(records, page, totalPages))).state.loading)
  {
  }

  // ---------------------------------------------------------------------------------------
  // Submitting the new-user form into the hook

  /**
    `handleSubmit` as written: on a valid form the parent's draft is set to the form's
    values and the create runs with the password, but the create reads the draft of the
    render that bound it, `s.newUser`, not the draft just set.
  */
  function SubmitAsWritten(s: Handlers, f: FormData): (r: Step)
    ensures !FormValid(f) ==> r == Step(s, None, None)
    ensures FormValid(f) ==> r == Step(Handle(s, Create(f.password)).state.(newUser := DraftOf(f)),
                                       Handle(s, Create(f.password)).request, Handle(s, Create(f.password)).error)
  {
    if !FormValid(f) then Step(s, None, None)
    else
      var step := Handle(s, Create(f.password));
      Step(step.state.(newUser := DraftOf(f)), step.request, step.error)
  }

  /**
    Right after the dialog is opened the draft is empty, so submitting any valid form is
    refused with the required-fields message and nothing is sent.
  */
  lemma FreshDialogSubmitRefused(s: Handlers, f: FormData)
    requires FormValid(f)
    ensures SubmitAsWritten(Handle(s, OpenNew).state, f).request.None?
    ensures SubmitAsWritten(Handle(s, OpenNew).state, f).error == Some(RequiredMessage)
  {
  }

  /** The submit with the create reading the values just submitted. */
  function SubmitFixed(s: Handlers, f: FormData): (r: Step)
    ensures !FormValid(f) ==> r == Step(s, None, None)
    ensures FormValid(f) ==> r == Handle(s.(newUser := DraftOf(f)), Create(f.password))
  {
    if !FormValid(f) then Step(s, None, None)
    else Handle(s.(newUser := DraftOf(f)), Create(f.password))
  }

  /** With the fix, every valid form is sent, carrying exactly what was typed. */
  lemma ValidFormIsSent(s: Handlers, f: FormData)
    requires FormValid(f)
    ensures SubmitFixed(s, f).request ==
      Some(CreateUserRequest(CreateInput(f.name, f.email, f.password, Some(f.phone), f.cpfOrCnpj, f.plan, None)))
  {
    FormValidIff(f);
  }

  // ---------------------------------------------------------------------------------------
  // The user section

  /** The section's effect: load when nothing was loaded yet and no load is running. */
  predicate ShouldLoad(hasLoadedInitially: bool, loading: bool) {
    !hasLoadedInitially && !loading
  }

  /** Name and e-mail are matched ignoring case, the CPF/CNPJ exactly as typed. */
  predicate UserMatches(u: User, term: string) {
    IncludesIgnoringCase(u.name, term) || IncludesIgnoringCase(u.email, term) || Includes(u.cpfOrCnpj, term)
  }

  function FilterUsers(users: seq<User>, term: string): (r: seq<User>)
    ensures Lists.IsSubseq(r, users)
    ensures forall u :: u in r <==> u in users && UserMatches(u, term)
    ensures forall u :: multiset(r)[u] == if UserMatches(u, term) then multiset(users)[u] else 0
  {
    Lists.FilterIsSubseq(users, u => UserMatches(u, term));
    Lists.FilterMembers(users, u => UserMatches(u, term));
    Lists.FilterCounts(users, u => UserMatches(u, term));
    Lists.Filter(users, u => UserMatches(u, term))
  }

  lemma EmptyTermKeepsAllUsers(users: seq<User>)
    ensures FilterUsers(users, []) == users
  {
    forall i | 0 <= i < |users|
      ensures UserMatches(users[i], [])
    {
      IncludesEmpty(users[i].name);
    }
    Lists.FilterKeepsAll(users, u => UserMatches(u, []));
  }

  /** The pagination control shows when the API reports more than one page, whatever the search keeps. */
  predicate ShowsPagination(totalPages: int) {
    totalPages > 1
  }

  /** The loading placeholder replaces the section only before the first successful load. */
  predicate ShowsLoadingPlaceholder(loading: bool, hasLoadedInitially: bool) {
    loading && !hasLoadedInitially
  }

  /** The line under the table: the filtered count when searching, the page otherwise. */
  datatype Summary = FilteredCount(shown: nat, total: nat) | PageInfo(page: int, totalPages: int, total: nat)

  function SectionSummary(users: seq<User>, term: string, currentPage: int, totalPages: int): (r: Summary)
    ensures term != [] ==> r == FilteredCount(|FilterUsers(users, term)|, |users|) && r.shown <= r.total
    ensures term == [] ==> r == PageInfo(currentPage, totalPages, |users|)
  {
    if term != [] then
      FilteredCount(|FilterUsers(users, term)|, |users|)
    else PageInfo(currentPage, totalPages, |users|)
  }

  // ---------------------------------------------------------------------------------------
  // The in-memory user list

  /** The mock's draft after a create: empty fields and the BÁSICO plan. */
  const MockEmptyDraft := UserDraft("", "", "", "", "BÁSICO")

  datatype MockState = MockState(
    users: seq<User>,
    userToEdit: Option<User>,
    editOpen: bool,
    newOpen: bool,
    userToDelete: Option<string>,
    newUser: UserDraft)

  function MockUpdate(s: MockState): (r: MockState)
    ensures s.userToEdit.None? ==> r == s
    ensures s.userToEdit.Some? ==>
      && |r.users| == |s.users|
      && (forall i :: 0 <= i < |s.users| && s.users[i].id != s.userToEdit.value.id ==> r.users[i] == s.users[i])
      && (forall i :: 0 <= i < |s.users| && s.users[i].id == s.userToEdit.value.id ==> r.users[i] == s.userToEdit.value)
      && !r.editOpen && r.userToEdit.None?
  {
    if s.userToEdit.None? then s
    else s.(users := Lists.ReplaceMatching(s.users, Id, s.userToEdit.value), editOpen := false, userToEdit := None)
  }

  /**
    The user a create appends: the draft's fields, the `Math.max` id, an api key from the
    clock's milliseconds, 50 queries, never online, active, not an admin.
  */
  function NewMockUser(s: MockState, millis: nat, now: string): (u: User)
    ensures u.id == MockIds.MaxPlusOne(Lists.Map(s.users, Id))
    ensures u.name == s.newUser.name && u.email == s.newUser.email && u.phone == s.newUser.phone
    ensures u.cpfOrCnpj == s.newUser.cpfOrCnpj && u.plan == s.newUser.plan
    ensures u.apiKey == "mock-api-key-" + JsNumberText(millis)
    ensures u.maxQueries == 50 && u.isOnline.None? && u.activeAccount && !u.isAdmin
    ensures u.createdAt == now && u.updatedAt == now
  {
    var d := s.newUser;
    User(MockIds.MaxPlusOne(Lists.Map(s.users, Id)), d.name, d.email, d.phone, d.cpfOrCnpj, d.plan,
         "mock-api-key-" + JsNumberText(millis), 50, None, true, false, now, now)
  }

  /** `Date.now()` printed in a template string. */
  function JsNumberText(n: nat): string {
    JsNumber.NatToString(n)
  }

  function MockCreate(s: MockState, millis: nat, now: string): (r: MockState)
    ensures r.users == s.users + [NewMockUser(s, millis, now)]
    ensures !r.newOpen && r.newUser == MockEmptyDraft
    ensures r.userToEdit == s.userToEdit && r.userToDelete == s.userToDelete
  {
    s.(users := s.users + [NewMockUser(s, millis, now)], newOpen := false, newUser := MockEmptyDraft)
  }

  function MockDelete(s: MockState): (r: MockState)
    ensures s.userToDelete.None? ==> r == s
    ensures s.userToDelete.Some? ==>
      && (forall u :: u in r.users <==> u in s.users && u.id != s.userToDelete.value)
      && Lists.IsSubseq(r.users, s.users)
      && (forall u :: multiset(r.users)[u] == if u.id == s.userToDelete.value then 0 else multiset(s.users)[u])
      && r.userToDelete.None?
  {
    if s.userToDelete.None? then s
    else s.(users := Lists.RemoveMatching(s.users, Id, s.userToDelete.value), userToDelete := None)
  }

  /** On a non-empty list of distinct numeric ids, a create keeps the ids numeric and distinct. */
  lemma MockCreateKeepsIdsDistinct(s: MockState, millis: nat, now: string)
    requires s.users != [] && MockIds.AllNumeric(Lists.Map(s.users, Id)) && Lists.NoDuplicates(Lists.Map(s.users, Id))
    ensures MockIds.AllNumeric(Lists.Map(MockCreate(s, millis, now).users, Id))
    ensures Lists.NoDuplicates(Lists.Map(MockCreate(s, millis, now).users, Id))
  {
    Lists.MapOfAppend(s.users, Id, NewMockUser(s, millis, now));
    MockIds.MaxPlusOneKeepsIdsDistinct(Lists.Map(s.users, Id));
  }

  /** From an empty list, three creates take ids "-Infinity", "NaN" and "NaN". */
  lemma EmptyMockIdsCollide(s: MockState, millis: nat, now: string)
    requires s.users == []
    ensures var s3 := MockCreate(MockCreate(MockCreate(s, millis, now), millis, now), millis, now);
      && Lists.Map(s3.users, Id) == ["-Infinity", "NaN", "NaN"]
      && !Lists.NoDuplicates(Lists.Map(s3.users, Id))
  {
    var s1 := MockCreate(s, millis, now);
    var s2 := MockCreate(s1, millis, now);
    var s3 := MockCreate(s2, millis, now);
    Lists.MapOfAppend(s.users, Id, NewMockUser(s, millis, now));
    Lists.MapOfAppend(s1.users, Id, NewMockUser(s1, millis, now));
    Lists.MapOfAppend(s2.users, Id, NewMockUser(s2, millis, now));
    MockIds.ThreeCreatesFromEmpty(Lists.Map(s.users, Id), Lists.Map(s1.users, Id), Lists.Map(s2.users, Id), Lists.Map(s3.users, Id));
  }

  /** Updating keeps the ids exactly as they were. */
  lemma MockUpdateKeepsIds(s: MockState)
    ensures Lists.Map(MockUpdate(s).users, Id) == Lists.Map(s.users, Id)
  {
    if s.userToEdit.Some? {
      Lists.ReplaceMatchingKeepsKeys(s.users, Id, s.userToEdit.value);
    }
  }
}
