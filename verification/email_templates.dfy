/**
  The e-mail template screen: how the handler hook turns the API's answer into the
  listed templates and page count (filtering the fetched page, and paging it again
  when a search term is typed), its dialog state, and the multipart form data the
  create and edit dialogs and the stand-alone template form send.
*/
module EmailTemplates {
  import opened Wrappers
  import opened Text
  import Lists
  import Paging
  import JsNumber

  /** A stored template, as the API lists it (timestamps and version left out). */
  datatype EmailTemplate = EmailTemplate(
    id: string,
    subject: string,
    message: string,
    emailToReceiver: string,
    smtpEmail: string,
    smtpPass: string,
    smtpHost: string,
    smtpPort: int,
    smtpSecure: bool,
    htmlTemplate: string)

  // ---------------------------------------------------------------------------------------
  // Listing

  /** What the template query answers: a failure, a body without `objRecords`, or the records object. */
  datatype TemplatesAnswer =
    | FetchFailed
    | NoObjRecords
    | ObjRecords(records: Option<seq<EmailTemplate>>, totalPages: Option<int>)

  /** The fetched page and the API's page count after the `||` fallbacks. */
  datatype Fetched = Fetched(records: seq<EmailTemplate>, totalPages: int)

  /** `response.objRecords || { records: [], totalPages: 0 }`, then `data?.records || []` and `data?.totalPages || 0`. */
  function ReadTemplates(a: TemplatesAnswer): (r: Fetched)
    ensures !a.ObjRecords? ==> r == Fetched([], 0)
    ensures a.ObjRecords? && a.records.Some? ==> r.records == a.records.value
    ensures a.ObjRecords? && a.records.None? ==> r.records == []
    ensures a.ObjRecords? && a.totalPages.Some? ==> r.totalPages == a.totalPages.value
    ensures a.ObjRecords? && a.totalPages.None? ==> r.totalPages == 0
  {
    match a
    case ObjRecords(records, totalPages) => Fetched(records.GetOr([]), totalPages.GetOr(0))
    case _ => Fetched([], 0)
  }

  /** The search matches subject, message or sender address, ignoring case. */
  predicate TemplateMatches(t: EmailTemplate, term: string) {
    IncludesIgnoringCase(t.subject, term) || IncludesIgnoringCase(t.message, term)
      || IncludesIgnoringCase(t.smtpEmail, term)
  }

  function FilterTemplates(ts: seq<EmailTemplate>, term: string): (r: seq<EmailTemplate>)
    ensures |r| <= |ts| && Lists.IsSubseq(r, ts)
    ensures forall t :: t in r <==> t in ts && TemplateMatches(t, term)
    ensures forall t :: multiset(r)[t] == if TemplateMatches(t, term) then multiset(ts)[t] else 0
  {
    Lists.FilterIsSubseq(ts, (t: EmailTemplate) => TemplateMatches(t, term));
    Lists.FilterMembers(ts, (t: EmailTemplate) => TemplateMatches(t, term));
    Lists.FilterCounts(ts, (t: EmailTemplate) => TemplateMatches(t, term));
    Lists.Filter(ts, (t: EmailTemplate) => TemplateMatches(t, term))
  }

  /** The empty term keeps every fetched template. */
  lemma EmptyTermKeepsAllTemplates(ts: seq<EmailTemplate>)
    ensures FilterTemplates(ts, []) == ts
  {
    forall i | 0 <= i < |ts|
      ensures TemplateMatches(ts[i], [])
    {
      IncludesEmpty(ts[i].subject);
    }
    Lists.FilterKeepsAll(ts, (t: EmailTemplate) => TemplateMatches(t, []));
  }

  /** The templates listed and the page count handed to the pagination control. */
  datatype TemplateList = TemplateList(templates: seq<EmailTemplate>, totalPages: int)

  /**
    The hook's listing: with no search term the fetched page and the API's count; with
    a term the matches of the fetched page, counted and sliced as if they were the
    whole list.
  */
  function ListTemplates(fetched: Fetched, term: string, page: int, k: nat): (r: TemplateList)
    requires k > 0
    ensures term == [] ==> r == TemplateList(fetched.records, fetched.totalPages)
    ensures term != [] ==> r.totalPages == Paging.PageCount(|FilterTemplates(fetched.records, term)|, k)
    ensures term != [] ==> r.templates == Paging.PageOf(FilterTemplates(fetched.records, term), page, k)
    ensures term != [] ==> Lists.IsSubseq(r.templates, fetched.records)
    ensures term != [] ==> forall t :: t in r.templates ==> TemplateMatches(t, term)
  {
    var filtered := FilterTemplates(fetched.records, term);
    if term == [] then
      EmptyTermKeepsAllTemplates(fetched.records);
      TemplateList(filtered, fetched.totalPages)
    else
      var shown := Paging.PageOf(filtered, page, k);
      SliceIsSubseq(filtered, page, k);
      Lists.SubseqTrans(shown, filtered, fetched.records);
      Lists.SubseqMembers(shown, filtered);
      TemplateList(shown, Paging.PageCount(|filtered|, k))
  }

  /** A page of a list is an order-preserving part of it. */
  lemma SliceIsSubseq<T>(xs: seq<T>, page: int, k: nat)
    requires k > 0
    ensures Lists.IsSubseq(Paging.PageOf(xs, page, k), xs)
  {
    var s := Paging.SliceIndex(Paging.PageStart(page, k), |xs|);
    var e := Paging.SliceIndex(Paging.PageStart(page, k) + k, |xs|);
    if s < e {
      Lists.RunIsSubseq(xs, s, e);
    }
  }

  /**
    With a search term, a page after the first shows nothing: the API already sent only
    page `page` (at most `k` templates), and the hook slices those again from `(page - 1) * k`.
    The control then offers at most one page.
  */
  lemma SearchBeyondFirstPageShowsNothing(fetched: Fetched, term: string, page: int, k: nat)
    requires k > 0 && |fetched.records| <= k && term != [] && page >= 2
    ensures ListTemplates(fetched, term, page, k).templates == []
    ensures ListTemplates(fetched, term, page, k).totalPages <= 1
  {
    var filtered := FilterTemplates(fetched.records, term);
    var count := Paging.PageCount(|filtered|, k);
    assert count <= 1 by {
      if count >= 2 {
        Paging.MulMonotone(1, count - 1, k);
      }
    }
    Paging.PageBeyondCount(filtered, page, k);
  }

  /** With a term, page 1 shows every match on the fetched page, in order. */
  lemma SearchOnFirstPageShowsAllMatches(fetched: Fetched, term: string, k: nat)
    requires k > 0 && |fetched.records| <= k && term != []
    ensures ListTemplates(fetched, term, 1, k).templates == FilterTemplates(fetched.records, term)
  {
    Paging.FirstPage(FilterTemplates(fetched.records, term), k);
  }

  /** A concrete case: on page 2, a fetched template that matches the term is not listed. */
  lemma MatchOnSecondPageHidden(t: EmailTemplate, term: string, k: nat)
    requires k > 0 && term != [] && TemplateMatches(t, term)
    ensures t in FilterTemplates([t], term)
    ensures t !in ListTemplates(Fetched([t], 2), term, 2, k).templates
  {
    SearchBeyondFirstPageShowsNothing(Fetched([t], 2), term, 2, k);
  }

  /** The listing as intended: the term filters the fetched page, which is not paged again. */
  function ListTemplatesFixed(fetched: Fetched, term: string): (r: TemplateList)
    ensures r.totalPages == fetched.totalPages
    ensures Lists.IsSubseq(r.templates, fetched.records)
    ensures forall t :: t in fetched.records ==> (t in r.templates <==> TemplateMatches(t, term))
    ensures forall t :: multiset(r.templates)[t] == if TemplateMatches(t, term) then multiset(fetched.records)[t] else 0
  {
    TemplateList(FilterTemplates(fetched.records, term), fetched.totalPages)
  }

  /** Without a term the fixed listing is the hook's own. */
  lemma FixedListingAgreesWithoutTerm(fetched: Fetched, page: int, k: nat)
    requires k > 0
    ensures ListTemplatesFixed(fetched, []) == ListTemplates(fetched, [], page, k)
  {
    EmptyTermKeepsAllTemplates(fetched.records);
  }

  // ---------------------------------------------------------------------------------------
  // The handler hook's state

  datatype Handlers = Handlers(
    searchTerm: string,
    currentPage: int,
    templateToView: Option<EmailTemplate>,
    viewOpen: bool,
    newOpen: bool,
    templateToEdit: Option<EmailTemplate>,
    editOpen: bool,
    templateToDelete: Option<EmailTemplate>)

  const InitialHandlers := Handlers([], 1, None, false, false, None, false, None)

  datatype Event =
    | SetSearchTerm(term: string)
    | PageChange(page: int)
    | ViewTemplate(viewed: EmailTemplate)
    | SetViewOpen(viewOpen: bool)
    | OpenNewDialog
    | SetNewOpen(newOpen: bool)
    | CreateSucceeded
    | EditTemplate(edited: EmailTemplate)
    | SetEditOpen(editOpen: bool)
    | UpdateSucceeded
    | OpenDeleteDialog(doomed: EmailTemplate)
    | SetTemplateToDelete(selected: Option<EmailTemplate>)
    | DeleteSucceeded
    | MutationFailed

  /** How each event changes the hook's state; a failed mutation only shows an error. */
  function Handle(s: Handlers, e: Event): (r: Handlers)
    ensures e.SetSearchTerm? ==> r == s.(searchTerm := e.term)
    ensures e.PageChange? ==> r == s.(currentPage := e.page)
    ensures e.ViewTemplate? ==> r == s.(templateToView := Some(e.viewed), viewOpen := true)
    ensures e.SetViewOpen? ==> r == s.(viewOpen := e.viewOpen)
    ensures e.OpenNewDialog? ==> r == s.(newOpen := true)
    ensures e.SetNewOpen? ==> r == s.(newOpen := e.newOpen)
    ensures e.CreateSucceeded? ==> r == s.(newOpen := false)
    ensures e.EditTemplate? ==> r == s.(templateToEdit := Some(e.edited), editOpen := true)
    ensures e.SetEditOpen? ==> r == s.(editOpen := e.editOpen)
    ensures e.UpdateSucceeded? ==> r == s.(editOpen := false, templateToEdit := None)
    ensures e.OpenDeleteDialog? ==> r == s.(templateToDelete := Some(e.doomed))
    ensures e.SetTemplateToDelete? ==> r == s.(templateToDelete := e.selected)
    ensures e.DeleteSucceeded? ==> r == s.(templateToDelete := None)
    ensures e.MutationFailed? ==> r == s
    ensures !e.PageChange? ==> r.currentPage == s.currentPage
  {
    match e
    case SetSearchTerm(term) => s.(searchTerm := term)
    case PageChange(page) => s.(currentPage := page)
    case ViewTemplate(t) => s.(templateToView := Some(t), viewOpen := true)
    case SetViewOpen(open) => s.(viewOpen := open)
    case OpenNewDialog => s.(newOpen := true)
    case SetNewOpen(open) => s.(newOpen := open)
    case CreateSucceeded => s.(newOpen := false)
    case EditTemplate(t) => s.(templateToEdit := Some(t), editOpen := true)
    case SetEditOpen(open) => s.(editOpen := open)
    case UpdateSucceeded => s.(editOpen := false, templateToEdit := None)
    case OpenDeleteDialog(t) => s.(templateToDelete := Some(t))
    case SetTemplateToDelete(t) => s.(templateToDelete := t)
    case DeleteSucceeded => s.(templateToDelete := None)
    case MutationFailed => s
  }

  /** What a delete does: fail before any request without a selection, otherwise delete the selected id. */
  datatype DeleteAttempt = NothingToDelete | DeleteSent(id: string)

  function DeleteRequest(s: Handlers): (r: DeleteAttempt)
    ensures r.NothingToDelete? <==> s.templateToDelete.None?
    ensures r.DeleteSent? ==> r.id == s.templateToDelete.value.id
  {
    match s.templateToDelete
    case None => NothingToDelete
    case Some(t) => DeleteSent(t.id)
  }

  /**
    Typing a search term on page 2 or later keeps the page, and with the API sending at
    most a page of templates the screen then lists none of them.
  */
  lemma SearchOnLaterPageListsNothing(s: Handlers, term: string, fetched: Fetched, k: nat)
    requires k > 0 && |fetched.records| <= k && term != [] && s.currentPage >= 2
    ensures var after := Handle(s, SetSearchTerm(term));
      after.currentPage == s.currentPage
      && ListTemplates(fetched, after.searchTerm, after.currentPage, k).templates == []
  {
    SearchBeyondFirstPageShowsNothing(fetched, term, s.currentPage, k);
  }

  // ---------------------------------------------------------------------------------------
  // Multipart form data

  /** The chosen HTML file, opaque to the client. */
  datatype HtmlFile = HtmlFile(name: string)

  datatype FormValue = TextValue(text: string) | FileValue(file: HtmlFile)

  /** One `formData.append(key, value)`. */
  datatype Entry = Entry(key: string, value: FormValue)

  function EntryKey(e: Entry): string {
    e.key
  }

  function KeysOf(fd: seq<Entry>): seq<string> {
    Lists.Map(fd, EntryKey)
  }

  /** The fields of the template forms; the port is held as the text the form sends. */
  datatype TemplateFields = TemplateFields(
    subject: string,
    message: string,
    emailToReceiver: string,
    smtpEmail: string,
    smtpPass: string,
    smtpHost: string,
    smtpPort: string,
    smtpSecure: bool)

  /** Empty texts, port 587 and a secure connection: the starting values of both create forms. */
  const DefaultFields := TemplateFields([], [], [], [], [], [], "587", true)

  /** `String(b)`. */
  function BoolText(b: bool): string {
    if b then "true" else "false"
  }

  /** The keys of a create request, in the order they are appended. */
  const CreateKeys: seq<string> := ["subject", "message", "emailToReceiver", "smtpEmail", "smtpPass",
    "smtpHost", "smtpPort", "smtpSecure", "htmlTemplate"]

  /** The form data of a create request: the eight fields, port and flag stringified, then the file. */
  function CreateFormData(f: TemplateFields, file: HtmlFile): (r: seq<Entry>)
    ensures KeysOf(r) == CreateKeys
    ensures r[8] == Entry("htmlTemplate", FileValue(file))
  {
    [ Entry("subject", TextValue(f.subject)),
      Entry("message", TextValue(f.message)),
      Entry("emailToReceiver", TextValue(f.emailToReceiver)),
      Entry("smtpEmail", TextValue(f.smtpEmail)),
      Entry("smtpPass", TextValue(f.smtpPass)),
      Entry("smtpHost", TextValue(f.smtpHost)),
      Entry("smtpPort", TextValue(f.smtpPort)),
      Entry("smtpSecure", TextValue(BoolText(f.smtpSecure))),
      Entry("htmlTemplate", FileValue(file)) ]
  }


  /**
    How a create request is read back: exactly the create keys in their order, text under
    the eight field keys (the flag is set when its text is "true") and a file last.
  */
  function ReadCreateForm(fd: seq<Entry>): Option<(TemplateFields, HtmlFile)> {
    if KeysOf(fd) == CreateKeys && (forall i :: 0 <= i < 8 ==> fd[i].value.TextValue?) && fd[8].value.FileValue? then
      Some((TemplateFields(fd[0].value.text, fd[1].value.text, fd[2].value.text, fd[3].value.text,
        fd[4].value.text, fd[5].value.text, fd[6].value.text, fd[7].value.text == "true"), fd[8].value.file))
    else None
  }

  /** Reading a create request back gives exactly the fields and the file it was built from. */
  lemma CreateFormRoundTrip(f: TemplateFields, file: HtmlFile)
    ensures ReadCreateForm(CreateFormData(f, file)) == Some((f, file))
  {
    assert (BoolText(f.smtpSecure) == "true") == f.smtpSecure;
  }

  /** The key an edit request uses for a create key: the SMTP keys lose their `smtp` prefix and get lower-cased. */
  function EditKey(createKey: string): string {
    if createKey == "smtpEmail" then "email"
    else if createKey == "smtpPass" then "pass"
    else if createKey == "smtpHost" then "host"
    else if createKey == "smtpPort" then "port"
    else if createKey == "smtpSecure" then "secure"
    else createKey
  }

  /** The fields of a stored template as its edit form holds them. */
  function FieldsOf(t: EmailTemplate): TemplateFields {
    TemplateFields(t.subject, t.message, t.emailToReceiver, t.smtpEmail, t.smtpPass, t.smtpHost,
      JsNumber.IntToString(t.smtpPort), t.smtpSecure)
  }

  /** The form data of an edit request: renamed SMTP keys, and the file only when a new one was chosen. */
  function EditFormData(f: TemplateFields, newFile: Option<HtmlFile>): (r: seq<Entry>)
    ensures |r| == if newFile.Some? then 9 else 8
    ensures Entry("htmlTemplate", FileValue(newFile.GetOr(HtmlFile([])))) in r <==> newFile.Some?
  {
    [ Entry("subject", TextValue(f.subject)),
      Entry("message", TextValue(f.message)),
      Entry("emailToReceiver", TextValue(f.emailToReceiver)),
      Entry("email", TextValue(f.smtpEmail)),
      Entry("pass", TextValue(f.smtpPass)),
      Entry("host", TextValue(f.smtpHost)),
      Entry("port", TextValue(f.smtpPort)),
      Entry("secure", TextValue(BoolText(f.smtpSecure))) ]
    + (if newFile.Some? then [Entry("htmlTemplate", FileValue(newFile.value))] else [])
  }

  /**
    An edit request carries the same values as a create request for the same fields, in
    the same order, under the renamed keys; the file follows only when one was chosen.
  */
  lemma EditIsRenamedCreate(f: TemplateFields, file: HtmlFile, newFile: Option<HtmlFile>)
    ensures var create := CreateFormData(f, file);
      var edit := EditFormData(f, newFile);
      forall i :: 0 <= i < 8 ==> edit[i] == Entry(EditKey(create[i].key), create[i].value)
    ensures newFile.Some? ==> EditFormData(f, newFile)[8] == CreateFormData(f, newFile.value)[8]
  {
  }

  // ---------------------------------------------------------------------------------------
  // The dialogs

  /** The create dialog's fields and chosen file. */
  datatype NewDialog = NewDialog(fields: TemplateFields, file: Option<HtmlFile>)

  const InitialNewDialog := NewDialog(DefaultFields, None)

  /** The create dialog's submit: refused without a file, otherwise one create request. */
  datatype CreateAttempt = NoFileChosen | CreateSent(data: seq<Entry>)

  function SubmitNew(d: NewDialog): (r: CreateAttempt)
    ensures r.NoFileChosen? <==> d.file.None?
    ensures r.CreateSent? ==> ReadCreateForm(r.data) == Some((d.fields, d.file.value))
  {
    match d.file
    case None => NoFileChosen
    case Some(file) =>
      CreateFormRoundTrip(d.fields, file);
      CreateSent(CreateFormData(d.fields, file))
  }

  /** The dialog after a submit: reset to the defaults only when a request was sent and it succeeded. */
  function AfterSubmitNew(d: NewDialog, succeeded: bool): (r: NewDialog)
    ensures d.file.Some? && succeeded ==> r == InitialNewDialog
    ensures d.file.None? || !succeeded ==> r == d
  {
    if d.file.Some? && succeeded then InitialNewDialog else d
  }

  /** The edit dialog: the copy of the template being edited, if any, and a newly chosen file. */
  datatype EditDialog = EditDialog(id: string, data: Option<TemplateFields>, newFile: Option<HtmlFile>)

  /** The effect on `templateToEdit`: a selected template is copied in; a cleared selection leaves the copy. */
  function SyncEdit(d: EditDialog, selected: Option<EmailTemplate>): (r: EditDialog)
    ensures selected.Some? ==> r.data == Some(FieldsOf(selected.value)) && r.id == selected.value.id
    ensures selected.None? ==> r == d
    ensures r.newFile == d.newFile
  {
    match selected
    case Some(t) => d.(id := t.id, data := Some(FieldsOf(t)))
    case None => d
  }

  /** The edit dialog's submit: nothing without data, otherwise an update of its id. */
  function SubmitEdit(d: EditDialog): (r: Option<(string, seq<Entry>)>)
    ensures r.None? <==> d.data.None?
    ensures r.Some? ==> r.value.0 == d.id && r.value.1 == EditFormData(d.data.value, d.newFile)
  {
    match d.data
    case None => None
    case Some(f) => Some((d.id, EditFormData(f, d.newFile)))
  }

  /** After a successful update the newly chosen file is cleared; the edited copy stays. */
  function AfterSubmitEdit(d: EditDialog, succeeded: bool): (r: EditDialog)
    ensures r.data == d.data && r.id == d.id
    ensures r.newFile == if d.data.Some? && succeeded then None else d.newFile
  {
    if d.data.Some? && succeeded then d.(newFile := None) else d
  }

  /** The stand-alone template form: every `onSubmit` call it makes for one submit. */
  function FormSubmit(values: TemplateFields, file: Option<HtmlFile>): (calls: seq<seq<Entry>>)
    ensures file.None? ==> calls == []
    ensures file.Some? ==> |calls| == 1 && ReadCreateForm(calls[0]) == Some((values, file.value))
  {
    match file
    case None => []
    case Some(f) =>
      CreateFormRoundTrip(values, f);
      [CreateFormData(values, f)]
  }

  /** The stand-alone form and the create dialog send the same request for the same fields and file. */
  lemma FormAndDialogAgree(d: NewDialog)
    ensures SubmitNew(d).NoFileChosen? <==> FormSubmit(d.fields, d.file) == []
    ensures SubmitNew(d).CreateSent? ==> FormSubmit(d.fields, d.file) == [SubmitNew(d).data]
  {
  }
}
