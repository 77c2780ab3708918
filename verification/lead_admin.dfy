/**
  The lead pages of the admin area: the handler hook over the lead API (one page of
  leads per request, a local search over that page, update, delete and the mass e-mail
  send), and the older in-memory lead list that the hook replaced.
*/
module LeadAdmin {
  import opened Wrappers
  import opened Text
  import Lists
  import JsNumber
  import MockIds

  datatype Lead = Lead(
    id: string,
    name: string,
    email: string,
    phone: string,
    cpfOrCnpj: string,
    plan: string,
    createdAt: string)

  function Id(l: Lead): string {
    l.id
  }

  // ---------------------------------------------------------------------------------------
  // Reading a page of leads from the API

  /** A lead record as the API sends it; the optional fields may be missing or null. */
  datatype ApiLead = ApiLead(
    id: string,
    name: string,
    email: string,
    cpfOrCnpj: Option<string>,
    phone: Option<string>,
    plan: Option<string>,
    createdAt: Option<string>,
    updatedAt: Option<string>)

  /** A lead as the table lists it: the lead and its formatted update date. */
  datatype ListedLead = ListedLead(lead: Lead, updatedAt: string)

  /**
    `date ? toLocaleDateString(date) : "-"`: the date is printed by `format` (the browser's
    pt-BR date format, a parameter here), and a missing or empty date prints as "-".
  */
  function DateOr(value: Option<string>, format: string -> string): (r: string)
    ensures value.Some? && value.value != [] ==> r == format(value.value)
    ensures value.None? || value.value == [] ==> r == "-"
  {
    if value.None? || value.value == [] then "-" else format(value.value)
  }

  /** The field-by-field copy of an API record into the table's lead. */
  function MapLead(a: ApiLead, format: string -> string): (r: ListedLead)
    ensures r.lead.id == a.id && r.lead.name == a.name && r.lead.email == a.email
    ensures r.lead.cpfOrCnpj == TextOr(a.cpfOrCnpj, "") && r.lead.phone == TextOr(a.phone, "")
    ensures r.lead.plan == TextOr(a.plan, "")
    ensures r.lead.createdAt == DateOr(a.createdAt, format) && r.updatedAt == DateOr(a.updatedAt, format)
  {
    ListedLead(
      Lead(a.id, a.name, a.email, TextOr(a.phone, ""), TextOr(a.cpfOrCnpj, ""), TextOr(a.plan, ""),
           DateOr(a.createdAt, format)),
      DateOr(a.updatedAt, format))
  }

  /**
    `parseInt(text) || 1`: a missing text, one that does not read as a number, and one that
    reads as 0 all give 1.
  */
  function CountOrOne(text: Option<string>): (r: int)
    ensures r != 0
    ensures text.Some? && JsNumber.ParseInt(text.value).Some? && JsNumber.ParseInt(text.value).value != 0 ==>
      r == JsNumber.ParseInt(text.value).value
    ensures text.None? || JsNumber.ParseInt(text.value).None? || JsNumber.ParseInt(text.value) == Some(0) ==> r == 1
  {
    if text.None? then 1
    else
      match JsNumber.ParseInt(text.value)
      case None => 1
      case Some(n) => if n == 0 then 1 else n
  }

  /**
    The answer to `getLeads(page, perPage)`: the request failed, the body lacks
    `objRecords.records`, or it holds the records with the `totalPages` and `page` texts.
  */
  datatype LeadAnswer =
    | Failed
    | Malformed
    | Records(records: seq<ApiLead>, totalPages: Option<string>, page: Option<string>)

  /** What the query function returns. */
  datatype LeadPage = LeadPage(leads: seq<ListedLead>, totalCount: nat, totalPages: int, currentPage: int)

  /** The page for a failed or malformed answer. */
  const NoLeads := LeadPage([], 0, 0, 1)

  /** The query function: every record mapped in order, the counts read with `CountOrOne`. */
  function ReadLeads(answer: LeadAnswer, format: string -> string): (r: LeadPage)
    ensures !answer.Records? ==> r == NoLeads
    ensures answer.Records? ==>
      && |r.leads| == |answer.records| == r.totalCount
      && (forall i :: 0 <= i < |answer.records| ==> r.leads[i] == MapLead(answer.records[i], format))
      && r.totalPages == CountOrOne(answer.totalPages) && r.currentPage == CountOrOne(answer.page)
  {
    match answer
    case Records(records, totalPages, page) =>
      var leads := Lists.Map(records, a => MapLead(a, format));
      LeadPage(leads, |leads|, CountOrOne(totalPages), CountOrOne(page))
    case _ => NoLeads
  }

  /** A read page never reports zero pages unless the answer was a failure: then it reports none at all. */
  lemma ZeroPagesOnlyOnFailure(answer: LeadAnswer, format: string -> string)
    ensures ReadLeads(answer, format).totalPages == 0 <==> !answer.Records?
    ensures ReadLeads(answer, format).currentPage != 0
  {
  }

  // ---------------------------------------------------------------------------------------
  // The search over the fetched page

  /**
    The search box: name and e-mail are matched ignoring case, the CPF/CNPJ text is matched
    exactly as typed.
  */
  predicate LeadMatches(l: Lead, term: string) {
    IncludesIgnoringCase(l.name, term) || IncludesIgnoringCase(l.email, term) || Includes(l.cpfOrCnpj, term)
  }

  function FilterLeads(leads: seq<ListedLead>, term: string): (r: seq<ListedLead>)
    ensures Lists.IsSubseq(r, leads)
    ensures forall l :: l in r <==> l in leads && LeadMatches(l.lead, term)
    ensures forall l :: multiset(r)[l] == if LeadMatches(l.lead, term) then multiset(leads)[l] else 0
  {
    Lists.FilterIsSubseq(leads, (l: ListedLead) => LeadMatches(l.lead, term));
    Lists.FilterMembers(leads, (l: ListedLead) => LeadMatches(l.lead, term));
    Lists.FilterCounts(leads, (l: ListedLead) => LeadMatches(l.lead, term));
    Lists.Filter(leads, (l: ListedLead) => LeadMatches(l.lead, term))
  }

  /** The empty term keeps the whole page. */
  lemma EmptyTermKeepsAllLeads(leads: seq<ListedLead>)
    ensures FilterLeads(leads, []) == leads
  {
    forall i | 0 <= i < |leads|
      ensures LeadMatches(leads[i].lead, [])
    {
      IncludesEmpty(leads[i].lead.name);
    }
    Lists.FilterKeepsAll(leads, (l: ListedLead) => LeadMatches(l.lead, []));
  }

  /** Typing a term in upper or lower case finds a lead by its name alike. */
  lemma NameSearchIgnoresCase(l: Lead, term: string)
    requires IncludesIgnoringCase(l.name, term)
    ensures LeadMatches(l, term) && LeadMatches(l, Lower(term))
  {
    LowerIdempotent(term);
  }

  /** The search is not applied to the plan: a lead found only through its plan text is not found. */
  lemma PlanIsNotSearched(l: Lead, term: string)
    requires !LeadMatches(l, term)
    ensures !LeadMatches(l.(plan := term), term)
  {
  }

  // ---------------------------------------------------------------------------------------
  // The handler hook

  /** The four fields an update sends; the plan and the dates are not sent. */
  datatype LeadUpdate = LeadUpdate(name: string, email: string, cpfOrCnpj: string, phone: string)

  /** The API calls the hook makes. */
  datatype Request =
    | UpdateLead(id: string, data: LeadUpdate)
    | DeleteLead(id: string)
    | MassSend(leadsIds: seq<string>, templateId: string)

  datatype Handlers = Handlers(
    currentPage: int,
    searchTerm: string,
    leadToEdit: Option<Lead>,
    editOpen: bool,
    leadToDelete: Option<string>)

  const InitialHandlers := Handlers(1, "", None, false, None)

  datatype Event =
    | SetSearchTerm(term: string)
    | PageChange(page: int)
    | Edit(l: Lead)
    | SetLeadToEdit(edit: Option<Lead>)
    | SetEditOpen(open: bool)
    | Update
    | UpdateSucceeded
    | OpenDelete(id: string)
    | SetLeadToDelete(target: Option<string>)
    | Delete
    | DeleteSucceeded
    | StartMassSend(leadsIds: seq<string>, templateId: string)

  /** The state after an event and the request it sends, if any. */
  datatype Step = Step(state: Handlers, request: Option<Request>)

  function UpdateOf(l: Lead): (r: LeadUpdate)
    ensures r.name == l.name && r.email == l.email && r.cpfOrCnpj == l.cpfOrCnpj && r.phone == l.phone
  {
    LeadUpdate(l.name, l.email, l.cpfOrCnpj, l.phone)
  }

  function Handle(s: Handlers, e: Event): (r: Step)
    ensures e.Update? && s.leadToEdit.None? ==> r == Step(s, None)
    ensures e.Update? && s.leadToEdit.Some? ==>
      r.request == Some(UpdateLead(s.leadToEdit.value.id, UpdateOf(s.leadToEdit.value)))
    ensures e.UpdateSucceeded? ==> !r.state.editOpen && r.state.leadToEdit == s.leadToEdit
    ensures e.Delete? && s.leadToDelete.None? ==> r == Step(s, None)
    ensures e.Delete? && s.leadToDelete.Some? ==> r.request == Some(DeleteLead(s.leadToDelete.value))
    ensures e.DeleteSucceeded? ==> r.state.leadToDelete.None?
    ensures e.StartMassSend? ==> r == Step(s, Some(MassSend(e.leadsIds, e.templateId)))
    ensures e.PageChange? ==> r.state == s.(currentPage := e.page)
    ensures !e.PageChange? ==> r.state.currentPage == s.currentPage
    ensures r.request.Some? ==> r.state == s
  {
    match e
    case SetSearchTerm(term) => Step(s.(searchTerm := term), None)
    case PageChange(page) => Step(s.(currentPage := page), None)
    case Edit(l) => Step(s.(leadToEdit := Some(l), editOpen := true), None)
    case SetLeadToEdit(edit) => Step(s.(leadToEdit := edit), None)
    case SetEditOpen(open) => Step(s.(editOpen := open), None)
    case Update =>
      if s.leadToEdit.None? then Step(s, None)
      else Step(s, Some(UpdateLead(s.leadToEdit.value.id, UpdateOf(s.leadToEdit.value))))
    case UpdateSucceeded => Step(s.(editOpen := false), None)
    case OpenDelete(id) => Step(s.(leadToDelete := Some(id)), None)
    case SetLeadToDelete(target) => Step(s.(leadToDelete := target), None)
    case Delete =>
      if s.leadToDelete.None? then Step(s, None)
      else Step(s, Some(DeleteLead(s.leadToDelete.value)))
    case DeleteSucceeded => Step(s.(leadToDelete := None), None)
    case StartMassSend(leadsIds, templateId) => Step(s, Some(MassSend(leadsIds, templateId)))
  }

  /** Editing a lead and saving sends its id with its four editable fields. */
  lemma EditThenUpdate(s: Handlers, l: Lead)
    ensures Handle(Handle(s, Edit(l)).state, Update).request == Some(UpdateLead(l.id, UpdateOf(l)))
    ensures Handle(s, Edit(l)).state.editOpen
  {
  }

  /** Leads that differ only in plan and creation date produce the same update request. */
  lemma UpdateIgnoresPlan(s: Handlers, l: Lead, plan: string, createdAt: string)
    ensures Handle(s.(leadToEdit := Some(l)), Update).request
         == Handle(s.(leadToEdit := Some(l.(plan := plan, createdAt := createdAt))), Update).request
  {
  }

  /** What the hook exposes; `data` is `None` while the query has not answered. */
  datatype Exposed = Exposed(leads: seq<ListedLead>, currentPage: int, totalPages: int)

  function Expose(data: Option<LeadPage>, s: Handlers): (r: Exposed)
    ensures r.leads == FilterLeads(if data.Some? then data.value.leads else [], s.searchTerm)
    ensures data.None? ==> r.currentPage == 1 && r.totalPages == 0
    ensures data.Some? && data.value.currentPage != 0 ==> r.currentPage == data.value.currentPage
    ensures data.Some? ==> r.totalPages == data.value.totalPages
  {
    var leads := if data.Some? then data.value.leads else [];
    var totalPages := if data.Some? then data.value.totalPages else 0;
    var apiPage := if data.Some? && data.value.currentPage != 0 then data.value.currentPage else 1;
    Exposed(FilterLeads(leads, s.searchTerm), apiPage, totalPages)
  }

  /**
    The page the hook reports is the page the API answered with, not the page the hook
    asked for: two hooks on different pages with the same answer report the same page.
  */
  lemma ExposedPageComesFromAnswer(answer: LeadAnswer, format: string -> string, s: Handlers, page: int)
    ensures Expose(Some(ReadLeads(answer, format)), s).currentPage
         == Expose(Some(ReadLeads(answer, format)), s.(currentPage := page)).currentPage
    ensures !answer.Records? ==> Expose(Some(ReadLeads(answer, format)), s).currentPage == 1
  {
  }

  // ---------------------------------------------------------------------------------------
  // The in-memory lead list

  /** The fields of a new lead; the id and the creation time are added on create. */
  datatype LeadDraft = LeadDraft(name: string, cpfOrCnpj: string, email: string, phone: string, plan: string)

  const EmptyLeadDraft := LeadDraft("", "", "", "", "FREE")

  datatype MockState = MockState(
    leads: seq<Lead>,
    leadToEdit: Option<Lead>,
    editOpen: bool,
    newOpen: bool,
    leadToDelete: Option<string>,
    newLead: LeadDraft)

  /** The edited lead replaces every lead with its id; nothing happens with no lead selected. */
  function MockUpdate(s: MockState): (r: MockState)
    ensures s.leadToEdit.None? ==> r == s
    ensures s.leadToEdit.Some? ==>
      && |r.leads| == |s.leads|
      && (forall i :: 0 <= i < |s.leads| && s.leads[i].id != s.leadToEdit.value.id ==> r.leads[i] == s.leads[i])
      && (forall i :: 0 <= i < |s.leads| && s.leads[i].id == s.leadToEdit.value.id ==> r.leads[i] == s.leadToEdit.value)
      && !r.editOpen && r.leadToEdit.None?
  {
    if s.leadToEdit.None? then s
    else s.(leads := Lists.ReplaceMatching(s.leads, Id, s.leadToEdit.value), editOpen := false, leadToEdit := None)
  }

  /** The new lead takes the id `Math.max` rule gives and the current time; the form is reset to a FREE plan. */
  function MockCreate(s: MockState, now: string): (r: MockState)
    ensures r.leads == s.leads + [Lead(MockIds.MaxPlusOne(Lists.Map(s.leads, Id)), s.newLead.name, s.newLead.email,
                                       s.newLead.phone, s.newLead.cpfOrCnpj, s.newLead.plan, now)]
    ensures r.newLead == EmptyLeadDraft && !r.newOpen
    ensures r.leadToEdit == s.leadToEdit && r.leadToDelete == s.leadToDelete
  {
    var d := s.newLead;
    var l := Lead(MockIds.MaxPlusOne(Lists.Map(s.leads, Id)), d.name, d.email, d.phone, d.cpfOrCnpj, d.plan, now);
    s.(leads := s.leads + [l], newOpen := false, newLead := EmptyLeadDraft)
  }

  /** Every lead with the chosen id is removed, the rest kept in order; nothing happens with no id chosen. */
  function MockDelete(s: MockState): (r: MockState)
    ensures s.leadToDelete.None? ==> r == s
    ensures s.leadToDelete.Some? ==>
      && (forall l :: l in r.leads <==> l in s.leads && l.id != s.leadToDelete.value)
      && Lists.IsSubseq(r.leads, s.leads)
      && (forall l :: multiset(r.leads)[l] == if l.id == s.leadToDelete.value then 0 else multiset(s.leads)[l])
      && r.leadToDelete.None?
  {
    if s.leadToDelete.None? then s
    else s.(leads := Lists.RemoveMatching(s.leads, Id, s.leadToDelete.value), leadToDelete := None)
  }

  /** On a non-empty list of distinct numeric ids, a create keeps the ids numeric and distinct. */
  lemma MockCreateKeepsIdsDistinct(s: MockState, now: string)
    requires s.leads != [] && MockIds.AllNumeric(Lists.Map(s.leads, Id)) && Lists.NoDuplicates(Lists.Map(s.leads, Id))
    ensures MockIds.AllNumeric(Lists.Map(MockCreate(s, now).leads, Id))
    ensures Lists.NoDuplicates(Lists.Map(MockCreate(s, now).leads, Id))
  {
    var d := s.newLead;
    var l := Lead(MockIds.MaxPlusOne(Lists.Map(s.leads, Id)), d.name, d.email, d.phone, d.cpfOrCnpj, d.plan, now);
    Lists.MapOfAppend(s.leads, Id, l);
    MockIds.MaxPlusOneKeepsIdsDistinct(Lists.Map(s.leads, Id));
  }

  /** A create appends the rule's id to the ids. */
  lemma IdsAfterCreate(s: MockState, now: string)
    ensures Lists.Map(MockCreate(s, now).leads, Id) == Lists.Map(s.leads, Id) + [MockIds.MaxPlusOne(Lists.Map(s.leads, Id))]
  {
    Lists.MapOfAppend(s.leads, Id, MockCreate(s, now).leads[|s.leads|]);
  }

  /**
    Once the list is empty (after deleting every lead), the next three creates take ids
    "-Infinity", "NaN" and "NaN".
  */
  lemma EmptyMockIdsCollide(s: MockState, now: string)
    requires s.leads == []
    ensures var s3 := MockCreate(MockCreate(MockCreate(s, now), now), now);
      && Lists.Map(s3.leads, Id) == ["-Infinity", "NaN", "NaN"]
      && !Lists.NoDuplicates(Lists.Map(s3.leads, Id))
  {
    var s1 := MockCreate(s, now);
    var s2 := MockCreate(s1, now);
    IdsAfterCreate(s, now);
    IdsAfterCreate(s1, now);
    IdsAfterCreate(s2, now);
    MockIds.ThreeCreatesFromEmpty(Lists.Map(s.leads, Id), Lists.Map(s1.leads, Id), Lists.Map(s2.leads, Id), Lists.Map(MockCreate(s2, now).leads, Id));
  }

  /** The create with the empty list numbered from "1". */
  function MockCreateFixed(s: MockState, now: string): (r: MockState)
    ensures r.leads == s.leads + [Lead(MockIds.NextIdFixed(Lists.Map(s.leads, Id)), s.newLead.name, s.newLead.email,
                                       s.newLead.phone, s.newLead.cpfOrCnpj, s.newLead.plan, now)]
    ensures s.leads != [] ==> r == MockCreate(s, now)
  {
    var d := s.newLead;
    var l := Lead(MockIds.NextIdFixed(Lists.Map(s.leads, Id)), d.name, d.email, d.phone, d.cpfOrCnpj, d.plan, now);
    s.(leads := s.leads + [l], newOpen := false, newLead := EmptyLeadDraft)
  }

  /** With the fix, every create on distinct numeric ids, the empty list included, keeps them so. */
  lemma MockCreateFixedKeepsIdsDistinct(s: MockState, now: string)
    requires MockIds.AllNumeric(Lists.Map(s.leads, Id)) && Lists.NoDuplicates(Lists.Map(s.leads, Id))
    ensures MockIds.AllNumeric(Lists.Map(MockCreateFixed(s, now).leads, Id))
    ensures Lists.NoDuplicates(Lists.Map(MockCreateFixed(s, now).leads, Id))
  {
    var d := s.newLead;
    var l := Lead(MockIds.NextIdFixed(Lists.Map(s.leads, Id)), d.name, d.email, d.phone, d.cpfOrCnpj, d.plan, now);
    Lists.MapOfAppend(s.leads, Id, l);
    MockIds.NextIdFixedKeepsIdsDistinct(Lists.Map(s.leads, Id));
  }

  /** Deleting keeps the ids distinct, and no lead with the deleted id is left. */
  lemma MockDeleteRemovesId(s: MockState)
    requires s.leadToDelete.Some? && Lists.NoDuplicates(Lists.Map(s.leads, Id))
    ensures s.leadToDelete.value !in Lists.Map(MockDelete(s).leads, Id)
  {
    var r := MockDelete(s).leads;
    forall i | 0 <= i < |r|
      ensures Lists.Map(r, Id)[i] != s.leadToDelete.value
    {
      assert r[i] in r;
    }
  }

  /** Updating keeps the ids exactly as they were. */
  lemma MockUpdateKeepsIds(s: MockState)
    ensures Lists.Map(MockUpdate(s).leads, Id) == Lists.Map(s.leads, Id)
  {
    if s.leadToEdit.Some? {
      Lists.ReplaceMatchingKeepsKeys(s.leads, Id, s.leadToEdit.value);
    }
  }
}
