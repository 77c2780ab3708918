/**
  The plan and service catalogue administration: the `Service` record both
  screens edit, the search-and-page hooks over a service list, and the two
  handler hooks that talk to the API, with their guards and dialog resets.
*/
module CatalogAdmin {
  import opened Wrappers
  import opened Text
  import JsNumber
  import Lists
  import Paging

  /**
    A record id as the screens hold it: declared a number, but a mapped plan carries
    the database's string id in the same field.
  */
  datatype IdValue = NumId(n: int) | StrId(s: string)

  /** `id.toString()`. */
  function IdText(id: IdValue): string {
    match id
    case NumId(n) => JsNumber.IntToString(n)
    case StrId(s) => s
  }

  /**
    The record both screens edit. `maxQueries` is `None` where the form leaves it
    undefined or not a number; `mongoId` is the optional `_id`.
  */
  datatype Service = Service(
    id: IdValue,
    mongoId: Option<string>,
    name: string,
    description: string,
    price: real,
    maxQueries: Option<int>,
    status: string)

  /** A service without its `id`: the new-plan and new-service forms. */
  datatype Draft = Draft(name: string, description: string, price: real, maxQueries: Option<int>, status: string)

  /** What opening a "new" dialog puts in the form. */
  const EmptyDraft := Draft("", "", 0.0, Some(0), "active")

  /** `maxQueries || 0`: a missing, non-numeric or zero limit becomes 0. */
  function OrZero(m: Option<int>): (r: int)
    ensures m.Some? && m.value != 0 ==> r == m.value
    ensures m.None? || m.value == 0 ==> r == 0
  {
    if m.Some? then m.value else 0
  }

  // ---------------------------------------------------------------------------------------
  // Searching

  /** The test of the pagination hooks and of the service handler hook: name or description holds the term. */
  predicate ServiceMatches(s: Service, term: string) {
    IncludesIgnoringCase(s.name, term) || IncludesIgnoringCase(s.description, term)
  }

  /** The plan handler hook's test: the description is only searched when it is non-empty. */
  predicate PlanMatches(s: Service, term: string) {
    IncludesIgnoringCase(s.name, term) || (s.description != [] && IncludesIgnoringCase(s.description, term))
  }

  function FilterServices(services: seq<Service>, term: string): (r: seq<Service>)
    ensures Lists.IsSubseq(r, services)
    ensures forall s :: s in r <==> s in services && ServiceMatches(s, term)
    ensures forall s :: multiset(r)[s] == if ServiceMatches(s, term) then multiset(services)[s] else 0
  {
    Lists.FilterIsSubseq(services, s => ServiceMatches(s, term));
    Lists.FilterMembers(services, s => ServiceMatches(s, term));
    Lists.FilterCounts(services, s => ServiceMatches(s, term));
    Lists.Filter(services, s => ServiceMatches(s, term))
  }

  function FilterPlans(plans: seq<Service>, term: string): (r: seq<Service>)
    ensures Lists.IsSubseq(r, plans)
    ensures forall s :: s in r <==> s in plans && PlanMatches(s, term)
    ensures forall s :: multiset(r)[s] == if PlanMatches(s, term) then multiset(plans)[s] else 0
  {
    Lists.FilterIsSubseq(plans, s => PlanMatches(s, term));
    Lists.FilterMembers(plans, s => PlanMatches(s, term));
    Lists.FilterCounts(plans, s => PlanMatches(s, term));
    Lists.Filter(plans, s => PlanMatches(s, term))
  }

  /** Lower-casing an empty text leaves it empty. */
  lemma LowerEmpty(s: string)
    requires s == []
    ensures Lower(s) == []
  {
  }

  /** An empty description contains no non-empty term, ignoring case. */
  lemma EmptyIncludesOnlyEmpty(term: string)
    ensures IncludesIgnoringCase([], term) ==> term == []
  {
    LowerEmpty([]);
    if IncludesIgnoringCase([], term) {
      var i: nat :| i <= |Lower([])| && OccursAt(Lower([]), Lower(term), i);
    }
  }

  /** The description guard of the plan filter changes nothing: both filters keep the same plans. */
  lemma PlanGuardRedundant(plans: seq<Service>, term: string)
    ensures FilterPlans(plans, term) == FilterServices(plans, term)
  {
    forall i | 0 <= i < |plans|
      ensures PlanMatches(plans[i], term) == ServiceMatches(plans[i], term)
    {
      if plans[i].description == [] && IncludesIgnoringCase(plans[i].description, term) {
        EmptyIncludesOnlyEmpty(term);
        IncludesEmpty(plans[i].name);
      }
    }
    Lists.FilterAgree(plans, s => PlanMatches(s, term), s => ServiceMatches(s, term));
  }

  /** An empty search term keeps every service. */
  lemma EmptyTermKeepsAllServices(services: seq<Service>)
    ensures FilterServices(services, []) == services
  {
    forall i | 0 <= i < |services|
      ensures ServiceMatches(services[i], [])
    {
      IncludesEmpty(services[i].name);
    }
    Lists.FilterKeepsAll(services, s => ServiceMatches(s, []));
  }

  // ---------------------------------------------------------------------------------------
  // The search-and-page hooks `usePlanPagination` and `useServicePagination`

  datatype PagedView = PagedView(filtered: seq<Service>, page: seq<Service>, totalPages: nat)

  function PagedViewOf(services: seq<Service>, p: Paging.Pager, k: nat): (r: PagedView)
    requires k > 0
    ensures r.filtered == FilterServices(services, p.searchTerm)
    ensures r.totalPages == Paging.PageCount(|r.filtered|, k)
    ensures r.page == Paging.PageOf(r.filtered, p.currentPage, k)
  {
    var filtered := FilterServices(services, p.searchTerm);
    PagedView(filtered, Paging.PageOf(filtered, p.currentPage, k), Paging.PageCount(|filtered|, k))
  }

  /** A page from 1 on shows at most `k` services, all matching the term; a page past the last is empty. */
  lemma PagedViewShowsMatches(services: seq<Service>, p: Paging.Pager, k: nat)
    requires k > 0 && p.currentPage >= 1
    ensures var v := PagedViewOf(services, p, k);
      && |v.page| <= k
      && (forall s :: s in v.page ==> s in services && ServiceMatches(s, p.searchTerm))
      && (p.currentPage > v.totalPages ==> v.page == [])
  {
    var v := PagedViewOf(services, p, k);
    Paging.PageIsRun(v.filtered, p.currentPage, k);
    Paging.PageStartNonNegative(p.currentPage, k);
    if p.currentPage > v.totalPages {
      Paging.PageBeyondCount(v.filtered, p.currentPage, k);
    }
  }

  /** Moving to any page the control offers shows at least one and at most `k` matching services. */
  lemma PageChangeInRangeShowsServices(services: seq<Service>, p: Paging.Pager, page: int, k: nat)
    requires k > 0 && 1 <= page <= Paging.PageCount(|FilterServices(services, p.searchTerm)|, k)
    ensures 1 <= |PagedViewOf(services, Paging.PagerPageChange(p, page), k).page| <= k
    ensures forall s :: s in PagedViewOf(services, Paging.PagerPageChange(p, page), k).page ==>
      s in services && ServiceMatches(s, p.searchTerm)
  {
    var q := Paging.PagerPageChange(p, page);
    Paging.PageWithinCountNonEmpty(FilterServices(services, q.searchTerm), page, k);
    PagedViewShowsMatches(services, q, k);
  }

  /** Narrowing the search on a later page can leave that page empty, because the page is kept. */
  lemma PagerSearchCanEmptyPage(services: seq<Service>, p: Paging.Pager, term: string, k: nat)
    requires k > 0 && p.currentPage > Paging.PageCount(|FilterServices(services, term)|, k)
    ensures PagedViewOf(services, Paging.PagerSearch(p, term), k).page == []
  {
    Paging.PageBeyondCount(FilterServices(services, term), p.currentPage, k);
  }

  // ---------------------------------------------------------------------------------------
  // Plans over the API: `usePlanHandlers`

  /** A plan as the API lists it. */
  datatype ApiPlan = ApiPlan(mongoId: string, name: string, description: string, price: real, maxQueries: Option<int>, status: string)

  /** The mapping of a listed plan: its `_id` becomes the id, and every plan is shown as active. */
  function MapPlan(p: ApiPlan): (r: Service)
    ensures r.id == StrId(p.mongoId) && r.mongoId == Some(p.mongoId)
    ensures r.status == "active"
    ensures r.name == p.name && r.description == p.description && r.price == p.price && r.maxQueries == p.maxQueries
  {
    Service(StrId(p.mongoId), Some(p.mongoId), p.name, p.description, p.price, p.maxQueries, "active")
  }

  /** One page of plans from the API: the records, and `totalPages` when it is a non-zero number. */
  datatype PlanPage = PlanPage(records: seq<ApiPlan>, totalPages: Option<int>)

  /** What the hook exposes: the filtered plans and the page count. */
  datatype PlanListing = PlanListing(plans: seq<Service>, totalPages: int)

  /**
    `fetched` is `None` when the request failed or the answer had no `objRecords`; then
    there are no plans and no pages (`data?.plans || []`, `data?.totalPages || 0`).
  */
  function ListPlans(fetched: Option<PlanPage>, term: string): (r: PlanListing)
    ensures fetched.None? ==> r == PlanListing([], 0)
    ensures fetched.Some? ==> r.totalPages == OrZero(fetched.value.totalPages)
    ensures fetched.Some? ==> Lists.IsSubseq(r.plans, Lists.Map(fetched.value.records, MapPlan))
    ensures fetched.Some? ==> forall s ::
      multiset(r.plans)[s] == if PlanMatches(s, term) then multiset(Lists.Map(fetched.value.records, MapPlan))[s] else 0
    ensures forall s :: s in r.plans ==> s.status == "active" && s.mongoId.Some? && s.id == StrId(s.mongoId.value)
  {
    match fetched
    case None => PlanListing([], 0)
    case Some(page) =>
      var mapped := Lists.Map(page.records, MapPlan);
      PlanListing(FilterPlans(mapped, term), OrZero(page.totalPages))
  }

  /** The listed plans are exactly the mapped records that match the term. */
  lemma ListPlansMembers(page: PlanPage, term: string)
    ensures forall s :: s in ListPlans(Some(page), term).plans <==>
      s in Lists.Map(page.records, MapPlan) && ServiceMatches(s, term)
  {
    PlanGuardRedundant(Lists.Map(page.records, MapPlan), term);
  }

  /** The record sent to create a plan: the limit defaults to 0 and the status is always "active". */
  datatype PlanBody = PlanBody(name: string, description: string, price: real, maxQueries: int, status: string)

  datatype PlanRequest =
    | CreatePlan(body: PlanBody)
    | UpdatePlan(id: string, name: string, description: string, price: real, maxQueries: Option<int>)
    | DeletePlan(id: string)

  datatype PlanHandlers = PlanHandlers(
    currentPage: int,
    searchTerm: string,
    planToEdit: Option<Service>,
    editOpen: bool,
    newOpen: bool,
    planToDelete: Option<string>,
    newPlan: Draft)

  const InitialPlanHandlers := PlanHandlers(1, "", None, false, false, None, EmptyDraft)

  datatype PlanEvent =
    | PlanSearch(term: string)
    | PlanPageChange(page: int)
    | OpenNewPlan
    | SetNewPlan(draft: Draft)
    | CreatePlanClicked
    | PlanCreated
    | EditPlan(plan: Service)
    | UpdatePlanClicked
    | PlanUpdated
    | OpenDeletePlan(id: IdValue)
    | DeletePlanClicked
    | PlanDeleted

  /** The state after an event, the request it sends (if any), and whether a validation toast is shown. */
  datatype PlanStep = PlanStep(state: PlanHandlers, request: Option<PlanRequest>, rejected: bool)

  /** `planToEdit._id || planToEdit.id.toString()`: the stored `_id` unless it is missing or empty. */
  function UpdateTarget(s: Service): (r: string)
    ensures s.mongoId.Some? && s.mongoId.value != [] ==> r == s.mongoId.value
    ensures s.mongoId.None? || s.mongoId.value == [] ==> r == IdText(s.id)
  {
    if s.mongoId.Some? && s.mongoId.value != [] then s.mongoId.value else IdText(s.id)
  }

  function PlanBodyOf(d: Draft): (r: PlanBody)
    ensures r.name == d.name && r.description == d.description && r.price == d.price
    ensures r.maxQueries == OrZero(d.maxQueries) && r.status == "active"
  {
    PlanBody(d.name, d.description, d.price, OrZero(d.maxQueries), "active")
  }

  function HandlePlan(s: PlanHandlers, e: PlanEvent): (r: PlanStep)
    ensures e.PlanSearch? ==> r.state == s.(searchTerm := e.term, currentPage := 1) && r.request.None?
    ensures e.CreatePlanClicked? ==> (r.request.Some? <==> !Blank(s.newPlan.name))
    ensures e.CreatePlanClicked? ==> (r.rejected <==> Blank(s.newPlan.name))
    ensures e.CreatePlanClicked? && r.request.Some? ==> r.request.value == CreatePlan(PlanBodyOf(s.newPlan))
    ensures e.PlanCreated? ==> !r.state.newOpen && r.state.newPlan == EmptyDraft
    ensures e.OpenNewPlan? ==> r.state.newOpen && r.state.newPlan == EmptyDraft
    ensures e.UpdatePlanClicked? && s.planToEdit.None? ==> r == PlanStep(s, None, false)
    ensures e.UpdatePlanClicked? && s.planToEdit.Some? ==>
      (r.request.Some? <==> !Blank(s.planToEdit.value.name)) && (r.rejected <==> Blank(s.planToEdit.value.name))
    ensures e.UpdatePlanClicked? && r.request.Some? ==>
      && r.request.value.UpdatePlan?
      && r.request.value.id == UpdateTarget(s.planToEdit.value)
      && r.request.value.name == s.planToEdit.value.name
    ensures e.PlanUpdated? ==> !r.state.editOpen && r.state.planToEdit.None?
    ensures e.DeletePlanClicked? && s.planToDelete.None? ==> r == PlanStep(s, None, false)
    ensures e.DeletePlanClicked? && s.planToDelete.Some? ==> r.request == Some(DeletePlan(s.planToDelete.value))
    ensures e.OpenDeletePlan? ==> r.state.planToDelete == Some(IdText(e.id))
    ensures r.request.Some? ==> r.state == s
    ensures !e.PlanSearch? && !e.PlanPageChange? ==> r.state.currentPage == s.currentPage
  {
    match e
    case PlanSearch(term) => PlanStep(s.(searchTerm := term, currentPage := 1), None, false)
    case PlanPageChange(page) => PlanStep(s.(currentPage := page), None, false)
    case OpenNewPlan => PlanStep(s.(newPlan := EmptyDraft, newOpen := true), None, false)
    case SetNewPlan(draft) => PlanStep(s.(newPlan := draft), None, false)
    case CreatePlanClicked =>
      if Blank(s.newPlan.name) then PlanStep(s, None, true)
      else PlanStep(s, Some(CreatePlan(PlanBodyOf(s.newPlan))), false)
    case PlanCreated => PlanStep(s.(newOpen := false, newPlan := EmptyDraft), None, false)
    case EditPlan(plan) => PlanStep(s.(planToEdit := Some(plan), editOpen := true), None, false)
    case UpdatePlanClicked =>
      if s.planToEdit.None? then PlanStep(s, None, false)
      else
        var p := s.planToEdit.value;
        if Blank(p.name) then PlanStep(s, None, true)
        else PlanStep(s, Some(UpdatePlan(UpdateTarget(p), p.name, p.description, p.price, p.maxQueries)), false)
    case PlanUpdated => PlanStep(s.(editOpen := false, planToEdit := None), None, false)
    case OpenDeletePlan(id) => PlanStep(s.(planToDelete := Some(IdText(id))), None, false)
    case DeletePlanClicked =>
      if s.planToDelete.None? then PlanStep(s, None, false)
      else PlanStep(s, Some(DeletePlan(s.planToDelete.value)), false)
    case PlanDeleted => PlanStep(s.(planToDelete := None), None, false)
  }

  /** Editing a listed plan updates it under its database id. */
  lemma EditedPlanTargetsItsId(s: PlanHandlers, p: ApiPlan)
    requires p.mongoId != [] && !Blank(p.name)
    ensures HandlePlan(HandlePlan(s, EditPlan(MapPlan(p))).state, UpdatePlanClicked).request ==
      Some(UpdatePlan(p.mongoId, p.name, p.description, p.price, p.maxQueries))
  {
  }

  /** A search always shows the first page of the matching plans. */
  lemma PlanSearchShowsFirstPage(s: PlanHandlers, term: string, plans: seq<Service>, k: nat)
    requires k > 0
    ensures var t := HandlePlan(s, PlanSearch(term)).state;
      Paging.PageOf(FilterPlans(plans, t.searchTerm), t.currentPage, k) ==
        var f := FilterPlans(plans, term); if k <= |f| then f[..k] else f
  {
    Paging.FirstPage(FilterPlans(plans, term), k);
  }

  /** A new plan is only ever requested with a non-blank name and the status "active". */
  lemma CreatedPlansNamedAndActive(s: PlanHandlers, e: PlanEvent)
    requires HandlePlan(s, e).request.Some? && HandlePlan(s, e).request.value.CreatePlan?
    ensures !Blank(HandlePlan(s, e).request.value.body.name)
    ensures HandlePlan(s, e).request.value.body.status == "active"
  {
  }

  // ---------------------------------------------------------------------------------------
  // Services over the API: `useServiceHandlers`

  datatype ServiceRequest =
    | CreateService(draft: Draft)
    | UpdateService(id: string, name: string, description: string, price: real, maxQueries: Option<int>, status: string)
    | DeleteService(id: string)

  datatype ServiceHandlers = ServiceHandlers(
    currentPage: int,
    searchTerm: string,
    serviceToEdit: Option<Service>,
    editOpen: bool,
    newOpen: bool,
    serviceToDelete: Option<int>,
    newService: Draft)

  const InitialServiceHandlers := ServiceHandlers(1, "", None, false, false, None, EmptyDraft)

  datatype ServiceEvent =
    | ServiceSearch(term: string)
    | ServicePageChange(page: int)
    | OpenNewService
    | SetNewService(draft: Draft)
    | CreateServiceClicked
    | ServiceCreated
    | EditService(service: Service)
    | UpdateServiceClicked
    | ServiceUpdated
    | OpenDeleteService(id: int)
    | DeleteServiceClicked
    | ServiceDeleted

  datatype ServiceStep = ServiceStep(state: ServiceHandlers, request: Option<ServiceRequest>, rejected: bool)

  function HandleService(s: ServiceHandlers, e: ServiceEvent): (r: ServiceStep)
    ensures e.ServiceSearch? ==> r.state == s.(searchTerm := e.term, currentPage := 1) && r.request.None?
    ensures e.CreateServiceClicked? ==> (r.request.Some? <==> !Blank(s.newService.name))
    ensures e.CreateServiceClicked? ==> (r.rejected <==> Blank(s.newService.name))
    ensures e.CreateServiceClicked? && r.request.Some? ==> r.request.value == CreateService(s.newService)
    ensures e.ServiceCreated? ==> r.state == s.(newOpen := false)
    ensures e.OpenNewService? ==> r.state.newOpen && r.state.newService == EmptyDraft
    ensures e.UpdateServiceClicked? && s.serviceToEdit.None? ==> r == ServiceStep(s, None, false)
    ensures e.UpdateServiceClicked? && s.serviceToEdit.Some? ==>
      && r.request.Some? && !r.rejected
      && r.request.value.UpdateService?
      && r.request.value.id == IdText(s.serviceToEdit.value.id)
    ensures e.ServiceUpdated? ==> r.state == s.(editOpen := false)
    ensures e.DeleteServiceClicked? && s.serviceToDelete.None? ==> r == ServiceStep(s, None, false)
    ensures e.DeleteServiceClicked? && s.serviceToDelete.Some? ==>
      r.request == Some(DeleteService(JsNumber.IntToString(s.serviceToDelete.value)))
    ensures r.request.Some? ==> r.state == s
    ensures !e.ServiceSearch? && !e.ServicePageChange? ==> r.state.currentPage == s.currentPage
  {
    match e
    case ServiceSearch(term) => ServiceStep(s.(searchTerm := term, currentPage := 1), None, false)
    case ServicePageChange(page) => ServiceStep(s.(currentPage := page), None, false)
    case OpenNewService => ServiceStep(s.(newService := EmptyDraft, newOpen := true), None, false)
    case SetNewService(draft) => ServiceStep(s.(newService := draft), None, false)
    case CreateServiceClicked =>
      if Blank(s.newService.name) then ServiceStep(s, None, true)
      else ServiceStep(s, Some(CreateService(s.newService)), false)
    case ServiceCreated => ServiceStep(s.(newOpen := false), None, false)
    case EditService(service) => ServiceStep(s.(serviceToEdit := Some(service), editOpen := true), None, false)
    case UpdateServiceClicked =>
      if s.serviceToEdit.None? then ServiceStep(s, None, false)
      else
        var v := s.serviceToEdit.value;
        ServiceStep(s, Some(UpdateService(IdText(v.id), v.name, v.description, v.price, v.maxQueries, v.status)), false)
    case ServiceUpdated => ServiceStep(s.(editOpen := false), None, false)
    case OpenDeleteService(id) => ServiceStep(s.(serviceToDelete := Some(id)), None, false)
    case DeleteServiceClicked =>
      if s.serviceToDelete.None? then ServiceStep(s, None, false)
      else ServiceStep(s, Some(DeleteService(JsNumber.IntToString(s.serviceToDelete.value))), false)
    case ServiceDeleted => ServiceStep(s.(serviceToDelete := None), None, false)
  }

  /**
    Unlike a plan update, a service update has no name check and always targets the
    numeric `id`, even when the record carries an `_id`.
  */
  lemma ServiceUpdateTargetsNumericId(s: ServiceHandlers, v: Service, n: int)
    requires v.id == NumId(n)
    ensures HandleService(HandleService(s, EditService(v)).state, UpdateServiceClicked).request.value.id ==
      JsNumber.IntToString(n)
  {
  }

  /**
    A successful create only closes the dialog and keeps the typed draft; opening the
    dialog again is what clears it.
  */
  lemma ServiceDraftClearedOnReopen(s: ServiceHandlers)
    ensures HandleService(s, ServiceCreated).state.newService == s.newService
    ensures HandleService(HandleService(s, ServiceCreated).state, OpenNewService).state.newService == EmptyDraft
  {
  }

  /** A successful update closes the dialog but keeps the service selected for editing. */
  lemma ServiceUpdateKeepsSelection(s: ServiceHandlers)
    ensures HandleService(s, ServiceUpdated).state.serviceToEdit == s.serviceToEdit
  {
  }

  /** `totalCount || 0`: a missing count is no services. */
  function ServicePageCount(totalCount: Option<nat>, k: nat): (r: nat)
    requires k > 0
    ensures r * k >= OrZero(if totalCount.Some? then Some(totalCount.value as int) else None)
    ensures totalCount.None? ==> r == 0
    ensures totalCount.Some? ==> (r == 0 <==> totalCount.value == 0)
    ensures r == 0 || (r - 1) * k < totalCount.GetOr(0)
  {
    Paging.PageCount(if totalCount.Some? then totalCount.value else 0, k)
  }

  /** What the service hook exposes: the page's services that match the term, and the API's page count. */
  datatype ServiceListing = ServiceListing(services: seq<Service>, totalPages: nat)

  function ListServices(fetched: Option<seq<Service>>, totalCount: Option<nat>, term: string, k: nat): (r: ServiceListing)
    requires k > 0
    ensures fetched.None? ==> r.services == []
    ensures forall v :: v in r.services <==> fetched.Some? && v in fetched.value && ServiceMatches(v, term)
    ensures fetched.Some? ==> Lists.IsSubseq(r.services, fetched.value)
    ensures fetched.Some? ==> forall v ::
      multiset(r.services)[v] == if ServiceMatches(v, term) then multiset(fetched.value)[v] else 0
    ensures r.totalPages == ServicePageCount(totalCount, k)
  {
    ServiceListing(FilterServices(fetched.GetOr([]), term), ServicePageCount(totalCount, k))
  }
}
