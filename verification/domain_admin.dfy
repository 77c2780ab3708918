/**
  The CORS-domain administration: the record, the search-and-page hooks,
  the list component's own paging, the handler hook that talks to the API,
  and the in-memory mock list with its id choice.
*/
module DomainAdmin {
  import opened Wrappers
  import opened Text
  import JsNumber
  import Lists
  import Paging

  datatype Domain = Domain(id: string, domain: string, isActive: bool, createdAt: string, updatedAt: string, version: int)

  /** The `{ domain, isActive }` draft of the add form. */
  datatype DomainDraft = DomainDraft(domain: string, isActive: bool)

  const EmptyDraft := DomainDraft("", true)

  predicate DomainMatches(d: Domain, term: string) {
    IncludesIgnoringCase(d.domain, term)
  }

  /** The domains whose name contains the term, ignoring case, in their original order. */
  function FilterDomains(domains: seq<Domain>, term: string): (r: seq<Domain>)
    ensures Lists.IsSubseq(r, domains)
    ensures forall d :: d in r <==> d in domains && DomainMatches(d, term)
    ensures forall d :: multiset(r)[d] == if DomainMatches(d, term) then multiset(domains)[d] else 0
  {
    Lists.FilterIsSubseq(domains, d => DomainMatches(d, term));
    Lists.FilterMembers(domains, d => DomainMatches(d, term));
    Lists.FilterCounts(domains, d => DomainMatches(d, term));
    Lists.Filter(domains, d => DomainMatches(d, term))
  }

  /** An empty search term keeps every domain. */
  lemma EmptyTermKeepsAll(domains: seq<Domain>)
    ensures FilterDomains(domains, []) == domains
  {
    forall i | 0 <= i < |domains|
      ensures DomainMatches(domains[i], [])
    {
      IncludesEmpty(domains[i].domain);
    }
    Lists.FilterKeepsAll(domains, d => DomainMatches(d, []));
  }

  /** What a search-and-page hook hands to its table. */
  datatype View = View(filtered: seq<Domain>, page: seq<Domain>, totalPages: nat)

  function ViewOf(domains: seq<Domain>, term: string, currentPage: int, k: nat): (r: View)
    requires k > 0
    ensures r.filtered == FilterDomains(domains, term)
    ensures r.totalPages == Paging.PageCount(|r.filtered|, k)
    ensures r.page == Paging.PageOf(r.filtered, currentPage, k)
  {
    var filtered := FilterDomains(domains, term);
    View(filtered, Paging.PageOf(filtered, currentPage, k), Paging.PageCount(|filtered|, k))
  }

  /** Every domain shown on a page matches the term and comes from the list; there are at most `k`. */
  lemma ViewShowsMatches(domains: seq<Domain>, term: string, currentPage: int, k: nat)
    requires k > 0 && currentPage >= 1
    ensures var v := ViewOf(domains, term, currentPage, k);
      |v.page| <= k && forall d :: d in v.page ==> d in domains && DomainMatches(d, term)
  {
    var v := ViewOf(domains, term, currentPage, k);
    Paging.PageIsRun(v.filtered, currentPage, k);
    Paging.PageStartNonNegative(currentPage, k);
  }

  /** Narrowing the search on a later page can leave that page empty although domains match. */
  lemma NarrowedSearchCanEmptyPage(domains: seq<Domain>, p: Paging.Pager, term: string, k: nat)
    requires k > 0 && p.currentPage > Paging.PageCount(|FilterDomains(domains, term)|, k)
    ensures ViewOf(domains, Paging.PagerSearch(p, term).searchTerm, Paging.PagerSearch(p, term).currentPage, k).page == []
  {
    Paging.PageBeyondCount(FilterDomains(domains, term), p.currentPage, k);
  }

  /**
    The list component as written: it is handed the handler's page and pages it again
    with its own page number, starting at 1.
  */
  function DomainListPage(handed: seq<Domain>, localPage: int, k: nat): (r: seq<Domain>)
    requires k > 0
  {
    Paging.PageOf(handed, localPage, k)
  }

  /** The pagination control is shown only for a non-empty list. */
  predicate DomainListShowsControl(handed: seq<Domain>) {
    |handed| > 0
  }

  /**
    Handed the handler's page `page`, the list shows that page on its first local page
    and nothing on any later one, and never offers more than one page: with the handler's
    own page stuck at 1, no domain after the first `k` matches can be reached.
  */
  lemma DomainListShowsOnlyFirstPage(filtered: seq<Domain>, page: int, localPage: int, k: nat)
    requires k > 0 && page >= 1 && localPage >= 1
    ensures DomainListPage(Paging.PageOf(filtered, page, k), localPage, k) ==
      if localPage == 1 then Paging.PageOf(filtered, page, k) else []
    ensures Paging.PageCount(|Paging.PageOf(filtered, page, k)|, k) <= 1
  {
    Paging.PageOfPage(filtered, page, localPage, k);
    Paging.PageCountOfPage(filtered, page, k);
  }

  /** A concrete case: with `k + 1` matches the last one is on no local page. */
  lemma DomainListHidesLastMatch(filtered: seq<Domain>, localPage: int, k: nat)
    requires k > 0 && |filtered| == k + 1 && Lists.NoDuplicates(filtered) && localPage >= 1
    ensures filtered[k] !in DomainListPage(Paging.PageOf(filtered, 1, k), localPage, k)
  {
    DomainListShowsOnlyFirstPage(filtered, 1, localPage, k);
    Paging.FirstPage(filtered, k);
  }

  /** The list component as intended: it pages the whole filtered list with its own page number. */
  function DomainListPageFixed(filtered: seq<Domain>, localPage: int, k: nat): (r: seq<Domain>)
    requires k > 0
  {
    Paging.PageOf(filtered, localPage, k)
  }

  /** With the fix every matching domain is on some page that the control offers. */
  lemma FixedListReachesEveryDomain(filtered: seq<Domain>, i: nat, k: nat)
    requires k > 0 && i < |filtered|
    ensures var page := i / k + 1;
      1 <= page <= Paging.PageCount(|filtered|, k) && filtered[i] in DomainListPageFixed(filtered, page, k)
  {
    Paging.ItemOnItsPage(filtered, i, k);
    Paging.ItemPageWithinCount(|filtered|, i, k);
    var p := DomainListPageFixed(filtered, i / k + 1, k);
    assert p[i % k] == filtered[i];
  }

  // ---------------------------------------------------------------------------------------
  // The handler hook over the API

  /** The API calls the hook makes. */
  datatype Request =
    | AddDomain(draft: DomainDraft)
    | UpdateDomain(id: string, domain: string, isActive: bool)
    | DeleteDomain(id: string)

  datatype Handlers = Handlers(
    currentPage: int,
    searchTerm: string,
    domainToEdit: Option<Domain>,
    editOpen: bool,
    domainToDelete: Option<string>,
    newDomain: DomainDraft)

  const InitialHandlers := Handlers(1, "", None, false, None, EmptyDraft)

  datatype Event =
    | SetSearchTerm(term: string)
    | PageChange(page: int)
    | SetNewDomain(draft: DomainDraft)
    | Add
    | AddSucceeded
    | Edit(d: Domain)
    | Update
    | UpdateSucceeded
    | OpenDelete(id: string)
    | Delete
    | DeleteSucceeded

  /** The state after an event, the request it sends (if any), and whether a validation toast is shown. */
  datatype Step = Step(state: Handlers, request: Option<Request>, rejected: bool)

  function Handle(s: Handlers, e: Event): (r: Step)
    ensures e.Add? ==> (r.request.Some? <==> !Blank(s.newDomain.domain))
    ensures e.Add? && r.request.Some? ==> r.request.value == AddDomain(s.newDomain)
    ensures e.Add? ==> (r.rejected <==> Blank(s.newDomain.domain))
    ensures e.AddSucceeded? ==> r.state.newDomain == EmptyDraft
    ensures e.Update? && s.domainToEdit.None? ==> r == Step(s, None, false)
    ensures e.Update? && s.domainToEdit.Some? ==>
      r.request == Some(UpdateDomain(s.domainToEdit.value.id, s.domainToEdit.value.domain, s.domainToEdit.value.isActive))
    ensures e.Delete? && s.domainToDelete.None? ==> r == Step(s, None, false)
    ensures e.Delete? && s.domainToDelete.Some? ==> r.request == Some(DeleteDomain(s.domainToDelete.value))
    ensures !e.PageChange? ==> r.state.currentPage == s.currentPage
    ensures r.request.Some? ==> r.state == s
  {
    match e
    case SetSearchTerm(term) => Step(s.(searchTerm := term), None, false)
    case PageChange(page) => Step(s.(currentPage := page), None, false)
    case SetNewDomain(draft) => Step(s.(newDomain := draft), None, false)
    case Add =>
      if Blank(s.newDomain.domain) then Step(s, None, true)
      else Step(s, Some(AddDomain(s.newDomain)), false)
    case AddSucceeded => Step(s.(newDomain := EmptyDraft), None, false)
    case Edit(d) => Step(s.(domainToEdit := Some(d), editOpen := true), None, false)
    case Update =>
      if s.domainToEdit.None? then Step(s, None, false)
      else
        var d := s.domainToEdit.value;
        Step(s, Some(UpdateDomain(d.id, d.domain, d.isActive)), false)
    case UpdateSucceeded => Step(s.(editOpen := false), None, false)
    case OpenDelete(id) => Step(s.(domainToDelete := Some(id)), None, false)
    case Delete =>
      if s.domainToDelete.None? then Step(s, None, false)
      else Step(s, Some(DeleteDomain(s.domainToDelete.value)), false)
    case DeleteSucceeded => Step(s.(domainToDelete := None), None, false)
  }

  /** What the hook exposes, from the fetched list (`objRecords`, possibly missing). */
  datatype Exposed = Exposed(domains: seq<Domain>, filtered: seq<Domain>, totalCount: nat, totalPages: nat)

  function Expose(fetched: Option<seq<Domain>>, s: Handlers, k: nat): (r: Exposed)
    requires k > 0
    ensures r.filtered == FilterDomains(fetched.GetOr([]), s.searchTerm)
    ensures r.domains == Paging.PageOf(r.filtered, s.currentPage, k)
    ensures r.totalPages == Paging.PageCount(|r.filtered|, k)
    ensures r.totalCount == |r.filtered|
    ensures fetched.None? ==> r.filtered == [] && r.domains == [] && r.totalPages == 0
  {
    var v := ViewOf(fetched.GetOr([]), s.searchTerm, s.currentPage, k);
    Exposed(v.page, v.filtered, |v.filtered|, v.totalPages)
  }

  /**
    The exposed domains are fetched domains that match the term, at most `k` of them;
    on a page the count offers there is at least one.
  */
  lemma ExposedDomainsMatch(fetched: Option<seq<Domain>>, s: Handlers, k: nat)
    requires k > 0 && s.currentPage >= 1
    ensures |Expose(fetched, s, k).domains| <= k
    ensures forall d :: d in Expose(fetched, s, k).domains ==> d in fetched.GetOr([]) && DomainMatches(d, s.searchTerm)
    ensures s.currentPage <= Expose(fetched, s, k).totalPages ==> Expose(fetched, s, k).domains != []
  {
    var r := Expose(fetched, s, k);
    ViewShowsMatches(fetched.GetOr([]), s.searchTerm, s.currentPage, k);
    if s.currentPage <= r.totalPages {
      Paging.PageWithinCountNonEmpty(r.filtered, s.currentPage, k);
    }
  }

  /** The search term the hook exposes is the raw setter: typing a term keeps the page. */
  lemma SearchKeepsPage(s: Handlers, term: string)
    ensures Handle(s, SetSearchTerm(term)).state.currentPage == s.currentPage
    ensures Handle(s, SetSearchTerm(term)).state.searchTerm == term
  {
  }

  /** A blank new domain is rejected until a non-blank one is typed, after which it is sent as typed. */
  lemma AddAfterTyping(s: Handlers, draft: DomainDraft)
    requires !Blank(draft.domain)
    ensures Handle(Handle(s, SetNewDomain(draft)).state, Add).request == Some(AddDomain(draft))
  {
  }

  // ---------------------------------------------------------------------------------------
  // The in-memory mock list

  datatype MockState = MockState(
    domains: seq<Domain>,
    domainToEdit: Option<Domain>,
    editOpen: bool,
    domainToDelete: Option<string>,
    newDomain: DomainDraft)

  function Id(d: Domain): string {
    d.id
  }

  /** `(parseInt(last?._id || "0") + 1).toString()`; NaN prints as "NaN". */
  function NextId(domains: seq<Domain>): string {
    Successor(LastId(domains))
  }

  /** `last?._id || "0"`: the last id, with "0" standing in for a missing or empty one. */
  function LastId(domains: seq<Domain>): string {
    if |domains| == 0 || domains[|domains| - 1].id == [] then "0" else domains[|domains| - 1].id
  }

  /** `(parseInt(id) + 1).toString()`. */
  function Successor(id: string): string {
    match JsNumber.ParseInt(id)
    case Some(n) => JsNumber.IntToString(n + 1)
    case None => "NaN"
  }

  /** The domains with the `_id` of `edited` replaced by it; nothing when no domain is selected. */
  function MockUpdate(s: MockState): (r: MockState)
    ensures s.domainToEdit.None? ==> r == s
    ensures s.domainToEdit.Some? ==>
      && |r.domains| == |s.domains|
      && (forall i :: 0 <= i < |s.domains| && s.domains[i].id != s.domainToEdit.value.id ==> r.domains[i] == s.domains[i])
      && (forall i :: 0 <= i < |s.domains| && s.domains[i].id == s.domainToEdit.value.id ==> r.domains[i] == s.domainToEdit.value)
      && !r.editOpen && r.domainToEdit.None?
  {
    if s.domainToEdit.None? then s
    else s.(domains := Lists.ReplaceMatching(s.domains, Id, s.domainToEdit.value), editOpen := false, domainToEdit := None)
  }

  /** `handleAddDomain`: no blank check here; the draft is appended with the next id and `__v` 0. */
  function MockAdd(s: MockState, now: string): (r: MockState)
    ensures r.domains == s.domains + [Domain(NextId(s.domains), s.newDomain.domain, s.newDomain.isActive, now, now, 0)]
    ensures r.newDomain == EmptyDraft
    ensures r.domainToEdit == s.domainToEdit && r.domainToDelete == s.domainToDelete
  {
    var d := Domain(NextId(s.domains), s.newDomain.domain, s.newDomain.isActive, now, now, 0);
    s.(domains := s.domains + [d], newDomain := EmptyDraft)
  }

  function MockDelete(s: MockState): (r: MockState)
    ensures s.domainToDelete.None? ==> r == s
    ensures s.domainToDelete.Some? ==>
      && (forall d :: d in r.domains <==> d in s.domains && d.id != s.domainToDelete.value)
      && Lists.IsSubseq(r.domains, s.domains)
      && (forall d :: multiset(r.domains)[d] == if d.id == s.domainToDelete.value then 0 else multiset(s.domains)[d])
      && r.domainToDelete.None?
  {
    if s.domainToDelete.None? then s
    else s.(domains := Lists.RemoveMatching(s.domains, Id, s.domainToDelete.value), domainToDelete := None)
  }

  /** An id as the mock writes them: the decimal numeral of a natural number. */
  ghost predicate IsNumeral(id: string) {
    exists n: nat :: id == Numeral(n)
  }

  /** The numeral the mock writes for `n`. */
  function Numeral(n: nat): string {
    JsNumber.IntToString(n)
  }

  /** The number a numeral stands for. */
  ghost function NumeralValue(id: string): (n: nat)
    requires IsNumeral(id)
    ensures id == Numeral(n)
  {
    var n: nat :| id == Numeral(n); n
  }

  ghost function IdBelow(): (Domain, Domain) -> bool {
    (a: Domain, b: Domain) => IsNumeral(a.id) && IsNumeral(b.id) && NumeralValue(a.id) < NumeralValue(b.id)
  }

  /** The mock's ids are numerals in strictly increasing order. */
  ghost predicate IncreasingIds(domains: seq<Domain>) {
    && (forall i :: 0 <= i < |domains| ==> IsNumeral(domains[i].id))
    && Lists.Pairwise(domains, IdBelow())
  }

  /** Ids that increase along the list are distinct. */
  lemma IncreasingIdsDistinct(domains: seq<Domain>, i: nat, j: nat)
    requires IncreasingIds(domains) && i < j < |domains|
    ensures domains[i].id != domains[j].id
  {
    assert IdBelow()(domains[i], domains[j]);
  }

  /** After a last id that is the numeral of `m`, the next id is the numeral of `m + 1`. */
  lemma NextIdAfter(domains: seq<Domain>, m: nat)
    requires |domains| > 0 && domains[|domains| - 1].id == JsNumber.IntToString(m)
    ensures NextId(domains) == Numeral(m + 1)
  {
    assert LastId(domains) == Numeral(m);
    SuccessorOfNumeral(m);
  }

  lemma SuccessorOfNumeral(m: nat)
    ensures Successor(Numeral(m)) == Numeral(m + 1)
  {
    JsNumber.ParseIntOfIntToString(m);
  }

  /** The next id of an increasing list is a numeral above every id in it. */
  lemma NextIdAbove(domains: seq<Domain>)
    requires IncreasingIds(domains)
    ensures IsNumeral(NextId(domains))
    ensures forall i :: 0 <= i < |domains| ==> NumeralValue(domains[i].id) < NumeralValue(NextId(domains))
  {
    if |domains| == 0 {
      NextIdOfEmpty();
    } else {
      NextIdOfIncreasing(domains);
    }
  }

  lemma NextIdOfEmpty()
    ensures IsNumeral(NextId([])) && NumeralValue(NextId([])) == 1
  {
    FirstIds();
    assert Numeral(1) == "1";
    NumeralValueOf(1);
  }

  lemma NextIdOfIncreasing(domains: seq<Domain>)
    requires IncreasingIds(domains) && |domains| > 0
    ensures IsNumeral(NextId(domains))
    ensures forall i :: 0 <= i < |domains| ==> NumeralValue(domains[i].id) < NumeralValue(NextId(domains))
  {
    LastIsLargest(domains);
    NextIdOfLast(domains);
  }

  /** The next id is the numeral just above the last id. */
  lemma NextIdOfLast(domains: seq<Domain>)
    requires |domains| > 0 && IsNumeral(domains[|domains| - 1].id)
    ensures IsNumeral(NextId(domains))
    ensures NumeralValue(NextId(domains)) == NumeralValue(domains[|domains| - 1].id) + 1
  {
    var m := NumeralValue(domains[|domains| - 1].id);
    NextIdAfter(domains, m);
    NumeralValueOf(m + 1);
  }

  /** In an increasing list no id is above the last one. */
  lemma LastIsLargest(domains: seq<Domain>)
    requires IncreasingIds(domains) && |domains| > 0
    ensures forall i :: 0 <= i < |domains| ==> NumeralValue(domains[i].id) <= NumeralValue(domains[|domains| - 1].id)
  {
    var last := domains[|domains| - 1];
    forall i | 0 <= i < |domains| - 1
      ensures NumeralValue(domains[i].id) < NumeralValue(last.id)
    {
      assert IdBelow()(domains[i], last);
    }
  }

  lemma NumeralValueOf(n: nat)
    ensures IsNumeral(Numeral(n))
    ensures NumeralValue(Numeral(n)) == n
  {
    var s := Numeral(n);
    assert IsNumeral(s);
    JsNumber.IntToStringInjective(n, NumeralValue(s));
  }

  /** The id an add chooses is not taken, as long as the ids are increasing. */
  lemma MockAddFresh(s: MockState, now: string)
    requires IncreasingIds(s.domains)
    ensures forall d :: d in s.domains ==> d.id != NextId(s.domains)
  {
    NextIdAbove(s.domains);
  }

  /** Add, update and delete all keep the mock's ids increasing. */
  lemma MockAddKeepsIncreasingIds(s: MockState, now: string)
    requires IncreasingIds(s.domains)
    ensures IncreasingIds(MockAdd(s, now).domains)
  {
    NextIdAbove(s.domains);
    var d := Domain(NextId(s.domains), s.newDomain.domain, s.newDomain.isActive, now, now, 0);
    AppendAboveKeepsIncreasing(s.domains, d);
  }

  /** Appending a domain whose id is above all the others keeps the ids increasing. */
  lemma AppendAboveKeepsIncreasing(domains: seq<Domain>, d: Domain)
    requires IncreasingIds(domains) && IsNumeral(d.id)
    requires forall i :: 0 <= i < |domains| ==> NumeralValue(domains[i].id) < NumeralValue(d.id)
    ensures IncreasingIds(domains + [d])
  {
    var added := domains + [d];
    forall i, j | 0 <= i < j < |added|
      ensures IdBelow()(added[i], added[j])
    {
      assert added[i] == domains[i];
      if j < |domains| {
        assert added[j] == domains[j];
        assert IdBelow()(domains[i], domains[j]);
      }
    }
    forall i | 0 <= i < |added|
      ensures IsNumeral(added[i].id)
    {
      if i < |domains| {
        assert added[i] == domains[i];
      }
    }
  }

  lemma MockUpdateKeepsIncreasingIds(s: MockState)
    requires IncreasingIds(s.domains)
    ensures IncreasingIds(MockUpdate(s).domains)
  {
    if s.domainToEdit.Some? {
      var updated := MockUpdate(s).domains;
      forall i, j | 0 <= i < j < |updated|
        ensures IdBelow()(updated[i], updated[j])
      {
        assert updated[i].id == s.domains[i].id && updated[j].id == s.domains[j].id;
        assert IdBelow()(s.domains[i], s.domains[j]);
      }
    }
  }

  lemma MockDeleteKeepsIncreasingIds(s: MockState)
    requires IncreasingIds(s.domains)
    ensures IncreasingIds(MockDelete(s).domains)
  {
    if s.domainToDelete.Some? {
      Lists.RemoveMatchingKeepsPairwise(s.domains, Id, s.domainToDelete.value, IdBelow());
      var kept := MockDelete(s).domains;
      forall i | 0 <= i < |kept|
        ensures IsNumeral(kept[i].id)
      {
        assert kept[i] in kept;
        var j :| 0 <= j < |s.domains| && s.domains[j] == kept[i];
      }
    }
  }

  /** An add to the empty list takes id "1". */
  lemma FirstIds()
    ensures NextId([]) == "1"
  {
    JsNumber.ParseIntOfIntToString(0);
    assert JsNumber.IntToString(0) == "0";
    assert JsNumber.IntToString(1) == "1";
  }

  /** Were the last id not the largest, the next id would repeat one already taken. */
  lemma OutOfOrderIdsCollide(a: Domain, b: Domain, n: nat)
    requires a.id == JsNumber.IntToString(n + 1) && b.id == JsNumber.IntToString(n)
    ensures NextId([a, b]) == a.id
  {
    JsNumber.ParseIntOfIntToString(n);
  }
}
