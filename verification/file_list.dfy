/**
  The user's result files: the search-and-page hook of the file table, and the
  document fetch that keeps only the files the user's plan gives access to.
*/
module FileList {
  import opened Wrappers
  import opened Text
  import Lists
  import Paging

  /** Which extraction a file came from. */
  datatype DocType = Mei | Cnpj

  datatype FileData = FileData(
    id: string,
    name: string,
    lastModified: string,
    date: string,
    url: Option<string>,
    docType: DocType)

  /** The file table shows two files per page. */
  const PageSize := 2

  /**
    The per-file test for the search box: the field chosen in the field selector holds
    the term, ignoring case; any field name other than the three known ones keeps the file.
  */
  predicate FileMatches(file: FileData, field: string, term: string) {
    if field == "name" then IncludesIgnoringCase(file.name, term)
    else if field == "lastModified" then IncludesIgnoringCase(file.lastModified, term)
    else if field == "date" then IncludesIgnoringCase(file.date, term)
    else true
  }

  predicate KnownField(field: string) {
    field == "name" || field == "lastModified" || field == "date"
  }

  /** `filteredData`: the whole list for an empty term, otherwise the matching files in order. */
  function FilteredData(data: seq<FileData>, field: string, term: string): (r: seq<FileData>)
    ensures Lists.IsSubseq(r, data)
    ensures forall f :: f in r <==> f in data && (term == [] || FileMatches(f, field, term))
    ensures forall f :: multiset(r)[f] == if term == [] || FileMatches(f, field, term) then multiset(data)[f] else 0
  {
    if term == [] then
      Lists.IsSubseqRefl(data);
      data
    else
      Lists.FilterIsSubseq(data, f => FileMatches(f, field, term));
      Lists.FilterMembers(data, f => FileMatches(f, field, term));
      Lists.FilterCounts(data, f => FileMatches(f, field, term));
      Lists.Filter(data, f => FileMatches(f, field, term))
  }

  /**
    The shortcut for an empty term changes nothing: filtering with the empty term would
    keep every file anyway, since every text includes the empty string.
  */
  lemma EmptyTermShortcut(data: seq<FileData>, field: string)
    ensures FilteredData(data, field, []) == data
    ensures Lists.Filter(data, f => FileMatches(f, field, [])) == data
  {
    forall i | 0 <= i < |data|
      ensures FileMatches(data[i], field, [])
    {
      IncludesEmpty(data[i].name);
      IncludesEmpty(data[i].lastModified);
      IncludesEmpty(data[i].date);
    }
    Lists.FilterKeepsAll(data, f => FileMatches(f, field, []));
  }

  /** A field name the switch does not know keeps every file, whatever the term. */
  lemma UnknownFieldKeepsAll(data: seq<FileData>, field: string, term: string)
    requires !KnownField(field)
    ensures FilteredData(data, field, term) == data
  {
    if term != [] {
      Lists.FilterKeepsAll(data, f => FileMatches(f, field, term));
    }
  }

  /** Searching the result of a search again with the same term finds the same files. */
  lemma FilterTwice(data: seq<FileData>, field: string, term: string)
    ensures FilteredData(FilteredData(data, field, term), field, term) == FilteredData(data, field, term)
  {
    if term != [] {
      Lists.FilterIdempotent(data, f => FileMatches(f, field, term));
    }
  }

  /** What the hook returns besides the page setter. */
  datatype FileView = FileView(filtered: seq<FileData>, page: seq<FileData>, currentPage: int, totalPages: nat)

  function ViewOf(data: seq<FileData>, field: string, term: string, currentPage: int): (r: FileView)
    ensures r.filtered == FilteredData(data, field, term) && r.currentPage == currentPage
    ensures r.totalPages * PageSize >= |r.filtered| && (r.totalPages == 0 || (r.totalPages - 1) * PageSize < |r.filtered|)
    ensures r.totalPages == 0 <==> r.filtered == []
    ensures r.page == Paging.PageOf(r.filtered, currentPage, PageSize)
  {
    var filtered := FilteredData(data, field, term);
    FileView(filtered, Paging.PageOf(filtered, currentPage, PageSize), currentPage, Paging.PageCount(|filtered|, PageSize))
  }

  /**
    From page 1 on, a page holds at most two files, a contiguous run of the filtered list
    starting at `(currentPage - 1) * 2`; past the last page it is empty.
  */
  lemma PageIsRunOfFiltered(data: seq<FileData>, field: string, term: string, currentPage: int)
    requires currentPage >= 1
    ensures var v := ViewOf(data, field, term, currentPage);
      && |v.page| <= PageSize
      && (forall f :: f in v.page ==> f in v.filtered)
      && (currentPage > v.totalPages ==> v.page == [])
  {
    var v := ViewOf(data, field, term, currentPage);
    Paging.PageIsRun(v.filtered, currentPage, PageSize);
    Paging.PageStartNonNegative(currentPage, PageSize);
    if currentPage > v.totalPages {
      Paging.PageBeyondCount(v.filtered, currentPage, PageSize);
    }
  }

  /** The hook's page: it starts at 1 and only `handlePageChange` moves it. */
  datatype FilePager = FilePager(currentPage: int)

  const NewFilePager := FilePager(1)

  function PageChange(p: FilePager, page: int): (r: FilePager)
    ensures r.currentPage == page
  {
    FilePager(page)
  }

  /** Moving to any page the control offers shows one or two files of the filtered list. */
  lemma PageChangeInRangeShowsFiles(data: seq<FileData>, field: string, term: string, p: FilePager, page: int)
    requires 1 <= page <= Paging.PageCount(|FilteredData(data, field, term)|, PageSize)
    ensures var v := ViewOf(data, field, term, PageChange(p, page).currentPage);
      1 <= |v.page| <= PageSize && forall f :: f in v.page ==> f in v.filtered
  {
    var filtered := FilteredData(data, field, term);
    Paging.PageWithinCountNonEmpty(filtered, page, PageSize);
    Paging.PageIsRun(filtered, page, PageSize);
    Paging.PageStartNonNegative(page, PageSize);
  }

  /**
    The page is not clamped when the list shrinks: a page that was in range for one list
    shows nothing once a narrower search leaves fewer pages than the page number.
  */
  lemma ShrunkListLeavesPageEmpty(data: seq<FileData>, field: string, term: string, p: FilePager)
    requires p.currentPage > Paging.PageCount(|FilteredData(data, field, term)|, PageSize)
    ensures ViewOf(data, field, term, p.currentPage).page == []
    ensures ViewOf(data, field, term, p.currentPage).currentPage == p.currentPage
  {
    Paging.PageBeyondCount(FilteredData(data, field, term), p.currentPage, PageSize);
  }

  /** A document as the API lists it: the same six fields, with the url always present. */
  datatype ApiDocument = ApiDocument(id: string, name: string, lastModified: string, date: string, url: string, docType: DocType)

  /** The field-by-field copy into the table's record. */
  function ToFileData(doc: ApiDocument): (r: FileData)
    ensures r.id == doc.id && r.name == doc.name && r.lastModified == doc.lastModified
    ensures r.date == doc.date && r.url == Some(doc.url) && r.docType == doc.docType
  {
    FileData(doc.id, doc.name, doc.lastModified, doc.date, Some(doc.url), doc.docType)
  }

  /** The access test: a MEI file needs MEI access, a CNPJ file needs CNPJ access. */
  predicate Accessible(f: FileData, hasMeiAccess: bool, hasCnpjAccess: bool) {
    (hasMeiAccess && f.docType == Mei) || (hasCnpjAccess && f.docType == Cnpj)
  }

  /** The optional type filter: "mei" and "cnpj" keep one type, anything else keeps both. */
  predicate TypeWanted(f: FileData, requested: Option<string>) {
    if requested == Some("mei") then f.docType == Mei
    else if requested == Some("cnpj") then f.docType == Cnpj
    else true
  }

  /**
    `fetchUserDocuments`: `listed` is the API's answer, `None` when the request failed.
    The access filter runs first, then the type filter.
  */
  function FetchUserDocuments(listed: Option<seq<ApiDocument>>, hasMeiAccess: bool, hasCnpjAccess: bool,
                              requested: Option<string>): (r: seq<FileData>)
    ensures listed.None? ==> r == []
    ensures listed.Some? ==> Lists.IsSubseq(r, Lists.Map(listed.value, ToFileData))
    ensures listed.Some? ==> forall f ::
      multiset(r)[f] == if Accessible(f, hasMeiAccess, hasCnpjAccess) && TypeWanted(f, requested)
        then multiset(Lists.Map(listed.value, ToFileData))[f] else 0
  {
    match listed
    case None => []
    case Some(docs) =>
      var all := Lists.Map(docs, ToFileData);
      var allowed := Lists.Filter(all, f => Accessible(f, hasMeiAccess, hasCnpjAccess));
      Lists.FilterIsSubseq(all, f => Accessible(f, hasMeiAccess, hasCnpjAccess));
      Lists.FilterCounts(all, f => Accessible(f, hasMeiAccess, hasCnpjAccess));
      if requested == Some("mei") || requested == Some("cnpj") then
        Lists.FilterIsSubseq(allowed, f => TypeWanted(f, requested));
        Lists.FilterCounts(allowed, f => TypeWanted(f, requested));
        Lists.SubseqTrans(Lists.Filter(allowed, f => TypeWanted(f, requested)), allowed, all);
        Lists.Filter(allowed, f => TypeWanted(f, requested))
      else allowed
  }

  /**
    The two filters together keep exactly the listed files that are accessible and of the
    requested type; every kept file is the copy of a listed document.
  */
  lemma FetchMembers(listed: seq<ApiDocument>, hasMeiAccess: bool, hasCnpjAccess: bool, requested: Option<string>)
    ensures forall f :: f in FetchUserDocuments(Some(listed), hasMeiAccess, hasCnpjAccess, requested) <==>
      f in Lists.Map(listed, ToFileData) && Accessible(f, hasMeiAccess, hasCnpjAccess) && TypeWanted(f, requested)
  {
    var all := Lists.Map(listed, ToFileData);
    var allowed := Lists.Filter(all, f => Accessible(f, hasMeiAccess, hasCnpjAccess));
    Lists.FilterMembers(all, f => Accessible(f, hasMeiAccess, hasCnpjAccess));
    if requested == Some("mei") || requested == Some("cnpj") {
      Lists.FilterMembers(allowed, f => TypeWanted(f, requested));
    }
  }

  /** Without either access nothing is returned, whatever the API lists. */
  lemma NoAccessNoDocuments(listed: Option<seq<ApiDocument>>, requested: Option<string>)
    ensures FetchUserDocuments(listed, false, false, requested) == []
  {
    if listed.Some? {
      NoMatchEmpty(listed.value, false, false, requested);
    }
  }

  /** With both accesses and no type requested, every listed document comes back, in order. */
  lemma FullAccessKeepsAll(listed: seq<ApiDocument>, requested: Option<string>)
    requires requested != Some("mei") && requested != Some("cnpj")
    ensures FetchUserDocuments(Some(listed), true, true, requested) == Lists.Map(listed, ToFileData)
  {
    Lists.FilterKeepsAll(Lists.Map(listed, ToFileData), f => Accessible(f, true, true));
  }

  /** Requesting the type the user has no access to returns nothing. */
  lemma RequestWithoutAccessIsEmpty(listed: seq<ApiDocument>)
    ensures FetchUserDocuments(Some(listed), true, false, Some("cnpj")) == []
    ensures FetchUserDocuments(Some(listed), false, true, Some("mei")) == []
  {
    NoMatchEmpty(listed, true, false, Some("cnpj"));
    NoMatchEmpty(listed, false, true, Some("mei"));
  }

  /** When no file can be both accessible and of the requested type, nothing is returned. */
  lemma NoMatchEmpty(listed: seq<ApiDocument>, hasMeiAccess: bool, hasCnpjAccess: bool, requested: Option<string>)
    requires forall f: FileData :: !(Accessible(f, hasMeiAccess, hasCnpjAccess) && TypeWanted(f, requested))
    ensures FetchUserDocuments(Some(listed), hasMeiAccess, hasCnpjAccess, requested) == []
  {
    var all := Lists.Map(listed, ToFileData);
    var allowed := Lists.Filter(all, f => Accessible(f, hasMeiAccess, hasCnpjAccess));
    if requested == Some("mei") || requested == Some("cnpj") {
      Lists.FilterMembers(all, f => Accessible(f, hasMeiAccess, hasCnpjAccess));
      forall i | 0 <= i < |allowed|
        ensures !TypeWanted(allowed[i], requested)
      {
        assert allowed[i] in allowed;
      }
      Lists.FilterKeepsNone(allowed, f => TypeWanted(f, requested));
    } else {
      Lists.FilterKeepsNone(all, f => Accessible(f, hasMeiAccess, hasCnpjAccess));
    }
  }
}
