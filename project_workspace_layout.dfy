/** The workspace of one project
    (src/components/workspace/ProjectWorkspaceLayout.tsx): which page is
    selected, from the `page` query parameter or by default the first page,
    the navigations the layout asks the router for, and which of its views
    it shows. The router is represented by the list of navigations. */
module ProjectWorkspaceLayout {
  import opened Wrappers
  import opened JsString
  import opened ApiTypes
  import opened PageListSidebar

  /** What the `page` query parameter says. */
  datatype PageParam = NoParam | NotANumber | PageNumber(n: int)

  /** `searchParams.get('page')` read as the effect reads it: absent or
      empty is no parameter; otherwise `parseInt(…, 10)`, NaN or a number. */
  function ReadPageParam(param: Option<string>): (p: PageParam)
    ensures p == NoParam <==> param.None? || param.value == ""
    ensures p == NotANumber <==> param.Some? && param.value != "" && ParseInt(param.value).None?
    ensures p.PageNumber? ==> param.Some? && ParseInt(param.value) == Some(p.n)
  {
    if param.None? || param.value == "" then NoParam
    else
      match ParseInt(param.value)
      case None => NotANumber
      case Some(n) => PageNumber(n)
  }

  /** `${pathname}?page=${n}`. */
  function PageUrl(pathname: string, n: int): string {
    pathname + "?page=" + IntToString(n)
  }

  /** A page number written into the URL (`IntToString(n)` after
      "?page=") reads back as the same number, so the effect that runs after
      a navigation keeps the selection. */
  lemma {:induction false} PageUrlReadsBack(n: int)
    ensures ReadPageParam(Some(IntToString(n))) == PageNumber(n)
  {
    ParseIntOfIntToString(n);
  }

  datatype Navigation = Replace(url: string) | Push(url: string)

  class WorkspaceLayout {
    const pathname: string
    var selectedPage: Option<int>
    var navigations: seq<Navigation>

    constructor (pathname: string)
      ensures this.pathname == pathname
      ensures selectedPage.None? && navigations == []
    {
      this.pathname := pathname;
      selectedPage := None;
      navigations := [];
    }

    /** The page-selection effect, run with the current `page` parameter and
        the loaded pages (`null` while there are none). A number selects that
        page; NaN leaves everything as it was; with no parameter a non-empty
        list is sorted in place, its first (lowest-numbered) page is selected
        and the URL is replaced to name it. */
    method SyncSelection(param: Option<string>, pages: array?<PageResponse>)
      modifies this, pages
      ensures match ReadPageParam(param)
        case PageNumber(n) =>
          selectedPage == Some(n) && navigations == old(navigations)
        case NotANumber =>
          selectedPage == old(selectedPage) && navigations == old(navigations)
        case NoParam =>
          if pages == null || pages.Length == 0 then
            selectedPage == old(selectedPage) && navigations == old(navigations)
          else
            && SortedByPageNumber(pages[..])
            && multiset(pages[..]) == multiset(old(pages[..]))
            && selectedPage == Some(pages[0].pageNumber)
            && (forall p :: p in old(pages[..]) ==> pages[0].pageNumber <= p.pageNumber)
            && navigations == old(navigations) + [Replace(PageUrl(pathname, pages[0].pageNumber))]
      ensures !(ReadPageParam(param) == NoParam && pages != null && pages.Length > 0) ==>
                pages == null || pages[..] == old(pages[..])
    {
      if param.Some? && param.value != "" {
        var pageNum := ParseInt(param.value);
        if pageNum.Some? {
          selectedPage := pageNum;
        }
      } else if pages != null && pages.Length > 0 {
        SortByPageNumber(pages);
        var firstPage := pages[0];
        forall p | p in old(pages[..]) ensures firstPage.pageNumber <= p.pageNumber {
          assert p in multiset(pages[..]);
          var k :| 0 <= k < pages.Length && pages[k] == p;
          assert k == 0 || pages[..][0].pageNumber <= pages[..][k].pageNumber;
        }
        selectedPage := Some(firstPage.pageNumber);
        navigations := navigations + [Replace(PageUrl(pathname, firstPage.pageNumber))];
      }
    }

    /** `handleSelectPage`: select page `n` and push its URL. */
    method HandleSelectPage(n: int)
      modifies this
      ensures selectedPage == Some(n)
      ensures navigations == old(navigations) + [Push(PageUrl(pathname, n))]
    {
      selectedPage := Some(n);
      navigations := navigations + [Push(PageUrl(pathname, n))];
    }
  }

  /** The views of the layout, in order of precedence. */
  datatype WorkspaceView =
    | WorkspaceLoading
    | LoadError(message: string)
    | ProjectNotFound
    | Workspace(project: ProjectResponse, showPanels: bool)

  /** `selectedPageNumber ? … : …`: page 0 counts as no selection. */
  predicate ShowsPanels(selected: Option<int>) {
    selected.Some? && selected.value != 0
  }

  /** Loading (either query), then an error (the project's message, or the
      pages' when that one is empty or absent), then a missing project, then
      the workspace, whose PDF, form and chat panels need a truthy selection. */
  function ViewOf(isLoadingProject: bool, isLoadingPages: bool,
                  projectError: Option<string>, pagesError: Option<string>,
                  project: Option<ProjectResponse>, selected: Option<int>): (v: WorkspaceView)
    ensures isLoadingProject || isLoadingPages ==> v == WorkspaceLoading
    ensures v.LoadError? <==> !(isLoadingProject || isLoadingPages) && (projectError.Some? || pagesError.Some?)
    ensures v.LoadError? && projectError.Some? && projectError.value != "" ==> v.message == projectError.value
    ensures v == ProjectNotFound <==>
              !(isLoadingProject || isLoadingPages) && projectError.None? && pagesError.None? && project.None?
    ensures v.Workspace? ==> project == Some(v.project) && (v.showPanels <==> ShowsPanels(selected))
  {
    if isLoadingProject || isLoadingPages then WorkspaceLoading
    else if projectError.Some? || pagesError.Some? then
      LoadError(if projectError.Some? && projectError.value != "" then projectError.value
                else if pagesError.Some? then pagesError.value else "")
    else if project.None? then ProjectNotFound
    else Workspace(project.value, ShowsPanels(selected))
  }

  /** Page 0 is a valid selection for the URL but shows no panels. */
  lemma {:induction false} PageZeroShowsNoPanels(p: ProjectResponse)
    ensures ViewOf(false, false, None, None, Some(p), Some(0)) == Workspace(p, false)
    ensures ViewOf(false, false, None, None, Some(p), Some(1)) == Workspace(p, true)
  {
  }
}
