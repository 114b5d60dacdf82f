/** The trigger lookup of internal/cbctl: search a project's build triggers,
    page by page, for one with a given name. */
module CbctlTrigger {
  import opened Wrappers
  import opened Errors
  import opened Paging
  import opened CloudbuildTypes

  /** The test the lookup's visitor applies to each trigger. */
  function NameIs(name: string): BuildTrigger -> bool
  {
    (t: BuildTrigger) => t.name == name
  }

  /** The error a page without the trigger produces. */
  function NotFound(name: string): Error
  {
    Message("Trigger not found with name: " + name)
  }

  /** Trigger.Get, given the fetches listing the project's triggers returns. */
  method Get(pages: seq<Fetch<BuildTrigger>>, name: string) returns (bt: Option<BuildTrigger>, err: Option<Error>)
    ensures (bt, err) == Scan(pages, NameIs(name), NotFound(name), None)
    ensures bt.Some? ==> bt.value.name == name
  {
    bt, err := Pages(pages, NameIs(name), NotFound(name));
  }

  /** On a single page: the first trigger of that name and no error, or no
      trigger and the not-found error. */
  lemma GetOnePage(triggers: seq<BuildTrigger>, name: string)
    ensures var i := FirstIndex(triggers, NameIs(name));
      Scan([Page(triggers)], NameIs(name), NotFound(name), None) ==
        if i.Some? then (Some(triggers[i.value]), None) else (None, Some(NotFound(name)))
  {
    ScanClosedForm([Page(triggers)], NameIs(name), NotFound(name), None);
  }

  /** A failed fetch of the first page is the error, with no trigger. */
  lemma GetFetchFails(pages: seq<Fetch<BuildTrigger>>, name: string)
    requires |pages| > 0 && pages[0].FetchFailed?
    ensures Scan(pages, NameIs(name), NotFound(name), None) == (None, Some(pages[0].error))
  {
  }

  /** A first page without the name stops the search with the not-found
      error even when a later page has the trigger. */
  lemma GetMissesLaterPages(first: seq<BuildTrigger>, rest: seq<Fetch<BuildTrigger>>, name: string)
    requires forall k :: 0 <= k < |first| ==> first[k].name != name
    ensures Scan([Page(first)] + rest, NameIs(name), NotFound(name), None) == (None, Some(NotFound(name)))
  {
    assert !Hit(Page(first), NameIs(name));
  }

  /** A trigger returned together with an error: the first page has the
      name and the second does not. */
  lemma GetFoundWithError(t: BuildTrigger, second: seq<BuildTrigger>)
    requires forall k :: 0 <= k < |second| ==> second[k].name != t.name
    ensures Scan([Page([t]), Page(second)], NameIs(t.name), NotFound(t.name), None) == (Some(t), Some(NotFound(t.name)))
  {
    var pred := NameIs(t.name);
    assert FirstIndex([t], pred) == Some(0);
    assert !Hit(Page(second), pred);
    assert [Page([t]), Page(second)][1..] == [Page(second)];
  }
}
