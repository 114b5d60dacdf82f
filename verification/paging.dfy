/** Paged listing as the generated Google API clients run it (`Pages`):
    fetch a page; stop with the fetch error if the fetch fails; hand the page
    to a visitor; stop with the visitor's error if it returns one; otherwise
    continue with the next page until the last one.

    Both paged searches of the repository (`find` in internal/stctl/sync.go
    and `Trigger.Get` in internal/cbctl/trigger.go) use the same visitor: it
    remembers the first item of the page that satisfies a test and returns
    nil, or returns a "not found" error when no item of the page does. */
module Paging {
  import opened Wrappers
  import opened Errors

  /** One page fetch: the page that came back, or the error the fetch gave. */
  datatype Fetch<T> = Page(items: seq<T>) | FetchFailed(error: Error)

  /** The index of the first item satisfying pred. */
  function FirstIndex<T>(items: seq<T>, pred: T -> bool): (r: Option<nat>)
    ensures r.Some? ==> r.value < |items| && pred(items[r.value])
    ensures r.Some? ==> forall k :: 0 <= k < r.value ==> !pred(items[k])
    ensures r.None? <==> forall k :: 0 <= k < |items| ==> !pred(items[k])
  {
    if items == [] then None
    else if pred(items[0]) then Some(0)
    else match FirstIndex(items[1..], pred)
      case None => None
      case Some(i) => Some(i + 1)
  }

  /** True when the fetch is a page holding an item that satisfies pred. */
  predicate Hit<T>(f: Fetch<T>, pred: T -> bool)
  {
    f.Page? && FirstIndex(f.items, pred).Some?
  }

  /** The item the visitor remembers from a page that is a hit. */
  function HitItem<T>(f: Fetch<T>, pred: T -> bool): (x: T)
    requires Hit(f, pred)
    ensures pred(x)
  {
    f.items[FirstIndex(f.items, pred).value]
  }

  /** The listing's outcome: the item the visitor last remembered (starting
      from found) and the error that stopped the listing, if any. */
  function Scan<T>(fetches: seq<Fetch<T>>, pred: T -> bool, notFound: Error, found: Option<T>)
    : (r: (Option<T>, Option<Error>))
    ensures r.0.Some? ==> r.0 == found || pred(r.0.value)
  {
    if fetches == [] then (found, None)
    else match fetches[0]
      case FetchFailed(e) => (found, Some(e))
      case Page(items) =>
        if Hit(fetches[0], pred) then Scan(fetches[1..], pred, notFound, Some(HitItem(fetches[0], pred)))
        else (found, Some(notFound))
  }

  /** The number of leading fetches that are hits. */
  function HitRun<T>(fetches: seq<Fetch<T>>, pred: T -> bool): (n: nat)
    ensures n <= |fetches|
    ensures forall k :: 0 <= k < n ==> Hit(fetches[k], pred)
    ensures n < |fetches| ==> !Hit(fetches[n], pred)
  {
    if fetches != [] && Hit(fetches[0], pred) then 1 + HitRun(fetches[1..], pred) else 0
  }

  /** Closed form of Scan: the listing runs through the leading hits; the
      remembered item is that of the last of them, and the listing stops at
      the first fetch that is not a hit, with the fetch error or notFound. */
  lemma {:induction false} ScanClosedForm<T>(fetches: seq<Fetch<T>>, pred: T -> bool, notFound: Error, found: Option<T>)
    ensures var n := HitRun(fetches, pred);
      Scan(fetches, pred, notFound, found) ==
        (if n == 0 then found else Some(HitItem(fetches[n - 1], pred)),
         if n == |fetches| then None
         else if fetches[n].FetchFailed? then Some(fetches[n].error)
         else Some(notFound))
  {
    if fetches != [] && Hit(fetches[0], pred) {
      ScanClosedForm(fetches[1..], pred, notFound, Some(HitItem(fetches[0], pred)));
      var n := HitRun(fetches[1..], pred);
      if n > 0 {
        assert fetches[1..][n - 1] == fetches[n];
      }
      if n < |fetches[1..]| {
        assert fetches[1..][n] == fetches[n + 1];
      }
    }
  }

  /** The listing loop with the first-match visitor. */
  method Pages<T>(fetches: seq<Fetch<T>>, pred: T -> bool, notFound: Error)
    returns (found: Option<T>, err: Option<Error>)
    ensures (found, err) == Scan(fetches, pred, notFound, None)
  {
    found, err := None, None;
    var k := 0;
    while k < |fetches|
      invariant 0 <= k <= |fetches|
      invariant Scan(fetches, pred, notFound, None) == Scan(fetches[k..], pred, notFound, found)
    {
      assert fetches[k..][1..] == fetches[k + 1..];
      match fetches[k]
      case FetchFailed(e) =>
        err := Some(e);
        return;
      case Page(items) =>
        // The visitor: remember the first item that passes, else report notFound.
        var j := 0;
        while j < |items| && !pred(items[j])
          invariant 0 <= j <= |items|
          invariant forall m :: 0 <= m < j ==> !pred(items[m])
        {
          j := j + 1;
        }
        if j == |items| {
          err := Some(notFound);
          return;
        }
        found := Some(items[j]);
      k := k + 1;
    }
  }
}
