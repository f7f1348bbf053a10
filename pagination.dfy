/** The page-by-page fetch loops of GitHubService (backend/app/github.py). An upstream
    collection is a sequence of responses: `pages[p - 1]` is what GitHub answers for
    `page=p`, and every page past the end of the sequence answers 200 with an empty
    list, as GitHub does past the last page. */
module Pagination {
  import opened Common
  import opened Calendar
  import Security

  datatype Response<T> = Response(status: int, items: seq<T>)

  const Ok200: int := 200

  /** The `per_page` the full-collection loops ask for. */
  const PerPage: int := 100

  /** The answer to a request for page `page` (numbered from 1). */
  function Fetch<T>(pages: seq<Response<T>>, page: int): Response<T>
  {
    if 1 <= page <= |pages| then pages[page - 1] else Response(Ok200, [])
  }

  /** A response after which a loop asks for no further page: an error status, an
      empty list, or fewer items than were asked for. */
  predicate Terminal<T>(r: Response<T>, perPage: int)
  {
    r.status != Ok200 || r.items == [] || |r.items| < perPage
  }

  /** The items of pages 1..n, in order. */
  function Concat<T>(pages: seq<Response<T>>, n: nat): seq<T>
  {
    if n == 0 then [] else Concat(pages, n - 1) + Fetch(pages, n).items
  }

  lemma {:induction false} ConcatPrefix<T>(pages: seq<Response<T>>, m: nat, n: nat)
    requires m <= n
    ensures Concat(pages, m) <= Concat(pages, n)
    decreases n
  {
    if m < n {
      ConcatPrefix(pages, m, n - 1);
    }
  }

  /** The first terminal page at or after `page`. */
  function StopFrom<T>(pages: seq<Response<T>>, perPage: int, page: nat): (s: nat)
    requires page >= 1
    ensures page <= s <= Max(page, |pages| + 1)
    ensures Terminal(Fetch(pages, s), perPage)
    ensures forall p :: page <= p < s ==> !Terminal(Fetch(pages, p), perPage)
    decreases |pages| + 1 - page
  {
    if Terminal(Fetch(pages, page), perPage) then page else StopFrom(pages, perPage, page + 1)
  }

  /** The page at which a loop asking for `perPage` items per page stops. */
  function StopPage<T>(pages: seq<Response<T>>, perPage: int): (s: nat)
    ensures 1 <= s <= |pages| + 1
    ensures Terminal(Fetch(pages, s), perPage)
    ensures forall p :: 1 <= p < s ==> !Terminal(Fetch(pages, p), perPage)
  {
    StopFrom(pages, perPage, 1)
  }

  lemma StopPageUnique<T>(pages: seq<Response<T>>, perPage: int, p: nat)
    requires 1 <= p <= StopPage(pages, perPage) && Terminal(Fetch(pages, p), perPage)
    ensures p == StopPage(pages, perPage)
  {
  }

  /** A terminal page reached after only full pages is the stopping page, so the
      collection ends with it. */
  lemma StopsHere<T>(pages: seq<Response<T>>, perPage: int, page: nat)
    requires 1 <= page <= StopPage(pages, perPage) && Terminal(Fetch(pages, page), perPage)
    ensures Collected(pages, perPage) ==
      Concat(pages, page - 1) + (if Fetch(pages, page).status == Ok200 then Fetch(pages, page).items else [])
  {
    StopPageUnique(pages, perPage, page);
  }

  /** What a loop that stops quietly on an error status returns: the items of every page
      before the stopping page, then that page's items when it came back 200. */
  function Collected<T>(pages: seq<Response<T>>, perPage: int): seq<T>
  {
    var s := StopPage(pages, perPage);
    Concat(pages, s - 1) + (if Fetch(pages, s).status == Ok200 then Fetch(pages, s).items else [])
  }

  /** Every page before the stopping page was full, so the collection holds at least
      `perPage` items per page fetched before it. */
  lemma {:induction false} CollectedFullPages<T>(pages: seq<Response<T>>, perPage: int, n: nat)
    requires n < StopPage(pages, perPage)
    ensures |Concat(pages, n)| >= n * perPage
    decreases n
  {
    if n > 0 {
      CollectedFullPages(pages, perPage, n - 1);
      assert !Terminal(Fetch(pages, n), perPage);
    }
  }

  /** When every page is answered 200 and the last given page is short, the collection
      is the in-order concatenation of all the pages. */
  lemma {:induction false} CollectedAllPages<T>(pages: seq<Response<T>>, perPage: int)
    requires pages != [] && forall i :: 0 <= i < |pages| ==> pages[i].status == Ok200
    requires forall i :: 0 <= i < |pages| - 1 ==> |pages[i].items| >= perPage && pages[i].items != []
    requires |pages[|pages| - 1].items| < perPage
    ensures Collected(pages, perPage) == Concat(pages, |pages|)
  {
    var s := StopPage(pages, perPage);
    assert Terminal(Fetch(pages, |pages|), perPage);
    if s < |pages| {
      assert false;
    }
    StopPageUnique(pages, perPage, |pages|);
  }

  // ---------------------------------------------------------------------------
  // get_repository_commits and get_starred_repos: stop on an error, keep the rest
  // ---------------------------------------------------------------------------

  /** get_repository_commits: pages of 100 until an error, an empty page or a short
      page; whatever was gathered is returned. */
  method GetRepositoryCommits<T>(pages: seq<Response<T>>) returns (commits: seq<T>)
    ensures commits == Collected(pages, PerPage)
  {
    commits := [];
    var page := 1;
    while true
      invariant 1 <= page <= StopPage(pages, PerPage)
      invariant commits == Concat(pages, page - 1)
      decreases |pages| + 1 - page
    {
      var response := Fetch(pages, page);
      if response.status != Ok200 {
        break;
      }
      if response.items == [] {
        break;
      }
      commits := commits + response.items;
      if |response.items| < PerPage {
        break;
      }
      page := page + 1;
    }
    StopPageUnique(pages, PerPage, page);
  }

  /** get_starred_repos: the same walk over /user/starred, each repository object passed
      through validate_github_data. */
  method GetStarredRepos(pages: seq<Response<Security.Value>>) returns (repos: seq<Security.Value>)
    ensures repos == SeqMap(Security.Sanitized, Collected(pages, PerPage))
  {
    repos := [];
    var page := 1;
    while true
      invariant 1 <= page <= StopPage(pages, PerPage)
      invariant repos == SeqMap(Security.Sanitized, Concat(pages, page - 1))
      decreases |pages| + 1 - page
    {
      var response := Fetch(pages, page);
      if response.status != Ok200 {
        break;
      }
      if response.items == [] {
        break;
      }
      repos := AppendSanitized(repos, response.items);
      SeqMapAppend(Security.Sanitized, Concat(pages, page - 1), response.items);
      if |response.items| < PerPage {
        break;
      }
      page := page + 1;
    }
    StopPageUnique(pages, PerPage, page);
  }

  /** The inner `for repo_data in page_repos` loop shared by the repository pagers. */
  method AppendSanitized(acc: seq<Security.Value>, items: seq<Security.Value>) returns (r: seq<Security.Value>)
    ensures r == acc + SeqMap(Security.Sanitized, items)
  {
    r := acc;
    var k := 0;
    while k < |items|
      invariant 0 <= k <= |items|
      invariant r == acc + SeqMap(Security.Sanitized, items[..k])
    {
      var clean := Security.ValidateGithubData(items[k]);
      assert items[..k + 1] == items[..k] + [items[k]];
      SeqMapAppend(Security.Sanitized, items[..k], [items[k]]);
      r := r + [clean];
      k := k + 1;
    }
    assert items[..k] == items;
  }

  // ---------------------------------------------------------------------------
  // get_user_repos: an error status is raised
  // ---------------------------------------------------------------------------

  /** get_user_repos: like the starred walk, but a non-200 answer raises an HTTP error
      carrying the upstream status, discarding what was gathered. */
  method GetUserRepos(pages: seq<Response<Security.Value>>) returns (r: Result<seq<Security.Value>, int>)
    ensures var s := StopPage(pages, PerPage);
            if Fetch(pages, s).status != Ok200 then r == Err(Fetch(pages, s).status)
            else r == Ok(SeqMap(Security.Sanitized, Collected(pages, PerPage)))
  {
    var repos := [];
    var page := 1;
    while true
      invariant 1 <= page <= StopPage(pages, PerPage)
      invariant repos == SeqMap(Security.Sanitized, Concat(pages, page - 1))
      decreases |pages| + 1 - page
    {
      var response := Fetch(pages, page);
      if response.status != Ok200 {
        StopPageUnique(pages, PerPage, page);
        return Err(response.status);
      }
      if response.items == [] {
        break;
      }
      repos := AppendSanitized(repos, response.items);
      SeqMapAppend(Security.Sanitized, Concat(pages, page - 1), response.items);
      if |response.items| < PerPage {
        break;
      }
      page := page + 1;
    }
    StopPageUnique(pages, PerPage, page);
    assert repos == SeqMap(Security.Sanitized, Collected(pages, PerPage));
    return Ok(repos);
  }

  // ---------------------------------------------------------------------------
  // get_repository_commits_limited
  // ---------------------------------------------------------------------------

  lemma TakeOfLongPrefix<T>(a: seq<T>, b: seq<T>, n: nat)
    requires a <= b && |a| >= n
    ensures Take(a, n) == Take(b, n)
  {
  }

  /** get_repository_commits_limited: the same walk, also stopping once `limit` items are
      in hand, then cut to `limit`. A limit of zero or less fetches nothing. */
  method GetRepositoryCommitsLimited<T>(pages: seq<Response<T>>, limit: int) returns (commits: seq<T>)
    ensures commits == Take(Collected(pages, PerPage), Max(limit, 0))
    ensures commits <= Collected(pages, PerPage)
    ensures |commits| <= Max(limit, 0)
  {
    ghost var s := StopPage(pages, PerPage);
    ghost var all := Collected(pages, PerPage);
    var acc: seq<T> := [];
    var page := 1;
    while true
      invariant 1 <= page <= s
      invariant acc == Concat(pages, page - 1)
      decreases |pages| + 1 - page
    {
      ConcatPrefix(pages, page - 1, s - 1);
      if |acc| >= limit {
        break;
      }
      var response := Fetch(pages, page);
      if response.status != Ok200 || response.items == [] {
        StopPageUnique(pages, PerPage, page);
        break;
      }
      acc := acc + response.items;
      if |response.items| < PerPage {
        StopPageUnique(pages, PerPage, page);
        break;
      }
      if |acc| >= limit {
        if page < s {
          ConcatPrefix(pages, page, s - 1);
        }
        break;
      }
      page := page + 1;
    }
    assert acc <= all && (acc == all || |acc| >= Max(limit, 0));
    if acc != all {
      TakeOfLongPrefix(acc, all, Max(limit, 0));
    }
    commits := Take(acc, Max(limit, 0));
  }

  /** The pages up to `n` are part of the collection when `n` comes before the stopping
      page, or is the stopping page answered 200. */
  lemma ConcatPrefixOfCollected<T>(pages: seq<Response<T>>, perPage: int, n: nat)
    requires n < StopPage(pages, perPage) || (n == StopPage(pages, perPage) && Fetch(pages, n).status == Ok200)
    ensures Concat(pages, n) <= Collected(pages, perPage)
  {
    var s := StopPage(pages, perPage);
    if n < s {
      ConcatPrefix(pages, n, s - 1);
    }
  }

  // ---------------------------------------------------------------------------
  // get_repository_pull_requests
  // ---------------------------------------------------------------------------

  /** What one pass of the PR filter's `try` block does with a pull request. */
  datatype Verdict = Keep | Skip | Older

  /** `created` is the parsed `created_at`, None when it is missing or does not parse
      (the `try` swallows the error). Comparing a naive with an aware datetime raises
      TypeError, which is swallowed too. */
  function Classify(created: Option<Stamp>, since: Stamp, until: Option<Stamp>): Verdict
  {
    match created
    case None => Skip
    case Some(p) =>
      if p.aware != since.aware then Skip
      else if !Before(p.at, since.at) then
        (match until
         case None => Keep
         case Some(u) => if u.aware != p.aware then Skip else if !Before(u.at, p.at) then Keep else Skip)
      else Older
  }

  /** A kept pull request lies in the window `since <= created_at <= until`; one older
      than `since` stops the scan. */
  lemma ClassifyMeaning(created: Option<Stamp>, since: Stamp, until: Option<Stamp>)
    ensures Classify(created, since, until) == Keep <==>
      created.Some? && created.value.aware == since.aware && !Before(created.value.at, since.at) &&
      (until.None? || (until.value.aware == since.aware && !Before(until.value.at, created.value.at)))
    ensures Classify(created, since, until) == Older <==>
      created.Some? && created.value.aware == since.aware && Before(created.value.at, since.at)
  {
  }

  /** The pull requests kept from `items`, scanning until the first one older than
      `since`. */
  function Window<T>(items: seq<T>, createdOf: T -> Option<Stamp>, since: Stamp, until: Option<Stamp>): seq<T>
  {
    if items == [] then []
    else match Classify(createdOf(items[0]), since, until)
      case Keep => [items[0]] + Window(items[1..], createdOf, since, until)
      case Skip => Window(items[1..], createdOf, since, until)
      case Older => []
  }

  /** Every pull request the scan keeps comes from the list and lies inside the window. */
  lemma {:induction false} WindowKeeps<T>(items: seq<T>, createdOf: T -> Option<Stamp>, since: Stamp, until: Option<Stamp>, x: T)
    requires x in Window(items, createdOf, since, until)
    ensures x in items && Classify(createdOf(x), since, until) == Keep
  {
    if Classify(createdOf(items[0]), since, until) != Keep || x != items[0] {
      WindowKeeps(items[1..], createdOf, since, until, x);
    }
  }

  /** Some pull request of `items` is older than `since`. */
  predicate HasOlder<T>(items: seq<T>, createdOf: T -> Option<Stamp>, since: Stamp, until: Option<Stamp>)
  {
    items != [] &&
    (Classify(createdOf(items[0]), since, until) == Older || HasOlder(items[1..], createdOf, since, until))
  }

  /** `HasOlder` holds exactly when some position holds an older pull request. */
  lemma {:induction false} HasOlderAt<T>(items: seq<T>, createdOf: T -> Option<Stamp>, since: Stamp, until: Option<Stamp>)
    ensures HasOlder(items, createdOf, since, until) <==>
      exists i :: 0 <= i < |items| && Classify(createdOf(items[i]), since, until) == Older
  {
    if items != [] {
      HasOlderAt(items[1..], createdOf, since, until);
      if exists i :: 0 <= i < |items| && Classify(createdOf(items[i]), since, until) == Older {
        var i :| 0 <= i < |items| && Classify(createdOf(items[i]), since, until) == Older;
        if i > 0 {
          assert items[1..][i - 1] == items[i];
        }
      }
      if HasOlder(items[1..], createdOf, since, until) {
        var i :| 0 <= i < |items[1..]| && Classify(createdOf(items[1..][i]), since, until) == Older;
        assert items[i + 1] == items[1..][i];
      }
    }
  }

  lemma {:induction false} WindowAppend<T>(a: seq<T>, b: seq<T>, createdOf: T -> Option<Stamp>, since: Stamp, until: Option<Stamp>)
    ensures !HasOlder(a, createdOf, since, until) ==>
      Window(a + b, createdOf, since, until) == Window(a, createdOf, since, until) + Window(b, createdOf, since, until)
    ensures HasOlder(a, createdOf, since, until) ==>
      Window(a + b, createdOf, since, until) == Window(a, createdOf, since, until)
  {
    if a == [] {
      assert a + b == b;
    } else {
      assert (a + b)[0] == a[0] && (a + b)[1..] == a[1..] + b;
      WindowAppend(a[1..], b, createdOf, since, until);
    }
  }

  /** The scan keeps items in their upstream order. */
  lemma {:induction false} WindowIsSubsequence<T>(items: seq<T>, createdOf: T -> Option<Stamp>, since: Stamp, until: Option<Stamp>)
    ensures IsSubsequence(Window(items, createdOf, since, until), items)
  {
    if items != [] {
      WindowIsSubsequence(items[1..], createdOf, since, until);
      var r := Window(items, createdOf, since, until);
      match Classify(createdOf(items[0]), since, until)
      case Keep =>
        assert r[0] == items[0] && r[1..] == Window(items[1..], createdOf, since, until);
      case Skip =>
      case Older =>
    }
  }

  /** With no pull request older than `since`, the scan is a plain filter on the window. */
  lemma {:induction false} WindowWithoutOlder<T>(items: seq<T>, createdOf: T -> Option<Stamp>, since: Stamp, until: Option<Stamp>)
    requires !HasOlder(items, createdOf, since, until)
    ensures Window(items, createdOf, since, until) == Filter(items, x => Classify(createdOf(x), since, until) == Keep)
  {
    if items != [] {
      assert Classify(createdOf(items[0]), since, until) != Older;
      WindowWithoutOlder(items[1..], createdOf, since, until);
    }
  }

  /** The lookback used when no `since_date` is given: 550 days before the naive local
      clock, None where that subtraction overflows. */
  function EffectiveSince(sinceDate: Option<Stamp>, now: DateTime): Option<Stamp>
  {
    if sinceDate.Some? then sinceDate
    else match MinusDays(now, 550)
      case None => None
      case Some(d) => Some(Stamp(d, false))
  }

  /** A page without an older pull request extends the scan of the pages before it. */
  lemma ScanStep<T>(pages: seq<Response<T>>, page: nat, createdOf: T -> Option<Stamp>, since: Stamp,
                    until: Option<Stamp>)
    requires page >= 1
    requires !HasOlder(Concat(pages, page - 1), createdOf, since, until)
    requires !HasOlder(Fetch(pages, page).items, createdOf, since, until)
    ensures !HasOlder(Concat(pages, page), createdOf, since, until)
    ensures Window(Concat(pages, page), createdOf, since, until) ==
      Window(Concat(pages, page - 1), createdOf, since, until) + Window(Fetch(pages, page).items, createdOf, since, until)
  {
    WindowAppend(Concat(pages, page - 1), Fetch(pages, page).items, createdOf, since, until);
    NoOlderAppend(Concat(pages, page - 1), Fetch(pages, page).items, createdOf, since, until);
  }

  /** A page holding a pull request older than `since` ends the walk: whatever later
      pages would add lies beyond that pull request and is never kept. */
  lemma OlderEndsWalk<T>(pages: seq<Response<T>>, page: nat, createdOf: T -> Option<Stamp>, since: Stamp,
                         until: Option<Stamp>)
    requires 1 <= page <= StopPage(pages, PerPage) && Fetch(pages, page).status == Ok200
    requires !HasOlder(Concat(pages, page - 1), createdOf, since, until)
    requires HasOlder(Fetch(pages, page).items, createdOf, since, until)
    ensures Window(Collected(pages, PerPage), createdOf, since, until) ==
      Window(Concat(pages, page - 1), createdOf, since, until) + Window(Fetch(pages, page).items, createdOf, since, until)
  {
    var before, items := Concat(pages, page - 1), Fetch(pages, page).items;
    ConcatPrefixOfCollected(pages, PerPage, page);
    var all := Collected(pages, PerPage);
    var rest := all[|Concat(pages, page)|..];
    assert all == before + (items + rest) by {
      assert all == Concat(pages, page) + rest;
    }
    WindowAppend(before, items + rest, createdOf, since, until);
    WindowAppend(items, rest, createdOf, since, until);
  }

  /** get_repository_pull_requests: pages of 100, newest first; each page is scanned,
      keeping the pull requests inside the window, and the whole walk returns at the
      first pull request older than `since`. None stands for the OverflowError raised
      when the default lookback underflows year 1. */
  method GetRepositoryPullRequests<T>(pages: seq<Response<T>>, createdOf: T -> Option<Stamp>,
                                      sinceDate: Option<Stamp>, until: Option<Stamp>, now: DateTime)
    returns (r: Option<seq<T>>)
    ensures EffectiveSince(sinceDate, now).None? ==> r.None?
    ensures EffectiveSince(sinceDate, now).Some? ==>
      r == Some(Window(Collected(pages, PerPage), createdOf, EffectiveSince(sinceDate, now).value, until))
  {
    var sinceOpt := EffectiveSince(sinceDate, now);
    if sinceOpt.None? {
      return None;
    }
    var prs := ScanPages(pages, createdOf, sinceOpt.value, until);
    return Some(prs);
  }

  /** The `while True` loop of get_repository_pull_requests, once `since` is known. */
  method ScanPages<T>(pages: seq<Response<T>>, createdOf: T -> Option<Stamp>, since: Stamp, until: Option<Stamp>)
    returns (prs: seq<T>)
    ensures prs == Window(Collected(pages, PerPage), createdOf, since, until)
  {
    ghost var s := StopPage(pages, PerPage);
    prs := [];
    var page := 1;
    while true
      invariant 1 <= page <= s
      invariant !HasOlder(Concat(pages, page - 1), createdOf, since, until)
      invariant prs == Window(Concat(pages, page - 1), createdOf, since, until)
      decreases |pages| + 1 - page
    {
      var response := Fetch(pages, page);
      if response.status != Ok200 || response.items == [] {
        StopsHere(pages, PerPage, page);
        assert Collected(pages, PerPage) == Concat(pages, page - 1);
        return prs;
      }
      var items := response.items;
      var filtered, older := ScanPage(items, createdOf, since, until);
      if older {
        OlderEndsWalk(pages, page, createdOf, since, until);
        return prs + filtered;
      }
      ScanStep(pages, page, createdOf, since, until);
      prs := prs + filtered;
      if |items| < PerPage {
        StopsHere(pages, PerPage, page);
        assert Collected(pages, PerPage) == Concat(pages, page);
        return prs;
      }
      page := page + 1;
    }
  }

  /** The `for pr in page_prs` loop: the pull requests of one page kept by the scan,
      and whether the page holds one older than `since`. */
  method ScanPage<T>(items: seq<T>, createdOf: T -> Option<Stamp>, since: Stamp, until: Option<Stamp>)
    returns (filtered: seq<T>, older: bool)
    ensures filtered == Window(items, createdOf, since, until)
    ensures older == HasOlder(items, createdOf, since, until)
  {
    filtered := [];
    var k := 0;
    while k < |items|
      invariant 0 <= k <= |items|
      invariant !HasOlder(items[..k], createdOf, since, until)
      invariant filtered == Window(items[..k], createdOf, since, until)
    {
      var v := Classify(createdOf(items[k]), since, until);
      assert items[..k + 1] == items[..k] + [items[k]];
      WindowAppend(items[..k], [items[k]], createdOf, since, until);
      if v == Older {
        PrefixEndsAtOlder(items, k, createdOf, since, until);
        return filtered, true;
      }
      assert !HasOlder([items[k]], createdOf, since, until) by {
        assert [items[k]][1..] == [];
      }
      NoOlderAppend(items[..k], [items[k]], createdOf, since, until);
      if v == Keep {
        filtered := filtered + [items[k]];
      }
      k := k + 1;
    }
    assert items[..k] == items;
    return filtered, false;
  }

  lemma {:induction false} NoOlderAppend<T>(a: seq<T>, b: seq<T>, createdOf: T -> Option<Stamp>, since: Stamp, until: Option<Stamp>)
    requires !HasOlder(a, createdOf, since, until) && !HasOlder(b, createdOf, since, until)
    ensures !HasOlder(a + b, createdOf, since, until)
  {
    if a == [] {
      assert a + b == b;
    } else {
      assert (a + b)[0] == a[0] && (a + b)[1..] == a[1..] + b;
      NoOlderAppend(a[1..], b, createdOf, since, until);
    }
  }

  /** The scan of a page that meets an older pull request at position `k` keeps what it
      kept before `k`. */
  lemma PrefixEndsAtOlder<T>(items: seq<T>, k: nat, createdOf: T -> Option<Stamp>, since: Stamp, until: Option<Stamp>)
    requires k < |items| && Classify(createdOf(items[k]), since, until) == Older
    requires !HasOlder(items[..k], createdOf, since, until)
    ensures HasOlder(items, createdOf, since, until)
    ensures Window(items, createdOf, since, until) == Window(items[..k], createdOf, since, until)
  {
    assert items == items[..k] + items[k..];
    WindowAppend(items[..k], items[k..], createdOf, since, until);
    assert items[k..][0] == items[k];
    HasOlderAt(items, createdOf, since, until);
  }

  // ---------------------------------------------------------------------------
  // stream_repository_commits_by_date
  // ---------------------------------------------------------------------------

  /** The item lists of pages 1..n. */
  function PageLists<T>(pages: seq<Response<T>>, n: nat): (r: seq<seq<T>>)
    ensures |r| == n && forall i :: 0 <= i < n ==> r[i] == Fetch(pages, i + 1).items
  {
    seq(n, i requires 0 <= i < n => Fetch(pages, i + 1).items)
  }

  /** stream_repository_commits_by_date: yields each page's list as it arrives, asking
      for `chunk_size` per page, until an error, an empty page or a short page. */
  method StreamRepositoryCommitsByDate<T>(pages: seq<Response<T>>, chunkSize: int) returns (chunks: seq<seq<T>>)
    ensures var s := StopPage(pages, chunkSize);
            chunks == PageLists(pages, s - 1) +
              (if Fetch(pages, s).status == Ok200 && Fetch(pages, s).items != [] then [Fetch(pages, s).items] else [])
    ensures forall i :: 0 <= i < |chunks| ==> chunks[i] != []
  {
    ghost var s := StopPage(pages, chunkSize);
    chunks := [];
    var page := 1;
    while true
      invariant 1 <= page <= s
      invariant chunks == PageLists(pages, page - 1)
      decreases |pages| + 1 - page
    {
      var response := Fetch(pages, page);
      if response.status != Ok200 || response.items == [] {
        StopPageUnique(pages, chunkSize, page);
        break;
      }
      chunks := chunks + [response.items];
      if |response.items| < chunkSize {
        StopPageUnique(pages, chunkSize, page);
        break;
      }
      page := page + 1;
    }
  }

  lemma {:induction false} FlattenPageLists<T>(pages: seq<Response<T>>, n: nat)
    ensures Flatten(PageLists(pages, n)) == Concat(pages, n)
  {
    if n > 0 {
      var l := PageLists(pages, n);
      assert l[..n - 1] == PageLists(pages, n - 1);
      FlattenPageLists(pages, n - 1);
    }
  }

  /** Streamed by date, the chunks join up to exactly what the quiet walk collects with
      the same page size. */
  lemma StreamedByDateIsCollected<T>(pages: seq<Response<T>>, chunkSize: int, chunks: seq<seq<T>>)
    requires var s := StopPage(pages, chunkSize);
             chunks == PageLists(pages, s - 1) +
               (if Fetch(pages, s).status == Ok200 && Fetch(pages, s).items != [] then [Fetch(pages, s).items] else [])
    ensures Flatten(chunks) == Collected(pages, chunkSize)
  {
    var s := StopPage(pages, chunkSize);
    var last := if Fetch(pages, s).status == Ok200 && Fetch(pages, s).items != [] then [Fetch(pages, s).items] else [];
    FlattenAppend(PageLists(pages, s - 1), last);
    FlattenPageLists(pages, s - 1);
    if last != [] {
      assert last[..0] == [];
    }
  }

  // ---------------------------------------------------------------------------
  // stream_repository_commits
  // ---------------------------------------------------------------------------

  /** A request as (page, per_page). */
  type Request = (int, int)

  /** `totals[i]` is `total_fetched` before chunk i is yielded: it starts at 0 and grows
      by the length of each chunk. */
  ghost predicate RunningTotals<T>(chunks: seq<seq<T>>, totals: seq<int>)
  {
    |totals| == |chunks| + 1 && totals[0] == 0 &&
    forall i :: 0 <= i < |chunks| ==> totals[i + 1] == totals[i] + |chunks[i]|
  }

  /** The last running total is the number of items yielded. */
  lemma {:induction false} RunningTotalsCount<T>(chunks: seq<seq<T>>, totals: seq<int>)
    requires RunningTotals(chunks, totals)
    ensures totals[|chunks|] == |Flatten(chunks)|
  {
    if chunks != [] {
      var n := |chunks| - 1;
      assert RunningTotals(chunks[..n], totals[..n + 1]);
      RunningTotalsCount(chunks[..n], totals[..n + 1]);
      assert chunks[..n] + [chunks[n]] == chunks;
    }
  }

  /** The log of a streaming walk so far: request i asks for page i + 1 and for
      min(chunk_size, what is still missing); chunk i is the non-empty answer to request
      i, cut to what was still missing. At most one request has no chunk: the last. */
  ghost predicate Logged<T>(server: Request -> Response<T>, maxCommits: int, chunkSize: int,
                            chunks: seq<seq<T>>, requests: seq<Request>, totals: seq<int>)
  {
    RunningTotals(chunks, totals) &&
    (|requests| == |chunks| || |requests| == |chunks| + 1) &&
    (forall i :: 0 <= i < |requests| ==>
      requests[i] == (i + 1, Min(chunkSize, maxCommits - totals[i]))) &&
    (forall i :: 0 <= i < |chunks| ==> AnsweredChunk(server, maxCommits, requests[i], totals[i], chunks[i]))
  }

  /** A chunk is the non-empty, successful answer to `request`, cut to the
      `maxCommits - before` items still missing. */
  ghost predicate AnsweredChunk<T>(server: Request -> Response<T>, maxCommits: int, request: Request,
                                   before: int, c: seq<T>)
  {
    c != [] && server(request).status == Ok200 && before < maxCommits &&
    c == Take(server(request).items, maxCommits - before)
  }

  /** Logging the next request keeps the log well formed. */
  lemma LogRequest<T>(server: Request -> Response<T>, maxCommits: int, chunkSize: int,
                      chunks: seq<seq<T>>, requests: seq<Request>, totals: seq<int>)
    requires Logged(server, maxCommits, chunkSize, chunks, requests, totals) && |requests| == |chunks|
    ensures Logged(server, maxCommits, chunkSize, chunks,
                   requests + [(|chunks| + 1, Min(chunkSize, maxCommits - totals[|chunks|]))], totals)
  {
    var r := requests + [(|chunks| + 1, Min(chunkSize, maxCommits - totals[|chunks|]))];
    assert forall i :: 0 <= i < |requests| ==> r[i] == requests[i];
  }

  lemma RunningTotalsExtend<T>(chunks: seq<seq<T>>, totals: seq<int>, c: seq<T>)
    requires RunningTotals(chunks, totals)
    ensures RunningTotals(chunks + [c], totals + [totals[|chunks|] + |c|])
  {
    var cs, ts := chunks + [c], totals + [totals[|chunks|] + |c|];
    forall i | 0 <= i < |cs|
      ensures ts[i + 1] == ts[i] + |cs[i]|
    {
      if i < |chunks| {
        assert cs[i] == chunks[i] && ts[i] == totals[i] && ts[i + 1] == totals[i + 1];
      }
    }
  }

  lemma AnsweredExtend<T>(server: Request -> Response<T>, maxCommits: int, chunkSize: int,
                          chunks: seq<seq<T>>, requests: seq<Request>, totals: seq<int>, c: seq<T>)
    requires Logged(server, maxCommits, chunkSize, chunks, requests, totals) && |requests| == |chunks| + 1
    requires AnsweredChunk(server, maxCommits, requests[|chunks|], totals[|chunks|], c)
    ensures var cs, ts := chunks + [c], totals + [totals[|chunks|] + |c|];
      (forall i :: 0 <= i < |requests| ==> requests[i] == (i + 1, Min(chunkSize, maxCommits - ts[i]))) &&
      (forall i :: 0 <= i < |cs| ==> AnsweredChunk(server, maxCommits, requests[i], ts[i], cs[i]))
  {
    var cs, ts := chunks + [c], totals + [totals[|chunks|] + |c|];
    forall i | 0 <= i < |requests|
      ensures requests[i] == (i + 1, Min(chunkSize, maxCommits - ts[i]))
      ensures AnsweredChunk(server, maxCommits, requests[i], ts[i], cs[i])
    {
      assert ts[i] == totals[i];
      if i < |chunks| {
        assert cs[i] == chunks[i];
      }
    }
  }

  /** Logging the answer to the pending request as a chunk keeps the log well formed. */
  lemma LogChunk<T>(server: Request -> Response<T>, maxCommits: int, chunkSize: int,
                    chunks: seq<seq<T>>, requests: seq<Request>, totals: seq<int>, c: seq<T>)
    requires Logged(server, maxCommits, chunkSize, chunks, requests, totals) && |requests| == |chunks| + 1
    requires AnsweredChunk(server, maxCommits, requests[|chunks|], totals[|chunks|], c)
    ensures Logged(server, maxCommits, chunkSize, chunks + [c], requests, totals + [totals[|chunks|] + |c|])
  {
    RunningTotalsExtend(chunks, totals, c);
    AnsweredExtend(server, maxCommits, chunkSize, chunks, requests, totals, c);
  }

  /** The first `n` chunks are full: `chunk_size` items each. */
  ghost predicate FullChunks<T>(chunks: seq<seq<T>>, chunkSize: int, n: int)
  {
    0 <= n <= |chunks| && forall i :: 0 <= i < n ==> |chunks[i]| >= chunkSize
  }

  lemma FullChunksExtend<T>(chunks: seq<seq<T>>, chunkSize: int, c: seq<T>)
    requires FullChunks(chunks, chunkSize, |chunks|)
    ensures FullChunks(chunks + [c], chunkSize, |chunks|)
    ensures |c| >= chunkSize ==> FullChunks(chunks + [c], chunkSize, |chunks| + 1)
  {
    var cs := chunks + [c];
    assert forall i :: 0 <= i < |chunks| ==> cs[i] == chunks[i];
  }

  /** Running totals never decrease. */
  lemma {:induction false} TotalsGrow<T>(chunks: seq<seq<T>>, totals: seq<int>, i: int, j: int)
    requires RunningTotals(chunks, totals) && 0 <= i <= j <= |chunks|
    ensures totals[i] <= totals[j]
    decreases j - i
  {
    if i < j {
      TotalsGrow(chunks, totals, i + 1, j);
    }
  }

  /** The walk stops at the first short chunk, and once `max_commits` items are in:
      every chunk before the last request was full and left the total under
      `max_commits`. */
  lemma WentOnBeforeLastRequest<T>(server: Request -> Response<T>, maxCommits: int, chunkSize: int,
                                   chunks: seq<seq<T>>, requests: seq<Request>, totals: seq<int>)
    requires StreamEnded(server, maxCommits, chunkSize, chunks, requests, totals)
    ensures forall i :: 0 <= i < |requests| - 1 ==> |chunks[i]| >= chunkSize && totals[i + 1] < maxCommits
  {
    forall j | 1 <= j < |requests|
      ensures totals[j] < maxCommits
    {
      TotalsGrow(chunks, totals, j, |requests| - 1);
    }
  }

  /** How a streaming walk ends: the log is well formed; nothing is requested exactly
      when `max_commits` is not positive; a last request without a chunk got an error
      or an empty answer; a walk that ends on a chunk ends on a short one or with
      `max_commits` items in; and every chunk before the last request was full and left
      the total under `max_commits`. */
  ghost predicate StreamEnded<T>(server: Request -> Response<T>, maxCommits: int, chunkSize: int,
                                 chunks: seq<seq<T>>, requests: seq<Request>, totals: seq<int>)
  {
    Logged(server, maxCommits, chunkSize, chunks, requests, totals) &&
    (requests == [] <==> maxCommits <= 0) &&
    (|requests| == |chunks| + 1 ==>
      server(requests[|chunks|]).status != Ok200 || server(requests[|chunks|]).items == []) &&
    (0 < |requests| == |chunks| ==>
      |chunks[|chunks| - 1]| < chunkSize || |Flatten(chunks)| >= maxCommits) &&
    (requests != [] ==> FullChunks(chunks, chunkSize, |requests| - 1) && totals[|requests| - 1] < maxCommits)
  }

  /** A walk that stops on an error or an empty answer has ended. */
  lemma EndedOnAnswer<T>(server: Request -> Response<T>, maxCommits: int, chunkSize: int,
                         chunks: seq<seq<T>>, requests: seq<Request>, totals: seq<int>)
    requires Logged(server, maxCommits, chunkSize, chunks, requests, totals) && |requests| == |chunks| + 1
    requires 0 < maxCommits && FullChunks(chunks, chunkSize, |chunks|) && totals[|chunks|] < maxCommits
    requires server(requests[|chunks|]).status != Ok200 || server(requests[|chunks|]).items == []
    ensures StreamEnded(server, maxCommits, chunkSize, chunks, requests, totals)
  {
  }

  /** A walk that stops after a short chunk, or with `max_commits` items in, has ended. */
  lemma EndedOnChunk<T>(server: Request -> Response<T>, maxCommits: int, chunkSize: int,
                        chunks: seq<seq<T>>, requests: seq<Request>, totals: seq<int>)
    requires Logged(server, maxCommits, chunkSize, chunks, requests, totals) && 0 < |requests| == |chunks|
    requires 0 < maxCommits && FullChunks(chunks, chunkSize, |chunks| - 1) && totals[|chunks| - 1] < maxCommits
    requires |chunks[|chunks| - 1]| < chunkSize || totals[|chunks|] >= maxCommits
    ensures StreamEnded(server, maxCommits, chunkSize, chunks, requests, totals)
  {
    RunningTotalsCount(chunks, totals);
  }

  /** stream_repository_commits: `server` answers a request for (page, per_page), and
      `totals` records `total_fetched` before each chunk. Each request asks for
      min(chunk_size, what is still missing); each chunk is the answer cut to what is
      still missing; the walk ends on an error or empty answer, a short chunk, or when
      `max_commits` items have been yielded. */
  method StreamRepositoryCommits<T>(server: Request -> Response<T>, maxCommits: int, chunkSize: int)
    returns (chunks: seq<seq<T>>, requests: seq<Request>, ghost totals: seq<int>)
    ensures StreamEnded(server, maxCommits, chunkSize, chunks, requests, totals)
  {
    chunks := [];
    requests := [];
    totals := [0];
    var page := 1;
    var totalFetched := 0;
    while totalFetched < maxCommits
      invariant page == |chunks| + 1 && |requests| == |chunks|
      invariant Logged(server, maxCommits, chunkSize, chunks, requests, totals)
      invariant totalFetched == totals[|chunks|]
      invariant chunks != [] ==> 0 < totalFetched < maxCommits
      invariant FullChunks(chunks, chunkSize, |chunks|)
      decreases maxCommits - totalFetched
    {
      var request := (page, Min(chunkSize, maxCommits - totalFetched));
      var response := server(request);
      LogRequest(server, maxCommits, chunkSize, chunks, requests, totals);
      requests := requests + [request];
      if response.status != Ok200 || response.items == [] {
        EndedOnAnswer(server, maxCommits, chunkSize, chunks, requests, totals);
        return;
      }
      var pageCommits := response.items;
      if totalFetched + |pageCommits| > maxCommits {
        pageCommits := pageCommits[..maxCommits - totalFetched];
      }
      assert AnsweredChunk(server, maxCommits, request, totalFetched, pageCommits);
      LogChunk(server, maxCommits, chunkSize, chunks, requests, totals, pageCommits);
      FullChunksExtend(chunks, chunkSize, pageCommits);
      totals := totals + [totals[|chunks|] + |pageCommits|];
      chunks := chunks + [pageCommits];
      totalFetched := totalFetched + |pageCommits|;
      if |pageCommits| < chunkSize || totalFetched >= maxCommits {
        EndedOnChunk(server, maxCommits, chunkSize, chunks, requests, totals);
        return;
      }
      page := page + 1;
    }
  }

  /** However the walk ends, it never yields more than `max_commits` items. */
  lemma StreamedWithinLimit<T>(server: Request -> Response<T>, maxCommits: int, chunkSize: int,
                               chunks: seq<seq<T>>, requests: seq<Request>, totals: seq<int>)
    requires Logged(server, maxCommits, chunkSize, chunks, requests, totals)
    ensures |Flatten(chunks)| <= Max(maxCommits, 0)
  {
    RunningTotalsCount(chunks, totals);
    if chunks != [] {
      var n := |chunks| - 1;
      assert AnsweredChunk(server, maxCommits, requests[n], totals[n], chunks[n]);
    }
  }

  // ---------------------------------------------------------------------------
  // stream_repository_commits against GitHub's page offsets
  // ---------------------------------------------------------------------------

  /** Where page `page` starts at `per_page` `k`: after `page - 1` full pages. */
  function PageOffset(page: int, k: nat): nat
    decreases page
  {
    if page <= 1 then 0 else PageOffset(page - 1, k) + k
  }

  /** GitHub's paging for a `per_page` of 1 to 100: page p holds the `per_page` items of
      the full list `all` that follow the first p - 1 pages. Other requests are refused. */
  function GitHubPage<T>(all: seq<T>, request: Request): Response<T>
  {
    var (page, perPage) := request;
    if page < 1 || perPage < 1 || perPage > 100 then Response(422, [])
    else
      var start := PageOffset(page, perPage);
      Response(Ok200, all[Min(start, |all|)..Min(start + perPage, |all|)])
  }

  /** The GitHub commit listing of a repository whose commits, newest first, are `all`. */
  function GitHub<T>(all: seq<T>): Request -> Response<T>
  {
    r => GitHubPage(all, r)
  }

  /** What the log says about request `i` and, when it got one, its chunk. */
  lemma LoggedAt<T>(server: Request -> Response<T>, maxCommits: int, chunkSize: int,
                    chunks: seq<seq<T>>, requests: seq<Request>, totals: seq<int>, i: int)
    requires Logged(server, maxCommits, chunkSize, chunks, requests, totals) && 0 <= i < |requests|
    ensures requests[i] == (i + 1, Min(chunkSize, maxCommits - totals[i]))
    ensures i < |chunks| ==> AnsweredChunk(server, maxCommits, requests[i], totals[i], chunks[i]) &&
                             totals[i + 1] == totals[i] + |chunks[i]|
  {
  }

  /** In an ended walk, a request that got a successful, non-empty answer got a chunk:
      that answer cut to what was still missing. */
  lemma EndedChunkAt<T>(server: Request -> Response<T>, maxCommits: int, chunkSize: int,
                        chunks: seq<seq<T>>, requests: seq<Request>, totals: seq<int>,
                        i: int, items: seq<T>)
    requires StreamEnded(server, maxCommits, chunkSize, chunks, requests, totals)
    requires 0 <= i < |requests| && totals[Min(i, |chunks|)] < maxCommits
    requires server((i + 1, Min(chunkSize, maxCommits - totals[Min(i, |chunks|)]))) == Response(Ok200, items) && items != []
    ensures i < |chunks| && chunks[i] == Take(items, maxCommits - totals[i]) && totals[i + 1] == totals[i] + |chunks[i]|
  {
    LoggedAt(server, maxCommits, chunkSize, chunks, requests, totals, i);
  }

  /** In an ended walk, a full chunk that leaves the total under `max_commits` is followed
      by another request. */
  lemma EndedGoesOn<T>(server: Request -> Response<T>, maxCommits: int, chunkSize: int,
                       chunks: seq<seq<T>>, requests: seq<Request>, totals: seq<int>, i: int)
    requires StreamEnded(server, maxCommits, chunkSize, chunks, requests, totals)
    requires 0 <= i < |chunks| && |chunks[i]| >= chunkSize && totals[i + 1] < maxCommits
    ensures i + 1 < |requests|
  {
    RunningTotalsCount(chunks, totals);
    if |requests| == i + 1 {
      TotalsGrow(chunks, totals, i + 1, |chunks|);
    }
  }

  /** The three pages the as-written walk asks a 150-commit listing for. */
  lemma GitHubAnswers<T>(all: seq<T>)
    requires |all| == 150
    ensures GitHub(all)((1, 50)) == Response(Ok200, all[..50])
    ensures GitHub(all)((2, 50)) == Response(Ok200, all[50..100])
    ensures GitHub(all)((3, 20)) == Response(Ok200, all[40..60])
  {
  }

  lemma FlattenThree<T>(a: seq<T>, b: seq<T>, c: seq<T>)
    ensures Flatten([a, b, c]) == a + b + c
  {
    FlattenCons(a, [b, c]);
    FlattenCons(b, [c]);
    FlattenCons(c, []);
    assert [a] + [b, c] == [a, b, c] && [b] + [c] == [b, c] && [c] + [] == [c];
  }

  /** As written, the last request shrinks `per_page` to what is still missing but keeps
      counting pages. A server that pages by offset, as GitHub does, answers page 3 of 20
      with the items 41 to 60: with `max_commits` 120 and `chunk_size` 50 the walk yields
      items 1 to 100 and then 41 to 60 again, never 101 to 120. */
  lemma SharedLastPage<T>(server: Request -> Response<T>, all: seq<T>,
                          chunks: seq<seq<T>>, requests: seq<Request>, totals: seq<int>)
    requires |all| == 150
    requires server((1, 50)) == Response(Ok200, all[..50])
    requires server((2, 50)) == Response(Ok200, all[50..100])
    requires server((3, 20)) == Response(Ok200, all[40..60])
    requires StreamEnded(server, 120, 50, chunks, requests, totals)
    ensures requests == [(1, 50), (2, 50), (3, 20)]
    ensures Flatten(chunks) == all[..100] + all[40..60]
  {
    EndedChunkAt(server, 120, 50, chunks, requests, totals, 0, all[..50]);
    EndedGoesOn(server, 120, 50, chunks, requests, totals, 0);
    EndedChunkAt(server, 120, 50, chunks, requests, totals, 1, all[50..100]);
    EndedGoesOn(server, 120, 50, chunks, requests, totals, 1);
    EndedChunkAt(server, 120, 50, chunks, requests, totals, 2, all[40..60]);
    LoggedAt(server, 120, 50, chunks, requests, totals, 0);
    LoggedAt(server, 120, 50, chunks, requests, totals, 1);
    LoggedAt(server, 120, 50, chunks, requests, totals, 2);
    assert |chunks| == 3 && |requests| == 3;
    assert chunks == [all[..50], all[50..100], all[40..60]];
    FlattenThree(all[..50], all[50..100], all[40..60]);
    SliceSplit(all, 0, 50, 100);
  }

  /** The walk as written, run against GitHub's listing of 150 commits with
      `max_commits` 120 and `chunk_size` 50, yields commits 41 to 60 twice and never
      reaches 101 to 120. */
  lemma StreamOverlapsAsWritten<T>(all: seq<T>, chunks: seq<seq<T>>, requests: seq<Request>, totals: seq<int>)
    requires |all| == 150
    requires StreamEnded(GitHub(all), 120, 50, chunks, requests, totals)
    ensures requests == [(1, 50), (2, 50), (3, 20)]
    ensures Flatten(chunks) == all[..100] + all[40..60]
  {
    GitHubAnswers(all);
    SharedLastPage(GitHub(all), all, chunks, requests, totals);
  }

  /** The evidently intended walk over GitHub's listing `all`: every request asks for
      `chunk_size` items of page `page`, and the last chunk is cut locally to what is
      still missing. The stop rules are those of stream_repository_commits. */
  function FixedStream<T>(all: seq<T>, maxCommits: int, chunkSize: int,
                          page: int, fetched: int): seq<seq<T>>
    decreases Max(maxCommits - fetched, 0)
  {
    if fetched >= maxCommits then []
    else
      var response := GitHubPage(all, (page, chunkSize));
      if response.status != Ok200 || response.items == [] then []
      else
        var c := Take(response.items, maxCommits - fetched);
        if |c| < chunkSize || fetched + |c| >= maxCommits then [c]
        else [c] + FixedStream(all, maxCommits, chunkSize, page + 1, fetched + |c|)
  }

  /** The page GitHub answers at `per_page` `k`. */
  lemma GitHubPageAt<T>(all: seq<T>, page: int, k: int)
    requires 1 <= k <= 100 && 1 <= page
    ensures var start := PageOffset(page, k);
            GitHubPage(all, (page, k)) == Response(Ok200, all[Min(start, |all|)..Min(start + k, |all|)])
  {
  }

  /** The fixed walk yields nothing once `max_commits` items are in or the list is
      used up. */
  lemma FixedStreamEmpty<T>(all: seq<T>, maxCommits: int, chunkSize: int, page: int, fetched: int)
    requires 1 <= chunkSize <= 100 && 1 <= page && fetched == PageOffset(page, chunkSize)
    requires maxCommits <= fetched || |all| <= fetched
    ensures FixedStream(all, maxCommits, chunkSize, page, fetched) == []
  {
    GitHubPageAt(all, page, chunkSize);
  }

  /** When the next page runs past the end of the list or past `max_commits`, the fixed
      walk yields one last chunk: the rest of the commits up to `max_commits`. */
  lemma FixedStreamLast<T>(all: seq<T>, maxCommits: int, chunkSize: int, page: int, fetched: int)
    requires 1 <= chunkSize <= 100 && 1 <= page && fetched == PageOffset(page, chunkSize)
    requires fetched < maxCommits && fetched < |all|
    requires |all| < fetched + chunkSize || maxCommits <= fetched + chunkSize
    ensures FixedStream(all, maxCommits, chunkSize, page, fetched) == [all[fetched..Min(|all|, maxCommits)]]
  {
    GitHubPageAt(all, page, chunkSize);
    var items := all[fetched..Min(fetched + chunkSize, |all|)];
    assert Take(items, maxCommits - fetched) == all[fetched..Min(|all|, maxCommits)];
  }

  /** Otherwise the fixed walk yields the full page and goes on with the next one. */
  lemma FixedStreamNext<T>(all: seq<T>, maxCommits: int, chunkSize: int, page: int, fetched: int)
    requires 1 <= chunkSize <= 100 && 1 <= page && fetched == PageOffset(page, chunkSize)
    requires fetched + chunkSize <= |all| && fetched + chunkSize < maxCommits
    ensures FixedStream(all, maxCommits, chunkSize, page, fetched) ==
            [all[fetched..fetched + chunkSize]] + FixedStream(all, maxCommits, chunkSize, page + 1, fetched + chunkSize)
  {
    GitHubPageAt(all, page, chunkSize);
    var items := all[fetched..fetched + chunkSize];
    assert Take(items, maxCommits - fetched) == items;
  }

  lemma PageOffsetNext(page: int, k: nat)
    requires 1 <= page
    ensures PageOffset(page + 1, k) == PageOffset(page, k) + k
  {
  }

  /** Concatenation from the front, matching how the fixed walk is built. */
  function Joined<T>(ss: seq<seq<T>>): seq<T>
  {
    if ss == [] then [] else ss[0] + Joined(ss[1..])
  }

  lemma {:induction false} JoinedIsFlatten<T>(ss: seq<seq<T>>)
    ensures Joined(ss) == Flatten(ss)
  {
    if ss != [] {
      JoinedIsFlatten(ss[1..]);
      FlattenCons(ss[0], ss[1..]);
      assert [ss[0]] + ss[1..] == ss;
    }
  }

  /** From page `page` on, with the earlier pages full, the fixed walk yields the commits
      from `fetched` up to `max_commits`, each once and in order. */
  lemma {:induction false} FixedStreamFrom<T>(all: seq<T>, maxCommits: int, chunkSize: int, page: int, fetched: int)
    requires 1 <= chunkSize <= 100 && 1 <= page && fetched == PageOffset(page, chunkSize)
    requires fetched <= |all| && fetched <= maxCommits
    ensures Joined(FixedStream(all, maxCommits, chunkSize, page, fetched)) == all[fetched..Min(|all|, maxCommits)]
    decreases maxCommits - fetched, 1
  {
    if maxCommits == fetched || |all| == fetched {
      FixedStreamEmpty(all, maxCommits, chunkSize, page, fetched);
    } else if |all| < fetched + chunkSize || maxCommits <= fetched + chunkSize {
      FixedStreamLast(all, maxCommits, chunkSize, page, fetched);
      var c := all[fetched..Min(|all|, maxCommits)];
      assert [c][1..] == [];
    } else {
      YieldsNext(all, maxCommits, chunkSize, page, fetched);
    }
  }

  lemma {:induction false} YieldsNext<T>(all: seq<T>, maxCommits: int, chunkSize: int, page: int, fetched: int)
    requires 1 <= chunkSize <= 100 && 1 <= page && fetched == PageOffset(page, chunkSize)
    requires fetched + chunkSize <= |all| && fetched + chunkSize < maxCommits
    ensures Joined(FixedStream(all, maxCommits, chunkSize, page, fetched)) == all[fetched..Min(|all|, maxCommits)]
    decreases maxCommits - fetched, 0
  {
    FixedStreamNext(all, maxCommits, chunkSize, page, fetched);
    PageOffsetNext(page, chunkSize);
    FixedStreamFrom(all, maxCommits, chunkSize, page + 1, fetched + chunkSize);
    JoinedConsSlice(all, FixedStream(all, maxCommits, chunkSize, page, fetched),
                    FixedStream(all, maxCommits, chunkSize, page + 1, fetched + chunkSize),
                    fetched, fetched + chunkSize, Min(|all|, maxCommits));
  }

  /** A chunk `all[a..b]` followed by chunks joining to `all[b..e]` joins to `all[a..e]`. */
  lemma JoinedConsSlice<T>(all: seq<T>, s: seq<seq<T>>, rest: seq<seq<T>>, a: int, b: int, e: int)
    requires 0 <= a <= b <= e <= |all|
    requires s == [all[a..b]] + rest && Joined(rest) == all[b..e]
    ensures Joined(s) == all[a..e]
  {
    assert s[0] == all[a..b] && s[1..] == rest;
    SliceSplit(all, a, b, e);
  }

  /** The fixed walk, run against GitHub with a `chunk_size` GitHub accepts, yields the
      first `max_commits` commits once each and in order: `all[:max_commits]`. */
  lemma FixedStreamIsPrefix<T>(all: seq<T>, maxCommits: int, chunkSize: int)
    requires 1 <= chunkSize <= 100
    ensures Flatten(FixedStream(all, maxCommits, chunkSize, 1, 0)) == Take(all, Max(maxCommits, 0))
  {
    if maxCommits <= 0 {
      FixedStreamEmpty(all, maxCommits, chunkSize, 1, 0);
    } else {
      FixedStreamFrom(all, maxCommits, chunkSize, 1, 0);
      JoinedIsFlatten(FixedStream(all, maxCommits, chunkSize, 1, 0));
    }
  }
}
