/**
 * The pagination walk shared by the subscription listing and the search:
 * request pages of at most 100 ids with the continuation token of the last
 * page, examine the ids of each page in order, and stop once the budget of
 * counted messages is spent, a page comes back empty, or no token comes back.
 *
 * The mailbox is an abstract page source. `responses[k]` is the answer to the
 * k-th page request (an empty page once the script is exhausted), and
 * `id in counts` says whether examining message `id` spends the budget: every
 * message for the search, only those with a non-empty `List-Unsubscribe`
 * header for the listing.
 */
module Pagination {
  import opened Options

  type MessageId = string

  /** One answer of the listing call: the ids on the page and the continuation token, if any. */
  datatype Page = Page(messages: seq<MessageId>, nextPageToken: Option<string>)

  /** One call of the listing capability: the query, the page size asked for and the token passed. */
  datatype Request = Request(query: string, maxResults: int, pageToken: Option<string>)

  /** What a walk does: the page requests it issues, and the counted messages in the order examined. */
  datatype Walked = Walked(requests: seq<Request>, counted: seq<MessageId>)

  /** The largest page the walk asks for. */
  const PageSizeLimit: int := 100

  function Min(a: int, b: int): int {
    if a <= b then a else b
  }

  /** The answer to the k-th page request. */
  function PageAt(responses: seq<Page>, k: nat): Page {
    if k < |responses| then responses[k] else Page([], None)
  }

  /** The search counts every examined message. */
  ghost const EveryMessage: iset<MessageId> := iset id: MessageId | true

  /** The ids among `ids` that count, in order. */
  function Counted(ids: seq<MessageId>, counts: iset<MessageId>): (r: seq<MessageId>)
    ensures |r| <= |ids|
  {
    if ids == [] then []
    else
      var last := ids[|ids| - 1];
      Counted(ids[..|ids| - 1], counts) + (if last in counts then [last] else [])
  }

  /** The first `n` elements of `s` (all of them when there are fewer). */
  function Take<T>(s: seq<T>, n: int): (r: seq<T>)
    ensures |r| == if n <= 0 then 0 else if n < |s| then n else |s|
  {
    if n <= 0 then [] else if n < |s| then s[..n] else s
  }

  /** `if not next_page_token: break` — an absent or empty token ends the walk. */
  predicate Continues(token: Option<string>) {
    token.Some? && token.value != ""
  }

  /**
   * The walk from the k-th page request on, with `processed` messages already
   * counted and `token` to pass: one request of `min(100, budget left)` ids,
   * then the counted ids of the page up to the budget, then the rest of the
   * walk when the page was non-empty and carried a token.
   */
  function Walk(query: string, responses: seq<Page>, counts: iset<MessageId>,
                maxResults: int, k: nat, processed: int, token: Option<string>): Walked
    decreases |responses| - k
  {
    if processed >= maxResults then Walked([], [])
    else
      var request := Request(query, Min(PageSizeLimit, maxResults - processed), token);
      var page := PageAt(responses, k);
      if page.messages == [] then Walked([request], [])
      else
        var counted := Take(Counted(page.messages, counts), maxResults - processed);
        var rest :=
          if Continues(page.nextPageToken) then
            Walk(query, responses, counts, maxResults, k + 1, processed + |counted|, page.nextPageToken)
          else Walked([], []);
        Walked([request] + rest.requests, counted + rest.counted)
  }

  /**
   * Every request carries the caller's query and asks for between 1 and 100
   * ids, never more than the budget left.
   */
  lemma {:induction false} WalkRequestSizes(query: string, responses: seq<Page>, counts: iset<MessageId>,
                                            maxResults: int, k: nat, processed: int, token: Option<string>)
    ensures forall r :: r in Walk(query, responses, counts, maxResults, k, processed, token).requests ==>
      r.query == query && 1 <= r.maxResults <= PageSizeLimit && r.maxResults <= maxResults - processed
    decreases |responses| - k
  {
    if processed < maxResults {
      var page := PageAt(responses, k);
      if page.messages != [] && Continues(page.nextPageToken) {
        var counted := Take(Counted(page.messages, counts), maxResults - processed);
        WalkRequestSizes(query, responses, counts, maxResults, k + 1, processed + |counted|, page.nextPageToken);
      }
    }
  }

  /** One step of the walk: a non-empty page contributes its counted ids, then the walk goes on if it may. */
  lemma WalkStep(query: string, responses: seq<Page>, counts: iset<MessageId>, maxResults: int, k: nat, processed: int, token: Option<string>)
    requires processed < maxResults && PageAt(responses, k).messages != []
    ensures var page := PageAt(responses, k);
      var counted := Take(Counted(page.messages, counts), maxResults - processed);
      var rest := if Continues(page.nextPageToken) then
        Walk(query, responses, counts, maxResults, k + 1, processed + |counted|, page.nextPageToken)
      else Walked([], []);
      Walk(query, responses, counts, maxResults, k, processed, token) ==
        Walked([Request(query, Min(PageSizeLimit, maxResults - processed), token)] + rest.requests, counted + rest.counted)
  {
  }

  /** A walk that reaches an empty page issues that page's request and stops. */
  lemma WalkEmptyPage(query: string, responses: seq<Page>, counts: iset<MessageId>, maxResults: int, k: nat, processed: int, token: Option<string>)
    requires processed < maxResults && PageAt(responses, k).messages == []
    ensures Walk(query, responses, counts, maxResults, k, processed, token) ==
      Walked([Request(query, Min(PageSizeLimit, maxResults - processed), token)], [])
  {
  }

  lemma AppendAssociates<T>(a: seq<T>, b: seq<T>, c: seq<T>)
    ensures (a + b) + c == a + (b + c)
  {
  }

  /**
   * The whole walk as seen by a caller that has issued `requests` and counted
   * `kept` so far and is about to continue from the k-th page request.
   */
  function Resumed(query: string, responses: seq<Page>, counts: iset<MessageId>, maxResults: int, k: nat,
                   processed: int, token: Option<string>, requests: seq<Request>, kept: seq<MessageId>): Walked
  {
    var rest := Walk(query, responses, counts, maxResults, k, processed, token);
    Walked(requests + rest.requests, kept + rest.counted)
  }

  /**
   * One turn of the page loop: after the k-th request and the counted
   * messages `pageKept` of a non-empty page with a token, the walk goes on
   * from page k + 1 with that token.
   */
  lemma WalkResume(query: string, responses: seq<Page>, counts: iset<MessageId>, maxResults: int, k: nat,
                   processed: int, token: Option<string>, requests: seq<Request>, kept: seq<MessageId>, whole: Walked,
                   pageKept: seq<MessageId>)
    requires processed < maxResults
    requires Resumed(query, responses, counts, maxResults, k, processed, token, requests, kept) == whole
    requires PageAt(responses, k).messages != [] && Continues(PageAt(responses, k).nextPageToken)
    requires pageKept == Take(Counted(PageAt(responses, k).messages, counts), maxResults - processed)
    ensures Resumed(query, responses, counts, maxResults, k + 1, processed + |pageKept|, PageAt(responses, k).nextPageToken,
                    requests + [Request(query, Min(PageSizeLimit, maxResults - processed), token)], kept + pageKept) == whole
  {
    var request := Request(query, Min(PageSizeLimit, maxResults - processed), token);
    var rest := Walk(query, responses, counts, maxResults, k + 1, processed + |pageKept|, PageAt(responses, k).nextPageToken);
    WalkStep(query, responses, counts, maxResults, k, processed, token);
    AppendAssociates(requests, [request], rest.requests);
    AppendAssociates(kept, pageKept, rest.counted);
  }

  /** The page loop's last turn on a non-empty page without a token: the walk is complete. */
  lemma WalkFinish(query: string, responses: seq<Page>, counts: iset<MessageId>, maxResults: int, k: nat,
                   processed: int, token: Option<string>, requests: seq<Request>, kept: seq<MessageId>, whole: Walked,
                   pageKept: seq<MessageId>)
    requires processed < maxResults
    requires Resumed(query, responses, counts, maxResults, k, processed, token, requests, kept) == whole
    requires PageAt(responses, k).messages != [] && !Continues(PageAt(responses, k).nextPageToken)
    requires pageKept == Take(Counted(PageAt(responses, k).messages, counts), maxResults - processed)
    ensures requests + [Request(query, Min(PageSizeLimit, maxResults - processed), token)] == whole.requests
    ensures kept + pageKept == whole.counted
  {
    var request := Request(query, Min(PageSizeLimit, maxResults - processed), token);
    WalkStep(query, responses, counts, maxResults, k, processed, token);
    assert [request] + [] == [request] && pageKept + [] == pageKept;
  }

  /** The page loop's turn on an empty page: its request completes the walk. */
  lemma WalkEnd(query: string, responses: seq<Page>, counts: iset<MessageId>, maxResults: int, k: nat,
                processed: int, token: Option<string>, requests: seq<Request>, kept: seq<MessageId>, whole: Walked)
    requires processed < maxResults
    requires Resumed(query, responses, counts, maxResults, k, processed, token, requests, kept) == whole
    requires PageAt(responses, k).messages == []
    ensures requests + [Request(query, Min(PageSizeLimit, maxResults - processed), token)] == whole.requests
    ensures kept == whole.counted
  {
    WalkEmptyPage(query, responses, counts, maxResults, k, processed, token);
    assert kept + [] == kept;
  }

  /** The walk never counts more than the budget left. */
  lemma {:induction false} WalkWithinBudget(query: string, responses: seq<Page>, counts: iset<MessageId>,
                                            maxResults: int, k: nat, processed: int, token: Option<string>)
    ensures |Walk(query, responses, counts, maxResults, k, processed, token).counted| <=
      (if processed < maxResults then maxResults - processed else 0)
    decreases |responses| - k
  {
    if processed < maxResults {
      var page := PageAt(responses, k);
      if page.messages == [] {
        WalkEmptyPage(query, responses, counts, maxResults, k, processed, token);
      } else {
        WalkStep(query, responses, counts, maxResults, k, processed, token);
        var counted := Take(Counted(page.messages, counts), maxResults - processed);
        var rest := if Continues(page.nextPageToken) then
          Walk(query, responses, counts, maxResults, k + 1, processed + |counted|, page.nextPageToken)
        else Walked([], []);
        if Continues(page.nextPageToken) {
          WalkWithinBudget(query, responses, counts, maxResults, k + 1, processed + |counted|, page.nextPageToken);
        }
        assert |rest.counted| <= maxResults - processed - |counted|;
      }
    }
  }

  /** The walk counts only messages that count. */
  lemma {:induction false} WalkCountsOnlyCounting(query: string, responses: seq<Page>, counts: iset<MessageId>, maxResults: int, k: nat, processed: int, token: Option<string>)
    ensures forall id :: id in Walk(query, responses, counts, maxResults, k, processed, token).counted ==>
      id in counts
    decreases |responses| - k
  {
    var page := PageAt(responses, k);
    if processed < maxResults && page.messages != [] {
      WalkStep(query, responses, counts, maxResults, k, processed, token);
      var counted := Take(Counted(page.messages, counts), maxResults - processed);
      var rest := if Continues(page.nextPageToken) then
        Walk(query, responses, counts, maxResults, k + 1, processed + |counted|, page.nextPageToken)
      else Walked([], []);
      CountedCounts(page.messages, counts);
      TakeWithin(Counted(page.messages, counts), maxResults - processed);
      if Continues(page.nextPageToken) {
        WalkCountsOnlyCounting(query, responses, counts, maxResults, k + 1, processed + |counted|, page.nextPageToken);
      }
      InBoth(counted, rest.counted, counts);
    } else if processed < maxResults {
      WalkEmptyPage(query, responses, counts, maxResults, k, processed, token);
    }
  }

  lemma InBoth<T>(a: seq<T>, b: seq<T>, within: iset<T>)
    requires forall x :: x in a ==> x in within
    requires forall x :: x in b ==> x in within
    ensures forall x :: x in a + b ==> x in within
  {
  }

  lemma TakeWithin<T>(s: seq<T>, n: int)
    ensures forall x :: x in Take(s, n) ==> x in s
  {
  }

  lemma {:induction false} CountedCounts(ids: seq<MessageId>, counts: iset<MessageId>)
    ensures forall id :: id in Counted(ids, counts) ==> id in ids && id in counts
  {
    if ids != [] {
      CountedCounts(ids[..|ids| - 1], counts);
    }
  }

  /**
   * Each request in `rs`, the first one being the k-th of the walk, passes the
   * token of the answer before it: the first passes `token`, and a further
   * request follows only a non-empty answer that carried a token.
   */
  predicate Chained(rs: seq<Request>, responses: seq<Page>, k: nat, token: Option<string>)
    decreases |rs|
  {
    rs == [] ||
    (rs[0].pageToken == token &&
     (|rs| > 1 ==>
        var page := PageAt(responses, k);
        page.messages != [] && Continues(page.nextPageToken) &&
        Chained(rs[1..], responses, k + 1, page.nextPageToken)))
  }

  /**
   * The walk follows the tokens: the first request passes the token the walk
   * started with, and the walk never asks past an empty page or a page
   * without a token.
   */
  lemma {:induction false} WalkFollowsTokens(query: string, responses: seq<Page>, counts: iset<MessageId>, maxResults: int, k: nat, processed: int, token: Option<string>)
    ensures Chained(Walk(query, responses, counts, maxResults, k, processed, token).requests, responses, k, token)
    decreases |responses| - k
  {
    var page := PageAt(responses, k);
    var request := Request(query, Min(PageSizeLimit, maxResults - processed), token);
    if processed >= maxResults {
      assert Walk(query, responses, counts, maxResults, k, processed, token).requests == [];
    } else if page.messages == [] {
      WalkEmptyPage(query, responses, counts, maxResults, k, processed, token);
      ChainedCons(request, [], responses, k, token);
      assert [request] + [] == [request];
    } else {
      WalkStep(query, responses, counts, maxResults, k, processed, token);
      var counted := Take(Counted(page.messages, counts), maxResults - processed);
      if Continues(page.nextPageToken) {
        var rest := Walk(query, responses, counts, maxResults, k + 1, processed + |counted|, page.nextPageToken).requests;
        WalkFollowsTokens(query, responses, counts, maxResults, k + 1, processed + |counted|, page.nextPageToken);
        ChainedCons(request, rest, responses, k, token);
      } else {
        ChainedCons(request, [], responses, k, token);
        assert [request] + [] == [request];
      }
    }
  }

  lemma ChainedCons(r: Request, rest: seq<Request>, responses: seq<Page>, k: nat, token: Option<string>)
    requires r.pageToken == token
    requires rest != [] ==>
      var page := PageAt(responses, k);
      page.messages != [] && Continues(page.nextPageToken) && Chained(rest, responses, k + 1, page.nextPageToken)
    ensures Chained([r] + rest, responses, k, token)
  {
    assert ([r] + rest)[1..] == rest;
  }

  /** `Chained` read request by request: the i-th request passes the token of the answer just before it. */
  lemma {:induction false} ChainedAt(rs: seq<Request>, responses: seq<Page>, k: nat, token: Option<string>, i: nat)
    requires Chained(rs, responses, k, token) && 1 <= i < |rs|
    ensures var previous := PageAt(responses, k + i - 1);
      previous.messages != [] && Continues(previous.nextPageToken) && rs[i].pageToken == previous.nextPageToken
    decreases i
  {
    var page := PageAt(responses, k);
    if i > 1 {
      ChainedAt(rs[1..], responses, k + 1, page.nextPageToken, i - 1);
    }
  }

  /** The counted ids of every answer from the k-th on, answer after answer. */
  function CountedFrom(responses: seq<Page>, counts: iset<MessageId>, k: nat): seq<MessageId>
    decreases |responses| - k
  {
    if k < |responses| then Counted(responses[k].messages, counts) + CountedFrom(responses, counts, k + 1)
    else []
  }

  /** A walk that goes on counting after a page took all of that page's counted ids. */
  lemma WholePageBeforeMore(query: string, responses: seq<Page>, counts: iset<MessageId>, maxResults: int, k: nat, processed: int, token: Option<string>, mine: seq<MessageId>)
    requires processed < maxResults
    requires Walk(query, responses, counts, maxResults, k, processed + |Take(mine, maxResults - processed)|, token).counted != []
    ensures Take(mine, maxResults - processed) == mine
  {
  }

  /**
   * The counted messages come in page order: they are a prefix of the counted
   * messages of all pages from the k-th on, laid end to end.
   */
  lemma {:induction false} WalkInPageOrder(query: string, responses: seq<Page>, counts: iset<MessageId>, maxResults: int, k: nat, processed: int, token: Option<string>)
    ensures Walk(query, responses, counts, maxResults, k, processed, token).counted <= CountedFrom(responses, counts, k)
    decreases |responses| - k
  {
    if processed < maxResults {
      var page := PageAt(responses, k);
      if page.messages != [] {
        if Continues(page.nextPageToken) {
          var counted := Take(Counted(page.messages, counts), maxResults - processed);
          WalkInPageOrder(query, responses, counts, maxResults, k + 1, processed + |counted|, page.nextPageToken);
          InPageOrderMore(query, responses, counts, maxResults, k, processed, token);
        } else {
          InPageOrderLast(query, responses, counts, maxResults, k, processed, token);
        }
      }
    }
  }

  lemma InPageOrderLast(query: string, responses: seq<Page>, counts: iset<MessageId>, maxResults: int, k: nat, processed: int, token: Option<string>)
    requires processed < maxResults && PageAt(responses, k).messages != []
    requires !Continues(PageAt(responses, k).nextPageToken)
    ensures Walk(query, responses, counts, maxResults, k, processed, token).counted <= CountedFrom(responses, counts, k)
  {
    var mine := Counted(PageAt(responses, k).messages, counts);
    WalkStep(query, responses, counts, maxResults, k, processed, token);
    TakeThenPrefix(mine, maxResults - processed, [], CountedFrom(responses, counts, k + 1));
  }

  lemma InPageOrderMore(query: string, responses: seq<Page>, counts: iset<MessageId>, maxResults: int, k: nat, processed: int, token: Option<string>)
    requires processed < maxResults && PageAt(responses, k).messages != []
    requires Continues(PageAt(responses, k).nextPageToken)
    requires Walk(query, responses, counts, maxResults, k + 1,
                  processed + |Take(Counted(PageAt(responses, k).messages, counts), maxResults - processed)|,
                  PageAt(responses, k).nextPageToken).counted <= CountedFrom(responses, counts, k + 1)
    ensures Walk(query, responses, counts, maxResults, k, processed, token).counted <= CountedFrom(responses, counts, k)
  {
    var page := PageAt(responses, k);
    var mine := Counted(page.messages, counts);
    var counted := Take(mine, maxResults - processed);
    WalkStep(query, responses, counts, maxResults, k, processed, token);
    var rest := Walk(query, responses, counts, maxResults, k + 1, processed + |counted|, page.nextPageToken).counted;
    if rest != [] {
      WholePageBeforeMore(query, responses, counts, maxResults, k + 1, processed, page.nextPageToken, mine);
    }
    TakeThenPrefix(mine, maxResults - processed, rest, CountedFrom(responses, counts, k + 1));
  }

  /**
   * A page's counted ids cut to a budget, followed by a prefix of what comes
   * after, as long as the cut took the whole page whenever anything follows.
   */
  lemma TakeThenPrefix<T>(mine: seq<T>, budget: int, rest: seq<T>, next: seq<T>)
    requires rest <= next && (rest != [] ==> Take(mine, budget) == mine)
    ensures Take(mine, budget) + rest <= mine + next
  {
    PrefixConcat(Take(mine, budget), rest, mine, next);
  }

  /** Prefixes laid end to end: a whole first part followed by a prefix of the second, or a prefix of the first. */
  lemma PrefixConcat<T>(a: seq<T>, b: seq<T>, c: seq<T>, d: seq<T>)
    requires a <= c && b <= d && (b != [] ==> a == c)
    ensures a + b <= c + d
  {
    if b != [] {
      assert (c + d)[..|a + b|] == c + d[..|b|];
    }
  }

  /** All the ids of the answers, in order. */
  function Flatten(pages: seq<Page>): seq<MessageId> {
    if pages == [] then [] else pages[0].messages + Flatten(pages[1..])
  }

  /** When every message counts, the counted ids from the k-th answer on are all their ids. */
  lemma {:induction false} CountedFromEveryMessage(responses: seq<Page>, k: nat)
    requires k <= |responses|
    ensures CountedFrom(responses, EveryMessage, k) == Flatten(responses[k..])
    decreases |responses| - k
  {
    if k < |responses| {
      CountedFromEveryMessage(responses, k + 1);
      CountingEveryMessage(responses[k].messages);
      assert responses[k..][1..] == responses[k + 1..];
    }
  }

  lemma {:induction false} CountedAppend(a: seq<MessageId>, b: seq<MessageId>, counts: iset<MessageId>)
    ensures Counted(a + b, counts) == Counted(a, counts) + Counted(b, counts)
  {
    if b == [] {
      assert a + b == a;
    } else {
      var init := b[..|b| - 1];
      CountedAppend(a, init, counts);
      assert (a + b)[..|a + b| - 1] == a + init;
    }
  }

  /** Counting every message keeps them all. */
  lemma {:induction false} CountingEveryMessage(ids: seq<MessageId>)
    ensures Counted(ids, EveryMessage) == ids
  {
    if ids != [] {
      CountingEveryMessage(ids[..|ids| - 1]);
    }
  }

  /**
   * The page loop's bookkeeping: once the first `j` ids of a page have been
   * examined without spending the budget, what was counted is all of
   * `Counted(ids[..j])`; the page's contribution is settled either when the
   * budget is reached at some id or when the page is done.
   */
  lemma CountedPrefixStep(ids: seq<MessageId>, j: nat, counts: iset<MessageId>)
    requires j < |ids|
    ensures ids[j] in counts ==> Counted(ids[..j + 1], counts) == Counted(ids[..j], counts) + [ids[j]]
    ensures ids[j] !in counts ==> Counted(ids[..j + 1], counts) == Counted(ids[..j], counts)
  {
    assert ids[..j + 1][..j] == ids[..j];
  }

  /** Reaching the budget at the j-th id settles the page: the rest of it is not needed. */
  lemma CountedPrefixTake(ids: seq<MessageId>, j: nat, budget: int, counts: iset<MessageId>)
    requires j <= |ids| && |Counted(ids[..j], counts)| == budget
    ensures Take(Counted(ids, counts), budget) == Counted(ids[..j], counts)
  {
    assert ids == ids[..j] + ids[j..];
    CountedAppend(ids[..j], ids[j..], counts);
  }

  /**
   * A scan of `ids` that stops at `j` — because the ids ran out or because
   * the budget is spent — has counted the budget's worth of counted ids.
   */
  lemma CountedScanDone(ids: seq<MessageId>, j: nat, budget: int, counts: iset<MessageId>)
    requires j <= |ids| && |Counted(ids[..j], counts)| <= budget
    requires j == |ids| || |Counted(ids[..j], counts)| == budget
    ensures Take(Counted(ids, counts), budget) == Counted(ids[..j], counts)
  {
    if |Counted(ids[..j], counts)| == budget {
      CountedPrefixTake(ids, j, budget, counts);
    } else {
      assert ids[..j] == ids;
    }
  }
}
