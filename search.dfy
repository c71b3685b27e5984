/**
 * The mailbox search (`search_emails`): walk the pages of a Gmail query and
 * describe every examined message by its sender, subject, date and whether
 * it carries a `List-Unsubscribe` header, up to `maxResults` messages.
 */
module Search {
  import opened Options
  import opened Headers
  import opened Pagination
  import opened Grouping

  /** One search result: the dictionary `search_emails` appends per message. */
  datatype EmailSummary = EmailSummary(id: MessageId, fromName: string, fromEmail: string, subject: string,
                                       date: string, hasUnsubscribe: bool)

  /**
   * The result for message `id` with metadata headers `headers`: the sender
   * as `_extract_sender_info` reads it, the subject and the date or `""`, and
   * whether a `List-Unsubscribe` header is present at all.
   */
  function Describe(id: MessageId, headers: seq<Header>): EmailSummary {
    var sender := ExtractSenderInfo(headers);
    EmailSummary(id, sender.name, sender.address, GetHeaderValue(headers, "Subject").GetOr(""),
                 GetHeaderValue(headers, "Date").GetOr(""), GetHeaderValue(headers, "List-Unsubscribe").Some?)
  }

  /** The results for the messages `ids`, in order. */
  function Describes(metadata: map<MessageId, seq<Header>>, ids: seq<MessageId>): (r: seq<EmailSummary>)
    ensures |r| == |ids|
  {
    seq(|ids|, i requires 0 <= i < |ids| => Describe(ids[i], MetadataOf(metadata, ids[i])))
  }

  lemma DescribesSnoc(metadata: map<MessageId, seq<Header>>, ids: seq<MessageId>, id: MessageId)
    ensures Describes(metadata, ids + [id]) == Describes(metadata, ids) + [Describe(id, MetadataOf(metadata, id))]
  {
  }

  lemma DescribesAppend(metadata: map<MessageId, seq<Header>>, a: seq<MessageId>, b: seq<MessageId>)
    ensures Describes(metadata, a + b) == Describes(metadata, a) + Describes(metadata, b)
  {
  }

  lemma DescribesNext(metadata: map<MessageId, seq<Header>>, messages: seq<MessageId>, j: int)
    requires 0 <= j < |messages|
    ensures Describes(metadata, messages[..j + 1]) ==
      Describes(metadata, messages[..j]) + [Describe(messages[j], MetadataOf(metadata, messages[j]))]
  {
    assert messages[..j + 1] == messages[..j] + [messages[j]];
    DescribesSnoc(metadata, messages[..j], messages[j]);
  }

  /** The i-th result describes the i-th message with its own metadata. */
  lemma DescribesAt(metadata: map<MessageId, seq<Header>>, ids: seq<MessageId>, i: int)
    requires 0 <= i < |ids|
    ensures Describes(metadata, ids)[i] == Describe(ids[i], MetadataOf(metadata, ids[i]))
  {
  }

  /**
   * `has_unsubscribe` holds exactly when some header is named
   * `List-Unsubscribe` (in any case), whatever its value.
   */
  lemma DescribeUnsubscribe(id: MessageId, headers: seq<Header>)
    ensures Describe(id, headers).hasUnsubscribe <==>
      exists i :: 0 <= i < |headers| && NameIs(headers[i], "List-Unsubscribe")
  {
    GetHeaderValueFirst(headers, "List-Unsubscribe");
  }

  /**
   * Every message the listing would keep is flagged by the search, but not
   * conversely: a present `List-Unsubscribe` header with an empty value is
   * flagged by the search and skipped by the listing.
   */
  lemma UnsubscribeFlagWiderThanListing(id: MessageId, headers: seq<Header>)
    ensures HasUnsubscribe(headers) ==> Describe(id, headers).hasUnsubscribe
    ensures var empty := [Header("List-Unsubscribe", "")];
      Describe(id, empty).hasUnsubscribe && !HasUnsubscribe(empty)
  {
    var empty := [Header("List-Unsubscribe", "")];
    assert NameIs(empty[0], "List-Unsubscribe");
    assert GetHeaderValue(empty, "List-Unsubscribe") == Some("");
  }

  /**
   * The message loop of one page: describe the messages in order, one result
   * and one more `processed` each, and stop as soon as `processed` reaches
   * `maxResults`, even in the middle of the page.
   */
  method DescribePage(results: seq<EmailSummary>, messages: seq<MessageId>, metadata: map<MessageId, seq<Header>>,
                      processed: int, maxResults: int)
    returns (results': seq<EmailSummary>, processed': int)
    requires processed < maxResults
    ensures results' == results + Describes(metadata, Take(messages, maxResults - processed))
    ensures processed' == processed + |Take(messages, maxResults - processed)|
  {
    results', processed' := results, processed;
    var j := 0;
    while j < |messages|
      invariant j <= |messages| && processed' == processed + j < maxResults
      invariant results' == results + Describes(metadata, messages[..j])
    {
      var msgId := messages[j];
      var headers := MetadataOf(metadata, msgId);
      var sender := ExtractSenderInfo(headers);
      var subject := GetHeaderValue(headers, "Subject").GetOr("");
      var date := GetHeaderValue(headers, "Date").GetOr("");
      var hasUnsubscribe := GetHeaderValue(headers, "List-Unsubscribe").Some?;
      var entry := EmailSummary(msgId, sender.name, sender.address, subject, date, hasUnsubscribe);
      assert entry == Describe(msgId, headers);
      DescribesNext(metadata, messages, j);
      AppendAssociates(results, Describes(metadata, messages[..j]), [entry]);
      results' := results' + [entry];
      processed' := processed' + 1;
      j := j + 1;
      if processed' >= maxResults {
        break;
      }
    }
    assert Take(messages, maxResults - processed) == messages[..j];
  }

  /**
   * One turn of the page loop of `search_emails`: request the k-th page with
   * `token`, stop on an empty page, otherwise describe the page's first
   * messages up to the budget left and carry on with the page's token if it
   * has one. Seen from the walk `whole`, the loop either resumes at page
   * k + 1 or has issued all of its requests and examined all of its messages.
   */
  method SearchPage(query: string, results: seq<EmailSummary>, requests: seq<Request>, token: Option<string>,
                    k: nat, processed: int, ghost examined: seq<MessageId>, ghost whole: Walked,
                    maxResults: int, responses: seq<Page>, metadata: map<MessageId, seq<Header>>)
    returns (results': seq<EmailSummary>, requests': seq<Request>, token': Option<string>, k': nat,
             processed': int, more: bool, ghost examined': seq<MessageId>)
    requires processed < maxResults && processed == |examined| && k <= |responses|
    requires results == Describes(metadata, examined)
    requires Resumed(query, responses, EveryMessage, maxResults, k, processed, token, requests, examined) == whole
    ensures processed' == |examined'| && results' == Describes(metadata, examined')
    ensures k <= k' <= |responses| && (more ==> k' == k + 1)
    ensures more ==> Resumed(query, responses, EveryMessage, maxResults, k', processed', token', requests', examined') == whole
    ensures !more ==> requests' == whole.requests && examined' == whole.counted
  {
    var batchSize := Min(PageSizeLimit, maxResults - processed);
    var response := PageAt(responses, k);
    requests' := requests + [Request(query, batchSize, token)];
    if response.messages == [] {
      WalkEnd(query, responses, EveryMessage, maxResults, k, processed, token, requests, examined, whole);
      results', token', k', processed', more, examined' := results, token, k, processed, false, examined;
    } else {
      CountingEveryMessage(response.messages);
      ghost var page := Take(response.messages, maxResults - processed);
      if Continues(response.nextPageToken) {
        WalkResume(query, responses, EveryMessage, maxResults, k, processed, token, requests, examined, whole, page);
      } else {
        WalkFinish(query, responses, EveryMessage, maxResults, k, processed, token, requests, examined, whole, page);
      }
      results', processed' := DescribePage(results, response.messages, metadata, processed, maxResults);
      DescribesAppend(metadata, examined, page);
      examined' := examined + page;
      token' := response.nextPageToken;
      more := Continues(token');
      k' := k + 1;
    }
  }

  /**
   * `search_emails(query, max_results)` against a mailbox whose k-th page
   * request is answered by `responses[k]`: the requests are those of the walk
   * that counts every examined message, and there is one result per message
   * that walk examines, in that order.
   */
  method SearchEmails(query: string, maxResults: int, responses: seq<Page>, metadata: map<MessageId, seq<Header>>)
    returns (results: seq<EmailSummary>, requests: seq<Request>)
    ensures requests == Walk(query, responses, EveryMessage, maxResults, 0, 0, None).requests
    ensures results == Describes(metadata, Walk(query, responses, EveryMessage, maxResults, 0, 0, None).counted)
    ensures maxResults <= 0 ==> results == [] && requests == []
  {
    ghost var whole := Walk(query, responses, EveryMessage, maxResults, 0, 0, None);
    results, requests := [], [];
    var processed := 0;
    var token: Option<string> := None;
    var k: nat := 0;
    var more := true;
    ghost var examined: seq<MessageId> := [];
    while more && processed < maxResults
      invariant k <= |responses| && processed == |examined| && results == Describes(metadata, examined)
      invariant more ==> Resumed(query, responses, EveryMessage, maxResults, k, processed, token, requests, examined) == whole
      invariant !more ==> requests == whole.requests && examined == whole.counted
      decreases |responses| - k + (if more then 1 else 0)
    {
      results, requests, token, k, processed, more, examined :=
        SearchPage(query, results, requests, token, k, processed, examined, whole, maxResults, responses, metadata);
    }
    if more {
      assert Walk(query, responses, EveryMessage, maxResults, k, processed, token) == Walked([], []);
      assert requests + [] == requests && examined + [] == examined;
    }
  }

  /** At most `maxResults` results, none when it is not positive. */
  lemma SearchWithinLimit(query: string, responses: seq<Page>, maxResults: int)
    ensures |Walk(query, responses, EveryMessage, maxResults, 0, 0, None).counted| <=
      if maxResults > 0 then maxResults else 0
  {
    WalkWithinBudget(query, responses, EveryMessage, maxResults, 0, 0, None);
  }

  /** The examined messages are the first ones of the pages laid end to end, in page order. */
  lemma SearchInPageOrder(query: string, responses: seq<Page>, maxResults: int)
    ensures Walk(query, responses, EveryMessage, maxResults, 0, 0, None).counted <= Flatten(responses)
  {
    WalkInPageOrder(query, responses, EveryMessage, maxResults, 0, 0, None);
    CountedFromEveryMessage(responses, 0);
    assert responses[0..] == responses;
  }
}
