/**
 * The subscription listing (`list_subscriptions`): walk the promotions and
 * updates pages, skip each message without a usable `List-Unsubscribe`
 * header, group the others by lowercased sender address into `Subscription`
 * records that are updated in place, and return the records by descending
 * message count.
 */
module Subscriptions {
  import opened Options
  import opened Text
  import opened Headers
  import opened Pagination
  import opened Grouping

  /** The Gmail search the listing runs. */
  const Query: string := "category:promotions OR category:updates"

  /** A subscription found in the mailbox: one sender and what its messages offered. */
  class Subscription {
    var senderEmail: string
    var senderName: string
    var subjectExamples: seq<string>
    var messageIds: seq<MessageId>
    var unsubscribeLinks: seq<string>
    var unsubscribeMailto: seq<string>
    var emailCount: int

    /** The record's fields now. */
    function Value(): Summary
      reads this
    {
      Summary(senderEmail, senderName, subjectExamples, messageIds, unsubscribeLinks, unsubscribeMailto, emailCount)
    }

    /** `Subscription(sender_email=..., sender_name=...)`: empty lists and a zero count. */
    constructor (senderEmail: string, senderName: string)
      ensures Value() == Summary(senderEmail, senderName, [], [], [], [], 0)
    {
      this.senderEmail := senderEmail;
      this.senderName := senderName;
      subjectExamples := [];
      messageIds := [];
      unsubscribeLinks := [];
      unsubscribeMailto := [];
      emailCount := 0;
    }

    /** The field updates for one more message of this sender: its subject, its id and its links, and one more in the count. */
    method Append(c: Contribution)
      modifies this
      ensures Value() == Add(old(Value()), c)
    {
      subjectExamples, messageIds, unsubscribeLinks, unsubscribeMailto, emailCount :=
        subjectExamples + [c.subject], messageIds + [c.id], unsubscribeLinks + c.links,
        unsubscribeMailto + c.mailtos, emailCount + 1;
    }
  }

  /** The fields of the records `records`, in order. */
  function Values(records: seq<Subscription>): (r: seq<Summary>)
    reads records
    ensures |r| == |records| && forall i :: 0 <= i < |records| ==> r[i] == records[i].Value()
  {
    seq(|records|, i reads records requires 0 <= i < |records| => records[i].Value())
  }

  /** The dictionary `subscriptions`: a distinct record per key, the keys in insertion order. */
  ghost predicate Valid(subscriptions: map<string, Subscription>, order: seq<string>) {
    NoDuplicates(order) &&
    (forall key :: key in order ==> key in subscriptions) &&
    (forall key :: key in subscriptions ==> key in order) &&
    (forall a, b :: Apart(subscriptions, a, b))
  }

  /** The keys `a` and `b`, when both present and different, hold different records. */
  predicate Apart(subscriptions: map<string, Subscription>, a: string, b: string) {
    a in subscriptions && b in subscriptions && a != b ==> subscriptions[a] != subscriptions[b]
  }

  /** The dictionary holds the grouping `g`: the same keys in the same order, each record with `g`'s fields. */
  ghost predicate Holds(subscriptions: map<string, Subscription>, order: seq<string>, g: Grouping)
    reads subscriptions.Values
  {
    order == g.order && subscriptions.Keys == g.table.Keys &&
    forall key :: key in subscriptions ==> subscriptions[key].Value() == g.table[key]
  }

  /** The dictionary is well formed and holds the well-formed grouping `g`. */
  ghost predicate Mirrors(subscriptions: map<string, Subscription>, order: seq<string>, g: Grouping)
    reads subscriptions.Values
  {
    Valid(subscriptions, order) && WellFormed(g) && Holds(subscriptions, order, g)
  }

  /** Every record of `after` is a record of `before` under the same key, or a new one. */
  twostate predicate OnlyNew(before: map<string, Subscription>, new after: map<string, Subscription>) {
    forall key :: key in after ==> (key in before && after[key] == before[key]) || fresh(after[key])
  }

  /** `subscriptions.values()`: the records in insertion order. */
  function InOrder(subscriptions: map<string, Subscription>, order: seq<string>): (r: seq<Subscription>)
    requires forall key :: key in order ==> key in subscriptions
    ensures |r| == |order| && forall i :: 0 <= i < |order| ==> r[i] == subscriptions[order[i]]
  {
    seq(|order|, i requires 0 <= i < |order| => subscriptions[order[i]])
  }

  /**
   * `sorted(records, key=lambda s: s.email_count, reverse=True)`: the records
   * in the order `SortByCount` gives their values.
   */
  method SortByEmailCount(records: seq<Subscription>) returns (sorted: seq<Subscription>)
    ensures Values(sorted) == SortByCount(Values(records))
    ensures multiset(sorted) == multiset(records)
  {
    sorted := [];
    var i := |records|;
    while i > 0
      invariant 0 <= i <= |records|
      invariant Values(sorted) == SortByCount(Values(records)[i..])
      invariant multiset(sorted) == multiset(records[i..])
    {
      i := i - 1;
      ValuesFrom(records, i);
      sorted := InsertByEmailCount(records[i], sorted);
    }
    assert records[0..] == records;
    assert Values(records)[0..] == Values(records);
  }

  /** One step of the sort: `x` goes before the first record whose count is not larger. */
  method InsertByEmailCount(x: Subscription, sorted: seq<Subscription>) returns (r: seq<Subscription>)
    ensures Values(r) == InsertByCount(x.Value(), Values(sorted))
    ensures multiset(r) == multiset(sorted) + multiset{x}
  {
    var p := 0;
    while p < |sorted| && sorted[p].emailCount > x.emailCount
      invariant p <= |sorted| && forall q :: 0 <= q < p ==> sorted[q].emailCount > x.emailCount
    {
      p := p + 1;
    }
    InsertByCountAt(x.Value(), Values(sorted), p);
    r := sorted[..p] + [x] + sorted[p..];
    ValuesSplice(sorted, p, x);
    assert sorted == sorted[..p] + sorted[p..];
  }

  lemma ValuesFrom(records: seq<Subscription>, i: nat)
    requires i < |records|
    ensures Values(records)[i..] == [records[i].Value()] + Values(records)[i + 1..]
    ensures records[i..] == [records[i]] + records[i + 1..]
  {
  }

  lemma ValuesSplice(records: seq<Subscription>, p: nat, x: Subscription)
    requires p <= |records|
    ensures Values(records[..p] + [x] + records[p..]) == Values(records)[..p] + [x.Value()] + Values(records)[p..]
  {
  }

  /** A dictionary that holds a grouping lists, in insertion order, the grouping's records. */
  lemma HoldsListing(subscriptions: map<string, Subscription>, order: seq<string>, g: Grouping)
    requires Valid(subscriptions, order) && WellFormed(g) && Holds(subscriptions, order, g)
    ensures Values(InOrder(subscriptions, order)) == Listing(g)
  {
  }

  /**
   * The record of the lowercased sender address of `c`, added to the
   * dictionary first, with the sender's address and name, when the key is new.
   */
  method RecordFor(subscriptions: map<string, Subscription>, order: seq<string>, ghost g: Grouping, c: Contribution)
    returns (subscriptions': map<string, Subscription>, order': seq<string>, record: Subscription)
    requires Mirrors(subscriptions, order, g)
    ensures Mirrors(subscriptions', order', Open(g, c))
    ensures Key(c) in subscriptions' && subscriptions'[Key(c)] == record
    ensures OnlyNew(subscriptions, subscriptions')
  {
    var key := Lower(c.sender.address);
    subscriptions', order' := subscriptions, order;
    if key !in subscriptions {
      var created := new Subscription(c.sender.address, c.sender.name);
      subscriptions' := subscriptions[key := created];
      order' := order + [key];
      forall a, b
        ensures Apart(subscriptions', a, b)
      {
        assert Apart(subscriptions, a, b);
      }
    }
    record := subscriptions'[key];
  }

  /** The field updates of the record of `key` for one more message `c`. */
  method AppendTo(subscriptions: map<string, Subscription>, order: seq<string>, ghost g: Grouping,
                  key: string, c: Contribution)
    requires Mirrors(subscriptions, order, g) && key in subscriptions
    modifies subscriptions[key]
    ensures Mirrors(subscriptions, order, Grouping(g.order, g.table[key := Add(g.table[key], c)]))
  {
    var record := subscriptions[key];
    ghost var g' := Grouping(g.order, g.table[key := Add(g.table[key], c)]);
    assert record.Value() == g.table[key];
    record.Append(c);
    forall k | k in subscriptions
      ensures subscriptions[k].Value() == g'.table[k]
    {
      if k != key {
        assert Apart(subscriptions, k, key);
      }
    }
    assert WellFormed(g') && Holds(subscriptions, order, g');
  }

  /**
   * The dictionary update for a retained message (the message loop's body
   * once the sender, the subject and the links are known): find or create the
   * record of the lowercased sender address, then append the subject, the id
   * and the links, and count the message.
   */
  method RecordMessage(subscriptions: map<string, Subscription>, order: seq<string>, ghost g: Grouping,
                       id: MessageId, sender: Sender, subject: string, links: seq<string>, mailtos: seq<string>)
    returns (subscriptions': map<string, Subscription>, order': seq<string>)
    requires Mirrors(subscriptions, order, g)
    modifies subscriptions.Values
    ensures Mirrors(subscriptions', order', Insert(g, Contribution(id, sender, subject, links, mailtos)))
    ensures OnlyNew(subscriptions, subscriptions')
  {
    var c := Contribution(id, sender, subject, links, mailtos);
    var record;
    subscriptions', order', record := RecordFor(subscriptions, order, g, c);
    AppendTo(subscriptions', order', Open(g, c), Key(c), c);
    InsertOpens(g, c);
  }

  /**
   * The body of the message loop once the metadata headers are known: a
   * message whose `List-Unsubscribe` value is missing or empty is skipped;
   * any other is recorded under its sender with its subject and links.
   */
  method VisitMessage(subscriptions: map<string, Subscription>, order: seq<string>, ghost g: Grouping,
                      id: MessageId, headers: seq<Header>)
    returns (subscriptions': map<string, Subscription>, order': seq<string>, recorded: bool, ghost g': Grouping)
    requires Mirrors(subscriptions, order, g)
    modifies subscriptions.Values
    ensures recorded == HasUnsubscribe(headers)
    ensures g' == if recorded then Insert(g, ContributionOf(id, headers)) else g
    ensures Mirrors(subscriptions', order', g')
    ensures OnlyNew(subscriptions, subscriptions')
  {
    var listUnsubscribe := GetHeaderValue(headers, "List-Unsubscribe");
    if listUnsubscribe.None? || listUnsubscribe.value == "" {
      return subscriptions, order, false, g;
    }
    var sender := ExtractSenderInfo(headers);
    var subject := GetHeaderValue(headers, "Subject").GetOr("");
    var links, mailtos := ParseUnsubscribeHeader(listUnsubscribe.value);
    subscriptions', order' := RecordMessage(subscriptions, order, g, id, sender, subject, links, mailtos);
    recorded := true;
    g' := Insert(g, ContributionOf(id, headers));
  }

  /**
   * The state of the message loop after the first `j` messages of a page:
   * `pageKept` are the retained ones among them, and the dictionary holds `g`
   * followed by those.
   */
  ghost predicate ScannedTo(subscriptions: map<string, Subscription>, order: seq<string>, g: Grouping,
                            current: Grouping, pageKept: seq<MessageId>, messages: seq<MessageId>, j: nat,
                            metadata: map<MessageId, seq<Header>>, counts: iset<MessageId>)
    reads subscriptions.Values
  {
    j <= |messages| && WellFormed(g) && pageKept == Counted(messages[..j], counts) &&
    current == GroupMore(g, metadata, pageKept) && Mirrors(subscriptions, order, current)
  }

  /**
   * One turn of the message loop of a page: visit the `j`-th message and,
   * when it is recorded, count it among the page's kept messages.
   */
  method ScanMessage(subscriptions: map<string, Subscription>, order: seq<string>, ghost g: Grouping,
                     ghost current: Grouping, ghost pageKept: seq<MessageId>, messages: seq<MessageId>, j: nat,
                     metadata: map<MessageId, seq<Header>>, ghost counts: iset<MessageId>)
    returns (subscriptions': map<string, Subscription>, order': seq<string>, recorded: bool,
             ghost pageKept': seq<MessageId>, ghost current': Grouping)
    requires RetainedBy(counts, metadata) && j < |messages|
    requires ScannedTo(subscriptions, order, g, current, pageKept, messages, j, metadata, counts)
    modifies subscriptions.Values
    ensures pageKept' == if recorded then pageKept + [messages[j]] else pageKept
    ensures |pageKept'| == if recorded then |pageKept| + 1 else |pageKept|
    ensures ScannedTo(subscriptions', order', g, current', pageKept', messages, j + 1, metadata, counts)
    ensures OnlyNew(subscriptions, subscriptions')
  {
    var id := messages[j];
    CountedPrefixStep(messages, j, counts);
    subscriptions', order', recorded, current' := VisitMessage(subscriptions, order, current, id, MetadataOf(metadata, id));
    if recorded {
      GroupMoreSnoc(g, metadata, pageKept, id);
      pageKept' := pageKept + [id];
    } else {
      pageKept' := pageKept;
    }
  }

  /**
   * One page of `list_subscriptions`: examine the messages in order, skip
   * those whose `List-Unsubscribe` value is missing or empty, record the
   * others, and stop once `processed` reaches `maxResults`. The messages
   * recorded are the first retained ones of the page, as many as the
   * remaining budget allows, and the dictionary moves from grouping `g` to
   * `g` followed by those messages.
   */
  method ScanPage(subscriptions: map<string, Subscription>, order: seq<string>, ghost g: Grouping,
                  messages: seq<MessageId>, metadata: map<MessageId, seq<Header>>, ghost counts: iset<MessageId>,
                  processed: int, maxResults: int)
    returns (subscriptions': map<string, Subscription>, order': seq<string>, processed': int,
             ghost pageKept: seq<MessageId>, ghost g': Grouping)
    requires RetainedBy(counts, metadata) && processed < maxResults
    requires Mirrors(subscriptions, order, g)
    modifies subscriptions.Values
    ensures pageKept == Take(Counted(messages, counts), maxResults - processed)
    ensures processed' == processed + |pageKept|
    ensures g' == GroupMore(g, metadata, pageKept)
    ensures Mirrors(subscriptions', order', g')
    ensures OnlyNew(subscriptions, subscriptions')
  {
    subscriptions', order', processed' := subscriptions, order, processed;
    pageKept, g' := [], g;
    assert messages[..0] == [];
    var j := 0;
    while j < |messages| && processed' < maxResults
      invariant j <= |messages| && pageKept == Counted(messages[..j], counts)
      invariant g' == GroupMore(g, metadata, pageKept) && Mirrors(subscriptions', order', g')
      invariant processed' == processed + |pageKept| <= maxResults
      invariant OnlyNew(subscriptions, subscriptions')
    {
      var recorded;
      ghost var before := subscriptions';
      subscriptions', order', recorded, pageKept, g' :=
        ScanMessage(subscriptions', order', g, g', pageKept, messages, j, metadata, counts);
      forall key | key in subscriptions'
        ensures (key in subscriptions && subscriptions'[key] == subscriptions[key]) || fresh(subscriptions'[key])
      {
        if key in before && subscriptions'[key] == before[key] {
        }
      }
      j := j + 1;
      processed' := if recorded then processed' + 1 else processed';
    }
    CountedScanDone(messages, j, maxResults - processed, counts);
  }

  /**
   * One turn of the page loop of `list_subscriptions`: request the k-th page
   * with `token`, stop on an empty page, otherwise record the page's first
   * retained messages up to the budget left and carry on with the page's
   * token if it has one. Seen from the walk `whole`, the loop either
   * resumes at page k + 1 or has issued all of its requests and kept all of
   * its messages.
   */
  method CollectPage(table: map<string, Subscription>, order: seq<string>, requests: seq<Request>,
                     token: Option<string>, k: nat, processed: int, ghost kept: seq<MessageId>, ghost whole: Walked,
                     maxResults: int, responses: seq<Page>, metadata: map<MessageId, seq<Header>>,
                     ghost counts: iset<MessageId>)
    returns (table': map<string, Subscription>, order': seq<string>, requests': seq<Request>,
             token': Option<string>, k': nat, processed': int, more: bool, ghost kept': seq<MessageId>)
    requires RetainedBy(counts, metadata) && processed < maxResults && processed == |kept| && k <= |responses|
    requires Resumed(Query, responses, counts, maxResults, k, processed, token, requests, kept) == whole
    requires Mirrors(table, order, Group(Contributions(metadata, kept)))
    modifies table.Values
    ensures processed' == |kept'| && k <= k' <= |responses| && (more ==> k' == k + 1)
    ensures more ==> Resumed(Query, responses, counts, maxResults, k', processed', token', requests', kept') == whole
    ensures !more ==> requests' == whole.requests && kept' == whole.counted
    ensures Mirrors(table', order', Group(Contributions(metadata, kept')))
    ensures OnlyNew(table, table')
  {
    var batchSize := Min(PageSizeLimit, maxResults - processed);
    var response := PageAt(responses, k);
    requests' := requests + [Request(Query, batchSize, token)];
    if response.messages == [] {
      WalkEnd(Query, responses, counts, maxResults, k, processed, token, requests, kept, whole);
      table', order', token', k', processed', more, kept' := table, order, token, k, processed, false, kept;
    } else {
      ghost var pageKept := Take(Counted(response.messages, counts), maxResults - processed);
      if Continues(response.nextPageToken) {
        WalkResume(Query, responses, counts, maxResults, k, processed, token, requests, kept, whole, pageKept);
      } else {
        WalkFinish(Query, responses, counts, maxResults, k, processed, token, requests, kept, whole, pageKept);
      }
      ghost var scanned, g';
      table', order', processed', scanned, g' :=
        ScanPage(table, order, Group(Contributions(metadata, kept)), response.messages, metadata, counts, processed, maxResults);
      GroupMoreGroup(metadata, kept, pageKept);
      kept' := kept + pageKept;
      token' := response.nextPageToken;
      more := Continues(token');
      k' := k + 1;
    }
  }

  /**
   * The page loop of `list_subscriptions(max_results)` against a mailbox
   * whose k-th page request is answered by `responses[k]` and whose message
   * `id` has the metadata headers `MetadataOf(metadata, id)`: the requests are those of
   * the walk that counts only retained messages, and the dictionary holds the
   * grouping of the messages that walk counts.
   */
  method CollectSubscriptions(maxResults: int, responses: seq<Page>, metadata: map<MessageId, seq<Header>>,
                              ghost counts: iset<MessageId>)
    returns (table: map<string, Subscription>, order: seq<string>, requests: seq<Request>, ghost kept: seq<MessageId>)
    requires RetainedBy(counts, metadata)
    ensures requests == Walk(Query, responses, counts, maxResults, 0, 0, None).requests
    ensures kept == Walk(Query, responses, counts, maxResults, 0, 0, None).counted
    ensures Valid(table, order) && Holds(table, order, Group(Contributions(metadata, kept)))
    ensures forall key :: key in table ==> fresh(table[key])
  {
    ghost var whole := Walk(Query, responses, counts, maxResults, 0, 0, None);
    table, order := map[], [];
    var processed := 0;
    var token: Option<string> := None;
    var k: nat := 0;
    var more := true;
    requests, kept := [], [];
    while more && processed < maxResults
      invariant k <= |responses| && processed == |kept|
      invariant more ==> Resumed(Query, responses, counts, maxResults, k, processed, token, requests, kept) == whole
      invariant !more ==> requests == whole.requests && kept == whole.counted
      invariant forall key :: key in table ==> fresh(table[key])
      invariant Mirrors(table, order, Group(Contributions(metadata, kept)))
      decreases |responses| - k + (if more then 1 else 0)
    {
      ghost var before := table;
      table, order, requests, token, k, processed, more, kept :=
        CollectPage(table, order, requests, token, k, processed, kept, whole, maxResults, responses, metadata, counts);
      forall key | key in table
        ensures fresh(table[key])
      {
        if key in before && table[key] == before[key] {
        }
      }
    }
    if more {
      assert Walk(Query, responses, counts, maxResults, k, processed, token) == Walked([], []);
      assert requests + [] == requests && kept + [] == kept;
    }
  }

  /**
   * `list_subscriptions(max_results)`: the records of the retained messages
   * the page loop examined, grouped by lowercased sender address and sorted
   * by descending count, together with the page requests issued.
   */
  method ListSubscriptions(maxResults: int, responses: seq<Page>, metadata: map<MessageId, seq<Header>>)
    returns (subscriptions: seq<Subscription>, requests: seq<Request>)
    ensures requests == Walk(Query, responses, Retained(metadata), maxResults, 0, 0, None).requests
    ensures Values(subscriptions) ==
      SortByCount(Listing(Group(Contributions(metadata, Walk(Query, responses, Retained(metadata), maxResults, 0, 0, None).counted))))
    ensures maxResults <= 0 ==> subscriptions == [] && requests == []
  {
    var table, order;
    ghost var kept;
    RetainedIsRetainedBy(metadata);
    table, order, requests, kept := CollectSubscriptions(maxResults, responses, metadata, Retained(metadata));
    HoldsListing(table, order, Group(Contributions(metadata, kept)));
    var records := InOrder(table, order);
    ghost var listing := Values(records);
    subscriptions := SortByEmailCount(records);
    assert Values(records) == listing;
  }

  /**
   * The listing's counts add up to the number of messages the walk kept,
   * which never exceeds the limit (none for a limit that is not positive),
   * and every kept message has a non-empty `List-Unsubscribe` header.
   */
  lemma ListingWithinLimit(maxResults: int, responses: seq<Page>, metadata: map<MessageId, seq<Header>>)
    ensures var kept := Walk(Query, responses, Retained(metadata), maxResults, 0, 0, None).counted;
      Total(SortByCount(Listing(Group(Contributions(metadata, kept))))) == |kept| &&
      |kept| <= (if maxResults > 0 then maxResults else 0)
    ensures forall id :: id in Walk(Query, responses, Retained(metadata), maxResults, 0, 0, None).counted ==>
      HasUnsubscribe(MetadataOf(metadata, id))
  {
    var kept := Walk(Query, responses, Retained(metadata), maxResults, 0, 0, None).counted;
    SortByCountTotal(Listing(Group(Contributions(metadata, kept))));
    GroupTotal(Contributions(metadata, kept));
    WalkWithinBudget(Query, responses, Retained(metadata), maxResults, 0, 0, None);
    WalkCountsOnlyCounting(Query, responses, Retained(metadata), maxResults, 0, 0, None);
  }
}
