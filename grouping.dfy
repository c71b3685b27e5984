/**
 * What the subscription listing computes, stated on values: the contribution
 * each retained message makes, the records grouped by lowercased sender
 * address in first-seen order, and the stable sort by descending count.
 */
module Grouping {
  import opened Options
  import opened Text
  import opened Headers
  import opened Pagination

  /**
   * The metadata headers of message `id` (`payload.headers` of the metadata
   * fetch); a message the mailbox does not describe has none.
   */
  function MetadataOf(metadata: map<MessageId, seq<Header>>, id: MessageId): seq<Header> {
    if id in metadata then metadata[id] else []
  }

  /**
   * `if not list_unsub: continue` — the listing keeps a message only when its
   * `List-Unsubscribe` header is present and its value is not empty.
   */
  predicate HasUnsubscribe(headers: seq<Header>) {
    var value := GetHeaderValue(headers, "List-Unsubscribe");
    value.Some? && value.value != ""
  }

  /** The messages the listing counts against its budget. */
  ghost function Retained(metadata: map<MessageId, seq<Header>>): iset<MessageId> {
    iset id | HasUnsubscribe(MetadataOf(metadata, id))
  }

  /**
   * `counts` holds exactly the messages the listing retains, stated per
   * message. The loops are proved against this form: it fires only where a
   * message's headers are examined, whereas equality with `Retained` unfolds
   * the header lookup at every membership test.
   */
  ghost predicate RetainedBy(counts: iset<MessageId>, metadata: map<MessageId, seq<Header>>) {
    forall id {:trigger HasUnsubscribe(MetadataOf(metadata, id))} :: id in counts <==> HasUnsubscribe(MetadataOf(metadata, id))
  }

  /** The listing's budget set meets the per-message form the loops use. */
  lemma RetainedIsRetainedBy(metadata: map<MessageId, seq<Header>>)
    ensures RetainedBy(Retained(metadata), metadata)
  {
  }

  /** What one retained message adds to the record of its sender. */
  datatype Contribution = Contribution(id: MessageId, sender: Sender, subject: string,
                                       links: seq<string>, mailtos: seq<string>)

  /** The contribution of message `id`, read from its metadata headers. */
  function ContributionOf(id: MessageId, headers: seq<Header>): Contribution {
    var unsubscribe := GetHeaderValue(headers, "List-Unsubscribe").GetOr("");
    Contribution(id, ExtractSenderInfo(headers), GetHeaderValue(headers, "Subject").GetOr(""),
                 Filter(Tokens(unsubscribe), IsHttpLink), Filter(Tokens(unsubscribe), IsMailto))
  }

  /** The contributions of the messages `ids`, in order. */
  function Contributions(metadata: map<MessageId, seq<Header>>, ids: seq<MessageId>): (cs: seq<Contribution>)
    ensures |cs| == |ids|
  {
    seq(|ids|, i requires 0 <= i < |ids| => ContributionOf(ids[i], MetadataOf(metadata, ids[i])))
  }

  lemma ContributionsSnoc(metadata: map<MessageId, seq<Header>>, ids: seq<MessageId>, id: MessageId)
    ensures Contributions(metadata, ids + [id]) == Contributions(metadata, ids) + [ContributionOf(id, MetadataOf(metadata, id))]
  {
  }

  /** The fields of a `Subscription` record at one moment. */
  datatype Summary = Summary(senderEmail: string, senderName: string, subjectExamples: seq<string>,
                             messageIds: seq<MessageId>, unsubscribeLinks: seq<string>,
                             unsubscribeMailto: seq<string>, emailCount: int)

  /** `from_email.lower()`: the dictionary key of a contribution. */
  function Key(c: Contribution): string {
    Lower(c.sender.address)
  }

  /** A new record: the sender of its first message, empty lists and a zero count. */
  function Started(c: Contribution): Summary {
    Summary(c.sender.address, c.sender.name, [], [], [], [], 0)
  }

  /** A record after one more message: one subject, one id, its links, and one more in the count. */
  function Add(s: Summary, c: Contribution): Summary {
    s.(subjectExamples := s.subjectExamples + [c.subject],
       messageIds := s.messageIds + [c.id],
       unsubscribeLinks := s.unsubscribeLinks + c.links,
       unsubscribeMailto := s.unsubscribeMailto + c.mailtos,
       emailCount := s.emailCount + 1)
  }

  predicate NoDuplicates<T(==)>(s: seq<T>) {
    forall i, j :: 0 <= i < j < |s| ==> s[i] != s[j]
  }

  /** The dictionary of records: its keys in insertion order, and the record of each key. */
  datatype Grouping = Grouping(order: seq<string>, table: map<string, Summary>)

  predicate WellFormed(g: Grouping) {
    NoDuplicates(g.order) &&
    (forall key :: key in g.order ==> key in g.table) &&
    (forall key :: key in g.table ==> key in g.order)
  }

  /** The dictionary after one more contribution: a new key is appended and starts a record. */
  function Insert(g: Grouping, c: Contribution): (r: Grouping)
    requires WellFormed(g)
    ensures WellFormed(r)
  {
    var key := Key(c);
    if key in g.table then Grouping(g.order, g.table[key := Add(g.table[key], c)])
    else Grouping(g.order + [key], g.table[key := Add(Started(c), c)])
  }

  /** The grouping once the sender of `c` has a record: a new, empty one at the end when it had none. */
  function Open(g: Grouping, c: Contribution): (r: Grouping)
    requires WellFormed(g)
    ensures WellFormed(r) && Key(c) in r.table
    ensures r.order == g.order || r.order == g.order + [Key(c)]
  {
    if Key(c) in g.table then g else Grouping(g.order + [Key(c)], g.table[Key(c) := Started(c)])
  }

  /** Inserting a message is opening its sender's record and then adding the message to it. */
  lemma InsertOpens(g: Grouping, c: Contribution)
    requires WellFormed(g)
    ensures var o := Open(g, c);
      Insert(g, c) == Grouping(o.order, o.table[Key(c) := Add(o.table[Key(c)], c)])
  {
  }

  /** The dictionary built from the contributions `cs`, one after the other. */
  function Group(cs: seq<Contribution>): (g: Grouping)
    ensures WellFormed(g)
  {
    if cs == [] then Grouping([], map[])
    else Insert(Group(cs[..|cs| - 1]), cs[|cs| - 1])
  }

  /** The dictionary `g` after the contributions of the messages `ids`, one after the other. */
  function GroupMore(g: Grouping, metadata: map<MessageId, seq<Header>>, ids: seq<MessageId>): (r: Grouping)
    requires WellFormed(g)
    ensures WellFormed(r)
  {
    if ids == [] then g
    else Insert(GroupMore(g, metadata, ids[..|ids| - 1]), ContributionOf(ids[|ids| - 1], MetadataOf(metadata, ids[|ids| - 1])))
  }

  lemma GroupMoreSnoc(g: Grouping, metadata: map<MessageId, seq<Header>>, ids: seq<MessageId>, id: MessageId)
    requires WellFormed(g)
    ensures GroupMore(g, metadata, ids + [id]) == Insert(GroupMore(g, metadata, ids), ContributionOf(id, MetadataOf(metadata, id)))
  {
    assert (ids + [id])[..|ids|] == ids;
  }

  lemma GroupSnoc(cs: seq<Contribution>, c: Contribution)
    ensures Group(cs + [c]) == Insert(Group(cs), c)
  {
    assert (cs + [c])[..|cs|] == cs;
  }

  /** Grouping the messages `kept` and then `ids` is grouping `kept + ids`. */
  lemma {:induction false} GroupMoreGroup(metadata: map<MessageId, seq<Header>>, kept: seq<MessageId>, ids: seq<MessageId>)
    ensures GroupMore(Group(Contributions(metadata, kept)), metadata, ids) == Group(Contributions(metadata, kept + ids))
  {
    if ids == [] {
      assert kept + ids == kept;
    } else {
      var init, id := ids[..|ids| - 1], ids[|ids| - 1];
      var c := ContributionOf(id, MetadataOf(metadata, id));
      assert ids == init + [id];
      GroupMoreGroup(metadata, kept, init);
      GroupMoreSnoc(Group(Contributions(metadata, kept)), metadata, init, id);
      AppendAssociates(kept, init, [id]);
      ContributionsSnoc(metadata, kept + init, id);
      GroupSnoc(Contributions(metadata, kept + init), c);
    }
  }

  /** `subscriptions.values()`: the records in insertion order. */
  function Listing(g: Grouping): (r: seq<Summary>)
    requires WellFormed(g)
    ensures |r| == |g.order|
    ensures forall i :: 0 <= i < |g.order| ==> r[i] == g.table[g.order[i]]
  {
    seq(|g.order|, i requires 0 <= i < |g.order| => g.table[g.order[i]])
  }

  // ---------------------------------------------------------------------------
  // Keys: one record per lowercased address, in first-seen order.

  function Keys(cs: seq<Contribution>): (ks: seq<string>)
    ensures |ks| == |cs| && forall i :: 0 <= i < |cs| ==> ks[i] == Key(cs[i])
  {
    seq(|cs|, i requires 0 <= i < |cs| => Key(cs[i]))
  }

  /** The distinct elements of `s`, each where it first occurs. */
  function FirstSeen(s: seq<string>): (r: seq<string>)
    ensures NoDuplicates(r)
    ensures forall x :: x in r <==> x in s
  {
    if s == [] then []
    else
      var seen := FirstSeen(s[..|s| - 1]);
      var last := s[|s| - 1];
      if last in seen then seen else seen + [last]
  }

  /** The records are keyed by the distinct lowercased addresses, in the order they first occur. */
  lemma {:induction false} GroupOrder(cs: seq<Contribution>)
    ensures Group(cs).order == FirstSeen(Keys(cs))
  {
    if cs != [] {
      var init := cs[..|cs| - 1];
      GroupOrder(init);
      assert Keys(cs)[..|cs| - 1] == Keys(init);
    }
  }

  // ---------------------------------------------------------------------------
  // Records: each is the summary of the contributions with its key.

  /** The contributions whose key is `key`, in order. */
  function ForKey(cs: seq<Contribution>, key: string): (r: seq<Contribution>)
    ensures forall c :: c in r ==> c in cs && Key(c) == key
  {
    if cs == [] then []
    else
      var last := cs[|cs| - 1];
      ForKey(cs[..|cs| - 1], key) + (if Key(last) == key then [last] else [])
  }

  function Subjects(ds: seq<Contribution>): seq<string> {
    seq(|ds|, i requires 0 <= i < |ds| => ds[i].subject)
  }

  function Ids(ds: seq<Contribution>): seq<MessageId> {
    seq(|ds|, i requires 0 <= i < |ds| => ds[i].id)
  }

  function AllLinks(ds: seq<Contribution>): seq<string> {
    if ds == [] then [] else AllLinks(ds[..|ds| - 1]) + ds[|ds| - 1].links
  }

  function AllMailtos(ds: seq<Contribution>): seq<string> {
    if ds == [] then [] else AllMailtos(ds[..|ds| - 1]) + ds[|ds| - 1].mailtos
  }

  /**
   * The record of a sender made from its messages `ds` directly: the address
   * and name of the first, every subject and id, every link, and their number.
   */
  function Summarize(ds: seq<Contribution>): Summary
    requires ds != []
  {
    Summary(ds[0].sender.address, ds[0].sender.name, Subjects(ds), Ids(ds),
            AllLinks(ds), AllMailtos(ds), |ds|)
  }

  lemma SummarizeSnoc(ds: seq<Contribution>, c: Contribution)
    requires ds != []
    ensures Summarize(ds + [c]) == Add(Summarize(ds), c)
  {
    var e := ds + [c];
    assert e[..|e| - 1] == ds;
    assert Subjects(e) == Subjects(ds) + [c.subject];
    assert Ids(e) == Ids(ds) + [c.id];
  }

  lemma SummarizeOne(c: Contribution)
    ensures Summarize([c]) == Add(Started(c), c)
  {
    assert [c][..0] == [];
    assert Subjects([c]) == [c.subject];
    assert Ids([c]) == [c.id];
    assert AllLinks([c]) == AllLinks([]) + c.links;
    assert AllMailtos([c]) == AllMailtos([]) + c.mailtos;
  }

  /**
   * A key has a record exactly when some contribution has that key, and the
   * record is the summary of the contributions with that key: the sender is
   * the first one's, the subjects and ids are all of theirs in order, and
   * the count is their number.
   */
  lemma {:induction false} GroupEntry(cs: seq<Contribution>, key: string)
    ensures key in Group(cs).table <==> ForKey(cs, key) != []
    ensures key in Group(cs).table ==> Group(cs).table[key] == Summarize(ForKey(cs, key))
  {
    if cs != [] {
      var init, c := cs[..|cs| - 1], cs[|cs| - 1];
      GroupEntry(init, key);
      var g := Group(init);
      var ds := ForKey(init, key);
      assert Group(cs) == Insert(g, c);
      if Key(c) == key {
        assert ForKey(cs, key) == ds + [c];
        if ds != [] {
          SummarizeSnoc(ds, c);
          assert Group(cs).table[key] == Add(g.table[key], c);
        } else {
          SummarizeOne(c);
          assert ds + [c] == [c];
          assert Group(cs).table[key] == Add(Started(c), c);
        }
      } else {
        assert ForKey(cs, key) == ds + [];
        assert ForKey(cs, key) == ds;
      }
    }
  }

  /** Every record is keyed by its own lowercased address and counts its ids and subjects one for one. */
  lemma RecordCounts(cs: seq<Contribution>, key: string)
    requires key in Group(cs).table
    ensures var s := Group(cs).table[key];
      Lower(s.senderEmail) == key && s.emailCount == |s.messageIds| == |s.subjectExamples| >= 1
  {
    GroupEntry(cs, key);
    var ds := ForKey(cs, key);
    assert ds[0] in ds;
  }

  // ---------------------------------------------------------------------------
  // Counts: the records count every contribution once.

  /** The sum of the counts of the records. */
  function Total(s: seq<Summary>): int {
    if s == [] then 0 else Total(s[..|s| - 1]) + s[|s| - 1].emailCount
  }

  lemma {:induction false} TotalUpdate(s: seq<Summary>, p: nat, v: Summary)
    requires p < |s|
    ensures Total(s[p := v]) == Total(s) - s[p].emailCount + v.emailCount
  {
    var n := |s| - 1;
    if p < n {
      TotalUpdate(s[..n], p, v);
      assert s[p := v][..n] == s[..n][p := v];
    } else {
      assert s[p := v][..n] == s[..n];
    }
  }

  lemma InsertTotal(g: Grouping, c: Contribution)
    requires WellFormed(g)
    ensures Total(Listing(Insert(g, c))) == Total(Listing(g)) + 1
  {
    var key := Key(c);
    if key in g.table {
      var p :| 0 <= p < |g.order| && g.order[p] == key;
      InsertListingExisting(g, c, p);
      TotalUpdate(Listing(g), p, Add(g.table[key], c));
    } else {
      InsertListingNew(g, c);
    }
  }

  /** Another message of a known sender changes that sender's record in place. */
  lemma InsertListingExisting(g: Grouping, c: Contribution, p: nat)
    requires WellFormed(g) && p < |g.order| && g.order[p] == Key(c)
    ensures Listing(Insert(g, c)) == Listing(g)[p := Add(g.table[Key(c)], c)]
  {
    var before, after := Listing(g), Listing(Insert(g, c));
    forall i | 0 <= i < |after|
      ensures after[i] == before[p := Add(g.table[Key(c)], c)][i]
    {
      if i != p {
        assert g.order[i] != Key(c);
      }
    }
  }

  /** A message of a new sender appends that sender's record. */
  lemma InsertListingNew(g: Grouping, c: Contribution)
    requires WellFormed(g) && Key(c) !in g.table
    ensures Listing(Insert(g, c)) == Listing(g) + [Add(Started(c), c)]
  {
    var before, after := Listing(g), Listing(Insert(g, c));
    forall i | 0 <= i < |before|
      ensures after[i] == before[i]
    {
      assert g.order[i] != Key(c);
    }
  }

  /** The counts of the records add up to the number of contributions. */
  lemma {:induction false} GroupTotal(cs: seq<Contribution>)
    ensures Total(Listing(Group(cs))) == |cs|
  {
    if cs != [] {
      GroupTotal(cs[..|cs| - 1]);
      InsertTotal(Group(cs[..|cs| - 1]), cs[|cs| - 1]);
    }
  }

  // ---------------------------------------------------------------------------
  // `sorted(..., key=lambda s: s.email_count, reverse=True)`

  /** `x` goes before the first record whose count is not larger: after every larger one, before equal ones that follow. */
  function InsertByCount(x: Summary, s: seq<Summary>): seq<Summary> {
    if s == [] || s[0].emailCount <= x.emailCount then [x] + s
    else [s[0]] + InsertByCount(x, s[1..])
  }

  /** A stable sort by descending count. */
  function SortByCount(s: seq<Summary>): seq<Summary> {
    if s == [] then [] else InsertByCount(s[0], SortByCount(s[1..]))
  }

  predicate Descending(s: seq<Summary>) {
    forall i, j :: 0 <= i < j < |s| ==> s[i].emailCount >= s[j].emailCount
  }

  /** The records of `s` with count `n`, in order. */
  function WithCount(s: seq<Summary>, n: int): seq<Summary> {
    if s == [] then [] else (if s[0].emailCount == n then [s[0]] else []) + WithCount(s[1..], n)
  }

  lemma {:induction false} InsertByCountPermutes(x: Summary, s: seq<Summary>)
    ensures multiset(InsertByCount(x, s)) == multiset(s) + multiset{x}
  {
    if s != [] && s[0].emailCount > x.emailCount {
      InsertByCountPermutes(x, s[1..]);
      assert s == [s[0]] + s[1..];
    }
  }

  lemma {:induction false} InsertByCountDescending(x: Summary, s: seq<Summary>)
    requires Descending(s)
    ensures Descending(InsertByCount(x, s))
  {
    var r := InsertByCount(x, s);
    if s != [] && s[0].emailCount > x.emailCount {
      InsertByCountDescending(x, s[1..]);
      var t := InsertByCount(x, s[1..]);
      assert r == [s[0]] + t;
      InsertByCountPermutes(x, s[1..]);
      forall i | 0 < i < |r|
        ensures r[0].emailCount >= r[i].emailCount
      {
        assert r[i] == t[i - 1];
        assert t[i - 1] in multiset(t);
        assert t[i - 1] in multiset(s[1..]) || t[i - 1] == x;
      }
    } else {
      assert r == [x] + s;
    }
  }

  lemma {:induction false} InsertByCountStable(x: Summary, s: seq<Summary>, n: int)
    ensures WithCount(InsertByCount(x, s), n) ==
      if x.emailCount == n then [x] + WithCount(s, n) else WithCount(s, n)
  {
    var r := InsertByCount(x, s);
    if s != [] && s[0].emailCount > x.emailCount {
      InsertByCountStable(x, s[1..], n);
      assert r[1..] == InsertByCount(x, s[1..]);
      assert r[0] == s[0];
    } else {
      assert r[1..] == s;
    }
  }

  /** The listing's order: counts never increase. */
  lemma {:induction false} SortByCountDescending(s: seq<Summary>)
    ensures Descending(SortByCount(s))
  {
    if s != [] {
      SortByCountDescending(s[1..]);
      InsertByCountDescending(s[0], SortByCount(s[1..]));
    }
  }

  /** The sort returns the records it was given, each as often. */
  lemma {:induction false} SortByCountPermutes(s: seq<Summary>)
    ensures multiset(SortByCount(s)) == multiset(s)
  {
    if s != [] {
      SortByCountPermutes(s[1..]);
      InsertByCountPermutes(s[0], SortByCount(s[1..]));
      assert s == [s[0]] + s[1..];
    }
  }

  /** The sort is stable: records with equal counts keep their input order. */
  lemma {:induction false} SortByCountStable(s: seq<Summary>, n: int)
    ensures WithCount(SortByCount(s), n) == WithCount(s, n)
  {
    if s != [] {
      SortByCountStable(s[1..], n);
      InsertByCountStable(s[0], SortByCount(s[1..]), n);
    }
  }

  /** Where `InsertByCount` puts `x`: after the records with a larger count that lead `s`. */
  lemma {:induction false} InsertByCountAt(x: Summary, s: seq<Summary>, p: nat)
    requires p <= |s| && forall q :: 0 <= q < p ==> s[q].emailCount > x.emailCount
    requires p == |s| || s[p].emailCount <= x.emailCount
    ensures InsertByCount(x, s) == s[..p] + [x] + s[p..]
  {
    if p > 0 {
      assert InsertByCount(x, s) == [s[0]] + InsertByCount(x, s[1..]);
      InsertByCountAt(x, s[1..], p - 1);
      SplitAfterHead(s, x, p);
    }
  }

  lemma SplitAfterHead<T>(s: seq<T>, x: T, p: nat)
    requires 0 < p <= |s|
    ensures [s[0]] + (s[1..][..p - 1] + [x] + s[1..][p - 1..]) == s[..p] + [x] + s[p..]
  {
    assert s[1..][..p - 1] == s[1..p];
    assert s[1..][p - 1..] == s[p..];
    assert s[..p] == [s[0]] + s[1..p];
  }

  lemma {:induction false} InsertByCountTotal(x: Summary, s: seq<Summary>)
    ensures Total(InsertByCount(x, s)) == Total(s) + x.emailCount
    decreases |s|
  {
    var p := 0;
    while p < |s| && s[p].emailCount > x.emailCount
      invariant p <= |s| && forall q :: 0 <= q < p ==> s[q].emailCount > x.emailCount
    {
      p := p + 1;
    }
    InsertByCountAt(x, s, p);
    TotalInsert(s, p, x);
  }

  /** Sorting keeps the sum of the counts. */
  lemma {:induction false} SortByCountTotal(s: seq<Summary>)
    ensures Total(SortByCount(s)) == Total(s)
  {
    if s != [] {
      SortByCountTotal(s[1..]);
      InsertByCountTotal(s[0], SortByCount(s[1..]));
      TotalInsert(s[1..], 0, s[0]);
      assert s[1..][..0] + [s[0]] + s[1..][0..] == s;
    }
  }

  lemma {:induction false} TotalInsert(s: seq<Summary>, p: nat, x: Summary)
    requires p <= |s|
    ensures Total(s[..p] + [x] + s[p..]) == Total(s) + x.emailCount
    decreases |s|
  {
    var r := s[..p] + [x] + s[p..];
    if p < |s| {
      var n := |s| - 1;
      TotalInsert(s[..n], p, x);
      assert r[..|r| - 1] == s[..n][..p] + [x] + s[..n][p..];
    } else {
      assert r[..|r| - 1] == s;
    }
  }
}
