/**
 * The tool layer of the MCP server: the URL gate of `desuscribirse` in front
 * of the confirmation engine, and the line-by-line rendering of the
 * subscription listing (`_listar_suscripciones`) and of the search results
 * (`buscar_emails`). Rendered output is a sequence of structured lines, one
 * per line the tool appends.
 */
module Server {
  import opened Options
  import opened Text
  import opened Headers
  import opened Pagination
  import opened Grouping
  import opened Subscriptions
  import opened Search
  import opened Confirmation

  // ---------------------------------------------------------------------------
  // `desuscribirse`
  // ---------------------------------------------------------------------------

  /** The error reported for a URL without a web scheme. */
  const InvalidUrlError: string := "URL inv\U{e1}lida. Debe empezar por http o https."

  /** The JSON object the tool returns: `{"ok", "url"}` after a visit, `{"ok", "error"}` for a rejected URL. */
  datatype Reply = Reply(ok: bool, url: Option<string>, error: Option<string>)

  /** `url.lower().startswith(("http://", "https://"))`: the scheme test ignores case. */
  predicate UrlAccepted(url: string) {
    StartsWith(Lower(url), "http://") || StartsWith(Lower(url), "https://")
  }

  /**
   * `desuscribirse(url)`, where visiting `url` and reading the page is
   * `fetch(url)`: a rejected URL gets the error reply; an accepted one is
   * visited and its verdict is reported together with the URL.
   */
  function Desuscribirse(url: string, fetch: string -> FetchOutcome): Reply {
    if !UrlAccepted(url) then Reply(false, None, Some(InvalidUrlError))
    else Reply(Confirmed(fetch(url)), Some(url), None)
  }

  /**
   * A rejected URL is never visited: the reply is the same error whatever
   * visiting it would give, with `ok` false.
   */
  lemma RejectedUrlNeverVisited(url: string, fetch: string -> FetchOutcome, otherFetch: string -> FetchOutcome)
    requires !UrlAccepted(url)
    ensures Desuscribirse(url, fetch) == Desuscribirse(url, otherFetch)
    ensures !Desuscribirse(url, fetch).ok && Desuscribirse(url, fetch).error == Some(InvalidUrlError)
  {
  }

  /** An accepted URL is echoed back unchanged, with the verdict of its visit as `ok`. */
  lemma AcceptedUrlEchoed(url: string, fetch: string -> FetchOutcome)
    requires UrlAccepted(url)
    ensures Desuscribirse(url, fetch) == Reply(Confirmed(fetch(url)), Some(url), None)
  {
  }

  /** The tool reports success exactly when the URL passes the gate and the visited page confirms. */
  lemma ReplyOk(url: string, fetch: string -> FetchOutcome)
    ensures Desuscribirse(url, fetch).ok <==> UrlAccepted(url) && Confirmed(fetch(url))
    ensures Desuscribirse(url, fetch).ok ==> Desuscribirse(url, fetch).url == Some(url)
  {
  }

  /**
   * The gate looks only at the first seven or eight characters, ignoring
   * their case: `HTTPS://x` passes, and so does any URL whose lowercased
   * start is a web scheme.
   */
  lemma UrlAcceptedPrefix(url: string)
    ensures UrlAccepted(url) <==>
      (|url| >= 7 && Lower(url[..7]) == "http://") || (|url| >= 8 && Lower(url[..8]) == "https://")
  {
    if |url| >= 7 {
      LowerPrefix(url, 7);
    }
    if |url| >= 8 {
      LowerPrefix(url, 8);
    }
  }

  /** The gate ignores case: a URL passes exactly when its lowercased form does. */
  lemma UrlAcceptedIgnoresCase(url: string)
    ensures UrlAccepted(url) <==> UrlAccepted(Lower(url))
  {
    LowerTwice(url);
  }

  /** An upper-case web scheme passes the gate; a mail link does not. */
  lemma UrlGateExamples()
    ensures UrlAccepted("HTTPS://example.com")
    ensures !UrlAccepted("mailto:list@example.com")
  {
    var upper := "HTTPS://example.com";
    assert Lower(upper)[..8] == "https://";
    var mail := "mailto:list@example.com";
    assert Lower(mail)[0] == 'm';
  }

  // ---------------------------------------------------------------------------
  // Rendered lines
  // ---------------------------------------------------------------------------

  /** One line the tools append, by the kind of content it shows. */
  datatype Line =
    | SubscriptionsTitle                                       // "# Suscripciones detectadas:"
    | NoSubscriptions                                          // "No se encontraron suscripciones."
    | SenderHeading(position: int, name: string, address: string)  // "1. **name** (<address>)"
    | EmailsReceived(count: int)                               // "   - Emails recibidos: n"
    | SubjectExamples(subjects: seq<string>)                   // "   - Ejemplos de asunto: a, b, c"
    | UnsubscribeLink(link: string)                            // "   - [Desuscribirse](link)  (Automático)"
    | UnsubscribeByEmail(mailto: string)                       // "   - Opción de desuscripción por email: m"
    | Blank                                                    // ""
    | ResultsTitle                                             // "# Resultados de búsqueda:"
    | NoEmails                                                 // "No se encontraron emails."
    | ResultSender(name: string, address: string)              // "- **name** (<address>)"
    | ResultSubject(subject: string)                           // "   - Asunto: s"
    | ResultDate(date: string)                                 // "   - Fecha: d"
    | UnsubscribeOption(answer: string)                        // "   - Opción de desuscripción: Sí|No"

  /** The answer shown for a result that offers unsubscribing. */
  const Yes: string := "S\U{ed}"
  const No: string := "No"

  // ---------------------------------------------------------------------------
  // `_listar_suscripciones`
  // ---------------------------------------------------------------------------

  function LinkLines(links: seq<string>): (r: seq<Line>)
    ensures |r| == |links|
  {
    seq(|links|, k requires 0 <= k < |links| => UnsubscribeLink(links[k]))
  }

  function MailtoLines(mailtos: seq<string>): (r: seq<Line>)
    ensures |r| == |mailtos|
  {
    seq(|mailtos|, k requires 0 <= k < |mailtos| => UnsubscribeByEmail(mailtos[k]))
  }

  /** The subject line, present only when the record has subjects: the first three of them at most. */
  function SubjectLines(subjects: seq<string>): seq<Line> {
    if subjects != [] then [SubjectExamples(Take(subjects, 3))] else []
  }

  /**
   * The lines of the record at `position` (counting from 1): the heading, the
   * count, the subject line, one line per web link and one per mail link in
   * their stored order, then an empty line.
   */
  function SubscriptionBlock(position: int, s: Summary): seq<Line> {
    [SenderHeading(position, s.senderName, s.senderEmail), EmailsReceived(s.emailCount)] +
    SubjectLines(s.subjectExamples) + LinkLines(s.unsubscribeLinks) + MailtoLines(s.unsubscribeMailto) + [Blank]
  }

  /** The blocks of the records, numbered from 1 in list order. */
  function SubscriptionBlocks(subs: seq<Summary>): seq<Line> {
    if subs == [] then []
    else SubscriptionBlocks(subs[..|subs| - 1]) + SubscriptionBlock(|subs|, subs[|subs| - 1])
  }

  lemma SubscriptionBlocksSnoc(subs: seq<Summary>, i: nat)
    requires i < |subs|
    ensures SubscriptionBlocks(subs[..i + 1]) == SubscriptionBlocks(subs[..i]) + SubscriptionBlock(i + 1, subs[i])
  {
    assert subs[..i + 1][..i] == subs[..i];
  }

  /** What `_listar_suscripciones` shows for the records `subs`. */
  function RenderedSubscriptions(subs: seq<Summary>): seq<Line> {
    if subs == [] then [NoSubscriptions] else [SubscriptionsTitle] + SubscriptionBlocks(subs)
  }

  /** `for link in sub.unsubscribe_links: lines.append(...)`. */
  method AppendLinkLines(lines: seq<Line>, links: seq<string>) returns (lines': seq<Line>)
    ensures lines' == lines + LinkLines(links)
  {
    lines' := lines;
    for k := 0 to |links|
      invariant lines' == lines + LinkLines(links[..k])
    {
      assert LinkLines(links[..k + 1]) == LinkLines(links[..k]) + [UnsubscribeLink(links[k])];
      lines' := lines' + [UnsubscribeLink(links[k])];
    }
    assert links[..|links|] == links;
  }

  /** `for mailto in sub.unsubscribe_mailto: lines.append(...)`. */
  method AppendMailtoLines(lines: seq<Line>, mailtos: seq<string>) returns (lines': seq<Line>)
    ensures lines' == lines + MailtoLines(mailtos)
  {
    lines' := lines;
    for k := 0 to |mailtos|
      invariant lines' == lines + MailtoLines(mailtos[..k])
    {
      assert MailtoLines(mailtos[..k + 1]) == MailtoLines(mailtos[..k]) + [UnsubscribeByEmail(mailtos[k])];
      lines' := lines' + [UnsubscribeByEmail(mailtos[k])];
    }
    assert mailtos[..|mailtos|] == mailtos;
  }

  /** The body of the record loop: the lines of `sub` at `position`, appended to `lines`. */
  method AppendSubscriptionBlock(lines: seq<Line>, position: int, sub: Subscription) returns (lines': seq<Line>)
    ensures lines' == lines + SubscriptionBlock(position, sub.Value())
  {
    lines' := lines + [SenderHeading(position, sub.senderName, sub.senderEmail)];
    lines' := lines' + [EmailsReceived(sub.emailCount)];
    ghost var top := lines';
    if sub.subjectExamples != [] {
      lines' := lines' + [SubjectExamples(Take(sub.subjectExamples, 3))];
    }
    ghost var subjects := lines';
    if sub.unsubscribeLinks != [] {
      lines' := AppendLinkLines(lines', sub.unsubscribeLinks);
    }
    ghost var links := lines';
    if sub.unsubscribeMailto != [] {
      lines' := AppendMailtoLines(lines', sub.unsubscribeMailto);
    }
    ghost var mailtos := lines';
    lines' := lines' + [Blank];
    BlockPieces(lines, position, sub.Value(), top, subjects, links, mailtos);
  }

  /** The record loop's body appends, piece after piece, the block of the record. */
  lemma BlockPieces(lines: seq<Line>, position: int, s: Summary,
                    top: seq<Line>, subjects: seq<Line>, links: seq<Line>, mailtos: seq<Line>)
    requires top == lines + [SenderHeading(position, s.senderName, s.senderEmail), EmailsReceived(s.emailCount)]
    requires subjects == top + SubjectLines(s.subjectExamples)
    requires links == subjects + LinkLines(s.unsubscribeLinks)
    requires mailtos == links + MailtoLines(s.unsubscribeMailto)
    ensures mailtos + [Blank] == lines + SubscriptionBlock(position, s)
  {
  }

  /** The rendering loop of `_listar_suscripciones` over the records `subs`. */
  method RenderSubscriptions(subs: seq<Subscription>) returns (lines: seq<Line>)
    ensures lines == RenderedSubscriptions(Values(subs))
  {
    if |subs| == 0 {
      return [NoSubscriptions];
    }
    lines := [SubscriptionsTitle];
    ghost var values := Values(subs);
    for i := 0 to |subs|
      invariant lines == [SubscriptionsTitle] + SubscriptionBlocks(values[..i])
    {
      lines := AppendSubscriptionBlock(lines, i + 1, subs[i]);
      assert values[i] == subs[i].Value();
      SubscriptionBlocksSnoc(values, i);
      AppendAssociates([SubscriptionsTitle], SubscriptionBlocks(values[..i]), SubscriptionBlock(i + 1, values[i]));
    }
    assert values[..|subs|] == values;
  }

  /**
   * `_listar_suscripciones(max_resultados)`: the subscription listing of the
   * mailbox, rendered.
   */
  method ListarSuscripciones(maxResultados: int, responses: seq<Page>, metadata: map<MessageId, seq<Header>>)
    returns (lines: seq<Line>, requests: seq<Request>)
    ensures requests == Walk(Query, responses, Retained(metadata), maxResultados, 0, 0, None).requests
    ensures lines == RenderedSubscriptions(SortByCount(Listing(Group(Contributions(metadata,
      Walk(Query, responses, Retained(metadata), maxResultados, 0, 0, None).counted)))))
  {
    var subs;
    subs, requests := ListSubscriptions(maxResultados, responses, metadata);
    lines := RenderSubscriptions(subs);
  }

  /** No records render as the fixed message alone; otherwise the title comes first. */
  lemma RenderedSubscriptionsEmpty(subs: seq<Summary>)
    ensures RenderedSubscriptions(subs) == [NoSubscriptions] <==> subs == []
    ensures subs != [] ==> RenderedSubscriptions(subs)[0] == SubscriptionsTitle && NoSubscriptions !in RenderedSubscriptions(subs)
  {
    if subs != [] {
      assert RenderedSubscriptions(subs)[0] == SubscriptionsTitle;
      SubscriptionBlocksNoMessage(subs);
    }
  }

  lemma {:induction false} SubscriptionBlocksNoMessage(subs: seq<Summary>)
    ensures NoSubscriptions !in SubscriptionBlocks(subs)
  {
    if subs != [] {
      SubscriptionBlocksNoMessage(subs[..|subs| - 1]);
    }
  }

  /** The part of the lines `lines` that `pick` selects, in order. */
  function Pick<T>(lines: seq<Line>, pick: Line -> Option<T>): seq<T> {
    if lines == [] then []
    else Pick(lines[..|lines| - 1], pick) + (match pick(lines[|lines| - 1]) case Some(x) => [x] case None => [])
  }

  lemma {:induction false} PickAppend<T>(a: seq<Line>, b: seq<Line>, pick: Line -> Option<T>)
    ensures Pick(a + b, pick) == Pick(a, pick) + Pick(b, pick)
  {
    if b == [] {
      assert a + b == a;
    } else {
      PickAppend(a, b[..|b| - 1], pick);
      assert (a + b)[..|a + b| - 1] == a + b[..|b| - 1];
    }
  }

  function HeadingOf(l: Line): Option<(int, string, string)> {
    if l.SenderHeading? then Some((l.position, l.name, l.address)) else None
  }

  function LinkOf(l: Line): Option<string> {
    if l.UnsubscribeLink? then Some(l.link) else None
  }

  function MailtoOf(l: Line): Option<string> {
    if l.UnsubscribeByEmail? then Some(l.mailto) else None
  }

  function SubjectsOf(l: Line): Option<seq<string>> {
    if l.SubjectExamples? then Some(l.subjects) else None
  }

  /** The web links of the records, record after record, each in stored order. */
  function ShownLinks(subs: seq<Summary>): seq<string> {
    if subs == [] then [] else ShownLinks(subs[..|subs| - 1]) + subs[|subs| - 1].unsubscribeLinks
  }

  /** The mail links of the records, record after record, each in stored order. */
  function ShownMailtos(subs: seq<Summary>): seq<string> {
    if subs == [] then [] else ShownMailtos(subs[..|subs| - 1]) + subs[|subs| - 1].unsubscribeMailto
  }

  lemma {:induction false} PickLinkLines(links: seq<string>)
    ensures Pick(LinkLines(links), LinkOf) == links
    ensures Pick(LinkLines(links), MailtoOf) == [] && Pick(LinkLines(links), HeadingOf) == []
  {
    if links != [] {
      var n := |links| - 1;
      assert LinkLines(links)[..n] == LinkLines(links[..n]);
      PickLinkLines(links[..n]);
    }
  }

  lemma {:induction false} PickMailtoLines(mailtos: seq<string>)
    ensures Pick(MailtoLines(mailtos), MailtoOf) == mailtos
    ensures Pick(MailtoLines(mailtos), LinkOf) == [] && Pick(MailtoLines(mailtos), HeadingOf) == []
  {
    if mailtos != [] {
      var n := |mailtos| - 1;
      assert MailtoLines(mailtos)[..n] == MailtoLines(mailtos[..n]);
      PickMailtoLines(mailtos[..n]);
    }
  }

  lemma PickTwo<T>(x: Line, y: Line, pick: Line -> Option<T>)
    requires pick(x).None? && pick(y).None?
    ensures Pick([x, y], pick) == []
  {
    assert Pick([x], pick) == [] by {
      assert [x][..0] == [];
    }
    assert [x, y][..1] == [x];
  }

  lemma PickSubjectLines<T>(subjects: seq<string>, pick: Line -> Option<T>)
    requires pick(SubjectExamples(Take(subjects, 3))).None?
    ensures Pick(SubjectLines(subjects), pick) == []
  {
  }

  /**
   * Within one block: exactly one heading, for the record's position, and
   * its web and mail links in stored order.
   */
  lemma SubscriptionBlockPicks(position: int, s: Summary)
    ensures Pick(SubscriptionBlock(position, s), HeadingOf) == [(position, s.senderName, s.senderEmail)]
    ensures Pick(SubscriptionBlock(position, s), LinkOf) == s.unsubscribeLinks
    ensures Pick(SubscriptionBlock(position, s), MailtoOf) == s.unsubscribeMailto
  {
    var top := [SenderHeading(position, s.senderName, s.senderEmail), EmailsReceived(s.emailCount)];
    var subjects := SubjectLines(s.subjectExamples);
    var links, mailtos := LinkLines(s.unsubscribeLinks), MailtoLines(s.unsubscribeMailto);
    assert SubscriptionBlock(position, s) == top + subjects + links + mailtos + [Blank];
    PickLinkLines(s.unsubscribeLinks);
    PickMailtoLines(s.unsubscribeMailto);
    PickSubjectLines(s.subjectExamples, HeadingOf);
    PickSubjectLines(s.subjectExamples, LinkOf);
    PickSubjectLines(s.subjectExamples, MailtoOf);
    assert top[..1] == [SenderHeading(position, s.senderName, s.senderEmail)];
    PickTwo(top[0], top[1], LinkOf);
    PickTwo(top[0], top[1], MailtoOf);
    PickBlock(top, subjects, links, mailtos, HeadingOf);
    PickBlock(top, subjects, links, mailtos, LinkOf);
    PickBlock(top, subjects, links, mailtos, MailtoOf);
  }

  lemma PickBlock<T>(top: seq<Line>, subjects: seq<Line>, links: seq<Line>, mailtos: seq<Line>, pick: Line -> Option<T>)
    requires pick(Blank).None?
    ensures Pick(top + subjects + links + mailtos + [Blank], pick) ==
      Pick(top, pick) + Pick(subjects, pick) + Pick(links, pick) + Pick(mailtos, pick)
  {
    PickAppend(top, subjects, pick);
    PickAppend(top + subjects, links, pick);
    PickAppend(top + subjects + links, mailtos, pick);
  }

  /** The records are numbered from 1 in list order, one heading each. */
  lemma {:induction false} SubscriptionBlocksHeadings(subs: seq<Summary>)
    ensures Pick(SubscriptionBlocks(subs), HeadingOf) ==
      seq(|subs|, i requires 0 <= i < |subs| => (i + 1, subs[i].senderName, subs[i].senderEmail))
  {
    if subs != [] {
      var n := |subs| - 1;
      SubscriptionBlocksHeadings(subs[..n]);
      SubscriptionBlockPicks(|subs|, subs[n]);
      PickAppend(SubscriptionBlocks(subs[..n]), SubscriptionBlock(|subs|, subs[n]), HeadingOf);
      NumberedSnoc(subs);
    }
  }

  lemma NumberedSnoc(subs: seq<Summary>)
    requires subs != []
    ensures var n := |subs| - 1;
      seq(|subs|, i requires 0 <= i < |subs| => (i + 1, subs[i].senderName, subs[i].senderEmail)) ==
      seq(n, i requires 0 <= i < n => (i + 1, subs[..n][i].senderName, subs[..n][i].senderEmail)) +
      [(|subs|, subs[n].senderName, subs[n].senderEmail)]
  {
  }

  /**
   * The listing shows one `Desuscribirse` line per web link and one line per
   * mail link, record after record, in stored order.
   */
  lemma {:induction false} SubscriptionBlocksLinks(subs: seq<Summary>)
    ensures Pick(SubscriptionBlocks(subs), LinkOf) == ShownLinks(subs)
    ensures Pick(SubscriptionBlocks(subs), MailtoOf) == ShownMailtos(subs)
  {
    if subs != [] {
      var n := |subs| - 1;
      SubscriptionBlocksLinks(subs[..n]);
      SubscriptionBlockPicks(|subs|, subs[n]);
      PickAppend(SubscriptionBlocks(subs[..n]), SubscriptionBlock(|subs|, subs[n]), LinkOf);
      PickAppend(SubscriptionBlocks(subs[..n]), SubscriptionBlock(|subs|, subs[n]), MailtoOf);
    }
  }

  /**
   * A record shows one subject line holding its first three subjects at
   * most, or none when it has no subject.
   */
  lemma SubscriptionBlockSubjects(position: int, s: Summary)
    ensures var shown := Pick(SubscriptionBlock(position, s), SubjectsOf);
      (s.subjectExamples == [] ==> shown == []) &&
      (s.subjectExamples != [] ==>
         |shown| == 1 && |shown[0]| == Min(3, |s.subjectExamples|) && shown[0] == s.subjectExamples[..|shown[0]|])
  {
    var top := [SenderHeading(position, s.senderName, s.senderEmail), EmailsReceived(s.emailCount)];
    var subjects := SubjectLines(s.subjectExamples);
    var links, mailtos := LinkLines(s.unsubscribeLinks), MailtoLines(s.unsubscribeMailto);
    assert SubscriptionBlock(position, s) == top + subjects + links + mailtos + [Blank];
    PickBlock(top, subjects, links, mailtos, SubjectsOf);
    PickTwo(top[0], top[1], SubjectsOf);
    NoSubjectsInLinks(s.unsubscribeLinks, s.unsubscribeMailto);
  }

  lemma {:induction false} NoSubjectsInLinks(links: seq<string>, mailtos: seq<string>)
    ensures Pick(LinkLines(links), SubjectsOf) == [] && Pick(MailtoLines(mailtos), SubjectsOf) == []
  {
    if links != [] {
      assert LinkLines(links)[..|links| - 1] == LinkLines(links[..|links| - 1]);
      NoSubjectsInLinks(links[..|links| - 1], mailtos);
    }
    if mailtos != [] {
      assert MailtoLines(mailtos)[..|mailtos| - 1] == MailtoLines(mailtos[..|mailtos| - 1]);
      NoSubjectsInLinks(links, mailtos[..|mailtos| - 1]);
    }
  }

  // ---------------------------------------------------------------------------
  // `buscar_emails`
  // ---------------------------------------------------------------------------

  /** The block of one search result: sender, subject, date and whether unsubscribing is offered. */
  function ResultBlock(r: EmailSummary): seq<Line> {
    [ResultSender(r.fromName, r.fromEmail), ResultSubject(r.subject), ResultDate(r.date),
     UnsubscribeOption(if r.hasUnsubscribe then Yes else No)]
  }

  function ResultBlocks(results: seq<EmailSummary>): (r: seq<Line>)
    ensures |r| == 4 * |results|
  {
    if results == [] then []
    else ResultBlocks(results[..|results| - 1]) + ResultBlock(results[|results| - 1])
  }

  /** What `buscar_emails` shows for the results `results`. */
  function RenderedResults(results: seq<EmailSummary>): seq<Line> {
    if results == [] then [NoEmails] else [ResultsTitle] + ResultBlocks(results)
  }

  /** The rendering loop of `buscar_emails`. */
  method RenderResults(results: seq<EmailSummary>) returns (lines: seq<Line>)
    ensures lines == RenderedResults(results)
  {
    if |results| == 0 {
      return [NoEmails];
    }
    lines := [ResultsTitle];
    for i := 0 to |results|
      invariant lines == [ResultsTitle] + ResultBlocks(results[..i])
    {
      var r := results[i];
      lines := lines + [ResultSender(r.fromName, r.fromEmail)];
      lines := lines + [ResultSubject(r.subject)];
      lines := lines + [ResultDate(r.date)];
      lines := lines + [UnsubscribeOption(if r.hasUnsubscribe then Yes else No)];
      assert results[..i + 1][..i] == results[..i];
    }
    assert results[..|results|] == results;
  }

  /** `buscar_emails(consulta, max_resultados)`: the search of the mailbox, rendered. */
  method BuscarEmails(consulta: string, maxResultados: int, responses: seq<Page>, metadata: map<MessageId, seq<Header>>)
    returns (lines: seq<Line>, requests: seq<Request>)
    ensures requests == Walk(consulta, responses, EveryMessage, maxResultados, 0, 0, None).requests
    ensures lines == RenderedResults(Describes(metadata, Walk(consulta, responses, EveryMessage, maxResultados, 0, 0, None).counted))
  {
    var results;
    results, requests := SearchEmails(consulta, maxResultados, responses, metadata);
    lines := RenderResults(results);
  }

  /** Each result gets one block of four lines, in result order. */
  lemma {:induction false} ResultBlocksLayout(results: seq<EmailSummary>)
    ensures forall i :: 0 <= i < |results| ==> ResultBlocks(results)[4 * i..4 * i + 4] == ResultBlock(results[i])
  {
    if results != [] {
      var n := |results| - 1;
      ResultBlocksLayout(results[..n]);
      var before := ResultBlocks(results[..n]);
      var blocks := ResultBlocks(results);
      assert blocks == before + ResultBlock(results[n]);
      forall i | 0 <= i < |results|
        ensures blocks[4 * i..4 * i + 4] == ResultBlock(results[i])
      {
        if i < n {
          assert blocks[4 * i..4 * i + 4] == before[4 * i..4 * i + 4];
          assert results[..n][i] == results[i];
        }
      }
    }
  }

  /**
   * The last line of a result's block answers `Yes` ("Sí") exactly when the
   * message has a `List-Unsubscribe` header, and "No" otherwise.
   */
  lemma ResultAnswers(results: seq<EmailSummary>, i: nat)
    requires i < |results|
    ensures ResultBlocks(results)[4 * i + 3] == UnsubscribeOption(Yes) <==> results[i].hasUnsubscribe
    ensures ResultBlocks(results)[4 * i + 3] == UnsubscribeOption(No) <==> !results[i].hasUnsubscribe
  {
    ResultBlocksLayout(results);
    assert ResultBlocks(results)[4 * i + 3] == ResultBlocks(results)[4 * i..4 * i + 4][3];
    assert Yes != No;
  }

  /**
   * No results render as the fixed message alone; otherwise the title comes
   * first, then four lines per result, and the message never appears.
   */
  lemma RenderedResultsEmpty(results: seq<EmailSummary>)
    ensures RenderedResults(results) == [NoEmails] <==> results == []
    ensures results != [] ==>
      |RenderedResults(results)| == 1 + 4 * |results| &&
      RenderedResults(results)[0] == ResultsTitle && NoEmails !in RenderedResults(results)
  {
    if results != [] {
      assert RenderedResults(results)[0] == ResultsTitle;
      ResultBlocksNoMessage(results);
    }
  }

  lemma {:induction false} ResultBlocksNoMessage(results: seq<EmailSummary>)
    ensures NoEmails !in ResultBlocks(results)
  {
    if results != [] {
      ResultBlocksNoMessage(results[..|results| - 1]);
    }
  }
}
