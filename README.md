# gmail unsubscribe core, modelled in Dafny

This project models the core of a small MCP server for Gmail subscriptions.
The server lists the mailing lists a mailbox receives, searches the mailbox,
and unsubscribes by visiting a link.

Each file covers one part of that core:

- **`text.dfy`** holds the ASCII string operations the code relies on: `lower`, `strip`, `startswith` and substring tests.
- **`headers.dfy`** covers the three header helpers of `gmail_service.py`:
  - `_get_header_value`, a case-insensitive lookup where the first header wins;
  - `_extract_sender_info`, with the regular expression `^(.+?)\s*<(.+?)>$` specified directly: the lazy name group, `\s*`, the address group, and `$` before a final newline;
  - `_parse_unsubscribe_header`, with `re.findall(r"<([^>]+)>")` specified directly as `Tokens`, and the case-sensitive prefix classification.
- **`pagination.dfy`** defines `Walk`, the page walk shared by `list_subscriptions` and `search_emails`:
  - each request asks for `min(100, budget left)` ids and passes the last token;
  - a page's ids are examined in order until the budget is spent;
  - the walk stops on an empty page or a missing or empty token.
  - An `iset` of ids says which examined messages spend the budget: all of them for the search, only those with a non-empty `List-Unsubscribe` for the listing.
- **`grouping.dfy`** is the value-level view of the listing:
  - the contribution of one retained message;
  - a grouping by lowercased sender address, with dictionary insertion order;
  - the stable sort by descending `email_count`.
- **`subscriptions.dfy`** is the imperative listing itself:
  - `Subscription` is a class whose lists and count are appended to in place;
  - the dictionary is a `map` from key to record plus the key insertion order;
  - the page loop, the message loop and the final sort are methods proved against `Walk`, `Group` and `SortByCount`.
- **`search.dfy`** covers `search_emails`: one result per examined message, proved against `Walk`.
- **`confirmation.dfy`** covers the verdict of `unsubscribe_http` on a fetched page.
- **`server.dfy`** covers the tool layer:
  - the URL gate of `desuscribirse`;
  - the line-by-line rendering of `_listar_suscripciones` and `buscar_emails`.

External services are inputs:

- The mailbox is a script of list responses, `responses[k]` being the answer to the k-th page request.
- Message metadata is a map from message id to its headers.
- An unsubscribe visit is a `FetchOutcome`, either a failure or the raw body with its visible text. For `desuscribirse` it is a function `fetch` from URL to outcome.

## Model

| member | source | states |
|---|---|---|
| `Text.Lower` | src/gmail_unsuscribe_mcp/gmail_service.py:65 | `str.lower` on ASCII text: each letter `A`–`Z` becomes lowercase and every other character stays. It is also used for the `From` lookup, the dictionary key, the page texts and the URL gate; `LowerTwice` and `LowerPrefix` hold. |
| `Text.Strip` | src/gmail_unsuscribe_mcp/gmail_service.py:53-57 | `str.strip(chars)`: the result is a slice of the input, neither of whose ends is one of `chars`, and only characters of `chars` are removed around it. |
| `Text.StartsWith` | src/gmail_unsuscribe_mcp/gmail_service.py:32-34 | Definition of `str.startswith`: the prefix is the first characters of the string, compared case-sensitively. |
| `Text.Contains` | src/gmail_unsuscribe_mcp/gmail_service.py:170 | Definition of the substring test `kw in text`: the needle occurs at some index. |
| `Headers.GetHeaderValue` | src/gmail_unsuscribe_mcp/gmail_service.py:60-67 | Definition: the value of the first header whose lowercased name equals the lowercased name asked for, or `None`; `GetHeaderValueFirst` states its meaning. |
| `Headers.MatchFrom` | src/gmail_unsuscribe_mcp/gmail_service.py:51 | Definition of `re.match(r"^(.+?)\s*<(.+?)>$")`: the closing `>` at the end (or before a final newline), the first name-group end that lets the rest match, the name group and the address group; `MatchFromMeaning` states its meaning. |
| `Headers.ExtractSenderInfo` | src/gmail_unsuscribe_mcp/gmail_service.py:40-57 | Definition: the first `From` value, or `""` without one; on a match, the name group stripped of whitespace and then of every `"`, and the address group stripped of whitespace; otherwise the stripped raw value as both fields. The lemma rows below state its cases. |
| `Headers.GetHeaderValueFirst` | src/gmail_unsuscribe_mcp/gmail_service.py:60-67 | The lookup gives `None` exactly when no header has the name, ignoring case. Otherwise it gives the value of the first header that has it; later duplicates are ignored. |
| `Headers.MatchFromMeaning` | src/gmail_unsuscribe_mcp/gmail_service.py:51 | The `From` pattern matches exactly when some end of the name group lets the rest match. The name group is then the shortest such prefix, and the address runs from after the `<` to the closing `>`. |
| `Headers.NameEndFound` | src/gmail_unsuscribe_mcp/gmail_service.py:51 | An end found by the lazy name-group search lets `\s*<(.+?)>$` match there. |
| `Headers.NameEndFirst` | src/gmail_unsuscribe_mcp/gmail_service.py:51 | The end found is the first that works (laziness of `(.+?)`). |
| `Headers.NameEndNone` | src/gmail_unsuscribe_mcp/gmail_service.py:51 | When the search finds nothing, no end of the name group works. |
| `Headers.NoSplitPastNewline` | src/gmail_unsuscribe_mcp/gmail_service.py:51 | `.` does not match a newline, so the name group cannot cross one. |
| `Headers.SenderWithoutFrom` | src/gmail_unsuscribe_mcp/gmail_service.py:44-57 | Without a `From` header, name and address are both `""`. |
| `Headers.SenderFallback` | src/gmail_unsuscribe_mcp/gmail_service.py:57 | A value with no `<` after its first character does not match, and both fields are the stripped raw value. |
| `Headers.BareAddressFallsBack` | src/gmail_unsuscribe_mcp/gmail_service.py:51-57 | Any bracketed value `<address>` with no other `<` (including `<>` and `<a@b >`) does not match, because the name group needs a character before `<`; both fields are then the raw value. |
| `Headers.SenderRoundTrip` | src/gmail_unsuscribe_mcp/gmail_service.py:51-55 | Formatting `"…"name"…" <address>` with any layers of quotes and extracting gives back name and address; `strip('"')` removes every layer. |
| `Headers.FormattedFromMatches` | src/gmail_unsuscribe_mcp/gmail_service.py:51 | On `group <address>`, the pattern yields exactly `group` and `address`. |
| `Headers.Tokens` | src/gmail_unsuscribe_mcp/gmail_service.py:30 | Definition of `re.findall(r"<([^>]+)>")`: at a `<` with a later `>`, the non-empty text up to the first `>`, and the scan resumes after it; otherwise one character further. |
| `Headers.IsHttpLink` | src/gmail_unsuscribe_mcp/gmail_service.py:32 | Definition: the token starts with `http://` or `https://`, case-sensitively. |
| `Headers.IsMailto` | src/gmail_unsuscribe_mcp/gmail_service.py:34 | Definition of the `elif`: the token is not a web link and starts with `mailto:`, case-sensitively. |
| `Headers.Filter` | src/gmail_unsuscribe_mcp/gmail_service.py:31-35 | The tokens that pass the test, in order, never more than the input. `FilterKeeps`, `FilterComplete` and `FilterKeepsOrder` state that exactly the passing tokens are kept, in order. |
| `Headers.TokensAreBracketed` | src/gmail_unsuscribe_mcp/gmail_service.py:30 | Every `findall` token is non-empty, has no `>`, and occurs in the value as `<token>`. |
| `Headers.TokensRoundTrip` | src/gmail_unsuscribe_mcp/gmail_service.py:30 | Reading back the `<a>, <b>, …` layout gives the targets again, in order. |
| `Headers.FilterKeeps` | src/gmail_unsuscribe_mcp/gmail_service.py:31-35 | Only tokens that pass the prefix test are kept, and only tokens of the input. |
| `Headers.FilterComplete` | src/gmail_unsuscribe_mcp/gmail_service.py:31-35 | Every token that passes the test is kept; no matching token is dropped. |
| `Headers.FilterKeepsOrder` | src/gmail_unsuscribe_mcp/gmail_service.py:31-35 | Kept tokens sit at strictly increasing positions of the input, so order of appearance is preserved. |
| `Headers.ClassifiedAtMostTokens` | src/gmail_unsuscribe_mcp/gmail_service.py:31-35 | There are never more links and mailtos together than tokens. |
| `Headers.ParseUnsubscribeHeader` | src/gmail_unsuscribe_mcp/gmail_service.py:23-37 | The loop yields the http(s) tokens and the `mailto:` tokens in order, with case-sensitive prefixes; `|links| + |mailtos|` is at most the number of tokens. Every http(s) token is in the links and every other `mailto:` token is in the mailtos. |
| `Pagination.Continues` | src/gmail_unsuscribe_mcp/gmail_service.py:135-137 | Definition of `if not next_page_token: break`: the loop goes on only with a present, non-empty token. |
| `Pagination.Walk` | src/gmail_unsuscribe_mcp/gmail_service.py:79-137 | Definition of the page loop both methods share: request `min(100, budget left)` ids with the current token, stop on an empty page, count the page's counting ids up to the budget, and go on only with a non-empty next token while budget is left. The lemma rows below state its properties. |
| `Pagination.WalkRequestSizes` | src/gmail_unsuscribe_mcp/gmail_service.py:83 | Each request carries the query and asks for 1 to 100 ids, never more than the budget left. |
| `Pagination.WalkWithinBudget` | src/gmail_unsuscribe_mcp/gmail_service.py:131-133 | The walk counts at most `max_results - processed` messages, and none when the budget is spent. |
| `Pagination.WalkCountsOnlyCounting` | src/gmail_unsuscribe_mcp/gmail_service.py:108-110 | Only messages that spend the budget are counted. |
| `Pagination.WalkFollowsTokens` | src/gmail_unsuscribe_mcp/gmail_service.py:135-137 | The first request passes no token. Each later one passes the token of the previous non-empty answer, and one follows only when that token is non-empty. |
| `Pagination.ChainedAt` | src/gmail_unsuscribe_mcp/gmail_service.py:85-94 | The i-th request follows a non-empty answer and passes its token. |
| `Pagination.WalkInPageOrder` | src/gmail_unsuscribe_mcp/gmail_service.py:96-133 | The counted ids are a prefix of the counted ids of all answers laid end to end. |
| `Pagination.WalkResume` | src/gmail_unsuscribe_mcp/gmail_service.py:82-137 | One turn of the page loop on a non-empty page with a next token: after its request and the page's counted ids, the walk resumes from the next page with that token and the budget left. |
| `Pagination.WalkFinish` | src/gmail_unsuscribe_mcp/gmail_service.py:135-137 | A non-empty page without a usable next token ends the walk: its request is the last one and its counted ids the last ones. |
| `Pagination.WalkEnd` | src/gmail_unsuscribe_mcp/gmail_service.py:92-94 | An empty page ends the walk: its request is the last one and nothing more is counted. |
| `Pagination.CountedScanDone` | src/gmail_unsuscribe_mcp/gmail_service.py:131-133 | A message loop that stops when the page ends or the budget is reached has counted the page's first counted ids up to the budget. |
| `Pagination.CountingEveryMessage` | src/gmail_unsuscribe_mcp/gmail_service.py:229-231 | When every message counts, the counted ids are all the ids. |
| `Grouping.Key` | src/gmail_unsuscribe_mcp/gmail_service.py:117 | Definition: the dictionary key is `from_email.lower()`. |
| `Grouping.Started` | src/gmail_unsuscribe_mcp/gmail_service.py:118-122 | Definition of a new record: the sender's address and name, empty lists and a zero count. |
| `Grouping.Add` | src/gmail_unsuscribe_mcp/gmail_service.py:124-129 | Definition of one message joining a record: one subject and one id appended, its links and mailtos appended, and the count plus one. |
| `Grouping.HasUnsubscribe` | src/gmail_unsuscribe_mcp/gmail_service.py:108-110 | Definition: the `List-Unsubscribe` value is present and not empty (`if not list_unsub: continue`). |
| `Grouping.ContributionOf` | src/gmail_unsuscribe_mcp/gmail_service.py:112-115 | Definition: what one kept message adds to its sender's record: its id, its sender, its subject or `""`, and its header's web links and mailto links. |
| `Grouping.Insert` | src/gmail_unsuscribe_mcp/gmail_service.py:117-129 | Recording one message keeps the dictionary well formed: a new lowercased address is appended to the insertion order with a fresh record, then the record gets the message. |
| `Grouping.Group` | src/gmail_unsuscribe_mcp/gmail_service.py:96-133 | The dictionary built from the kept messages one after another is well formed: distinct keys in insertion order, one record each. |
| `Grouping.Summarize` | src/gmail_unsuscribe_mcp/gmail_service.py:117-129 | Definition of a sender's record from its messages directly: the first message's address and name, every subject, id and link in order, and their number; `GroupEntry` ties it to `Group`. |
| `Grouping.RetainedIsRetainedBy` | src/gmail_unsuscribe_mcp/gmail_service.py:108-110 | Glue between two spellings of one set: the listing's budget set is the messages for which `HasUnsubscribe` holds. |
| `Grouping.GroupOrder` | src/gmail_unsuscribe_mcp/gmail_service.py:117-122 | Records are keyed by the distinct lowercased addresses, in first-seen order. |
| `Grouping.GroupEntry` | src/gmail_unsuscribe_mcp/gmail_service.py:117-129 | A key has a record iff some message has that key. The record has the first message's address and name, every subject and id and link in order, and their count. |
| `Grouping.RecordCounts` | src/gmail_unsuscribe_mcp/gmail_service.py:125-129 | Each record's key is its lowercased address, and `email_count == len(message_ids) == len(subject_examples) >= 1`. |
| `Grouping.GroupTotal` | src/gmail_unsuscribe_mcp/gmail_service.py:129-131 | The counts of all records add up to the number of retained messages. |
| `Grouping.InsertTotal` | src/gmail_unsuscribe_mcp/gmail_service.py:117-129 | One more message adds one to the sum of the counts. |
| `Grouping.InsertOpens` | src/gmail_unsuscribe_mcp/gmail_service.py:117-129 | Recording a message means creating the sender's record if new, then appending to it. |
| `Grouping.InsertListingExisting` | src/gmail_unsuscribe_mcp/gmail_service.py:124-129 | A known sender's record is updated in place in the listing. |
| `Grouping.InsertListingNew` | src/gmail_unsuscribe_mcp/gmail_service.py:118-122 | A new sender's record goes at the end of the listing. |
| `Grouping.GroupMoreGroup` | src/gmail_unsuscribe_mcp/gmail_service.py:96-133 | Grouping a page's kept messages onto the grouping so far equals grouping all kept messages. |
| `Grouping.SortByCount` | src/gmail_unsuscribe_mcp/gmail_service.py:139 | Definition: insertion sort that puts each record after the records with a larger count; the four rows below state that it is descending, a permutation, stable and sum-preserving. |
| `Grouping.SortByCountDescending` | src/gmail_unsuscribe_mcp/gmail_service.py:139 | The sorted list is non-increasing in `email_count`. |
| `Grouping.SortByCountPermutes` | src/gmail_unsuscribe_mcp/gmail_service.py:139 | The sort is a permutation of its input. |
| `Grouping.SortByCountStable` | src/gmail_unsuscribe_mcp/gmail_service.py:139 | Records with equal counts keep their insertion order (`sorted(..., reverse=True)` is stable). |
| `Grouping.SortByCountTotal` | src/gmail_unsuscribe_mcp/gmail_service.py:139 | Sorting keeps the sum of the counts. |
| `Grouping.InsertByCountAt` | src/gmail_unsuscribe_mcp/gmail_service.py:139 | A record is inserted after the leading records with a larger count. |
| `Subscriptions.Subscription.constructor` | src/gmail_unsuscribe_mcp/gmail_service.py:11-20 | A new record has the given address and name, empty lists and a zero count. |
| `Subscriptions.Subscription.Append` | src/gmail_unsuscribe_mcp/gmail_service.py:125-129 | The record's new fields add one subject and one id, the links and mailtos, and one to the count. |
| `Subscriptions.RecordFor` | src/gmail_unsuscribe_mcp/gmail_service.py:117-124 | Finds or creates the record of `from_email.lower()`. The dictionary still mirrors the grouping with the key opened, and any new record is fresh. |
| `Subscriptions.AppendTo` | src/gmail_unsuscribe_mcp/gmail_service.py:124-129 | Appending to one record changes that key's value in the mirrored grouping and no other record. |
| `Subscriptions.RecordMessage` | src/gmail_unsuscribe_mcp/gmail_service.py:117-129 | The dictionary moves from grouping `g` to `Insert(g, c)`, and stays distinct-keyed, insertion-ordered and one record per key. |
| `Subscriptions.VisitMessage` | src/gmail_unsuscribe_mcp/gmail_service.py:106-129 | A message is recorded iff its `List-Unsubscribe` is present and non-empty; a skipped message changes nothing. |
| `Subscriptions.ScanMessage` | src/gmail_unsuscribe_mcp/gmail_service.py:96-133 | One turn of the message loop: the message joins the page's kept ids exactly when recorded, and `processed` grows only then. |
| `Subscriptions.ScanPage` | src/gmail_unsuscribe_mcp/gmail_service.py:96-133 | A page's message loop records the page's first retained messages up to the budget left. `processed` grows by their number, and the dictionary mirrors `g` followed by them. |
| `Subscriptions.CollectPage` | src/gmail_unsuscribe_mcp/gmail_service.py:82-137 | One turn of the page loop: either the loop resumes at the next page, with the requests and kept messages the walk expects, or it has issued all of the walk's requests and kept all of its messages. The dictionary mirrors the grouping of the kept messages, and every record is old or new. |
| `Subscriptions.CollectSubscriptions` | src/gmail_unsuscribe_mcp/gmail_service.py:78-137 | The requests issued are those of `Walk`, and the dictionary holds `Group` of the messages that walk counts. |
| `Subscriptions.HoldsListing` | src/gmail_unsuscribe_mcp/gmail_service.py:139 | `subscriptions.values()` in insertion order are the grouping's records. |
| `Subscriptions.InsertByEmailCount` | src/gmail_unsuscribe_mcp/gmail_service.py:139 | One insertion step of the sort on the record objects, as `InsertByCount` on their values, as a permutation. |
| `Subscriptions.SortByEmailCount` | src/gmail_unsuscribe_mcp/gmail_service.py:139 | The record objects come out in the order `SortByCount` gives their values, as a permutation of the input objects. |
| `Subscriptions.ListSubscriptions` | src/gmail_unsuscribe_mcp/gmail_service.py:70-139 | The result is the stable descending sort of the grouping of the messages `Walk` counts. A non-positive limit gives `[]` and no request. |
| `Subscriptions.ListingWithinLimit` | src/gmail_unsuscribe_mcp/gmail_service.py:70-139 | The counts of the result add up to the number of kept messages, which is at most `max_results`. Every kept message has a non-empty `List-Unsubscribe`. |
| `Search.Describe` | src/gmail_unsuscribe_mcp/gmail_service.py:211-227 | Definition of one result: id, the sender as `ExtractSenderInfo` reads it, the subject and the date or `""` when absent, and whether a `List-Unsubscribe` header is present. |
| `Search.DescribeUnsubscribe` | src/gmail_unsuscribe_mcp/gmail_service.py:216 | `has_unsubscribe` holds iff some header is named `List-Unsubscribe` (any case), whatever its value. |
| `Search.UnsubscribeFlagWiderThanListing` | src/gmail_unsuscribe_mcp/gmail_service.py:216 | Every message the listing keeps is flagged by the search. A present but empty header is flagged by the search yet skipped by the listing. |
| `Search.DescribePage` | src/gmail_unsuscribe_mcp/gmail_service.py:201-231 | The message loop appends one result per message in order and stops once `processed` reaches `max_results`, even mid-page. |
| `Search.DescribesAt` | src/gmail_unsuscribe_mcp/gmail_service.py:201-227 | The i-th result describes the i-th examined message with its own headers. |
| `Search.SearchPage` | src/gmail_unsuscribe_mcp/gmail_service.py:187-235 | One turn of the page loop: the results describe exactly the messages examined, and the loop either resumes at the next page as the walk expects or has issued all of its requests and examined all of its messages. |
| `Search.SearchEmails` | src/gmail_unsuscribe_mcp/gmail_service.py:176-237 | The requests are those of `Walk` counting every message, with one result per examined message in order. A non-positive limit gives `[]` and no request. |
| `Search.SearchWithinLimit` | src/gmail_unsuscribe_mcp/gmail_service.py:187-231 | There are at most `max_results` results, and none for a non-positive limit. |
| `Search.SearchInPageOrder` | src/gmail_unsuscribe_mcp/gmail_service.py:201-231 | The examined messages are a prefix of all page ids laid end to end. |
| `Confirmation.AnyKeyword` | src/gmail_unsuscribe_mcp/gmail_service.py:170 | Definition of `any(kw in visible_text or kw in raw_text ...)`, keyword after keyword. |
| `Confirmation.Confirmed` | src/gmail_unsuscribe_mcp/gmail_service.py:162-173 | Definition: `False` on a failed fetch, otherwise the keyword scan over the lowercased visible text and the lowercased body. |
| `Confirmation.AnyKeywordMeaning` | src/gmail_unsuscribe_mcp/gmail_service.py:170 | `any(...)` holds iff some keyword occurs in one of the two texts. |
| `Confirmation.ConfirmedMeaning` | src/gmail_unsuscribe_mcp/gmail_service.py:162-173 | A failed fetch is `False`. A fetched page is confirmed iff a keyword occurs in the lowercased visible text or the lowercased body. |
| `Confirmation.ConfirmedByThree` | src/gmail_unsuscribe_mcp/gmail_service.py:146-153 | Because of the nested keywords, a page is confirmed iff it mentions "unsubscribed", "removed" or "opted out". |
| `Confirmation.ConfirmedIgnoresCase` | src/gmail_unsuscribe_mcp/gmail_service.py:167-168 | The verdict does not depend on the case of the page. |
| `Server.UrlAccepted` | src/gmail_unsuscribe_mcp/server.py:41 | Definition: the lowercased URL starts with `http://` or `https://`. |
| `Server.Desuscribirse` | src/gmail_unsuscribe_mcp/server.py:36-44 | Definition: the error reply for a rejected URL; otherwise `ok` is the verdict on the fetched page, with the URL echoed. |
| `Server.RejectedUrlNeverVisited` | src/gmail_unsuscribe_mcp/server.py:41-42 | A rejected URL is never visited: the reply does not depend on the fetch, has `ok` false and carries the error. |
| `Server.AcceptedUrlEchoed` | src/gmail_unsuscribe_mcp/server.py:43-44 | Unfolds `Desuscribirse` for an accepted URL: the reply echoes the URL unchanged, with `ok` the verdict of its visit. |
| `Server.ReplyOk` | src/gmail_unsuscribe_mcp/server.py:41-44 | `ok` holds iff the URL passes the gate and the page confirms. |
| `Server.UrlAcceptedPrefix` | src/gmail_unsuscribe_mcp/server.py:41 | The gate holds iff the first 7 or 8 characters, lowercased, are `http://` or `https://`. |
| `Server.UrlAcceptedIgnoresCase` | src/gmail_unsuscribe_mcp/server.py:41 | A URL passes iff its lowercased form does. |
| `Server.UrlGateExamples` | src/gmail_unsuscribe_mcp/server.py:41 | `HTTPS://example.com` passes; a `mailto:` link does not. |
| `Server.SubscriptionBlock` | src/gmail_unsuscribe_mcp/server.py:23-33 | Definition of one record's lines: heading, count, the subject line when there are subjects, one line per web link, one per mailto, then an empty line. |
| `Server.RenderedSubscriptions` | src/gmail_unsuscribe_mcp/server.py:19-34 | Definition: the fixed message alone for no records; otherwise the title and the blocks numbered from 1. |
| `Server.AppendLinkLines` | src/gmail_unsuscribe_mcp/server.py:27-29 | One `Desuscribirse` line per web link, in order. |
| `Server.AppendMailtoLines` | src/gmail_unsuscribe_mcp/server.py:30-32 | One mail-option line per mailto, in order. |
| `Server.AppendSubscriptionBlock` | src/gmail_unsuscribe_mcp/server.py:23-33 | The loop body appends exactly the record's block. |
| `Server.RenderSubscriptions` | src/gmail_unsuscribe_mcp/server.py:19-34 | The lines are the rendering of the records' values. |
| `Server.ListarSuscripciones` | src/gmail_unsuscribe_mcp/server.py:13-34 | The tool renders the listing of the mailbox. |
| `Server.RenderedSubscriptionsEmpty` | src/gmail_unsuscribe_mcp/server.py:19-21 | An empty list renders as the fixed message alone. Otherwise the title comes first and the message never appears. |
| `Server.SubscriptionBlocksHeadings` | src/gmail_unsuscribe_mcp/server.py:22-23 | Records get headings numbered from 1 in list order, one per record. |
| `Server.SubscriptionBlocksLinks` | src/gmail_unsuscribe_mcp/server.py:27-32 | The listing shows every web link and every mailto, record after record, in stored order. |
| `Server.SubscriptionBlockPicks` | src/gmail_unsuscribe_mcp/server.py:23-32 | One block has one heading and its record's links and mailtos in order. |
| `Server.SubscriptionBlockSubjects` | src/gmail_unsuscribe_mcp/server.py:25-26 | There is no subject line without subjects; otherwise one line with the first `min(3, n)` subjects. |
| `Server.ResultBlock` | src/gmail_unsuscribe_mcp/server.py:55-59 | Definition of one result's four lines: sender, subject, date, and `Sí` or `No` for the unsubscribe option. |
| `Server.RenderedResults` | src/gmail_unsuscribe_mcp/server.py:52-60 | Definition: the fixed message alone for no results; otherwise the title and one block per result. |
| `Server.RenderResults` | src/gmail_unsuscribe_mcp/server.py:52-60 | The lines are the rendering of the results. |
| `Server.BuscarEmails` | src/gmail_unsuscribe_mcp/server.py:46-60 | The tool renders the search of the mailbox. |
| `Server.ResultBlocksLayout` | src/gmail_unsuscribe_mcp/server.py:55-59 | Each result gets one four-line block, in result order. |
| `Server.ResultAnswers` | src/gmail_unsuscribe_mcp/server.py:59 | A block answers "Sí" iff `has_unsubscribe`, and "No" otherwise. |
| `Server.RenderedResultsEmpty` | src/gmail_unsuscribe_mcp/server.py:52-60 | No results render as the fixed message alone; otherwise the title comes first, then four lines per result, and the message never appears. |

## Left out

- OAuth and the construction of the Gmail client (`gmail_auth.py`) are not part of this model.
- The Gmail RPCs are inputs:
  - The list call is a finite script of answers, and the metadata fetch a map from id to headers.
  - RPC errors, which propagate in the source, are not modelled.
  - Past the end of the script every answer is an empty page. The source's loop can run forever when the server keeps returning tokens and no message is ever retained; the model cannot.
- The HTTP visit is not modelled: redirects, timeout, `User-Agent` and async execution. Its result is a `FetchOutcome`. BeautifulSoup's `get_text` is not modelled either: the visible text is an opaque input.
- Unicode is restricted to ASCII:
  - `lower()` maps only ASCII letters.
  - `strip()` and `\s` use ASCII whitespace, including `\x1c`–`\x1f`.
- `json.dumps`, the Markdown text of each line, the f-string formatting of numbers and `"\n".join` are left out. Rendered output is a sequence of structured lines, one per appended line.
- FastMCP registration and `main` are not modelled.
- Default arguments are not modelled. Every caller passes the limit. The source's defaults are `list_subscriptions(max_results=100)` (gmail_service.py:70), `search_emails(query, max_results=50)` (gmail_service.py:176), `_listar_suscripciones(max_resultados=100)` (server.py:14) and `buscar_emails(consulta, max_resultados=20)` (server.py:47). A call that omits the limit behaves as the model does with that constant passed.
- `unsubscribe_http` keeps the URL it was given. The gate's lowercasing is used only for the test.
- Subscription records are objects updated in place. The rendering and sorting methods read them; aliasing between records is excluded by the dictionary invariant `Apart`.
