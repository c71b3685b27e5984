/**
 * The header parser: case-insensitive header lookup, the sender identity taken
 * from the `From` header, and the targets advertised by a `List-Unsubscribe`
 * header (section 3.2 of RFC 2369, read the simplified way the service does).
 *
 * The two regular expressions the service uses are stated directly over
 * strings rather than through a regex engine.
 */
module Headers {
  import opened Options
  import opened Text

  /** One metadata header as the mailbox delivers it. */
  datatype Header = Header(name: string, value: string)

  /** Who sent a message: a display name and an address. */
  datatype Sender = Sender(name: string, address: string)

  predicate NameIs(h: Header, name: string) {
    Lower(h.name) == Lower(name)
  }

  /**
   * `_get_header_value`: the value of the first header whose name equals
   * `name` ignoring case, or `None` when no header has that name; later
   * headers of the same name are ignored.
   */
  function GetHeaderValue(headers: seq<Header>, name: string): Option<string>
  {
    if headers == [] then None
    else if NameIs(headers[0], name) then Some(headers[0].value)
    else GetHeaderValue(headers[1..], name)
  }

  /**
   * The lookup finds nothing exactly when no header has the name, and
   * otherwise yields the value of the first header that has it.
   */
  lemma {:induction false} GetHeaderValueFirst(headers: seq<Header>, name: string)
    ensures GetHeaderValue(headers, name).None? <==> forall i :: 0 <= i < |headers| ==> !NameIs(headers[i], name)
    ensures GetHeaderValue(headers, name).Some? ==>
      exists i :: 0 <= i < |headers| && NameIs(headers[i], name) && headers[i].value == GetHeaderValue(headers, name).value &&
        forall j :: 0 <= j < i ==> !NameIs(headers[j], name)
  {
    if headers != [] && !NameIs(headers[0], name) {
      GetHeaderValueFirst(headers[1..], name);
      assert forall j :: 1 <= j < |headers| ==> headers[j] == headers[1..][j - 1];
      if GetHeaderValue(headers, name).Some? {
        var i :| 0 <= i < |headers[1..]| && NameIs(headers[1..][i], name) &&
          headers[1..][i].value == GetHeaderValue(headers, name).value &&
          forall j :: 0 <= j < i ==> !NameIs(headers[1..][j], name);
        assert NameIs(headers[i + 1], name);
      }
    }
  }

  // ---------------------------------------------------------------------------
  // The `From` pattern `^(.+?)\s*<(.+?)>$` (no DOTALL: `.` never matches a
  // newline; `$` matches at the end or just before a final newline).
  // ---------------------------------------------------------------------------

  /**
   * Where the `>` closing the address group can sit: `$` lets it be the last
   * character, or the one before a final newline. The lazy address group
   * extends to that one `>`, so an address may itself hold `>` characters.
   */
  function ClosingBracket(s: string): (r: Option<nat>)
    ensures r.Some? ==> r.value < |s| && s[r.value] == '>'
    ensures r.Some? ==> r.value == |s| - 1 || (r.value == |s| - 2 && s[|s| - 1] == '\n')
    ensures r.None? ==> !(|s| >= 1 && s[|s| - 1] == '>') && !(|s| >= 2 && s[|s| - 2..] == ">\n")
  {
    if |s| >= 1 && s[|s| - 1] == '>' then Some(|s| - 1)
    else if |s| >= 2 && s[|s| - 1] == '\n' && s[|s| - 2] == '>' then Some(|s| - 2)
    else None
  }

  /** The first index at or after `i` that is not whitespace: where `\s*` stops. */
  function SkipSpace(s: string, i: nat): (j: nat)
    requires i <= |s|
    ensures i <= j <= |s|
    ensures forall k :: i <= k < j ==> s[k] in Whitespace
    ensures j == |s| || s[j] !in Whitespace
    decreases |s| - i
  {
    if i < |s| && s[i] in Whitespace then SkipSpace(s, i + 1) else i
  }

  /**
   * Ending the name group at `p` lets the rest of the pattern match against the
   * closing bracket at `close`: the name has no newline, `\s*` leads to a `<`,
   * and a non-empty, newline-free address lies between that `<` and `close`.
   */
  predicate Splits(s: string, close: nat, p: nat)
    requires close < |s|
  {
    1 <= p < close && '\n' !in s[..p] &&
    var q := SkipSpace(s, p);
    q + 1 < close && s[q] == '<' && '\n' !in s[q + 1..close]
  }

  /**
   * The lazy name group `(.+?)`: the first end position `p >= start` that
   * lets the rest of the pattern match, with the position `q` of its `<`.
   */
  function NameEnd(s: string, close: nat, start: nat): (r: Option<(nat, nat)>)
    requires close < |s| && 1 <= start <= |s|
    ensures r.Some? ==> r.value.0 < close && r.value.1 + 1 < close
    decreases |s| - start
  {
    if start >= close || s[start - 1] == '\n' then None
    else
      var q := SkipSpace(s, start);
      if q + 1 < close && s[q] == '<' && '\n' !in s[q + 1..close] then Some((start, q))
      else NameEnd(s, close, start + 1)
  }

  /** When the search finds an end at or after `start`, it lets the pattern continue there. */
  lemma {:induction false} NameEndFound(s: string, close: nat, start: nat)
    requires close < |s| && 1 <= start <= |s|
    requires '\n' !in s[..start - 1]
    ensures var r := NameEnd(s, close, start);
      r.Some? ==> start <= r.value.0 && Splits(s, close, r.value.0) && r.value.1 == SkipSpace(s, r.value.0)
    decreases |s| - start
  {
    if start < close && s[start - 1] != '\n' {
      assert s[..start] == s[..start - 1] + [s[start - 1]];
      var q := SkipSpace(s, start);
      if !(q + 1 < close && s[q] == '<' && '\n' !in s[q + 1..close]) {
        assert NameEnd(s, close, start) == NameEnd(s, close, start + 1);
        NameEndFound(s, close, start + 1);
      }
    }
  }

  /** The end the search finds is the first one at or after `start` that lets the pattern continue. */
  lemma {:induction false} NameEndFirst(s: string, close: nat, start: nat)
    requires close < |s| && 1 <= start <= |s|
    ensures var r := NameEnd(s, close, start);
      r.Some? ==> forall p :: start <= p < r.value.0 ==> !Splits(s, close, p)
    decreases |s| - start
  {
    if start < close && s[start - 1] != '\n' {
      var q := SkipSpace(s, start);
      if !(q + 1 < close && s[q] == '<' && '\n' !in s[q + 1..close]) {
        assert NameEnd(s, close, start) == NameEnd(s, close, start + 1);
        NameEndFirst(s, close, start + 1);
      }
    }
  }

  /** When the search finds nothing, no end at or after `start` lets the pattern continue. */
  lemma {:induction false} NameEndNone(s: string, close: nat, start: nat)
    requires close < |s| && 1 <= start <= |s|
    requires '\n' !in s[..start - 1]
    ensures NameEnd(s, close, start).None? ==> forall p :: start <= p ==> !Splits(s, close, p)
    decreases |s| - start
  {
    if start >= close {
    } else if s[start - 1] == '\n' {
      NoSplitPastNewline(s, close, start);
    } else {
      assert s[..start] == s[..start - 1] + [s[start - 1]];
      var q := SkipSpace(s, start);
      if !(q + 1 < close && s[q] == '<' && '\n' !in s[q + 1..close]) {
        assert NameEnd(s, close, start) == NameEnd(s, close, start + 1);
        NameEndNone(s, close, start + 1);
      }
    }
  }

  /** The name group cannot run over a line break. */
  lemma NoSplitPastNewline(s: string, close: nat, start: nat)
    requires close < |s| && 1 <= start <= |s| && s[start - 1] == '\n'
    ensures forall p :: start <= p ==> !Splits(s, close, p)
  {
    forall p | start <= p < close
      ensures '\n' in s[..p]
    {
      assert s[..p][start - 1] == '\n';
    }
  }

  /** `re.match(r"^(.+?)\s*<(.+?)>$", s)`: the name group and the address group, when it matches. */
  function MatchFrom(s: string): Option<(string, string)> {
    match ClosingBracket(s)
    case None => None
    case Some(close) =>
      match NameEnd(s, close, 1)
      case None => None
      case Some((p, q)) => Some((s[..p], s[q + 1..close]))
  }

  /**
   * The pattern matches exactly when some end of the name group lets the rest
   * of it match; the name group is then the shortest such prefix, and the
   * address group runs from after the `<` to the closing bracket.
   */
  lemma MatchFromMeaning(s: string)
    ensures MatchFrom(s).None? <==> ClosingBracket(s).None? || forall p: nat :: !Splits(s, ClosingBracket(s).value, p)
    ensures MatchFrom(s).Some? ==>
      ClosingBracket(s).Some? &&
      var close, p := ClosingBracket(s).value, |MatchFrom(s).value.0|;
      Splits(s, close, p) && (forall p': nat :: p' < p ==> !Splits(s, close, p')) &&
      MatchFrom(s).value == (s[..p], s[SkipSpace(s, p) + 1..close])
  {
    if ClosingBracket(s).Some? {
      NameEndFound(s, ClosingBracket(s).value, 1);
      NameEndFirst(s, ClosingBracket(s).value, 1);
      NameEndNone(s, ClosingBracket(s).value, 1);
    }
  }

  /**
   * `_extract_sender_info`: the first `From` header (case-insensitively);
   * when the pattern matches, the name group stripped of whitespace and then of
   * every leading and trailing `"`, and the address group stripped of
   * whitespace; otherwise the stripped raw value as both; `""` without a header.
   */
  function ExtractSenderInfo(headers: seq<Header>): Sender {
    var from := GetHeaderValue(headers, "From").GetOr("");
    match MatchFrom(from)
    case Some((name, address)) => Sender(Strip(Strip(name, Whitespace), {'"'}), Strip(address, Whitespace))
    case None => Sender(Strip(from, Whitespace), Strip(from, Whitespace))
  }

  /** Without a `From` header both name and address are empty. */
  lemma SenderWithoutFrom(headers: seq<Header>)
    requires GetHeaderValue(headers, "From").None?
    ensures ExtractSenderInfo(headers) == Sender("", "")
  {
    assert ClosingBracket("").None?;
  }

  /**
   * A value with no `<` after its first character never matches, so both
   * fields are the stripped raw value.
   */
  lemma SenderFallback(headers: seq<Header>, from: string)
    requires GetHeaderValue(headers, "From") == Some(from)
    requires |from| > 0 && '<' !in from[1..]
    ensures ExtractSenderInfo(headers) == Sender(Strip(from, Whitespace), Strip(from, Whitespace))
  {
    MatchFromMeaning(from);
    match ClosingBracket(from)
    case None =>
    case Some(close) =>
      forall p: nat
        ensures !Splits(from, close, p)
      {
        if 1 <= p < close {
          var q := SkipSpace(from, p);
          if q < |from| {
            assert from[q] == from[1..][q - 1];
          }
        }
      }
  }

  /**
   * A bare `<address>` falls back to the raw value as both name and address,
   * because the name group needs at least one character before the `<`.
   */
  lemma BracketedAddressShape(address: string)
    requires '<' !in address
    ensures var from := "<" + address + ">";
      |from| > 0 && '<' !in from[1..] && Strip(from, Whitespace) == from
  {
    var from := "<" + address + ">";
    assert from[1..] == address + ">";
    assert from[0] == '<' && from[|from| - 1] == '>';
    StripUnchanged(from, Whitespace);
  }

  lemma BareAddressFallsBack(headers: seq<Header>, address: string)
    requires '<' !in address
    requires GetHeaderValue(headers, "From") == Some("<" + address + ">")
    ensures ExtractSenderInfo(headers) == Sender("<" + address + ">", "<" + address + ">")
  {
    BracketedAddressShape(address);
    SenderFallback(headers, "<" + address + ">");
  }

  /**
   * A well-formed `Name <address>` value gives back the name and the address,
   * whatever layers of double quotes surround the name: the round trip between
   * formatting a sender and extracting it.
   */
  lemma {:induction false} SenderRoundTrip(headers: seq<Header>, quotes: string, name: string, address: string)
    requires forall c :: c in quotes ==> c == '"'
    requires |name| > 0 && '<' !in name && '\n' !in name
    requires name[0] !in Whitespace + {'"'} && name[|name| - 1] !in Whitespace + {'"'}
    requires |address| > 0 && '\n' !in address
    requires address[0] !in Whitespace && address[|address| - 1] !in Whitespace
    requires GetHeaderValue(headers, "From") == Some(quotes + name + quotes + " <" + address + ">")
    ensures ExtractSenderInfo(headers) == Sender(name, address)
  {
    var group := quotes + name + quotes;
    var n := |group|;
    forall k | 0 <= k < n
      ensures group[k] != '<' && group[k] != '\n'
    {
      if k < |quotes| {
        assert group[k] == quotes[k] && quotes[k] in quotes;
      } else if k < |quotes| + |name| {
        assert group[k] == name[k - |quotes|] && name[k - |quotes|] in name;
      } else {
        assert group[k] == quotes[k - |quotes| - |name|] && quotes[k - |quotes| - |name|] in quotes;
      }
    }
    assert group[n - 1] !in Whitespace by {
      if quotes != [] {
        assert group[n - 1] == quotes[|quotes| - 1] && quotes[|quotes| - 1] in quotes;
      } else {
        assert group[n - 1] == name[|name| - 1];
      }
    }
    assert group[0] !in Whitespace by {
      if quotes != [] {
        assert group[0] == quotes[0] && quotes[0] in quotes;
      } else {
        assert group[0] == name[0];
      }
    }
    assert quotes + name + quotes + " <" + address + ">" == group + " <" + address + ">";
    FormattedFromMatches(group, address);
    StripUnchanged(group, Whitespace);
    StripPadding(quotes, name, quotes, {'"'});
    StripUnchanged(address, Whitespace);
  }

  /** The pattern splits `group <address>` right after the group when the group holds no `<` and ends in a visible character. */
  lemma FormattedFromMatches(group: string, address: string)
    requires group != [] && group[|group| - 1] !in Whitespace
    requires forall k :: 0 <= k < |group| ==> group[k] != '<' && group[k] != '\n'
    requires address != [] && '\n' !in address
    ensures MatchFrom(group + " <" + address + ">") == Some((group, address))
  {
    var s := group + " <" + address + ">";
    assert ClosingBracket(s) == Some(|s| - 1);
    FormattedFromSplitsLate(group, address, s, |s| - 1);
    FormattedFromSplitsThere(group, address);
    MatchFromMeaning(s);
  }

  /** No end of the name group before the whole group lets the pattern continue. */
  lemma FormattedFromSplitsLate(group: string, address: string, s: string, close: nat)
    requires group != [] && group[|group| - 1] !in Whitespace
    requires forall k :: 0 <= k < |group| ==> group[k] != '<'
    requires s == group + " <" + address + ">" && close == |s| - 1
    ensures forall p :: 1 <= p < |group| ==> !Splits(s, close, p)
  {
    var n := |group|;
    forall p | 1 <= p < n
      ensures !Splits(s, close, p)
    {
      var q := SkipSpace(s, p);
      assert s[n - 1] == group[n - 1];
      assert q < n;
      assert s[q] == group[q];
    }
  }

  /** Ending the name group right after `group` lets the pattern match `address`. */
  lemma FormattedFromSplitsThere(group: string, address: string)
    requires group != [] && forall k :: 0 <= k < |group| ==> group[k] != '\n'
    requires address != [] && '\n' !in address
    ensures var s := group + " <" + address + ">";
      Splits(s, |s| - 1, |group|) && s[..|group|] == group &&
      s[SkipSpace(s, |group|) + 1..|s| - 1] == address
  {
    var s := group + " <" + address + ">";
    var n, close := |group|, |s| - 1;
    assert s[n] == ' ' && s[n + 1] == '<';
    assert SkipSpace(s, n + 1) == n + 1;
    assert SkipSpace(s, n) == n + 1;
    assert s[..n] == group;
    assert s[n + 2..close] == address;
  }

  // ---------------------------------------------------------------------------
  // `List-Unsubscribe`: `re.findall(r"<([^>]+)>", value)` and the prefix test.
  // ---------------------------------------------------------------------------

  /** The index of the first `c` in `s`. */
  function IndexOf(s: string, c: char): (i: nat)
    requires c in s
    ensures i < |s| && s[i] == c && c !in s[..i]
  {
    if s[0] == c then 0
    else
      var i := 1 + IndexOf(s[1..], c);
      assert s[..i] == [s[0]] + s[1..][..i - 1];
      i
  }

  /**
   * The texts `re.findall(r"<([^>]+)>", s)` returns, left to right: at a `<`
   * the group runs to the next `>` and must be non-empty; the scan resumes
   * after that `>`, or one character further when nothing matched.
   */
  function Tokens(s: string): seq<string>
    decreases |s|
  {
    if s == [] then []
    else if s[0] == '<' && '>' in s[1..] then
      var j := IndexOf(s[1..], '>');
      if j == 0 then Tokens(s[1..])
      else [s[1..1 + j]] + Tokens(s[j + 2..])
    else Tokens(s[1..])
  }

  /**
   * Every token is non-empty, holds no `>`, and appears in the header value
   * enclosed in angle brackets.
   */
  lemma {:induction false} TokensAreBracketed(s: string)
    ensures forall t :: t in Tokens(s) ==> t != [] && '>' !in t && Contains(s, "<" + t + ">")
    decreases |s|
  {
    if s == [] {
    } else if s[0] == '<' && '>' in s[1..] {
      var j := IndexOf(s[1..], '>');
      if j == 0 {
        TokensAreBracketed(s[1..]);
        ShiftContains(s, 1);
      } else {
        TokensAreBracketed(s[j + 2..]);
        ShiftContains(s, j + 2);
        var t := s[1..1 + j];
        assert s[0..j + 2] == "<" + t + ">";
        assert OccursAt(s, "<" + t + ">", 0);
        assert s[1..][..j] == t;
      }
    } else {
      TokensAreBracketed(s[1..]);
      ShiftContains(s, 1);
    }
  }

  /** What a suffix of `s` contains, `s` contains. */
  lemma ShiftContains(s: string, k: nat)
    requires k <= |s|
    ensures forall t :: Contains(s[k..], t) ==> Contains(s, t)
  {
    forall t | Contains(s[k..], t)
      ensures Contains(s, t)
    {
      var i: nat :| i <= |s[k..]| && OccursAt(s[k..], t, i);
      assert s[k + i..k + i + |t|] == s[k..][i..i + |t|];
      assert OccursAt(s, t, k + i);
    }
  }

  predicate IsHttpLink(t: string) {
    StartsWith(t, "http://") || StartsWith(t, "https://")
  }

  /** A token is kept as a mail link when it is not a web link and has the `mailto:` prefix. */
  predicate IsMailto(t: string) {
    !IsHttpLink(t) && StartsWith(t, "mailto:")
  }

  /** The tokens that satisfy `keep`, in their order. */
  function Filter(tokens: seq<string>, keep: string -> bool): (kept: seq<string>)
    ensures |kept| <= |tokens|
  {
    if tokens == [] then []
    else
      var last := tokens[|tokens| - 1];
      Filter(tokens[..|tokens| - 1], keep) + (if keep(last) then [last] else [])
  }

  /** Only tokens that satisfy `keep` are kept, and only tokens of the input. */
  lemma {:induction false} FilterKeeps(tokens: seq<string>, keep: string -> bool)
    ensures forall t :: t in Filter(tokens, keep) ==> keep(t) && t in tokens
  {
    if tokens != [] {
      FilterKeeps(tokens[..|tokens| - 1], keep);
    }
  }

  /** Every token that satisfies `keep` is kept. */
  lemma {:induction false} FilterComplete(tokens: seq<string>, keep: string -> bool)
    ensures forall i :: 0 <= i < |tokens| && keep(tokens[i]) ==> tokens[i] in Filter(tokens, keep)
  {
    if tokens != [] {
      var n := |tokens| - 1;
      FilterComplete(tokens[..n], keep);
      forall i | 0 <= i < |tokens| && keep(tokens[i])
        ensures tokens[i] in Filter(tokens, keep)
      {
        if i < n {
          assert tokens[..n][i] == tokens[i];
        }
      }
    }
  }

  /** The positions in `tokens` of the tokens that satisfy `keep`. */
  function Positions(tokens: seq<string>, keep: string -> bool): seq<nat> {
    if tokens == [] then []
    else
      var n := |tokens| - 1;
      Positions(tokens[..n], keep) + (if keep(tokens[n]) then [n] else [])
  }

  /**
   * Filtering keeps the order of appearance: the kept tokens sit at strictly
   * increasing positions of the original sequence.
   */
  lemma {:induction false} FilterKeepsOrder(tokens: seq<string>, keep: string -> bool)
    ensures var kept, at := Filter(tokens, keep), Positions(tokens, keep);
      |at| == |kept| &&
      (forall i :: 0 <= i < |at| ==> at[i] < |tokens| && kept[i] == tokens[at[i]]) &&
      (forall i, j :: 0 <= i < j < |at| ==> at[i] < at[j])
  {
    if tokens != [] {
      var n := |tokens| - 1;
      FilterKeepsOrder(tokens[..n], keep);
    }
  }

  /** A web link and a mail link are never the same token, so the two lists never hold more than the tokens. */
  lemma {:induction false} ClassifiedAtMostTokens(tokens: seq<string>)
    ensures |Filter(tokens, IsHttpLink)| + |Filter(tokens, IsMailto)| <= |tokens|
  {
    if tokens != [] {
      ClassifiedAtMostTokens(tokens[..|tokens| - 1]);
    }
  }

  /**
   * `_parse_unsubscribe_header`: walks the `<...>` tokens in order, appending
   * those with an `http://` or `https://` prefix to the links and those with a
   * `mailto:` prefix to the mailtos and dropping the rest; the prefix test is
   * case-sensitive.
   */
  method ParseUnsubscribeHeader(value: string) returns (links: seq<string>, mailtos: seq<string>)
    ensures links == Filter(Tokens(value), IsHttpLink) && mailtos == Filter(Tokens(value), IsMailto)
    ensures forall l :: l in links ==> StartsWith(l, "http://") || StartsWith(l, "https://")
    ensures forall m :: m in mailtos ==> StartsWith(m, "mailto:")
    ensures forall t :: t in Tokens(value) && IsHttpLink(t) ==> t in links
    ensures forall t :: t in Tokens(value) && IsMailto(t) ==> t in mailtos
    ensures |links| + |mailtos| <= |Tokens(value)|
  {
    links, mailtos := [], [];
    var matches := Tokens(value);
    for i := 0 to |matches|
      invariant links == Filter(matches[..i], IsHttpLink) && mailtos == Filter(matches[..i], IsMailto)
    {
      var match_ := matches[i];
      assert matches[..i + 1][..i] == matches[..i];
      if StartsWith(match_, "http://") || StartsWith(match_, "https://") {
        links := links + [match_];
      } else if StartsWith(match_, "mailto:") {
        mailtos := mailtos + [match_];
      }
    }
    assert matches[..|matches|] == matches;
    ClassifiedAtMostTokens(matches);
    FilterKeeps(matches, IsHttpLink);
    FilterKeeps(matches, IsMailto);
    FilterComplete(matches, IsHttpLink);
    FilterComplete(matches, IsMailto);
  }

  /** The header value advertising `targets` in the usual `<a>, <b>` layout. */
  function Advertise(targets: seq<string>): string {
    if targets == [] then ""
    else if |targets| == 1 then "<" + targets[0] + ">"
    else "<" + targets[0] + ">, " + Advertise(targets[1..])
  }

  /**
   * Reading back an advertised list gives the targets again, in order, as long
   * as none is empty or holds a `>`: the tokenizer inverts the layout.
   */
  lemma {:induction false} TokensRoundTrip(targets: seq<string>)
    requires forall t :: t in targets ==> t != [] && '>' !in t
    ensures Tokens(Advertise(targets)) == targets
  {
    if targets != [] {
      var t := targets[0];
      assert t in targets;
      if |targets| == 1 {
        assert targets == [t];
        TokensOfSingle(t);
      } else {
        assert forall x :: x in targets[1..] ==> x in targets;
        TokensRoundTrip(targets[1..]);
        assert targets == [t] + targets[1..];
        TokensOfCons(t, targets[1..]);
      }
    }
  }

  /** A single advertised target reads back as itself. */
  lemma TokensOfSingle(t: string)
    requires t != [] && '>' !in t
    ensures Tokens(Advertise([t])) == [t]
  {
    TokensOfBracketed(t, "");
    assert "<" + t + ">" + "" == Advertise([t]);
  }

  /** Advertising one more target in front adds it in front of what reads back. */
  lemma TokensOfCons(t: string, ts: seq<string>)
    requires t != [] && '>' !in t && ts != [] && Tokens(Advertise(ts)) == ts
    ensures Tokens(Advertise([t] + ts)) == [t] + ts
  {
    var rest := Advertise(ts);
    assert ([t] + ts)[1..] == ts;
    assert Advertise([t] + ts) == "<" + t + ">" + (", " + rest);
    assert (", " + rest)[1..] == " " + rest;
    assert (" " + rest)[1..] == rest;
    TokensOfBracketed(t, ", " + rest);
  }

  lemma TokensOfBracketed(t: string, rest: string)
    requires t != [] && '>' !in t
    ensures Tokens("<" + t + ">" + rest) == [t] + Tokens(rest)
  {
    var s := "<" + t + ">" + rest;
    assert s[1..] == t + ">" + rest;
    assert s[1..][|t|] == '>';
    var j := IndexOf(s[1..], '>');
    assert forall i :: 0 <= i < |t| ==> s[1..][i] == t[i];
    assert forall i :: |t| < i <= |s[1..]| ==> s[1..][..i][|t|] == '>';
    assert j == |t|;
    assert s[1..1 + j] == t;
    assert s[j + 2..] == rest;
  }
}
