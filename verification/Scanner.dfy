/**
 The hand-written scanner for post text: URLs, hashtags and `@` mentions. `Lex` cuts a text into
 segments; the program's three walks over a post (two converters and the token scanner) are proved
 against it.
 */
module Scanner {
  import opened Options

  /** The Unicode character classes the scanner asks about. */
  datatype Unicode = Unicode(alphanumeric: char -> bool, alphabetic: char -> bool, whitespace: char -> bool)

  datatype Class = IdentClass | DomainClass | TagClass | UrlClass

  predicate InClass(u: Unicode, cls: Class, c: char) {
    match cls
    case IdentClass => u.alphanumeric(c) || c == '_' || c == '-' || c == '.'
    case DomainClass => u.alphanumeric(c) || c == '.' || c == '-'
    case TagClass => u.alphanumeric(c) || c == '_'
    case UrlClass => !(u.whitespace(c) || c == '<' || c == '>' || c == '(' || c == ')' || c == '[' || c == ']')
  }

  predicate AsciiAlphanumeric(c: char) {
    'a' <= c <= 'z' || 'A' <= c <= 'Z' || '0' <= c <= '9'
  }

  /** The end of the longest run of class characters from `i` on. */
  function RunEnd(u: Unicode, cls: Class, text: string, i: nat): (end: nat)
    requires i <= |text|
    ensures i <= end <= |text|
    decreases |text| - i
  {
    if i < |text| && InClass(u, cls, text[i]) then RunEnd(u, cls, text, i + 1) else i
  }

  /** The run holds only class characters and cannot be extended. */
  lemma {:induction false} RunIsMaximal(u: Unicode, cls: Class, text: string, i: nat)
    requires i <= |text|
    ensures var end := RunEnd(u, cls, text, i);
            && (forall k :: i <= k < end ==> InClass(u, cls, text[k]))
            && (end < |text| ==> !InClass(u, cls, text[end]))
    decreases |text| - i
  {
    if i < |text| && InClass(u, cls, text[i]) { RunIsMaximal(u, cls, text, i + 1); }
  }

  predicate StartsAt(text: string, i: nat, prefix: string)
    requires i <= |text|
  {
    i + |prefix| <= |text| && text[i..i + |prefix|] == prefix
  }

  /** The end of the URL starting at `start`, if one starts there. */
  function UrlEnd(u: Unicode, text: string, start: nat): (end: Option<nat>)
    requires start <= |text|
    ensures end.Some? ==> start + 8 <= end.value <= |text|
  {
    var prefix := if StartsAt(text, start, "https://") then 8 else if StartsAt(text, start, "http://") then 7 else 0;
    if prefix == 0 then None
    else
      var end := RunEnd(u, UrlClass, text, start + prefix);
      if end == start + prefix then None else Some(end)
  }

  /** May a `#` at `start` open a tag, judging by the character before it? */
  predicate TagMayStart(text: string, start: nat)
    requires start < |text|
  {
    start == 0 || !(AsciiAlphanumeric(text[start - 1]) || text[start - 1] == '_' || text[start - 1] == '/')
  }

  /** The body and the end of the hashtag whose `#` is at `start`, if it is one. */
  function TagAt(u: Unicode, text: string, start: nat): (tag: Option<(string, nat)>)
    requires start < |text|
    ensures tag.Some? ==> start + 1 < tag.value.1 <= |text| && tag.value.0 == text[start + 1..tag.value.1]
  {
    if !TagMayStart(text, start) then None
    else
      var end := RunEnd(u, TagClass, text, start + 1);
      var body := text[start + 1..end];
      if exists k :: 0 <= k < |body| && u.alphabetic(body[k]) then Some((body, end)) else None
  }

  datatype Segment =
    | Plain(c: char)                            // copied as it is
    | Url(url: string)
    | Tag(body: string)
    | Handle(user: string)                      // @user
    | Address(user: string, domain: string)     // @user@domain
    | Dangling(user: string)                    // @user@ with no domain after it

  /** The text a segment was cut from. */
  function Source(s: Segment): string {
    match s
    case Plain(c) => [c]
    case Url(url) => url
    case Tag(body) => "#" + body
    case Handle(user) => "@" + user
    case Address(user, domain) => "@" + user + "@" + domain
    case Dangling(user) => "@" + user + "@"
  }

  /** An `@` right after an ASCII word character belongs to a mail address. */
  predicate MailAt(text: string, i: nat)
    requires i < |text|
  {
    i > 0 && (AsciiAlphanumeric(text[i - 1]) || text[i - 1] == '_')
  }

  function MentionAt(u: Unicode, text: string, i: nat): (r: (Segment, nat))
    requires i < |text| && text[i] == '@'
    ensures i < r.1 <= |text|
  {
    var end := RunEnd(u, IdentClass, text, i + 1);
    var domainEnd := if end < |text| && text[end] == '@' then RunEnd(u, DomainClass, text, end + 1) else end;
    MentionCut(text, i, end, domainEnd)
  }

  /** What stands at the `@`, given where the name and, behind a second `@`, the domain end. */
  function MentionCut(text: string, i: nat, end: nat, domainEnd: nat): (Segment, nat)
    requires i < end <= domainEnd <= |text|
  {
    if end == i + 1 then (Plain('@'), end)
    else
      var user := text[i + 1..end];
      if domainEnd == end then (Handle(user), end)
      else if domainEnd == end + 1 then (Dangling(user), domainEnd)
      else (Address(user, text[end + 1..domainEnd]), domainEnd)
  }

  /** The segment at `i` and where the next one starts. */
  function SegmentAt(u: Unicode, text: string, i: nat): (r: (Segment, nat))
    requires i < |text|
    ensures i < r.1 <= |text|
  {
    var url := if text[i] == 'h' then UrlEnd(u, text, i) else None;
    var tag := if text[i] == '#' then TagAt(u, text, i) else None;
    if url.Some? then (Url(text[i..url.value]), url.value)
    else if tag.Some? then (Tag(tag.value.0), tag.value.1)
    else if text[i] != '@' || MailAt(text, i) then (Plain(text[i]), i + 1)
    else MentionAt(u, text, i)
  }

  function Lex(u: Unicode, text: string, i: nat): seq<Segment>
    requires i <= |text|
    decreases |text| - i
  {
    if i == |text| then []
    else var (s, end) := SegmentAt(u, text, i); [s] + Lex(u, text, end)
  }

  function Sources(segments: seq<Segment>): string {
    if segments == [] then "" else Source(segments[0]) + Sources(segments[1..])
  }

  lemma AtAndRun(text: string, i: nat, end: nat)
    requires i < end <= |text| && text[i] == '@'
    ensures "@" + text[i + 1..end] == text[i..end]
  {
  }

  lemma MentionSource(u: Unicode, text: string, i: nat)
    requires i < |text| && text[i] == '@'
    ensures var (s, end) := MentionAt(u, text, i); Source(s) == text[i..end]
  {
    var end := RunEnd(u, IdentClass, text, i + 1);
    var domainEnd := if end < |text| && text[end] == '@' then RunEnd(u, DomainClass, text, end + 1) else end;
    CutSource(text, i, end, domainEnd);
  }

  lemma CutSource(text: string, i: nat, end: nat, domainEnd: nat)
    requires i < end <= domainEnd <= |text| && text[i] == '@' && (end < domainEnd ==> text[end] == '@')
    ensures var (s, e) := MentionCut(text, i, end, domainEnd); Source(s) == text[i..e]
  {
    AtAndRun(text, i, end);
    if end < domainEnd { AtAndTwoRuns(text, i, end, domainEnd); }
  }

  lemma AtAndTwoRuns(text: string, i: nat, end: nat, domainEnd: nat)
    requires i < end < domainEnd <= |text| && text[i] == '@' && text[end] == '@'
    ensures "@" + text[i + 1..end] + "@" + text[end + 1..domainEnd] == text[i..domainEnd]
    ensures domainEnd == end + 1 ==> "@" + text[i + 1..end] + "@" == text[i..domainEnd]
  {
    AtAndRun(text, i, end);
    assert text[i..end] + "@" == text[i..end + 1];
    assert text[i..end + 1] + text[end + 1..domainEnd] == text[i..domainEnd];
  }

  /** A segment is cut from exactly the characters it spans. */
  lemma SegmentSource(u: Unicode, text: string, i: nat)
    requires i < |text|
    ensures var (s, end) := SegmentAt(u, text, i); Source(s) == text[i..end]
  {
    if text[i] == '#' {
      var tag := TagAt(u, text, i);
      if tag.Some? { assert "#" + tag.value.0 == text[i..tag.value.1]; }
    }
    if text[i] == '@' { MentionSource(u, text, i); }
  }

  lemma SourcesJoin(text: string, i: nat, end: nat, s: Segment, rest: seq<Segment>)
    requires i <= end <= |text| && Source(s) == text[i..end] && Sources(rest) == text[end..]
    ensures Sources([s] + rest) == text[i..]
  {
    assert ([s] + rest)[1..] == rest;
    assert text[i..end] + text[end..] == text[i..];
  }

  /** Cutting loses nothing. */
  lemma {:induction false} LexIsLossless(u: Unicode, text: string, i: nat)
    requires i <= |text|
    ensures Sources(Lex(u, text, i)) == text[i..]
    decreases |text| - i
  {
    if i < |text| {
      var s, end := LexStep(u, text, i);
      LexIsLossless(u, text, end);
      SourcesJoin(text, i, end, s, Lex(u, text, end));
    }
  }

  lemma LexStep(u: Unicode, text: string, i: nat) returns (s: Segment, end: nat)
    requires i < |text|
    ensures (s, end) == SegmentAt(u, text, i)
    ensures i < end <= |text| && Lex(u, text, i) == [s] + Lex(u, text, end) && Source(s) == text[i..end]
  {
    s, end := SegmentAt(u, text, i).0, SegmentAt(u, text, i).1;
    SegmentSource(u, text, i);
  }

  /** The segments from `i` on, after those already cut. */
  function Cut(u: Unicode, text: string, i: nat, done: seq<Segment>): seq<Segment>
    requires i <= |text|
    decreases |text| - i
  {
    if i == |text| then done
    else var (s, end) := SegmentAt(u, text, i); Cut(u, text, end, done + [s])
  }

  lemma {:induction false} CutIsLex(u: Unicode, text: string, i: nat, done: seq<Segment>)
    requires i <= |text|
    ensures Cut(u, text, i, done) == done + Lex(u, text, i)
    decreases |text| - i
  {
    if i < |text| {
      var (s, end) := SegmentAt(u, text, i);
      CutIsLex(u, text, end, done + [s]);
      assert done + [s] + Lex(u, text, end) == done + ([s] + Lex(u, text, end));
    }
  }

  /** The program's `scan_url`. */
  method ScanUrl(u: Unicode, text: string, start: nat) returns (r: Option<nat>)
    requires start <= |text|
    ensures r == UrlEnd(u, text, start)
  {
    var prefix;
    if StartsAt(text, start, "https://") {
      prefix := 8;
    } else if StartsAt(text, start, "http://") {
      prefix := 7;
    } else {
      return None;
    }
    var end := start + prefix;
    while end < |text|
      invariant start + prefix <= end <= |text|
      invariant RunEnd(u, UrlClass, text, end) == RunEnd(u, UrlClass, text, start + prefix)
    {
      if !InClass(u, UrlClass, text[end]) {
        break;
      }
      end := end + 1;
    }
    r := if end == start + prefix then None else Some(end);
  }

  /** The program's `scan_hashtag`. */
  method ScanHashtag(u: Unicode, text: string, start: nat) returns (r: Option<(string, nat)>)
    requires start < |text|
    ensures r == TagAt(u, text, start)
  {
    if start > 0 {
      var prev := text[start - 1];
      if AsciiAlphanumeric(prev) || prev == '_' || prev == '/' {
        return None;
      }
    }
    var end := start + 1;
    while end < |text| && InClass(u, TagClass, text[end])
      invariant start + 1 <= end <= |text|
      invariant RunEnd(u, TagClass, text, end) == RunEnd(u, TagClass, text, start + 1)
    {
      end := end + 1;
    }
    if end == start + 1 {
      return None;
    }
    var body := text[start + 1..end];
    r := if exists k :: 0 <= k < |body| && u.alphabetic(body[k]) then Some((body, end)) else None;
  }

  /** A mention as the notification code sees it: `domain` is present after a second `@`, even if empty. */
  datatype Token = Token(user: string, domain: Option<string>)

  function TokenOf(s: Segment): Option<Token> {
    match s
    case Handle(user) => Some(Token(user, None))
    case Address(user, domain) => Some(Token(user, Some(domain)))
    case Dangling(user) => Some(Token(user, Some("")))
    case _ => None
  }

  function Tokens(segments: seq<Segment>): seq<Token> {
    if segments == [] then []
    else (if TokenOf(segments[0]).Some? then [TokenOf(segments[0]).value] else []) + Tokens(segments[1..])
  }

  /** One segment further. */
  lemma TokensStep(u: Unicode, text: string, i: nat)
    requires i < |text|
    ensures var (s, end) := SegmentAt(u, text, i);
            Tokens(Lex(u, text, i)) == (if TokenOf(s).Some? then [TokenOf(s).value] else []) + Tokens(Lex(u, text, end))
  {
    var (s, end) := SegmentAt(u, text, i);
    assert ([s] + Lex(u, text, end))[1..] == Lex(u, text, end);
  }

  function Append(tokens: seq<Token>, s: Segment): seq<Token> {
    if TokenOf(s).Some? then tokens + [TokenOf(s).value] else tokens
  }

  /** The tokens from `i` on, after those already found. */
  function Collect(u: Unicode, text: string, i: nat, found: seq<Token>): seq<Token>
    requires i <= |text|
    decreases |text| - i
  {
    if i == |text| then found
    else var (s, end) := SegmentAt(u, text, i); Collect(u, text, end, Append(found, s))
  }

  lemma {:induction false} CollectIsTokens(u: Unicode, text: string, i: nat, found: seq<Token>)
    requires i <= |text|
    ensures Collect(u, text, i, found) == found + Tokens(Lex(u, text, i))
    decreases |text| - i
  {
    if i < |text| {
      var (s, end) := SegmentAt(u, text, i);
      TokensStep(u, text, i);
      CollectIsTokens(u, text, end, Append(found, s));
    }
  }

  /** What follows an `@` that may open a mention; the program repeats this in each of its three walks. */
  method ScanMention(u: Unicode, text: string, at: nat) returns (segment: Segment, i: nat)
    requires at < |text| && text[at] == '@'
    ensures (segment, i) == MentionAt(u, text, at)
  {
    i := at + 1;
    while i < |text| && InClass(u, IdentClass, text[i])
      invariant at + 1 <= i <= |text|
      invariant RunEnd(u, IdentClass, text, i) == RunEnd(u, IdentClass, text, at + 1)
    {
      i := i + 1;
    }
    if i == at + 1 {
      return Plain('@'), i;
    }
    var user := text[at + 1..i];
    if i == |text| || text[i] != '@' {
      return Handle(user), i;
    }
    i := i + 1;
    var domainStart := i;
    while i < |text| && InClass(u, DomainClass, text[i])
      invariant domainStart <= i <= |text|
      invariant RunEnd(u, DomainClass, text, i) == RunEnd(u, DomainClass, text, domainStart)
    {
      i := i + 1;
    }
    segment := if i == domainStart then Dangling(user) else Address(user, text[domainStart..i]);
  }

  /** The program's `scan_mention_tokens`. */
  method ScanMentionTokens(u: Unicode, text: string) returns (tokens: seq<Token>)
    ensures tokens == Collect(u, text, 0, [])
  {
    tokens := [];
    var i := 0;
    while i < |text|
      invariant i <= |text|
      invariant Collect(u, text, i, tokens) == Collect(u, text, 0, [])
    {
      var url, tag := None, None;
      if text[i] == 'h' {
        url := ScanUrl(u, text, i);
      }
      if text[i] == '#' {
        tag := ScanHashtag(u, text, i);
      }
      if url.Some? {
        i := url.value;
      } else if tag.Some? {
        i := tag.value.1;
      } else if text[i] != '@' || MailAt(text, i) {
        i := i + 1;
      } else {
        var segment, end := ScanMention(u, text, i);
        tokens, i := Append(tokens, segment), end;
      }
    }
  }
}
