/**
 Rewriting the mentions of a post for delivery to Bluesky (`convert_mentions_for_bsky`) and to the
 Fediverse (`convert_mentions_for_ap`), with the byte spans of links, tags and mentions.
 Database and HTTP lookups are functions of their arguments.
 */
module Mentions {
  import opened Options
  import opened Utf8
  import opened Scanner
  import opened Spans

  datatype Env = Env(
    unicode: Unicode,
    localDomain: string,
    isLocal: string -> bool,
    localDid: string -> Option<string>,
    handleDid: string -> Option<string>,
    fediForBsky: (string, string) -> Option<(string, Option<string>)>,
    homeUrl: (string, string) -> Option<string>,
    fediHref: (string, string) -> Option<string>,
    lower: string -> string)

  datatype Feature = TagFeature(tag: string) | MentionFeature(did: string) | LinkFeature(uri: string)

  datatype InlineKind = InlineMention | InlineHashtag | InlineLink

  datatype Inline = Inline(href: string, name: string, kind: InlineKind)

  function AsciiLower(c: char): char {
    if 'A' <= c <= 'Z' then c + 32 as char else c
  }

  /** ASCII capitals become the small letters at the same place in the alphabet; nothing else changes. */
  lemma AsciiLowerIs(k: nat)
    requires k < 26
    ensures AsciiLower("ABCDEFGHIJKLMNOPQRSTUVWXYZ"[k]) == "abcdefghijklmnopqrstuvwxyz"[k]
    ensures forall c: char :: c !in "ABCDEFGHIJKLMNOPQRSTUVWXYZ" ==> AsciiLower(c) == c
  {
    var capitals := "ABCDEFGHIJKLMNOPQRSTUVWXYZ";
    assert forall j :: 0 <= j < 26 ==> capitals[j] as int == 'A' as int + j;
    forall c: char | 'A' <= c <= 'Z'
      ensures c in capitals
    {
      assert capitals[c as int - 'A' as int] == c;
    }
  }

  predicate EqIgnoreAsciiCase(a: string, b: string) {
    |a| == |b| && forall k :: 0 <= k < |a| ==> AsciiLower(a[k]) == AsciiLower(b[k])
  }

  /** What follows the last dot, if there is a dot. */
  function LastLabel(s: string): Option<string> {
    if s == [] then None
    else if s[|s| - 1] == '.' then Some("")
    else match LastLabel(s[..|s| - 1])
         case Some(last) => Some(last + [s[|s| - 1]])
         case None => None
  }

  /** A dotted name whose last label has at least two bytes. */
  predicate HandleLike(user: string) {
    LastLabel(user).Some? && |Bytes(LastLabel(user).value)| >= 2
  }

  function StripSuffix(s: string, suffix: string): (r: Option<string>)
    ensures r.Some? ==> s == r.value + suffix
  {
    if |suffix| <= |s| && s[|s| - |suffix|..] == suffix then Some(s[..|s| - |suffix|]) else None
  }

  function AsMention(did: Option<string>): Option<Feature> {
    if did.Some? then Some(MentionFeature(did.value)) else None
  }

  /** What the Bluesky conversion writes for a segment, and the facet that covers exactly that. */
  function BskyPiece(env: Env, s: Segment): Piece<Feature> {
    match s
    case Plain(c) => Piece([c], None)
    case Url(url) => Piece(url, Some(LinkFeature(url)))
    case Tag(body) => Piece("#" + body, Some(TagFeature(body)))
    case Dangling(user) => Piece("@" + user + "@", None)
    case Address(user, domain) =>
      if EqIgnoreAsciiCase(domain, env.localDomain) then
        Piece("@" + user + "." + env.localDomain, AsMention(env.localDid(user)))
      else (match env.fediForBsky(user, domain)
            case Some((handle, did)) => Piece("@" + handle, AsMention(did))
            case None =>
              var home := env.homeUrl(user, domain);
              Piece("@" + user + "@" + domain,
                    Some(LinkFeature(if home.Some? then home.value
                                     else "https://" + env.localDomain + "/@" + user + "@" + domain))))
    case Handle(user) =>
      if HandleLike(user) then
        var local := StripSuffix(user, "." + env.localDomain);
        Piece("@" + user, AsMention(if local.Some? then env.localDid(local.value) else env.handleDid(user)))
      else if env.isLocal(user) then Piece("@" + user + "." + env.localDomain, AsMention(env.localDid(user)))
      else Piece("@" + user, None)
  }

  function Named(name: string, href: string, kind: InlineKind): Piece<Inline> {
    Piece(name, Some(Inline(href, name, kind)))
  }

  /** What the Fediverse conversion writes for a segment, and the span that covers exactly that. */
  function ApPiece(env: Env, s: Segment): Piece<Inline> {
    match s
    case Plain(c) => Piece([c], None)
    case Url(url) => Named(url, url, InlineLink)
    case Tag(body) => Named("#" + body, "https://" + env.localDomain + "/tags/" + env.lower(body), InlineHashtag)
    case Dangling(user) => Piece("@" + user + "@", None)
    case Address(user, domain) =>
      var name := "@" + user + "@" + domain;
      (match env.fediHref(user, domain)
       case Some(href) => Named(name, href, InlineMention)
       case None => Piece(name, None))
    case Handle(user) =>
      if HandleLike(user) then
        var local := StripSuffix(user, "." + env.localDomain);
        if local.Some? then
          if env.isLocal(local.value) then
            Named("@" + local.value + "@" + env.localDomain, "https://" + env.localDomain + "/users/" + local.value, InlineMention)
          else Piece("@" + user, None)
        else (match env.fediHref(user, "bsky.brid.gy")
              case Some(href) => Named("@" + user + "@bsky.brid.gy", href, InlineMention)
              case None => Named(user, "https://bsky.app/profile/" + user, InlineLink))
      else if env.isLocal(user) then
        Named("@" + user + "@" + env.localDomain, "https://" + env.localDomain + "/users/" + user, InlineMention)
      else Piece("@" + user, None)
  }

  function BskyPieces(env: Env, segments: seq<Segment>): (pieces: seq<Piece<Feature>>)
    ensures |pieces| == |segments|
  {
    if segments == [] then []
    else BskyPieces(env, segments[..|segments| - 1]) + [BskyPiece(env, segments[|segments| - 1])]
  }

  function ApPieces(env: Env, segments: seq<Segment>): (pieces: seq<Piece<Inline>>)
    ensures |pieces| == |segments|
  {
    if segments == [] then []
    else ApPieces(env, segments[..|segments| - 1]) + [ApPiece(env, segments[|segments| - 1])]
  }

  function BskyOutput(env: Env, segments: seq<Segment>): Output<Feature> {
    Rendered(BskyPieces(env, segments))
  }

  function ApOutput(env: Env, segments: seq<Segment>): Output<Inline> {
    Rendered(ApPieces(env, segments))
  }

  lemma BskyOneMore(env: Env, segments: seq<Segment>, s: Segment)
    ensures BskyOutput(env, segments + [s]) == Emit(BskyOutput(env, segments), BskyPiece(env, s))
  {
    assert (segments + [s])[..|segments|] == segments;
    var pieces := BskyPieces(env, segments + [s]);
    assert pieces == BskyPieces(env, segments) + [BskyPiece(env, s)];
    assert pieces[..|pieces| - 1] == BskyPieces(env, segments);
  }

  lemma ApOneMore(env: Env, segments: seq<Segment>, s: Segment)
    ensures ApOutput(env, segments + [s]) == Emit(ApOutput(env, segments), ApPiece(env, s))
  {
    assert (segments + [s])[..|segments|] == segments;
    var pieces := ApPieces(env, segments + [s]);
    assert pieces == ApPieces(env, segments) + [ApPiece(env, s)];
    assert pieces[..|pieces| - 1] == ApPieces(env, segments);
  }

  /** What both converters look for first at a character. */
  method ScanUrlOrTag(u: Unicode, text: string, i: nat) returns (url: Option<nat>, tag: Option<(string, nat)>)
    requires i < |text|
    ensures url == if text[i] == 'h' then UrlEnd(u, text, i) else None
    ensures tag == if text[i] == '#' then TagAt(u, text, i) else None
  {
    url, tag := None, None;
    if text[i] == 'h' {
      url := ScanUrl(u, text, i);
    }
    if text[i] == '#' {
      tag := ScanHashtag(u, text, i);
    }
  }

  /** One round of the loop of `convert_mentions_for_bsky`: what it appends, and where the next one starts. */
  method BskyPieceAt(env: Env, text: string, i: nat) returns (piece: Piece<Feature>, next: nat)
    requires i < |text|
    ensures (BskyPiece(env, SegmentAt(env.unicode, text, i).0), SegmentAt(env.unicode, text, i).1) == (piece, next)
  {
    var url, tag := ScanUrlOrTag(env.unicode, text, i);
    if url.Some? {
      var link := text[i..url.value];
      piece, next := Piece(link, Some(LinkFeature(link))), url.value;
    } else if tag.Some? {
      piece, next := Piece("#" + tag.value.0, Some(TagFeature(tag.value.0))), tag.value.1;
    } else if text[i] != '@' || MailAt(text, i) {
      piece, next := Piece([text[i]], None), i + 1;
    } else {
      var mention;
      mention, next := ScanMention(env.unicode, text, i);
      piece := BskyPiece(env, mention);
    }
  }

  /** One round of the loop of `convert_mentions_for_ap`. */
  method ApPieceAt(env: Env, text: string, i: nat) returns (piece: Piece<Inline>, next: nat)
    requires i < |text|
    ensures (ApPiece(env, SegmentAt(env.unicode, text, i).0), SegmentAt(env.unicode, text, i).1) == (piece, next)
  {
    var url, tag := ScanUrlOrTag(env.unicode, text, i);
    if url.Some? {
      var link := text[i..url.value];
      piece, next := Named(link, link, InlineLink), url.value;
    } else if tag.Some? {
      var href := "https://" + env.localDomain + "/tags/" + env.lower(tag.value.0);
      piece, next := Named("#" + tag.value.0, href, InlineHashtag), tag.value.1;
    } else if text[i] != '@' || MailAt(text, i) {
      piece, next := Piece([text[i]], None), i + 1;
    } else {
      var mention;
      mention, next := ScanMention(env.unicode, text, i);
      piece := ApPiece(env, mention);
    }
  }

  /** `convert_mentions_for_bsky`. */
  method ConvertMentionsForBsky(env: Env, text: string) returns (result: seq<byte>, facets: seq<Span<Feature>>)
    ensures Output(result, facets) == BskyOutput(env, Cut(env.unicode, text, 0, []))
  {
    result, facets := [], [];
    var i := 0;
    ghost var done: seq<Segment> := [];
    while i < |text|
      invariant i <= |text|
      invariant Cut(env.unicode, text, i, done) == Cut(env.unicode, text, 0, [])
      invariant Output(result, facets) == BskyOutput(env, done)
    {
      ghost var segment := SegmentAt(env.unicode, text, i).0;
      var piece, next := BskyPieceAt(env, text, i);
      var byteStart := |result|;
      result := result + Bytes(piece.text);
      if piece.mark.Some? {
        facets := facets + [Span(byteStart, |result|, piece.mark.value)];
      }
      BskyOneMore(env, done, segment);
      i, done := next, done + [segment];
    }
  }

  /** `convert_mentions_for_ap`. */
  method ConvertMentionsForAp(env: Env, text: string) returns (result: seq<byte>, mentions: seq<Span<Inline>>)
    ensures Output(result, mentions) == ApOutput(env, Cut(env.unicode, text, 0, []))
  {
    result, mentions := [], [];
    var i := 0;
    ghost var done: seq<Segment> := [];
    while i < |text|
      invariant i <= |text|
      invariant Cut(env.unicode, text, i, done) == Cut(env.unicode, text, 0, [])
      invariant Output(result, mentions) == ApOutput(env, done)
    {
      ghost var segment := SegmentAt(env.unicode, text, i).0;
      var piece, next := ApPieceAt(env, text, i);
      var byteStart := |result|;
      result := result + Bytes(piece.text);
      if piece.mark.Some? {
        mentions := mentions + [Span(byteStart, |result|, piece.mark.value)];
      }
      ApOneMore(env, done, segment);
      i, done := next, done + [segment];
    }
  }
}
