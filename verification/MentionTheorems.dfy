/** What the two converters and the token scanner promise about each other and about their spans. */
module MentionTheorems {
  import opened Options
  import opened Utf8
  import opened Scanner
  import opened Spans
  import opened Mentions

  /** Segments cut from a text are never empty inside. */
  predicate Filled(s: Segment) {
    match s
    case Plain(_) => true
    case Url(url) => url != "" && url[0] == 'h'
    case Tag(body) => body != ""
    case Handle(user) => user != ""
    case Address(user, domain) => user != "" && domain != ""
    case Dangling(user) => user != ""
  }

  lemma {:induction false} CutIsFilled(u: Unicode, text: string, i: nat, done: seq<Segment>)
    requires i <= |text| && forall s :: s in done ==> Filled(s)
    ensures forall s :: s in Cut(u, text, i, done) ==> Filled(s)
    decreases |text| - i
  {
    if i < |text| {
      var (s, end) := SegmentAt(u, text, i);
      CutIsFilled(u, text, end, done + [s]);
    }
  }

  /** An address nobody could resolve, and the link it gets: the account's home page, or its profile page here. */
  predicate LinkedAddress(env: Env, user: string, domain: string, uri: string) {
    && !EqIgnoreAsciiCase(domain, env.localDomain) && env.fediForBsky(user, domain).None?
    && uri == match env.homeUrl(user, domain)
              case Some(home) => home
              case None => "https://" + env.localDomain + "/@" + user + "@" + domain
  }

  /** The name that stands for an account: a local one, a resolved handle, or a bridged account. */
  ghost predicate NamesAccount(env: Env, name: string, did: string) {
    || (exists user :: name == user + "." + env.localDomain && env.localDid(user) == Some(did))
    || env.handleDid(name) == Some(did)
    || (exists user, domain :: env.fediForBsky(user, domain) == Some((name, Some(did))))
  }

  /**
   Which text a facet covers: a tag facet its tag, a mention facet the name of its account, a link facet its
   own URI or, if that text begins with `@`, an address that could not be resolved.
   */
  ghost predicate BskyFits(env: Env, feature: Feature, cut: string) {
    match feature
    case TagFeature(tag) => cut == "#" + tag
    case MentionFeature(did) => "@" <= cut && NamesAccount(env, cut[1..], did)
    case LinkFeature(uri) =>
      if "@" <= cut then exists user, domain :: cut == "@" + user + "@" + domain && LinkedAddress(env, user, domain, uri)
      else cut == uri
  }

  ghost function BskyMarks(env: Env): (Feature, string) -> bool {
    (feature: Feature, cut: string) => BskyFits(env, feature, cut)
  }

  /** What a segment becomes is what its facet is about. */
  lemma BskyPieceFits(env: Env, s: Segment)
    requires Filled(s)
    ensures BskyPiece(env, s).mark.Some? ==> BskyPiece(env, s).text != "" && BskyFits(env, BskyPiece(env, s).mark.value, BskyPiece(env, s).text)
  {
    match s
    case Handle(user) => BskyHandleFits(env, user);
    case Address(user, domain) => BskyAddressFits(env, user, domain);
    case _ =>
  }

  lemma BskyHandleFits(env: Env, user: string)
    ensures var piece := BskyPiece(env, Handle(user)); piece.mark.Some? ==> piece.text != "" && BskyFits(env, piece.mark.value, piece.text)
  {
    var piece := BskyPiece(env, Handle(user));
    if piece.mark.Some? {
      var name := if HandleLike(user) then user else user + "." + env.localDomain;
      assert piece.text == "@" + name;
      NamedFits(env, name, piece.mark.value.did);
    }
  }

  lemma NamedFits(env: Env, name: string, did: string)
    requires NamesAccount(env, name, did)
    ensures BskyFits(env, MentionFeature(did), "@" + name)
  {
    assert ("@" + name)[1..] == name;
  }

  lemma BskyAddressFits(env: Env, user: string, domain: string)
    ensures var piece := BskyPiece(env, Address(user, domain)); piece.mark.Some? ==> piece.text != "" && BskyFits(env, piece.mark.value, piece.text)
  {
    var piece := BskyPiece(env, Address(user, domain));
    if EqIgnoreAsciiCase(domain, env.localDomain) {
      assert piece.text[1..] == user + "." + env.localDomain;
    } else if env.fediForBsky(user, domain).Some? {
      assert piece.text[1..] == env.fediForBsky(user, domain).value.0;
    } else {
      assert LinkedAddress(env, user, domain, piece.mark.value.uri);
    }
  }

  ghost predicate ApFits(inline: Inline, cut: string) {
    cut == inline.name
  }

  lemma {:induction false} BskyPiecesFit(env: Env, segments: seq<Segment>)
    requires forall s :: s in segments ==> Filled(s)
    ensures forall piece :: piece in BskyPieces(env, segments) ==> Fit(piece, BskyMarks(env))
  {
    if segments != [] {
      BskyPiecesFit(env, segments[..|segments| - 1]);
      BskyPieceFits(env, segments[|segments| - 1]);
      assert Fit(BskyPiece(env, segments[|segments| - 1]), BskyMarks(env));
    }
  }

  lemma {:induction false} ApPiecesFit(env: Env, segments: seq<Segment>)
    requires forall s :: s in segments ==> Filled(s)
    ensures forall piece :: piece in ApPieces(env, segments) ==> Fit(piece, ApFits)
  {
    if segments != [] {
      ApPiecesFit(env, segments[..|segments| - 1]);
      assert Filled(segments[|segments| - 1]);
      assert Fit(ApPiece(env, segments[|segments| - 1]), ApFits);
    }
  }

  /** The result of the Bluesky conversion as text. */
  function BskyText(env: Env, text: string): string {
    Texts(BskyPieces(env, Cut(env.unicode, text, 0, [])))
  }

  function ApText(env: Env, text: string): string {
    Texts(ApPieces(env, Cut(env.unicode, text, 0, [])))
  }

  /** Facets are sorted, disjoint, non-empty, on character boundaries, and cover what they are about. */
  lemma BskyFacetsWellPlaced(env: Env, text: string)
    ensures WellPlaced(BskyOutput(env, Cut(env.unicode, text, 0, [])), BskyText(env, text), BskyMarks(env))
  {
    CutIsFilled(env.unicode, text, 0, []);
    var segments := Cut(env.unicode, text, 0, []);
    BskyPiecesFit(env, segments);
    RenderedWellPlaced(BskyPieces(env, segments), BskyMarks(env));
  }

  /** Every inline span cuts exactly its `name` out of the output bytes. */
  lemma ApSpansCutTheirNames(env: Env, text: string)
    ensures var out := ApOutput(env, Cut(env.unicode, text, 0, []));
            && WellPlaced(out, ApText(env, text), ApFits)
            && (forall k :: 0 <= k < |out.spans| ==>
                  && out.spans[k].start < out.spans[k].end <= |out.bytes|
                  && out.bytes[out.spans[k].start..out.spans[k].end] == Bytes(out.spans[k].mark.name))
  {
    CutIsFilled(env.unicode, text, 0, []);
    var segments := Cut(env.unicode, text, 0, []);
    ApPiecesFit(env, segments);
    RenderedWellPlaced(ApPieces(env, segments), ApFits);
    var out := ApOutput(env, segments);
    forall k | 0 <= k < |out.spans|
      ensures out.spans[k].start < out.spans[k].end <= |out.bytes|
      ensures out.bytes[out.spans[k].start..out.spans[k].end] == Bytes(out.spans[k].mark.name)
    {
      assert CutsFitting(ApText(env, text), out.spans[k], ApFits);
      CutBytes(ApText(env, text), out.spans[k], out.spans[k].mark.name);
    }
  }

  /* ------------------------------ only mentions are rewritten ------------------------------ */

  /** Tokens whose text the Bluesky conversion keeps. */
  predicate BskyKeeps(env: Env, token: Token) {
    match token.domain
    case None => HandleLike(token.user) || !env.isLocal(token.user)
    case Some(domain) =>
      domain == "" ||
      (&& !EqIgnoreAsciiCase(domain, env.localDomain)
       && (match env.fediForBsky(token.user, domain)
           case None => true
           case Some((handle, _)) => handle == token.user + "@" + domain))
  }

  /** Tokens whose text the Fediverse conversion keeps: addresses, and handles nobody here answers to. */
  predicate ApKeeps(env: Env, token: Token) {
    token.domain.Some? ||
    if HandleLike(token.user) then
      var local := StripSuffix(token.user, "." + env.localDomain);
      local.Some? && !env.isLocal(local.value)
    else !env.isLocal(token.user)
  }

  lemma BskyRewritesExactly(env: Env, s: Segment)
    requires Filled(s)
    ensures BskyPiece(env, s).text == Source(s) <==> (TokenOf(s).None? || BskyKeeps(env, TokenOf(s).value))
  {
    match s
    case Address(user, domain) =>
      var written := BskyPiece(env, s).text;
      if EqIgnoreAsciiCase(domain, env.localDomain) {
        assert written[1 + |user|] == '.' && Source(s)[1 + |user|] == '@';
      } else if env.fediForBsky(user, domain).Some? {
        var handle := env.fediForBsky(user, domain).value.0;
        assert Source(s) == "@" + (user + "@" + domain);
        assert written[1..] == handle && Source(s)[1..] == user + "@" + domain;
      }
    case Handle(user) =>
      if BskyPiece(env, s).text != Source(s) { assert |BskyPiece(env, s).text| > |Source(s)|; }
    case _ =>
  }

  lemma ApRewritesExactly(env: Env, s: Segment)
    requires Filled(s)
    ensures ApPiece(env, s).text == Source(s) <==> (TokenOf(s).None? || ApKeeps(env, TokenOf(s).value))
  {
    match s
    case Handle(user) =>
      var written := ApPiece(env, s).text;
      var local := StripSuffix(user, "." + env.localDomain);
      if HandleLike(user) && local.Some? && env.isLocal(local.value) {
        assert written[1 + |local.value|] == '@' && Source(s)[1 + |local.value|] == '.';
      } else if written != Source(s) {
        assert |written| != |Source(s)|;
      }
    case _ =>
  }

  lemma {:induction false} TokensOfSegments(segments: seq<Segment>, s: Segment)
    requires s in segments && TokenOf(s).Some?
    ensures TokenOf(s).value in Tokens(segments)
  {
    if segments[0] != s { TokensOfSegments(segments[1..], s); }
  }

  lemma {:induction false} SourcesBackwards(segments: seq<Segment>)
    requires segments != []
    ensures Sources(segments) == Sources(segments[..|segments| - 1]) + Source(segments[|segments| - 1])
  {
    if |segments| > 1 {
      SourcesBackwards(segments[1..]);
      assert segments[1..][..|segments| - 2] == segments[..|segments| - 1][1..];
    }
  }

  lemma {:induction false} KeptTextIsCopied(env: Env, segments: seq<Segment>)
    requires forall s :: s in segments ==> Filled(s)
    requires forall token :: token in Tokens(segments) ==> BskyKeeps(env, token)
    ensures Texts(BskyPieces(env, segments)) == Sources(segments)
  {
    if segments != [] {
      var init, last := segments[..|segments| - 1], segments[|segments| - 1];
      forall token | token in Tokens(init) ensures BskyKeeps(env, token) { TokensOfPrefix(segments, |init|, token); }
      KeptTextIsCopied(env, init);
      if TokenOf(last).Some? { TokensOfSegments(segments, last); }
      BskyRewritesExactly(env, last);
      SourcesBackwards(segments);
      var pieces := BskyPieces(env, segments);
      assert pieces[..|pieces| - 1] == BskyPieces(env, init);
    }
  }

  lemma {:induction false} TokensOfPrefix(segments: seq<Segment>, n: nat, token: Token)
    requires n <= |segments| && token in Tokens(segments[..n])
    ensures token in Tokens(segments)
  {
    if segments[..n] != [] {
      assert segments[..n][1..] == segments[1..][..n - 1];
      if token in Tokens(segments[1..][..n - 1]) { TokensOfPrefix(segments[1..], n - 1, token); }
    }
  }

  lemma SameWalk(u: Unicode, text: string)
    ensures Cut(u, text, 0, []) == Lex(u, text, 0) && Sources(Lex(u, text, 0)) == text
    ensures Collect(u, text, 0, []) == Tokens(Lex(u, text, 0))
    ensures forall s :: s in Lex(u, text, 0) ==> Filled(s)
  {
    CutIsLex(u, text, 0, []);
    CutIsFilled(u, text, 0, []);
    CollectIsTokens(u, text, 0, []);
    LexIsLossless(u, text, 0);
    assert [] + Lex(u, text, 0) == Lex(u, text, 0);
    assert [] + Tokens(Lex(u, text, 0)) == Tokens(Lex(u, text, 0));
  }

  /**
   If every mention the token scanner reports is one the conversion keeps - no token names the local
   domain, a local actor or a resolvable Fediverse account - the delivered text is the text.
   */
  lemma UnchangedWithoutRewrites(env: Env, text: string)
    requires forall token :: token in Collect(env.unicode, text, 0, []) ==> BskyKeeps(env, token)
    ensures BskyOutput(env, Cut(env.unicode, text, 0, [])).bytes == Bytes(text)
  {
    var segments := Cut(env.unicode, text, 0, []);
    SameWalk(env.unicode, text);
    KeptTextIsCopied(env, segments);
    BskyFacetsWellPlaced(env, text);
  }

  /** At segment `k` each converter writes something else than it read exactly for a token it does not keep. */
  ghost predicate RewritesOnlyItsToken(env: Env, segments: seq<Segment>, k: nat)
    requires k < |segments|
  {
    var token := TokenOf(segments[k]);
    && (BskyPieces(env, segments)[k].text != Source(segments[k]) <==> (token.Some? && !BskyKeeps(env, token.value)))
    && (ApPieces(env, segments)[k].text != Source(segments[k]) <==> (token.Some? && !ApKeeps(env, token.value)))
    && (token.Some? ==> token.value in Tokens(segments))
  }

  lemma RewriteAt(env: Env, segments: seq<Segment>, k: nat)
    requires k < |segments| && Filled(segments[k])
    ensures RewritesOnlyItsToken(env, segments, k)
  {
    if TokenOf(segments[k]).Some? { TokensOfSegments(segments, segments[k]); }
    BskyRewritesExactly(env, segments[k]);
    ApRewritesExactly(env, segments[k]);
    PieceAt(env, segments, k);
  }

  /**
   The converters and the token scanner walk alike: the text is cut into the same segments, whose
   sources concatenate to it, the scanner reports their tokens, and what is written differs from the
   source exactly at reported tokens that the conversion does not keep.
   */
  lemma OnlyTokensAreRewritten(env: Env, text: string)
    ensures var segments := Cut(env.unicode, text, 0, []);
            && Sources(segments) == text
            && Collect(env.unicode, text, 0, []) == Tokens(segments)
            && (forall k :: 0 <= k < |segments| ==> RewritesOnlyItsToken(env, segments, k))
  {
    SameWalk(env.unicode, text);
    var segments := Cut(env.unicode, text, 0, []);
    forall k | 0 <= k < |segments| ensures RewritesOnlyItsToken(env, segments, k) {
      RewriteAt(env, segments, k);
    }
  }

  lemma {:induction false} PieceAt(env: Env, segments: seq<Segment>, k: nat)
    requires k < |segments|
    ensures BskyPieces(env, segments)[k] == BskyPiece(env, segments[k])
    ensures ApPieces(env, segments)[k] == ApPiece(env, segments[k])
  {
    if k < |segments| - 1 { PieceAt(env, segments[..|segments| - 1], k); }
  }
}
