/**
 What the converters write and mark, told by accounts and lookups: which segments get a facet or an inline
 span, of which kind, and that these come in order, none missing and none extra.
 */
module MentionFacets {
  import opened Options
  import opened Utf8
  import opened Scanner
  import opened Spans
  import opened Mentions
  import opened MentionTheorems

  /* ------------------------------ the spans are the marks of the pieces ------------------------------ */

  /** How many of the first `k` pieces are marked. */
  function MarksBefore<F>(pieces: seq<Piece<F>>, k: nat): (n: nat)
    requires k <= |pieces|
    ensures n <= k
  {
    if k == 0 then 0 else MarksBefore(pieces, k - 1) + if pieces[k - 1].mark.Some? then 1 else 0
  }

  /** A marked piece has its span, in order, exactly where it is written. */
  ghost predicate MarkedAt<F>(spans: seq<Span<F>>, pieces: seq<Piece<F>>, k: nat)
    requires k < |pieces|
  {
    pieces[k].mark.Some? ==>
      && MarksBefore(pieces, k) < |spans|
      && spans[MarksBefore(pieces, k)] == Span(|Bytes(Texts(pieces[..k]))|, |Bytes(Texts(pieces[..k]) + pieces[k].text)|, pieces[k].mark.value)
  }

  lemma {:induction false} MarksBeforeInit<F>(pieces: seq<Piece<F>>, k: nat)
    requires k < |pieces|
    ensures MarksBefore(pieces[..|pieces| - 1], k) == MarksBefore(pieces, k)
  {
    if k > 0 { MarksBeforeInit(pieces, k - 1); }
  }

  /** A mark keeps its span while more is written. */
  lemma MarkedStays<F>(spans: seq<Span<F>>, spans': seq<Span<F>>, pieces: seq<Piece<F>>, k: nat)
    requires k < |pieces| - 1 && spans <= spans' && MarkedAt(spans, pieces[..|pieces| - 1], k)
    ensures MarkedAt(spans', pieces, k)
  {
    MarksBeforeInit(pieces, k);
    assert pieces[..|pieces| - 1][..k] == pieces[..k];
  }

  /** The piece written last has the last span. */
  lemma LastMarked<F>(out: Output<F>, pieces: seq<Piece<F>>)
    requires pieces != []
    requires var init := pieces[..|pieces| - 1]; out.bytes == Bytes(Texts(init)) && |out.spans| == MarksBefore(init, |init|)
    ensures var last := pieces[|pieces| - 1]; var out' := Emit(out, last);
            && out'.bytes == Bytes(Texts(pieces)) && out.spans <= out'.spans && |out'.spans| == MarksBefore(pieces, |pieces|)
            && MarkedAt(out'.spans, pieces, |pieces| - 1)
  {
    BytesConcat(Texts(pieces[..|pieces| - 1]), pieces[|pieces| - 1].text);
    MarksBeforeOfInit(pieces);
    MarksOfAll(pieces);
  }

  lemma MarksOfAll<F>(pieces: seq<Piece<F>>)
    requires pieces != []
    ensures MarksBefore(pieces, |pieces|) == MarksBefore(pieces, |pieces| - 1) + if pieces[|pieces| - 1].mark.Some? then 1 else 0
  {
  }

  lemma MarksBeforeOfInit<F>(pieces: seq<Piece<F>>)
    requires pieces != []
    ensures MarksBefore(pieces[..|pieces| - 1], |pieces| - 1) == MarksBefore(pieces, |pieces| - 1)
  {
    if |pieces| > 1 { MarksBeforeInit(pieces, |pieces| - 2); }
  }

  /** As many spans as marks, each standing on its piece. */
  lemma {:induction false} SpansAreMarks<F>(pieces: seq<Piece<F>>)
    ensures var out := Rendered(pieces);
            && out.bytes == Bytes(Texts(pieces)) && |out.spans| == MarksBefore(pieces, |pieces|)
            && forall k :: 0 <= k < |pieces| ==> MarkedAt(out.spans, pieces, k)
  {
    if pieces != [] {
      var init := pieces[..|pieces| - 1];
      var before, after := Rendered(init), Rendered(pieces);
      SpansAreMarks(init);
      LastMarked(before, pieces);
      forall k | 0 <= k < |pieces|
        ensures MarkedAt(after.spans, pieces, k)
      {
        if k < |init| { MarkedStays(before.spans, after.spans, pieces, k); }
      }
    }
  }

  /* ------------------------------ Bluesky ------------------------------ */

  /** The account a token names. */
  datatype Account =
    | Local(user: string)                              // somebody here
    | Bridged(handle: string, did: Option<string>)     // a Fediverse account known on Bluesky
    | Unresolved(user: string, domain: string)         // a Fediverse account that is not
    | AtHandle(name: string)                           // a handle of the AT Protocol, written out
    | Nobody

  /** Which account that is: addresses by their domain, names by their form and by who lives here. */
  ghost predicate Names(env: Env, token: Token, account: Account) {
    match token.domain
    case Some(domain) =>
      if domain == "" then account == Nobody
      else if EqIgnoreAsciiCase(domain, env.localDomain) then account == Local(token.user)
      else if env.fediForBsky(token.user, domain).Some? then
        account == Bridged(env.fediForBsky(token.user, domain).value.0, env.fediForBsky(token.user, domain).value.1)
      else account == Unresolved(token.user, domain)
    case None =>
      if LooksLikeHandle(token.user) then account == AtHandle(token.user)
      else if env.isLocal(token.user) then account == Local(token.user)
      else account == Nobody
  }

  /** A dotted name whose last label has two bytes or more. */
  ghost predicate LooksLikeHandle(name: string) {
    exists rest, last :: name == rest + "." + last && '.' !in last && |Bytes(last)| >= 2
  }

  /** The DID of an account, which a mention facet carries. */
  ghost predicate HasDid(env: Env, account: Account, did: string) {
    match account
    case Local(user) => env.localDid(user) == Some(did)
    case Bridged(_, d) => d == Some(did)
    case AtHandle(name) =>
      if exists user :: name == user + "." + env.localDomain then exists user :: name == user + "." + env.localDomain && env.localDid(user) == Some(did)
      else env.handleDid(name) == Some(did)
    case _ => false
  }

  /** The text an account is written as on Bluesky. */
  function BskyName(env: Env, token: Token, account: Account): string {
    match account
    case Local(user) => "@" + user + "." + env.localDomain
    case Bridged(handle, _) => "@" + handle
    case Unresolved(user, domain) => "@" + user + "@" + domain
    case AtHandle(name) => "@" + name
    case Nobody => "@" + token.user + if token.domain.Some? then "@" else ""
  }

  /** What the converter writes for a segment, and which facet stands on it. */
  ghost predicate BskyShows(env: Env, s: Segment, piece: Piece<Feature>) {
    match s
    case Plain(c) => piece == Piece([c], None)
    case Url(url) => piece == Piece(url, Some(LinkFeature(url)))
    case Tag(body) => piece == Piece("#" + body, Some(TagFeature(body)))
    case _ => TokenShows(env, TokenOf(s).value, piece)
  }

  ghost predicate TokenShows(env: Env, token: Token, piece: Piece<Feature>) {
    exists account :: Names(env, token, account) && AccountShows(env, token, account, piece)
  }

  /** An account with a DID is mentioned, one that cannot be resolved is linked, any other is only written. */
  ghost predicate AccountShows(env: Env, token: Token, account: Account, piece: Piece<Feature>) {
    && piece.text == BskyName(env, token, account)
    && (forall did :: HasDid(env, account, did) <==> piece.mark == Some(MentionFeature(did)))
    && (forall uri :: piece.mark == Some(LinkFeature(uri)) <==>
          account.Unresolved? && uri == (if env.homeUrl(account.user, account.domain).Some? then env.homeUrl(account.user, account.domain).value
                                         else "https://" + env.localDomain + "/@" + account.user + "@" + account.domain))
    && (forall tag :: piece.mark != Some(TagFeature(tag)))
  }

  lemma {:induction false} LastLabelIs(s: string)
    ensures LastLabel(s).None? ==> '.' !in s
    ensures LastLabel(s).Some? ==> '.' !in LastLabel(s).value && exists rest :: s == rest + "." + LastLabel(s).value
  {
    if s != [] {
      var init, c := s[..|s| - 1], s[|s| - 1];
      LastLabelIs(init);
      assert s == init + [c];
      if c == '.' {
        assert s == init + "." + "";
      } else if LastLabel(init).Some? {
        var rest :| init == rest + "." + LastLabel(init).value;
        assert s == rest + "." + (LastLabel(init).value + [c]);
      }
    }
  }

  lemma LabelsAgree(rest: string, last: string, rest': string, last': string)
    requires rest + "." + last == rest' + "." + last' && '.' !in last && '.' !in last'
    ensures last == last'
  {
    var s := rest + "." + last;
    assert s[|rest|] == '.' && s[|rest'|] == '.';
    assert forall k :: |rest| < k < |s| ==> s[k] == last[k - |rest| - 1];
    assert forall k :: |rest'| < k < |s| ==> s[k] == last'[k - |rest'| - 1];
    assert |rest| == |rest'|;
    assert s[|rest| + 1..] == last && s[|rest'| + 1..] == last';
  }

  lemma HandleLikeIs(name: string)
    ensures HandleLike(name) <==> LooksLikeHandle(name)
  {
    LastLabelIs(name);
    if LooksLikeHandle(name) {
      var rest, last :| name == rest + "." + last && '.' !in last && |Bytes(last)| >= 2;
      assert name[|rest|] == '.';
      var rest' :| name == rest' + "." + LastLabel(name).value;
      LabelsAgree(rest, last, rest', LastLabel(name).value);
    }
  }

  lemma StripSuffixIs(s: string, suffix: string)
    ensures forall r :: StripSuffix(s, suffix) == Some(r) <==> s == r + suffix
  {
    forall r | s == r + suffix
      ensures StripSuffix(s, suffix) == Some(r)
    {
      assert s[|r|..] == suffix && s[..|r|] == r;
    }
  }

  lemma BskyTokenShows(env: Env, s: Segment)
    requires Filled(s) && TokenOf(s).Some?
    ensures TokenShows(env, TokenOf(s).value, BskyPiece(env, s))
  {
    var token, piece := TokenOf(s).value, BskyPiece(env, s);
    HandleLikeIs(token.user);
    match s
    case Handle(user) =>
      if HandleLike(user) { WrittenHandleShows(env, user); }
      else if env.isLocal(user) { assert AccountShows(env, token, Local(user), piece); }
      else { assert AccountShows(env, token, Nobody, piece); }
    case Address(user, domain) =>
      if EqIgnoreAsciiCase(domain, env.localDomain) { assert AccountShows(env, token, Local(user), piece); }
      else if env.fediForBsky(user, domain).Some? {
        var found := env.fediForBsky(user, domain).value;
        assert AccountShows(env, token, Bridged(found.0, found.1), piece);
      } else { assert AccountShows(env, token, Unresolved(user, domain), piece); }
    case Dangling(user) => assert AccountShows(env, token, Nobody, piece);
  }

  lemma WrittenHandleShows(env: Env, user: string)
    requires HandleLike(user)
    ensures AccountShows(env, Token(user, None), AtHandle(user), BskyPiece(env, Handle(user)))
  {
    StripSuffixIs(user, "." + env.localDomain);
    assert forall u: string :: u + "." + env.localDomain == u + ("." + env.localDomain);
  }

  /**
   The Bluesky conversion of any text: every segment is written, and marked or not, as its kind and the account
   it names say; the facets are the marks of the segments, in order, each on the text written for it.
   */
  lemma BskyFacetsExactly(env: Env, text: string)
    ensures var segments := Lex(env.unicode, text, 0);
            var pieces := BskyPieces(env, segments);
            var out := BskyOutput(env, Cut(env.unicode, text, 0, []));
            && (forall k :: 0 <= k < |segments| ==> BskyShows(env, segments[k], pieces[k]))
            && out.bytes == Bytes(Texts(pieces)) && |out.spans| == MarksBefore(pieces, |pieces|)
            && (forall k :: 0 <= k < |segments| ==> MarkedAt(out.spans, pieces, k))
  {
    SameWalk(env.unicode, text);
    var segments := Lex(env.unicode, text, 0);
    SpansAreMarks(BskyPieces(env, segments));
    forall k | 0 <= k < |segments|
      ensures BskyShows(env, segments[k], BskyPieces(env, segments)[k])
    {
      PieceAt(env, segments, k);
      if TokenOf(segments[k]).Some? { BskyTokenShows(env, segments[k]); }
    }
  }

  /* ------------------------------ the Fediverse ------------------------------ */

  /** What the conversion writes for a segment, and which inline span stands on it. */
  ghost predicate ApShows(env: Env, s: Segment, piece: Piece<Inline>) {
    match s
    case Plain(c) => piece == Piece([c], None)
    case Url(url) => piece == Piece(url, Some(Inline(url, url, InlineLink)))
    case Tag(body) =>
      piece == Piece("#" + body, Some(Inline("https://" + env.localDomain + "/tags/" + env.lower(body), "#" + body, InlineHashtag)))
    case Dangling(user) => piece == Piece("@" + user + "@", None)
    case Address(user, domain) =>
      var name := "@" + user + "@" + domain;
      && piece.text == name && (piece.mark.Some? <==> env.fediHref(user, domain).Some?)
      && (piece.mark.Some? ==> piece.mark.value == Inline(env.fediHref(user, domain).value, name, InlineMention))
    case Handle(user) =>
      if LooksLikeHandle(user) then
        (forall local :: user == local + "." + env.localDomain ==> ApLocal(env, local, user, piece))
        && ((forall local :: user != local + "." + env.localDomain) ==> ApElsewhere(env, user, piece))
      else ApLocal(env, user, user, piece)
  }

  /** Somebody here is mentioned by their address here; a name nobody here has is copied. */
  ghost predicate ApLocal(env: Env, user: string, written: string, piece: Piece<Inline>) {
    if env.isLocal(user) then
      var name := "@" + user + "@" + env.localDomain;
      piece == Piece(name, Some(Inline("https://" + env.localDomain + "/users/" + user, name, InlineMention)))
    else piece == Piece("@" + written, None)
  }

  /** A handle of the AT Protocol is mentioned through the bridge, or else linked without its `@`. */
  ghost predicate ApElsewhere(env: Env, handle: string, piece: Piece<Inline>) {
    match env.fediHref(handle, "bsky.brid.gy")
    case Some(href) =>
      var name := "@" + handle + "@bsky.brid.gy";
      piece == Piece(name, Some(Inline(href, name, InlineMention)))
    case None => piece == Piece(handle, Some(Inline("https://bsky.app/profile/" + handle, handle, InlineLink)))
  }

  lemma ApPieceShows(env: Env, s: Segment)
    ensures ApShows(env, s, ApPiece(env, s))
  {
    match s
    case Handle(user) =>
      HandleLikeIs(user);
      StripSuffixIs(user, "." + env.localDomain);
      assert forall local: string :: local + "." + env.localDomain == local + ("." + env.localDomain);
    case _ =>
  }

  /** The Fediverse conversion of any text, likewise. */
  lemma ApSpansExactly(env: Env, text: string)
    ensures var segments := Lex(env.unicode, text, 0);
            var pieces := ApPieces(env, segments);
            var out := ApOutput(env, Cut(env.unicode, text, 0, []));
            && (forall k :: 0 <= k < |segments| ==> ApShows(env, segments[k], pieces[k]))
            && out.bytes == Bytes(Texts(pieces)) && |out.spans| == MarksBefore(pieces, |pieces|)
            && (forall k :: 0 <= k < |segments| ==> MarkedAt(out.spans, pieces, k))
  {
    SameWalk(env.unicode, text);
    var segments := Lex(env.unicode, text, 0);
    SpansAreMarks(ApPieces(env, segments));
    forall k | 0 <= k < |segments|
      ensures ApShows(env, segments[k], ApPieces(env, segments)[k])
    {
      PieceAt(env, segments, k);
      ApPieceShows(env, segments[k]);
    }
  }
}
