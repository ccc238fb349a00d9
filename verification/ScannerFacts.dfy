/** What the scanner finds at a character, told character by character, and that it finds it all over the text. */
module ScannerFacts {
  import opened Options
  import opened Scanner

  predicate AsciiWord(c: char) {
    'a' <= c <= 'z' || 'A' <= c <= 'Z' || '0' <= c <= '9' || c == '_'
  }

  predicate NameChar(u: Unicode, c: char) { u.alphanumeric(c) || c in "_-." }

  predicate DomainChar(u: Unicode, c: char) { u.alphanumeric(c) || c in ".-" }

  predicate TagChar(u: Unicode, c: char) { u.alphanumeric(c) || c == '_' }

  predicate UrlChar(u: Unicode, c: char) { !u.whitespace(c) && c !in "<>()[]" }

  /** All of `ok` from `from` up to `end`, and no further. */
  predicate Run(ok: char -> bool, text: string, from: nat, end: nat) {
    && from <= end <= |text| && (forall k :: from <= k < end ==> ok(text[k]))
    && (end < |text| ==> !ok(text[end]))
  }

  /** `text[i..end]` is a URL: one of the two schemes and as much as can follow, but something. */
  predicate IsUrl(u: Unicode, text: string, i: nat, end: nat) {
    exists scheme :: scheme in ["https://", "http://"] && UrlWith(u, text, i, scheme, end)
  }

  predicate SchemeAt(text: string, i: nat, scheme: string) {
    i + |scheme| <= |text| && text[i..i + |scheme|] == scheme
  }

  /** `text[i..end]` is a hashtag: not behind a word or a slash, as long as can be, and with a letter in it. */
  predicate IsTag(u: Unicode, text: string, i: nat, end: nat) {
    && i < |text| && text[i] == '#' && !(i > 0 && (AsciiWord(text[i - 1]) || text[i - 1] == '/'))
    && Run((c: char) => TagChar(u, c), text, i + 1, end) && exists k :: i < k < end && u.alphabetic(text[k])
  }

  /** A mention begins: an `@` not behind a word, and a name, as long as can be, behind it. */
  predicate IsMention(u: Unicode, text: string, i: nat, nameEnd: nat) {
    && i < |text| && text[i] == '@' && !(i > 0 && AsciiWord(text[i - 1]))
    && nameEnd > i + 1 && Run((c: char) => NameChar(u, c), text, i + 1, nameEnd)
  }

  lemma RunIs(u: Unicode, cls: Class, ok: char -> bool, text: string, from: nat)
    requires from <= |text| && forall c :: ok(c) <==> InClass(u, cls, c)
    ensures forall end: nat :: Run(ok, text, from, end) <==> end == RunEnd(u, cls, text, from)
  {
    RunIsMaximal(u, cls, text, from);
    var e := RunEnd(u, cls, text, from);
    assert forall k :: from <= k < e ==> ok(text[k]);
    assert e < |text| ==> !ok(text[e]);
  }

  lemma SchemeChar(text: string, i: nat, scheme: string, k: nat)
    requires SchemeAt(text, i, scheme) && k < |scheme|
    ensures text[i + k] == scheme[k]
  {
    assert text[i..i + |scheme|][k] == text[i + k];
  }

  /** Only one of the schemes can stand at a place, and both begin with an `h`. */
  lemma OneScheme(text: string, i: nat)
    ensures !(SchemeAt(text, i, "https://") && SchemeAt(text, i, "http://"))
    ensures SchemeAt(text, i, "https://") || SchemeAt(text, i, "http://") ==> i < |text| && text[i] == 'h'
  {
    if SchemeAt(text, i, "https://") { SchemeChar(text, i, "https://", 0); SchemeChar(text, i, "https://", 4); }
    if SchemeAt(text, i, "http://") { SchemeChar(text, i, "http://", 0); SchemeChar(text, i, "http://", 4); }
  }

  lemma UrlExactly(u: Unicode, text: string, i: nat, end: nat)
    requires i <= |text|
    ensures UrlEnd(u, text, i) == Some(end) <==> IsUrl(u, text, i, end)
    ensures IsUrl(u, text, i, end) ==> i < |text| && text[i] == 'h'
  {
    OneScheme(text, i);
    var ok := (c: char) => UrlChar(u, c);
    var https, http := "https://", "http://";
    assert IsUrl(u, text, i, end) <==> UrlWith(u, text, i, https, end) || UrlWith(u, text, i, http, end) by {
      assert https in ["https://", "http://"] && http in ["https://", "http://"];
    }
    if SchemeAt(text, i, https) { RunIs(u, UrlClass, ok, text, i + 8); }
    if SchemeAt(text, i, http) { RunIs(u, UrlClass, ok, text, i + 7); }
  }

  predicate UrlWith(u: Unicode, text: string, i: nat, scheme: string, end: nat) {
    SchemeAt(text, i, scheme) && end > i + |scheme| && Run((c: char) => UrlChar(u, c), text, i + |scheme|, end)
  }

  lemma TagExactly(u: Unicode, text: string, i: nat, end: nat)
    requires i < |text|
    ensures text[i] == '#' && TagAt(u, text, i).Some? && TagAt(u, text, i).value.1 == end <==> IsTag(u, text, i, end)
    ensures TagAt(u, text, i).Some? && TagAt(u, text, i).value.1 == end ==> TagAt(u, text, i).value.0 == text[i + 1..end]
  {
    RunIs(u, TagClass, (c: char) => TagChar(u, c), text, i + 1);
    if i + 1 <= end <= |text| {
      var body := text[i + 1..end];
      assert forall k :: i < k < end ==> text[k] == body[k - i - 1];
      assert forall k :: 0 <= k < |body| ==> body[k] == text[k + i + 1];
    }
  }

  /**
   What is found at a character: a URL exactly where one stands, else a tag exactly where one stands, else a
   mention exactly where one begins, with its name and the domain behind a second `@`; else the character.
   */
  ghost predicate Found(u: Unicode, text: string, i: nat, s: Segment, end: nat)
    requires i < |text|
  {
    && (s.Url? <==> exists e: nat :: IsUrl(u, text, i, e)) && (s.Url? ==> IsUrl(u, text, i, end) && s.url == text[i..end])
    && (s.Tag? <==> exists e: nat :: IsTag(u, text, i, e)) && (s.Tag? ==> IsTag(u, text, i, end) && s.body == text[i + 1..end])
    && (TokenOf(s).Some? <==> exists e: nat :: IsMention(u, text, i, e))
    && (TokenOf(s).Some? ==> MentionIs(u, text, i, TokenOf(s).value, end))
    && (!s.Url? && !s.Tag? && TokenOf(s).None? ==> s == Plain(text[i]) && end == i + 1)
  }

  lemma SegmentExactly(u: Unicode, text: string, i: nat)
    requires i < |text|
    ensures Found(u, text, i, SegmentAt(u, text, i).0, SegmentAt(u, text, i).1)
  {
    forall e: nat
      ensures UrlEnd(u, text, i) == Some(e) <==> IsUrl(u, text, i, e)
      ensures IsUrl(u, text, i, e) ==> text[i] == 'h'
      ensures text[i] == '#' && TagAt(u, text, i).Some? && TagAt(u, text, i).value.1 == e <==> IsTag(u, text, i, e)
    {
      UrlExactly(u, text, i, e);
      TagExactly(u, text, i, e);
    }
    var url, tag := UrlEnd(u, text, i), TagAt(u, text, i);
    if url.Some? { assert IsUrl(u, text, i, url.value); }
    if text[i] == '#' && tag.Some? { assert IsTag(u, text, i, tag.value.1); }
    if text[i] == '@' && !(i > 0 && AsciiWord(text[i - 1])) { MentionExactly(u, text, i); }
  }

  /** The token of a mention: its name, and what follows a second `@`. */
  predicate MentionIs(u: Unicode, text: string, i: nat, token: Token, end: nat) {
    var nameEnd := i + 1 + |token.user|;
    && IsMention(u, text, i, nameEnd) && token.user == text[i + 1..nameEnd]
    && (token.domain.Some? <==> nameEnd < |text| && text[nameEnd] == '@')
    && (token.domain.None? ==> end == nameEnd)
    && (token.domain.Some? ==> Run((c: char) => DomainChar(u, c), text, nameEnd + 1, end) && token.domain.value == text[nameEnd + 1..end])
  }

  lemma MentionExactly(u: Unicode, text: string, i: nat)
    requires i < |text| && text[i] == '@' && !(i > 0 && AsciiWord(text[i - 1]))
    ensures var (s, end) := MentionAt(u, text, i);
            && (TokenOf(s).Some? <==> exists e: nat :: IsMention(u, text, i, e))
            && (TokenOf(s).Some? ==> MentionIs(u, text, i, TokenOf(s).value, end))
            && (TokenOf(s).None? ==> s == Plain('@') && end == i + 1)
  {
    var name, domain := (c: char) => NameChar(u, c), (c: char) => DomainChar(u, c);
    RunIs(u, IdentClass, name, text, i + 1);
    var nameEnd := RunEnd(u, IdentClass, text, i + 1);
    assert forall e: nat :: IsMention(u, text, i, e) <==> e == nameEnd && nameEnd > i + 1;
    if nameEnd > i + 1 {
      assert IsMention(u, text, i, nameEnd);
      if nameEnd < |text| && text[nameEnd] == '@' { RunIs(u, DomainClass, domain, text, nameEnd + 1); }
      MentionCutIs(u, text, i, nameEnd, MentionAt(u, text, i).1);
    }
  }

  lemma MentionCutIs(u: Unicode, text: string, i: nat, nameEnd: nat, end: nat)
    requires IsMention(u, text, i, nameEnd) && nameEnd <= end <= |text|
    requires if nameEnd < |text| && text[nameEnd] == '@' then Run((c: char) => DomainChar(u, c), text, nameEnd + 1, end) else end == nameEnd
    ensures var s := MentionCut(text, i, nameEnd, end).0; TokenOf(s).Some? && MentionIs(u, text, i, TokenOf(s).value, end)
  {
  }

  /** Segments cut one after the other by `at`, from `i` up to the end. */
  ghost predicate Walks(at: nat -> (Segment, nat), length: nat, i: nat, segments: seq<Segment>)
    decreases |segments|
  {
    if segments == [] then i == length
    else i < length && at(i) == (segments[0], i + |Source(segments[0])|) && Walks(at, length, at(i).1, segments[1..])
  }

  /** The length of the first `k` segments. */
  function LengthBefore(segments: seq<Segment>, k: nat): nat
    requires k <= |segments|
  {
    if k == 0 then 0 else |Source(segments[0])| + LengthBefore(segments[1..], k - 1)
  }

  lemma {:induction false} LengthIs(segments: seq<Segment>, k: nat)
    requires k <= |segments|
    ensures LengthBefore(segments, k) == |Sources(segments[..k])|
  {
    if k > 0 {
      assert segments[..k][0] == segments[0] && segments[..k][1..] == segments[1..][..k - 1];
      LengthIs(segments[1..], k - 1);
    }
  }

  lemma {:induction false} WalkAt(at: nat -> (Segment, nat), length: nat, i: nat, segments: seq<Segment>, k: nat)
    requires Walks(at, length, i, segments) && k < |segments|
    ensures var p := i + LengthBefore(segments, k); p < length && at(p) == (segments[k], p + |Source(segments[k])|)
    decreases k
  {
    if k > 0 { WalkAt(at, length, at(i).1, segments[1..], k - 1); }
  }

  function Cutter(u: Unicode, text: string): nat -> (Segment, nat) {
    (i: nat) => if i < |text| then SegmentAt(u, text, i) else (Plain(' '), i)
  }

  lemma {:induction false} LexWalks(u: Unicode, text: string, i: nat)
    requires i <= |text|
    ensures Walks(Cutter(u, text), |text|, i, Lex(u, text, i))
    decreases |text| - i
  {
    if i < |text| {
      var s, end := LexStep(u, text, i);
      CutterAt(u, text, i, s, end);
      LexWalks(u, text, end);
      WalksFirst(Cutter(u, text), |text|, i, s, end, Lex(u, text, end));
    }
  }

  lemma CutterAt(u: Unicode, text: string, i: nat, s: Segment, end: nat)
    requires i < |text| && (s, end) == SegmentAt(u, text, i)
    ensures Cutter(u, text)(i) == (s, end) && end == i + |Source(s)|
  {
    SegmentSource(u, text, i);
  }

  lemma WalksFirst(at: nat -> (Segment, nat), length: nat, i: nat, s: Segment, end: nat, rest: seq<Segment>)
    requires i < length && at(i) == (s, end) && end == i + |Source(s)| && Walks(at, length, end, rest)
    ensures Walks(at, length, i, [s] + rest)
  {
    assert ([s] + rest)[1..] == rest;
  }

  /** `good` holds of what is cut at every place. */
  ghost predicate AllGood(at: nat -> (Segment, nat), length: nat, good: (nat, Segment, nat) -> bool) {
    forall i: nat :: i < length ==> good(i, at(i).0, at(i).1)
  }

  /** Every segment is good where it begins, and it begins where the one before it ends. */
  ghost predicate GoodAt(good: (nat, Segment, nat) -> bool, segments: seq<Segment>, k: nat)
    requires k < |segments|
  {
    var p := |Sources(segments[..k])|; good(p, segments[k], p + |Source(segments[k])|)
  }

  lemma GoodInWalk(at: nat -> (Segment, nat), length: nat, segments: seq<Segment>, good: (nat, Segment, nat) -> bool, k: nat)
    requires Walks(at, length, 0, segments) && AllGood(at, length, good) && k < |segments|
    ensures GoodAt(good, segments, k)
  {
    WalkAt(at, length, 0, segments, k);
    LengthIs(segments, k);
  }

  ghost function Finding(u: Unicode, text: string): (nat, Segment, nat) -> bool {
    (i: nat, s: Segment, end: nat) => i < |text| && Found(u, text, i, s, end)
  }

  lemma CutsAreFound(u: Unicode, text: string)
    ensures AllGood(Cutter(u, text), |text|, Finding(u, text))
  {
    forall i: nat | i < |text|
      ensures Finding(u, text)(i, Cutter(u, text)(i).0, Cutter(u, text)(i).1)
    {
      SegmentExactly(u, text, i);
    }
  }

  /**
   The walk over a text, which the converters and the token scanner share, finds at every place what stands
   there. So nothing behind an ASCII letter, digit or underscore is a mention, a tag has a letter in it, and a
   run of name characters behind an `@` is one name.
   */
  lemma WalkFinds(u: Unicode, text: string)
    ensures var segments := Lex(u, text, 0); forall k :: 0 <= k < |segments| ==> GoodAt(Finding(u, text), segments, k)
  {
    var segments := Lex(u, text, 0);
    LexWalks(u, text, 0);
    CutsAreFound(u, text);
    forall k | 0 <= k < |segments|
      ensures GoodAt(Finding(u, text), segments, k)
    {
      GoodInWalk(Cutter(u, text), |text|, segments, Finding(u, text), k);
    }
  }
}
