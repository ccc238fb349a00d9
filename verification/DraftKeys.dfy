/** The local-storage keys of composer drafts and of their indexes, and that no two of them collide. */
module DraftKeys {

  datatype Mode = Reply | Quote

  /** Whose replies or whose quotes. */
  datatype Owner = Owner(mode: Mode, userId: nat)

  datatype Target = Compose(userId: nat) | On(owner: Owner, postId: string)

  function Decimal(n: nat): string {
    if n < 10 then [('0' as int + n) as char] else Decimal(n / 10) + [('0' as int + n % 10) as char]
  }

  function ModeName(mode: Mode): string {
    match mode
    case Reply => "reply"
    case Quote => "quote"
  }

  const PREFIX := "seiran:draft:"

  /** `draftKey`. */
  function DraftKey(target: Target): string {
    match target
    case Compose(userId) => PREFIX + ("compose:" + Decimal(userId))
    case On(owner, postId) => PREFIX + (ModeName(owner.mode) + (":" + (Decimal(owner.userId) + (":" + postId))))
  }

  /** `indexKey`. */
  function IndexKey(owner: Owner): string {
    PREFIX + (ModeName(owner.mode) + ("-index:" + Decimal(owner.userId)))
  }

  /** A decimal number has no colon in it and is not empty. */
  lemma {:induction false} DecimalIsDigits(n: nat)
    ensures Decimal(n) != "" && forall c :: c in Decimal(n) ==> '0' <= c <= '9'
  {
    if n >= 10 { DecimalIsDigits(n / 10); }
  }

  lemma {:induction false} DecimalIsInjective(a: nat, b: nat)
    requires Decimal(a) == Decimal(b)
    ensures a == b
    decreases a + b
  {
    DecimalIsDigits(a / 10);
    DecimalIsDigits(b / 10);
    var last := Decimal(a)[|Decimal(a)| - 1];
    if a >= 10 && b >= 10 {
      assert Decimal(a)[..|Decimal(a)| - 1] == Decimal(a / 10);
      assert Decimal(b)[..|Decimal(b)| - 1] == Decimal(b / 10);
      DecimalIsInjective(a / 10, b / 10);
    }
    assert last as int == '0' as int + a % 10 == '0' as int + b % 10;
  }

  lemma SameTail(prefix: string, a: string, b: string)
    requires prefix + a == prefix + b
    ensures a == b
  {
    assert (prefix + a)[|prefix|..] == a && (prefix + b)[|prefix|..] == b;
  }

  lemma NoColonBefore(a: string, a': string)
    requires ':' !in a
    ensures forall k :: 0 <= k < |a| ==> (a + (":" + a'))[k] != ':'
  {
    assert forall k :: 0 <= k < |a| ==> (a + (":" + a'))[k] == a[k];
  }

  /** The text before the first colon is determined by the whole. */
  lemma SplitAtColon(a: string, b: string, a': string, b': string)
    requires ':' !in a && ':' !in b && a + (":" + a') == b + (":" + b')
    ensures a == b && a' == b'
  {
    var whole := a + (":" + a');
    assert whole[|a|] == ':' && whole[|b|] == ':';
    NoColonBefore(a, a');
    NoColonBefore(b, b');
    assert whole[..|a|] == a && whole[..|b|] == b;
    assert (a + ":") + a' == whole && (b + ":") + b' == whole;
    SameTail(a + ":", a', b');
  }

  /** The key after its prefix: a word, a colon and the rest. */
  function Word(target: Target): string {
    match target
    case Compose(_) => "compose"
    case On(owner, _) => ModeName(owner.mode)
  }

  function Rest(target: Target): string {
    match target
    case Compose(userId) => Decimal(userId)
    case On(owner, postId) => Decimal(owner.userId) + (":" + postId)
  }

  lemma DraftKeyParts(target: Target)
    ensures DraftKey(target) == PREFIX + (Word(target) + (":" + Rest(target))) && ':' !in Word(target)
  {
    if target.Compose? {
      assert "compose:" + Rest(target) == "compose" + (":" + Rest(target));
    }
  }

  function IndexWord(mode: Mode): string { ModeName(mode) + "-index" }

  lemma IndexKeyParts(owner: Owner)
    ensures IndexKey(owner) == PREFIX + (IndexWord(owner.mode) + (":" + Decimal(owner.userId))) && ':' !in IndexWord(owner.mode)
  {
    assert "-index:" + Decimal(owner.userId) == "-index" + (":" + Decimal(owner.userId));
    assert ModeName(owner.mode) + ("-index" + (":" + Decimal(owner.userId))) == IndexWord(owner.mode) + (":" + Decimal(owner.userId));
  }

  lemma DraftKeysApart(s: Target, t: Target)
    requires DraftKey(s) == DraftKey(t)
    ensures s == t
  {
    DraftKeyParts(s);
    DraftKeyParts(t);
    SameTail(PREFIX, Word(s) + (":" + Rest(s)), Word(t) + (":" + Rest(t)));
    SplitAtColon(Word(s), Word(t), Rest(s), Rest(t));
    assert ModeName(Reply)[0] != ModeName(Quote)[0] && "compose"[0] != ModeName(Reply)[0] && "compose"[0] != ModeName(Quote)[0];
    if s.Compose? {
      DecimalIsInjective(s.userId, t.userId);
    } else {
      DecimalIsDigits(s.owner.userId);
      DecimalIsDigits(t.owner.userId);
      SplitAtColon(Decimal(s.owner.userId), Decimal(t.owner.userId), s.postId, t.postId);
      DecimalIsInjective(s.owner.userId, t.owner.userId);
    }
  }

  lemma IndexKeysApart(a: Owner, b: Owner)
    requires IndexKey(a) == IndexKey(b)
    ensures a == b
  {
    IndexKeyParts(a);
    IndexKeyParts(b);
    SameTail(PREFIX, IndexWord(a.mode) + (":" + Decimal(a.userId)), IndexWord(b.mode) + (":" + Decimal(b.userId)));
    SplitAtColon(IndexWord(a.mode), IndexWord(b.mode), Decimal(a.userId), Decimal(b.userId));
    assert IndexWord(Reply)[0] != IndexWord(Quote)[0];
    DecimalIsInjective(a.userId, b.userId);
  }

  lemma KindsApart(t: Target, o: Owner)
    ensures DraftKey(t) != IndexKey(o)
  {
    DraftKeyParts(t);
    IndexKeyParts(o);
    assert |Word(t)| <= 7 && |IndexWord(o.mode)| == 11;
    if DraftKey(t) == IndexKey(o) {
      SameTail(PREFIX, Word(t) + (":" + Rest(t)), IndexWord(o.mode) + (":" + Decimal(o.userId)));
      SplitAtColon(Word(t), IndexWord(o.mode), Rest(t), Decimal(o.userId));
    }
  }

  lemma Joined(a: string, b: string, c: string, d: string)
    ensures a + (b + (":" + (c + (":" + d)))) == a + b + ":" + c + ":" + d
    ensures a + (b + c) == a + b + c
  {
  }

  /** What the keys look like, for a user number written `user`. */
  lemma KeysLookLike(userId: nat, postId: string)
    ensures var user := Decimal(userId);
            && DraftKey(Compose(userId)) == "seiran:draft:" + "compose:" + user
            && DraftKey(On(Owner(Reply, userId), postId)) == "seiran:draft:" + "reply" + ":" + user + ":" + postId
            && DraftKey(On(Owner(Quote, userId), postId)) == "seiran:draft:" + "quote" + ":" + user + ":" + postId
            && IndexKey(Owner(Reply, userId)) == "seiran:draft:" + "reply" + "-index:" + user
            && IndexKey(Owner(Quote, userId)) == "seiran:draft:" + "quote" + "-index:" + user
  {
    var user := Decimal(userId);
    Joined(PREFIX, "compose:", user, "");
    Joined(PREFIX, "reply", user, postId);
    Joined(PREFIX, "quote", user, postId);
    assert PREFIX + ("reply" + ("-index:" + user)) == PREFIX + "reply" + "-index:" + user;
    assert PREFIX + ("quote" + ("-index:" + user)) == PREFIX + "quote" + "-index:" + user;
  }

  /** A decimal number reads back. */
  function ReadDecimal(s: string): int {
    if s == "" then 0 else 10 * ReadDecimal(s[..|s| - 1]) + (s[|s| - 1] as int - '0' as int)
  }

  lemma {:induction false} DecimalReadsBack(n: nat)
    ensures ReadDecimal(Decimal(n)) == n
  {
    if n >= 10 {
      DecimalReadsBack(n / 10);
      assert Decimal(n)[..|Decimal(n)| - 1] == Decimal(n / 10);
    } else {
      assert Decimal(n)[..0] == "";
    }
  }

  /** The key printers as their users see them. */
  datatype Keys = Keys(draft: Target -> string, index: Owner -> string)

  const KEYS := Keys((t: Target) => DraftKey(t), (o: Owner) => IndexKey(o))

  ghost predicate Apart(keys: Keys) {
    && (forall s, t :: keys.draft(s) == keys.draft(t) ==> s == t)
    && (forall a, b :: keys.index(a) == keys.index(b) ==> a == b)
    && (forall t, o :: keys.draft(t) != keys.index(o))
  }

  /** No two keys collide, whatever the post ids are. */
  lemma KeysAreApart()
    ensures Apart(KEYS)
  {
    forall s, t | KEYS.draft(s) == KEYS.draft(t) ensures s == t { DraftKeysApart(s, t); }
    forall a, b | KEYS.index(a) == KEYS.index(b) ensures a == b { IndexKeysApart(a, b); }
    forall t, o ensures KEYS.draft(t) != KEYS.index(o) { KindsApart(t, o); }
  }
}
