/** Hashtag extraction for storage (`extract_hashtags`): one pass that jumps over every tag body. */
module Hashtags {
  import opened Options
  import opened Scanner

  function AddNew(tags: seq<string>, tag: string): seq<string> {
    if tag in tags then tags else tags + [tag]
  }

  /**
   The slow definition: look at every `#` among the first `n` characters, wherever it stands, and keep
   the first occurrence of each lower-cased tag.
   */
  function TagsBefore(u: Unicode, lower: string -> string, text: string, n: nat): seq<string>
    requires n <= |text|
  {
    if n == 0 then []
    else
      var before := TagsBefore(u, lower, text, n - 1);
      var tag := if text[n - 1] == '#' then TagAt(u, text, n - 1) else None;
      if tag.Some? then AddNew(before, lower(tag.value.0)) else before
  }

  /** Characters other than `#` contribute nothing. */
  lemma {:induction false} NoTagsBetween(u: Unicode, lower: string -> string, text: string, i: nat, j: nat)
    requires i <= j <= |text| && forall k :: i <= k < j ==> text[k] != '#'
    ensures TagsBefore(u, lower, text, j) == TagsBefore(u, lower, text, i)
  {
    if i < j { NoTagsBetween(u, lower, text, i, j - 1); }
  }

  /** `extract_hashtags`, given that `#` is not alphanumeric. */
  method ExtractHashtags(u: Unicode, lower: string -> string, text: string) returns (result: seq<string>)
    requires !u.alphanumeric('#')
    ensures result == TagsBefore(u, lower, text, |text|)
  {
    result := [];
    var seen: set<string> := {};
    var i := 0;
    while i < |text|
      invariant i <= |text|
      invariant result == TagsBefore(u, lower, text, i)
      invariant forall tag :: tag in seen <==> tag in result
    {
      if text[i] == '#' {
        var prevOk := i == 0 || !(AsciiAlphanumeric(text[i - 1]) || text[i - 1] == '_' || text[i - 1] == '/');
        if prevOk {
          var start := i + 1;
          var j := start;
          while j < |text| && InClass(u, TagClass, text[j])
            invariant start <= j <= |text|
            invariant RunEnd(u, TagClass, text, j) == RunEnd(u, TagClass, text, start)
            invariant forall k :: start <= k < j ==> text[k] != '#'
          {
            j := j + 1;
          }
          if j > start {
            var raw := text[start..j];
            if exists k :: 0 <= k < |raw| && u.alphabetic(raw[k]) {
              var normalized := lower(raw);
              if normalized !in seen {
                seen := seen + {normalized};
                result := result + [normalized];
              }
            }
            NoTagsBetween(u, lower, text, start, j);
            i := j;
            continue;
          }
        }
      }
      i := i + 1;
    }
  }

  ghost predicate Occurs(u: Unicode, lower: string -> string, text: string, n: nat, tag: string)
    requires n <= |text|
  {
    exists k :: 0 <= k < n && TagStands(u, lower, text, k, tag)
  }

  predicate TagStands(u: Unicode, lower: string -> string, text: string, k: nat, tag: string)
    requires k < |text|
  {
    text[k] == '#' && TagAt(u, text, k).Some? && tag == lower(TagAt(u, text, k).value.0)
  }

  ghost predicate Distinct(tags: seq<string>) {
    forall i, j :: 0 <= i < j < |tags| ==> tags[i] != tags[j]
  }

  /** A tag stands at `k` for the first time. */
  ghost predicate FirstAt(u: Unicode, lower: string -> string, text: string, k: nat, tag: string)
    requires k < |text|
  {
    TagStands(u, lower, text, k, tag) && forall j :: 0 <= j < k ==> !TagStands(u, lower, text, j, tag)
  }

  /** Stored tags are in the order of their first occurrences. */
  ghost predicate InOrder(u: Unicode, lower: string -> string, text: string, n: nat, tags: seq<string>)
    requires n <= |text|
  {
    forall i, j, k, l :: 0 <= i < j < |tags| && 0 <= k < n && 0 <= l < n && FirstAt(u, lower, text, k, tags[i]) && FirstAt(u, lower, text, l, tags[j]) ==> k < l
  }

  lemma {:induction false} TagsInOrder(u: Unicode, lower: string -> string, text: string, n: nat)
    requires n <= |text|
    ensures InOrder(u, lower, text, n, TagsBefore(u, lower, text, n))
  {
    if n > 0 {
      TagsInOrder(u, lower, text, n - 1);
      StoredTags(u, lower, text, n - 1);
      var before, after := TagsBefore(u, lower, text, n - 1), TagsBefore(u, lower, text, n);
      forall i, j, k, l | 0 <= i < j < |after| && 0 <= k < n && 0 <= l < n && FirstAt(u, lower, text, k, after[i]) && FirstAt(u, lower, text, l, after[j])
        ensures k < l
      {
        assert after[i] == before[i] && before[i] in before;
        assert Occurs(u, lower, text, n - 1, before[i]);
        if j < |before| { assert before[j] in before && Occurs(u, lower, text, n - 1, before[j]); }
        else { assert !(after[j] in before); }
      }
    }
  }

  /** Stored tags are pairwise distinct and are exactly the lower-cased tags that occur. */
  lemma {:induction false} StoredTags(u: Unicode, lower: string -> string, text: string, n: nat)
    requires n <= |text|
    ensures Distinct(TagsBefore(u, lower, text, n))
    ensures forall tag :: tag in TagsBefore(u, lower, text, n) <==> Occurs(u, lower, text, n, tag)
  {
    if n > 0 {
      StoredTags(u, lower, text, n - 1);
      var before, after := TagsBefore(u, lower, text, n - 1), TagsBefore(u, lower, text, n);
      assert Distinct(before);
      forall tag ensures tag in after <==> tag in before || TagStands(u, lower, text, n - 1, tag) {
      }
      forall tag ensures Occurs(u, lower, text, n, tag) <==> Occurs(u, lower, text, n - 1, tag) || TagStands(u, lower, text, n - 1, tag) {
      }
    }
  }
}
