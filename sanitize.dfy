/** `sanitizeInput` of the sign-in and sign-up forms:
    `value.trim().replace(/<[^>]*>/g, '')`. The pattern matches a `<`, then
    everything up to and including the first `>` after it; matches do not
    overlap and are found left to right. A `<` with no `>` anywhere after
    it starts no match, and neither does any later `<`. */
module Sanitize {
  import opened Strings

  /** `s.replace(/<[^>]*>/g, '')`. */
  function StripTags(s: string): (r: string)
    ensures |r| <= |s|
    ensures r != s ==> |r| + 2 <= |s|
    decreases |s|
  {
    var i := FirstIn(s, {'<'});
    if i == |s| then s
    else
      var j := FirstIn(s[i + 1..], {'>'});
      if i + 1 + j == |s| then s
      else s[..i] + StripTags(s[i + 1 + j + 1..])
  }

  /** The sanitized value holds no `<...>` span left to strip. */
  function SanitizeInput(value: string): (r: string)
    ensures StripTags(r) == r
  {
    StripTagsIdempotent(Trim(value));
    StripTags(Trim(value))
  }

  /** No `<` is followed, anywhere later, by a `>`. */
  predicate NoTag(s: string) {
    forall p, q :: 0 <= p < q < |s| && s[p] == '<' ==> s[q] != '>'
  }

  /** A string whose first `<` has no `>` after it holds no tag. */
  lemma NoTagAfterUnmatched(s: string, i: nat)
    requires i < |s| && NoneIn(s[..i], {'<'}) && NoneIn(s[i + 1..], {'>'})
    ensures NoTag(s)
  {
    assert forall k :: 0 <= k < i ==> s[..i][k] == s[k];
    forall p, q | 0 <= p < q < |s| && s[p] == '<' ensures s[q] != '>' {
      assert s[i + 1..][q - i - 1] == s[q];
    }
  }

  /** Text without `<` put before text without a tag holds no tag. */
  lemma NoTagConcat(head: string, rest: string)
    requires NoneIn(head, {'<'}) && NoTag(rest)
    ensures NoTag(head + rest)
  {
    var r := head + rest;
    assert forall k :: 0 <= k < |head| ==> r[k] == head[k];
    forall p, q | 0 <= p < q < |r| && r[p] == '<' ensures r[q] != '>' {
      assert r[p] == rest[p - |head|] && r[q] == rest[q - |head|];
    }
  }

  /** What is left after stripping holds no `<...>` span. */
  lemma {:induction false} StripTagsLeavesNoTag(s: string)
    ensures NoTag(StripTags(s))
    decreases |s|
  {
    var i := FirstIn(s, {'<'});
    if i < |s| {
      var j := FirstIn(s[i + 1..], {'>'});
      if i + 1 + j == |s| {
        assert s[i + 1..][..j] == s[i + 1..];
        NoTagAfterUnmatched(s, i);
      } else {
        StripTagsLeavesNoTag(s[i + 1 + j + 1..]);
        NoTagConcat(s[..i], StripTags(s[i + 1 + j + 1..]));
      }
    }
  }

  /** Text without a `<...>` span is left as it is, so stripping twice is
      stripping once. */
  lemma StripTagsFixed(s: string)
    requires NoTag(s)
    ensures StripTags(s) == s
  {
    var i := FirstIn(s, {'<'});
    if i < |s| {
      var t := s[i + 1..];
      forall k | 0 <= k < |t| ensures t[k] != '>' {
        assert t[k] == s[i + 1 + k];
      }
      assert FirstIn(t, {'>'}) == |t|;
    }
  }

  lemma StripTagsIdempotent(s: string)
    ensures StripTags(StripTags(s)) == StripTags(s)
  {
    StripTagsLeavesNoTag(s);
    StripTagsFixed(StripTags(s));
  }

  /** A tag in the middle of a word is cut out. */
  lemma StripTagsExample()
    ensures StripTags("a<b>c") == "ac"
  {
    var s := "a<b>c";
    assert s[0] == 'a' && s[1] == '<';
    assert FirstIn(s, {'<'}) == 1;
    assert s[2..] == "b>c";
    assert FirstIn(s[2..], {'>'}) == 1;
    assert s[4..] == "c";
    assert FirstIn("c", {'<'}) == 1;
  }
}
