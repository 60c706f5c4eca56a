/** Removal of HTML tags with the semantics of the global regular expression
    `/<[^>]*>/g` used by `String.prototype.replace`: the string is scanned left
    to right; a `<` that has a later `>` starts a match that runs to the first
    such `>` (the text in between may itself contain `<`), the match is
    deleted and scanning resumes after it; a `<` with no later `>` is kept. */
module Html {
  import opened Wrappers
  import opened Sequences

  /** Position of the first occurrence of `c` in `s`. */
  function IndexOf(s: string, c: char): (r: Option<nat>)
    ensures r.None? <==> c !in s
    ensures r.Some? ==> r.value < |s| && s[r.value] == c && c !in s[..r.value]
  {
    if |s| == 0 then None
    else if s[0] == c then Some(0)
    else
      match IndexOf(s[1..], c)
      case None => None
      case Some(j) =>
        assert s[..j + 1] == [s[0]] + s[1..][..j];
        Some(j + 1)
  }

  /** No complete tag is left: every `<` has no `>` anywhere after it. */
  predicate NoTagLeft(s: string) {
    forall i, j :: 0 <= i < j < |s| && s[i] == '<' ==> s[j] != '>'
  }

  /** `s.replace(/<[^>]*>/g, '')`. */
  function StripTags(s: string): (r: string)
    ensures IsSubsequence(r, s)
    ensures NoTagLeft(r)
    ensures '<' !in s ==> r == s
    decreases |s|
  {
    if |s| == 0 then ""
    else if s[0] == '<' && IndexOf(s[1..], '>').Some? then
      var close := IndexOf(s[1..], '>').value + 1;
      var r := StripTags(s[close + 1..]);
      SubsequenceOfSuffix(r, s, close + 1);
      r
    else
      var rest := StripTags(s[1..]);
      KeepFirst(s, rest);
      [s[0]] + rest
  }

  /** The step of the scan that keeps the first character of `s`. */
  lemma KeepFirst(s: string, rest: string)
    requires 0 < |s|
    requires s[0] == '<' ==> '>' !in s[1..]
    requires IsSubsequence(rest, s[1..]) && NoTagLeft(rest)
    requires '<' !in s[1..] ==> rest == s[1..]
    ensures IsSubsequence([s[0]] + rest, s)
    ensures NoTagLeft([s[0]] + rest)
    ensures '<' !in s ==> [s[0]] + rest == s
  {
    var r := [s[0]] + rest;
    assert r[1..] == rest;
    assert IsSubsequence(r, s);
    SubsequenceElements(rest, s[1..]);
    forall i, j | 0 <= i < j < |r| && r[i] == '<'
      ensures r[j] != '>'
    {
      assert r[j] == rest[j - 1];
      if 0 < i {
        assert r[i] == rest[i - 1];
      } else {
        assert rest[j - 1] in rest;
      }
    }
    if '<' !in s {
      assert '<' !in s[1..];
      assert s == [s[0]] + s[1..];
    }
  }

  /** Stripping never lengthens the text. */
  lemma StripShortens(s: string)
    ensures |StripTags(s)| <= |s|
  {
    SubsequenceLength(StripTags(s), s);
  }

  /** A string with no complete tag is left alone by the stripper. */
  lemma {:induction false} StripWithoutTags(s: string)
    requires NoTagLeft(s)
    ensures StripTags(s) == s
    decreases |s|
  {
    if |s| > 0 {
      NoTagLeftTail(s);
      StripWithoutTags(s[1..]);
      KeepFirst(s, s[1..]);
    }
  }

  /** The tail of a string with no complete tag has none either, and when the
      string starts with `<` its tail has no `>`. */
  lemma NoTagLeftTail(s: string)
    requires 0 < |s| && NoTagLeft(s)
    ensures NoTagLeft(s[1..])
    ensures s[0] == '<' ==> '>' !in s[1..]
  {
    var t := s[1..];
    forall i, j | 0 <= i < j < |t| && t[i] == '<'
      ensures t[j] != '>'
    {
      assert t[i] == s[i + 1] && t[j] == s[j + 1];
    }
    if s[0] == '<' {
      forall k | 0 <= k < |t|
        ensures t[k] != '>'
      {
        assert t[k] == s[k + 1];
      }
    }
  }

  /** Stripping is idempotent: what survives one pass has no complete tag. */
  lemma {:induction false} StripIdempotent(s: string)
    ensures StripTags(StripTags(s)) == StripTags(s)
  {
    StripWithoutTags(StripTags(s));
  }

  /** A complete tag at the front is deleted and the scan resumes after its `>`. */
  lemma DropTag(t: string, y: string)
    requires '>' !in t
    ensures StripTags("<" + t + ">" + y) == StripTags(y)
  {
    var s := "<" + t + ">" + y;
    assert s[1..] == t + ">" + y;
    assert s[1..][..|t|] == t;
    assert s[1..][|t|] == '>';
    assert IndexOf(s[1..], '>') == Some(|t|);
    assert s[|t| + 2..] == y;
  }

  /** A character other than `<` at the front is kept. */
  lemma KeepPlain(c: char, z: string)
    requires c != '<'
    ensures StripTags([c] + z) == [c] + StripTags(z)
  {
    assert ([c] + z)[1..] == z;
  }

  /** Text before a tag survives, the tag goes, and the scan goes on after
      it: `"<b>hi</b>"` loses only its two tags. */
  lemma {:induction false} StripTextThenTag(x: string, t: string, y: string)
    requires '<' !in x && '>' !in t
    ensures StripTags(x + ("<" + t + ">" + y)) == x + StripTags(y)
    decreases |x|
  {
    var tag := "<" + t + ">" + y;
    if |x| == 0 {
      assert x + tag == tag;
      DropTag(t, y);
    } else {
      var c, rest := x[0], x[1..];
      assert c in x;
      assert '<' !in rest;
      assert x == [c] + rest;
      calc {
        StripTags(x + tag);
        { ConsConcat(c, rest, tag); }
        StripTags([c] + (rest + tag));
        { KeepPlain(c, rest + tag); }
        [c] + StripTags(rest + tag);
        { StripTextThenTag(rest, t, y); }
        [c] + (rest + StripTags(y));
        { ConsConcat(c, rest, StripTags(y)); }
        x + StripTags(y);
      }
    }
  }

  lemma ConsConcat(c: char, rest: string, tail: string)
    ensures [c] + (rest + tail) == ([c] + rest) + tail
  {
  }

  /** Text between tags is kept: `"<b>hi</b>"` becomes `"hi"`. */
  lemma StripBoldExample()
    ensures StripTags("<b>hi</b>") == "hi"
  {
    assert "hi" + ("<" + "/b" + ">" + "") == "hi</b>";
    StripTextThenTag("hi", "/b", "");
    assert "" + ("<" + "b" + ">" + "hi</b>") == "<b>hi</b>";
    StripTextThenTag("", "b", "hi</b>");
  }

  /** A tag may contain `<`, so `<a<b>` is removed as a whole. */
  lemma StripNestedOpen()
    ensures StripTags("<a<b>x") == "x"
  {
    assert IndexOf("a<b>x", '>') == Some(3);
    assert "<a<b>x"[5..] == "x";
    assert StripTags("x") == "x";
  }

  /** A `<` with no later `>` stays. */
  lemma StripUnclosed()
    ensures StripTags("a<b") == "a<b"
  {
    assert NoTagLeft("a<b");
    StripWithoutTags("a<b");
  }
}
