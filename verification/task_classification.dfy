/** The reply parsing of `TaskClassifier` in task_classification/task_classification.py: the
    model is asked to wrap its answer in `<class>…</class>` and `<extra>…</extra>`, and
    `_parse_tag` cuts each part out of the reply text. */
module TaskClassification {
  import opened PyStr

  function OpenTag(tag: string): string {
    "<" + tag + ">"
  }

  function CloseTag(tag: string): string {
    "</" + tag + ">"
  }

  /** `s[i:j]` for non-negative `i` and `j`: empty once `j <= i`, and clipped at the end. */
  function PySlice(s: string, i: nat, j: nat): (r: string)
    ensures j <= i ==> r == []
    ensures i < j <= |s| ==> r == s[i..j]
  {
    if j <= i || i >= |s| then []
    else s[i..if j <= |s| then j else |s|]
  }

  /** What `_parse_tag` slices out of `text` before stripping: the text between the end of the
      first `<tag>` and the first `</tag>`, empty when either is missing. */
  function Tagged(text: string, tag: string): (r: string)
    ensures |r| <= |text|
  {
    var startIndex := Find(text, OpenTag(tag));
    var endIndex := Find(text, CloseTag(tag));
    if startIndex == -1 || endIndex == -1 then ""
    else PySlice(text, startIndex + |OpenTag(tag)|, endIndex)
  }

  /** `_parse_tag(text, tag)`. Where a tag is missing it returns `""`, which is what stripping
      the empty slice gives. */
  function ParseTag(text: string, tag: string): (r: string)
    ensures IsStripped(r) && |r| <= |text|
  {
    StripSpec(Tagged(text, tag));
    Strip(Tagged(text, tag))
  }

  /** A reply without `<tag>` or without `</tag>` gives `""`. */
  lemma ParseTagMissing(text: string, tag: string)
    requires !Contains(text, OpenTag(tag)) || !Contains(text, CloseTag(tag))
    ensures ParseTag(text, tag) == ""
  {
    FindSpec(text, OpenTag(tag));
    FindSpec(text, CloseTag(tag));
    assert Tagged(text, tag) == "";
    StripSpec("");
  }

  /** A first `</tag>` that starts before the first `<tag>` ends gives an empty slice, hence
      `""`. */
  lemma ClosingFirstGivesEmpty(text: string, tag: string)
    requires Contains(text, OpenTag(tag)) && Contains(text, CloseTag(tag))
    requires Find(text, CloseTag(tag)) <= Find(text, OpenTag(tag)) + |OpenTag(tag)|
    ensures ParseTag(text, tag) == ""
  {
    FindSpec(text, OpenTag(tag));
    FindSpec(text, CloseTag(tag));
    assert Tagged(text, tag) == "";
    StripSpec("");
  }

  /** The result is the stripped slice. */
  lemma ParseTagOfTagged(text: string, tag: string, s: string)
    requires Tagged(text, tag) == s
    ensures ParseTag(text, tag) == Strip(s)
  {
  }

  /** A tag name as the classifier uses them (`class`, `extra`): no angle brackets or slashes. */
  predicate PlainTag(tag: string) {
    forall i :: 0 <= i < |tag| ==> tag[i] != '<' && tag[i] != '>' && tag[i] != '/'
  }

  /** Only the first character of a tag of a plain name is `<`. */
  lemma TagAngles(tag: string)
    requires PlainTag(tag)
    ensures forall k :: 0 < k < |OpenTag(tag)| ==> OpenTag(tag)[k] != '<'
    ensures forall k :: 0 < k < |CloseTag(tag)| ==> CloseTag(tag)[k] != '<'
    ensures |OpenTag(tag)| > 1 && OpenTag(tag)[1] != '/'
  {
    forall k | 0 < k < |OpenTag(tag)| ensures OpenTag(tag)[k] != '<' {
      if k < |OpenTag(tag)| - 1 {
        assert OpenTag(tag)[k] == tag[k - 1];
      }
    }
    forall k | 0 < k < |CloseTag(tag)| ensures CloseTag(tag)[k] != '<' {
      if 1 < k < |CloseTag(tag)| - 1 {
        assert CloseTag(tag)[k] == tag[k - 2];
      }
    }
    if |tag| > 0 {
      assert OpenTag(tag)[1] == tag[0];
    }
  }

  /** A pattern whose only `<` is its first character cannot start in `pre` and run into text
      that begins with `<`, so if `pre` does not contain it, it does not start inside `pre`. */
  lemma NotFromPrefix(pre: string, rest: string, pat: string, p: nat)
    requires |pat| > 0 && rest != [] && rest[0] == '<'
    requires forall k :: 0 < k < |pat| ==> pat[k] != '<'
    requires !Contains(pre, pat) && p < |pre|
    ensures !OccursAt(pre + rest, pat, p)
  {
    var text := pre + rest;
    if p + |pat| <= |text| {
      if p + |pat| <= |pre| {
        assert text[p..p + |pat|] == pre[p..p + |pat|];
        assert !OccursAt(pre, pat, p);
      } else {
        var k := |pre| - p;
        assert text[p..p + |pat|][k] == text[|pre|] == '<';
      }
    }
  }

  /** The first `<tag>` of `pre + <tag> + tail` is the one after `pre`. */
  lemma FindOpenAfter(pre: string, tail: string, tag: string)
    requires PlainTag(tag) && !Contains(pre, OpenTag(tag))
    ensures Find(pre + OpenTag(tag) + tail, OpenTag(tag)) == |pre|
  {
    var open := OpenTag(tag);
    TagAngles(tag);
    var text := pre + (open + tail);
    assert text == pre + open + tail;
    assert OccursAt(text, open, |pre|) by { assert text[|pre|..|pre| + |open|] == open; }
    forall p | 0 <= p < |pre|
      ensures !OccursAt(text, open, p)
    {
      NotFromPrefix(pre, open + tail, open, p);
    }
    FindIs(text, open, |pre|);
  }

  /** No `</tag>` starts before the end of `pre + <tag> + s`. */
  lemma NoCloseBefore(pre: string, s: string, tail: string, tag: string, p: nat)
    requires PlainTag(tag) && !Contains(pre, CloseTag(tag)) && !Contains(s, CloseTag(tag))
    requires p < |pre| + |OpenTag(tag)| + |s|
    ensures !OccursAt(pre + OpenTag(tag) + s + CloseTag(tag) + tail, CloseTag(tag), p)
  {
    var open, close := OpenTag(tag), CloseTag(tag);
    TagAngles(tag);
    var text := pre + open + s + close + tail;
    if p < |pre| {
      assert text == pre + (open + s + close + tail);
      NotFromPrefix(pre, open + s + close + tail, close, p);
    } else if p < |pre| + |open| {
      NoCloseInOpen(pre, s + close + tail, tag, p);
      assert text == pre + open + (s + close + tail);
    } else {
      NoCloseInBody(pre + open, s, tail, tag, p);
    }
  }

  /** A `</tag>` cannot start inside `<tag>`: its characters after the first are not `<`, and
      the one right after it is not `/`. */
  lemma NoCloseInOpen(pre: string, tail: string, tag: string, p: nat)
    requires PlainTag(tag) && |pre| <= p < |pre| + |OpenTag(tag)|
    ensures !OccursAt(pre + OpenTag(tag) + tail, CloseTag(tag), p)
  {
    var open, close := OpenTag(tag), CloseTag(tag);
    TagAngles(tag);
    var text := pre + open + tail;
    assert text[p] == open[p - |pre|];
    if p + |close| <= |text| {
      var w := text[p..p + |close|];
      if p == |pre| {
        assert text[p + 1] == open[1];
        assert w[1] == open[1] != close[1];
      } else {
        assert w[0] == open[p - |pre|] != close[0];
      }
    }
  }

  /** A `</tag>` starting inside `s` would lie in `s`, or run into the `<` that follows it. */
  lemma NoCloseInBody(front: string, s: string, tail: string, tag: string, p: nat)
    requires PlainTag(tag) && !Contains(s, CloseTag(tag))
    requires |front| <= p < |front| + |s|
    ensures !OccursAt(front + s + CloseTag(tag) + tail, CloseTag(tag), p)
  {
    var close := CloseTag(tag);
    TagAngles(tag);
    var a := |front|;
    var u := s + (close + tail);
    var text := front + s + close + tail;
    assert text == front + u;
    NotFromPrefix(s, close + tail, close, p - a);
    if p + |close| <= |text| {
      assert text[p..p + |close|] == u[p - a..p - a + |close|];
    }
  }

  /** Where the two tags are found decides the slice. */
  lemma TaggedAt(text: string, tag: string, i: nat, j: nat)
    requires Find(text, OpenTag(tag)) == i && Find(text, CloseTag(tag)) == j
    requires i + |OpenTag(tag)| <= j <= |text|
    ensures Tagged(text, tag) == text[i + |OpenTag(tag)|..j]
  {
  }

  /** The first `</tag>` of `pre + <tag> + s + </tag> + rest` is the one after `s`. */
  lemma FindCloseAfter(pre: string, s: string, rest: string, tag: string)
    requires PlainTag(tag) && !Contains(pre, CloseTag(tag)) && !Contains(s, CloseTag(tag))
    ensures Find(pre + OpenTag(tag) + s + CloseTag(tag) + rest, CloseTag(tag)) == |pre| + |OpenTag(tag)| + |s|
  {
    var close := CloseTag(tag);
    var text := pre + OpenTag(tag) + s + close + rest;
    var n := |pre| + |OpenTag(tag)| + |s|;
    assert OccursAt(text, close, n) by { assert text[n..n + |close|] == close; }
    forall p | 0 <= p < n
      ensures !OccursAt(text, close, p)
    {
      NoCloseBefore(pre, s, rest, tag, p);
    }
    FindIs(text, close, n);
  }

  /** The slice between the tags of `pre + <tag> + s + </tag> + rest` is `s`. */
  lemma TaggedIn(text: string, pre: string, s: string, rest: string, tag: string)
    requires PlainTag(tag) && text == pre + OpenTag(tag) + s + CloseTag(tag) + rest
    requires !Contains(pre, OpenTag(tag)) && !Contains(pre, CloseTag(tag)) && !Contains(s, CloseTag(tag))
    ensures Tagged(text, tag) == s
  {
    var a := |pre| + |OpenTag(tag)|;
    OpenFoundAt(text, pre, s, rest, tag);
    FindCloseAfter(pre, s, rest, tag);
    TaggedAt(text, tag, |pre|, a + |s|);
    assert text[a..a + |s|] == s;
  }

  /** The first `<tag>` of `pre + <tag> + s + </tag> + rest` is the one after `pre`. */
  lemma OpenFoundAt(text: string, pre: string, s: string, rest: string, tag: string)
    requires PlainTag(tag) && text == pre + OpenTag(tag) + s + CloseTag(tag) + rest
    requires !Contains(pre, OpenTag(tag))
    ensures Find(text, OpenTag(tag)) == |pre|
  {
    FindOpenAfter(pre, s + CloseTag(tag) + rest, tag);
    assert pre + OpenTag(tag) + (s + CloseTag(tag) + rest) == text;
  }

  /** `_parse_tag` finds a tagged part anywhere in the reply: with no earlier `<tag>` or
      `</tag>` in front of it and no `</tag>` inside it, the result is the part stripped,
      whatever follows. */
  lemma ParseTagIn(text: string, pre: string, s: string, rest: string, tag: string)
    requires PlainTag(tag) && text == pre + OpenTag(tag) + s + CloseTag(tag) + rest
    requires !Contains(pre, OpenTag(tag)) && !Contains(pre, CloseTag(tag)) && !Contains(s, CloseTag(tag))
    ensures ParseTag(text, tag) == Strip(s)
  {
    TaggedIn(text, pre, s, rest, tag);
    ParseTagOfTagged(text, tag, s);
  }

  /** Round trip: wrapping `s` in a plain tag and parsing it back gives `s` stripped, as long as
      `s` does not itself contain the closing tag. */
  lemma ParseTagFramed(s: string, tag: string)
    requires PlainTag(tag) && !Contains(s, CloseTag(tag))
    ensures ParseTag(OpenTag(tag) + s + CloseTag(tag), tag) == Strip(s)
  {
    var text := OpenTag(tag) + s + CloseTag(tag);
    assert !Contains([], OpenTag(tag)) && !Contains([], CloseTag(tag));
    assert text == [] + OpenTag(tag) + s + CloseTag(tag) + [];
    ParseTagIn(text, [], s, [], tag);
  }

  /** The end of `classify_task`: the task class and the explanation cut from the reply. */
  function ClassifyTask(responseText: string): (r: (string, string))
    ensures IsStripped(r.0) && IsStripped(r.1)
  {
    (ParseTag(responseText, "class"), ParseTag(responseText, "extra"))
  }

  /** A reply in the requested format, `<class>…</class>` then `<extra>…</extra>`, yields both
      parts stripped. */
  lemma ClassifyWellFormedReply(cls: string, gap: string, extra: string)
    requires !Contains(cls, CloseTag("class")) && !Contains(extra, CloseTag("extra"))
    requires var pre := OpenTag("class") + cls + CloseTag("class") + gap;
      !Contains(pre, OpenTag("extra")) && !Contains(pre, CloseTag("extra"))
    ensures ClassifyTask(OpenTag("class") + cls + CloseTag("class") + gap + OpenTag("extra") + extra + CloseTag("extra"))
      == (Strip(cls), Strip(extra))
  {
    var pre := OpenTag("class") + cls + CloseTag("class") + gap;
    var text := pre + OpenTag("extra") + extra + CloseTag("extra");
    var rest := gap + OpenTag("extra") + extra + CloseTag("extra");
    assert !Contains([], OpenTag("class")) && !Contains([], CloseTag("class"));
    assert text == [] + OpenTag("class") + cls + CloseTag("class") + rest;
    ParseTagIn(text, [], cls, rest, "class");
    assert text == pre + OpenTag("extra") + extra + CloseTag("extra") + [];
    ParseTagIn(text, pre, extra, [], "extra");
  }
}
