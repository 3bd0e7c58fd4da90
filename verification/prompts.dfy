/** Prompt templates with two named fields, as `str.format(features_json=...,
    search_json=...)` fills them. A template is stored already split at its
    two fields, with its doubled braces `{{`/`}}` written as single ones. */
module Prompting {

  datatype Template = Template(head: string, mid: string, tail: string)

  /** The template with the features text in its first field and the search
      space text in its second. */
  function Fill(t: Template, features: string, search: string): (r: string)
    ensures |r| == |t.head| + |features| + |t.mid| + |search| + |t.tail|
    ensures r[..|t.head|] == t.head
    ensures r[|t.head|..|t.head| + |features|] == features
    ensures r[|t.head| + |features|..|t.head| + |features| + |t.mid|] == t.mid
    ensures r[|t.head| + |features| + |t.mid|..|r| - |t.tail|] == search
    ensures r[|r| - |t.tail|..] == t.tail
  {
    var r := t.head + features + t.mid + search + t.tail;
    assert r[|t.head|..|t.head| + |features|] == features;
    assert r[|t.head| + |features|..|t.head| + |features| + |t.mid|] == t.mid;
    assert r[|t.head| + |features| + |t.mid|..|r| - |t.tail|] == search;
    r
  }

  /** Text placed between a fixed opening and a fixed closing can be read back. */
  function Wrap(open: string, body: string, close: string): (r: string)
    ensures |r| == |open| + |body| + |close|
    ensures r[..|open|] == open && r[|open|..|open| + |body|] == body && r[|open| + |body|..] == close
  {
    var r := open + body + close;
    assert r[|open|..|open| + |body|] == body;
    r
  }

  /** Filling a template with the same search space text is injective in the
      features text: the prompt determines the features it was built from. */
  lemma FillInjective(t: Template, f1: string, f2: string, search: string)
    requires Fill(t, f1, search) == Fill(t, f2, search)
    ensures f1 == f2
  {
    var r := Fill(t, f1, search);
    assert |f1| == |f2|;
    assert f1 == r[|t.head|..|t.head| + |f1|];
  }

  /** Wrapping with the same opening and closing is injective in the body. */
  lemma WrapInjective(open: string, b1: string, b2: string, close: string)
    requires Wrap(open, b1, close) == Wrap(open, b2, close)
    ensures b1 == b2
  {
    var r := Wrap(open, b1, close);
    assert |b1| == |b2|;
    assert b1 == r[|open|..|open| + |b1|];
  }
}
