/** Text cut at a separator and put together again: lines, and the tab-separated fields of a row. */
module TextLines {
  import H = Htttp

  function Split(s: string, sep: char): (parts: seq<string>)
    ensures parts != []
    decreases |s|
  {
    var i := H.IndexOf(s, sep);
    if i == |s| then [s] else [s[..i]] + Split(s[i + 1..], sep)
  }

  function Join(parts: seq<string>, sep: char): string
    requires parts != []
  {
    if |parts| == 1 then parts[0] else parts[0] + [sep] + Join(parts[1..], sep)
  }

  predicate Free(parts: seq<string>, sep: char)
  {
    forall i :: 0 <= i < |parts| ==> sep !in parts[i]
  }

  /** Joining puts back what splitting took apart. */
  lemma {:induction false} JoinSplit(s: string, sep: char)
    ensures Join(Split(s, sep), sep) == s && Free(Split(s, sep), sep)
    decreases |s|
  {
    var i := H.IndexOf(s, sep);
    if i < |s| {
      var rest := Split(s[i + 1..], sep);
      JoinSplit(s[i + 1..], sep);
      assert Split(s, sep) == [s[..i]] + rest && Split(s, sep)[1..] == rest;
      assert s == s[..i] + [sep] + s[i + 1..];
    }
  }

  /** Splitting takes apart what joining put together. */
  lemma {:induction false} SplitJoin(parts: seq<string>, sep: char)
    requires parts != [] && Free(parts, sep)
    ensures Split(Join(parts, sep), sep) == parts
    decreases |parts|
  {
    var s := Join(parts, sep);
    if |parts| == 1 {
      H.IndexIs(s, sep, |s|);
    } else {
      var rest := Join(parts[1..], sep);
      H.IndexIs(s, sep, |parts[0]|);
      assert s[..|parts[0]|] == parts[0] && s[|parts[0]| + 1..] == rest;
      SplitJoin(parts[1..], sep);
      assert [parts[0]] + parts[1..] == parts;
    }
  }

  lemma {:induction false} JoinEnd(lines: seq<string>, last: string, sep: char)
    requires lines != []
    ensures Join(lines + [last], sep) == Join(lines, sep) + [sep] + last
    decreases |lines|
  {
    if |lines| == 1 {
      assert (lines + [last])[1..] == [last];
    } else {
      assert (lines + [last])[1..] == lines[1..] + [last];
      JoinEnd(lines[1..], last, sep);
    }
  }

  /** One step of a scan from p to the separator at i. */
  lemma SplitStep(s: string, sep: char, p: nat, i: nat)
    requires p <= i <= |s| && i == p + H.IndexOf(s[p..], sep)
    ensures i < |s| ==> Split(s[p..], sep) == [s[p..i]] + Split(s[i + 1..], sep)
    ensures i == |s| ==> Split(s[p..], sep) == [s[p..]]
  {
    if i < |s| {
      assert s[p..][..i - p] == s[p..i] && s[p..][i - p + 1..] == s[i + 1..];
    }
  }

  // ---- walking a text part by part ------------------------------------------------

  /** A text cut at a separator, and where each part starts: a body's lines, a row's fields. */
  datatype Page = Page(body: string, sep: char, lines: seq<string>, starts: seq<nat>)

  /** Part k is where the page says, with the next one right behind it. */
  ghost predicate LineHere(g: Page, k: int)
  {
    && 0 <= k < |g.lines| == |g.starts| && g.sep !in g.lines[k]
    && g.starts[k] + |g.lines[k]| <= |g.body|
    && g.body[g.starts[k]..g.starts[k] + |g.lines[k]|] == g.lines[k]
    && (g.starts[k] + |g.lines[k]| == |g.body| <==> k + 1 == |g.lines|)
    && (k + 1 < |g.lines| ==> g.body[g.starts[k] + |g.lines[k]|] == g.sep
                              && g.starts[k + 1] == g.starts[k] + |g.lines[k]| + 1)
  }

  ghost predicate IsPage(g: Page)
  {
    g.lines != [] && |g.starts| == |g.lines| && forall k :: 0 <= k < |g.lines| ==> LineHere(g, k)
  }

  /** A part in front of a page. */
  lemma PageCons(rest: Page, p: nat, i: nat)
    requires IsPage(rest) && p <= i < |rest.body| && rest.starts[0] == i + 1
    requires rest.body[i] == rest.sep && rest.sep !in rest.body[p..i]
    ensures IsPage(rest.(lines := [rest.body[p..i]] + rest.lines, starts := [p] + rest.starts))
  {
    var g := rest.(lines := [rest.body[p..i]] + rest.lines, starts := [p] + rest.starts);
    forall k | 0 <= k < |g.lines|
      ensures LineHere(g, k)
    {
      if k > 0 {
        assert LineHere(rest, k - 1);
        assert g.lines[k] == rest.lines[k - 1] && g.starts[k] == rest.starts[k - 1];
      }
    }
  }

  lemma PageEnd(body: string, sep: char, p: nat)
    requires p <= |body| && sep !in body[p..]
    ensures IsPage(Page(body, sep, [body[p..]], [p]))
  {
    assert body[p..p + |body[p..]|] == body[p..];
  }

  ghost function PageFrom(body: string, sep: char, p: nat): (g: Page)
    requires p <= |body|
    ensures IsPage(g) && g.body == body && g.sep == sep && g.starts[0] == p && g.lines == Split(body[p..], sep)
    decreases |body| - p
  {
    var i := p + H.IndexOf(body[p..], sep);
    SplitStep(body, sep, p, i);
    assert body[p..i] == body[p..][..i - p];
    if i < |body| then
      var rest := PageFrom(body, sep, i + 1);
      PageCons(rest, p, i);
      rest.(lines := [body[p..i]] + rest.lines, starts := [p] + rest.starts)
    else
      PageEnd(body, sep, p);
      Page(body, sep, [body[p..]], [p])
  }

  /** The page of a whole text. */
  ghost function PageOf(body: string, sep: char): (g: Page)
    ensures IsPage(g) && g.body == body && g.sep == sep && g.lines == Split(body, sep) && g.starts[0] == 0
  {
    assert body[0..] == body;
    PageFrom(body, sep, 0)
  }

  /** Where the part that starts at p ends: line_len, and the search for a tab. */
  method LineAt(body: string, p: nat, sep: char, ghost g: Page, ghost k: nat) returns (end: nat)
    requires IsPage(g) && g.body == body && g.sep == sep && k < |g.lines| && p == g.starts[k]
    ensures end == p + |g.lines[k]| && LineHere(g, k)
  {
    assert LineHere(g, k);
    end := H.FindChar(body, p, |body|, sep);
    SeparatorAt(g, k);
  }

  lemma SeparatorAt(g: Page, k: nat)
    requires IsPage(g) && k < |g.lines| && LineHere(g, k)
    ensures H.IndexOf(g.body[g.starts[k]..|g.body|], g.sep) == |g.lines[k]|
  {
    var s := g.body[g.starts[k]..|g.body|];
    forall j | 0 <= j < |g.lines[k]|
      ensures s[j] != g.sep
    {
      assert s[j] == g.lines[k][j];
    }
    H.IndexIs(s, g.sep, |g.lines[k]|);
  }

  /** The parts of a text, unless there are more than `max`. */
  method SplitUpTo(s: string, sep: char, max: nat) returns (ok: bool, parts: seq<string>)
    requires max > 0
    ensures ok <==> |Split(s, sep)| <= max
    ensures ok ==> parts == Split(s, sep)
  {
    ghost var g := PageOf(s, sep);
    parts := [];
    var p := 0;
    var end := LineAt(s, p, sep, g, 0);
    while end < |s|
      invariant |parts| < max && |parts| < |g.lines|
      invariant forall j :: 0 <= j < |parts| ==> parts[j] == g.lines[j]
      invariant p == g.starts[|parts|] && end == p + |g.lines[|parts|]| && LineHere(g, |parts|)
      decreases |s| - end
    {
      if |parts| == max - 1 {
        return false, parts;
      }
      assert s[p..end] == g.lines[|parts|];
      parts := parts + [s[p..end]];
      p := end + 1;
      end := LineAt(s, p, sep, g, |parts|);
    }
    assert s[p..end] == g.lines[|parts|];
    parts := parts + [s[p..end]];
    ok := true;
  }
}
