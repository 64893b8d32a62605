/** The generated post and the MDX article rendered from it
    (`createMDXContent`): a fixed video-embed block whose iframe title is the
    post's title, followed by the post's markdown body. */
module Article {
  import opened Results
  import opened Runs

  /** What the content generator returns: the parsed `{title, description,
      content}` object. */
  datatype BlogContent = BlogContent(title: string, description: string, content: string)

  /** The template up to and including the opening quote of the iframe's
      `title` attribute. */
  const MdxHead: string := "\n<div className=\"video-container mb-8\">\n  <div className=\"aspect-video w-full max-w-4xl mx-auto\">\n    <iframe\n      className=\"w-full h-full rounded-lg shadow-lg\"\n      src=\"https://www.youtube.com/embed/YOUR_VIDEO_ID\"\n      " + TitleOpen

  const TitleOpen: string := "title=\""

  /** From the closing quote of the `title` attribute to the blank line before
      the body. */
  const MdxMid: string := "\"" + "\n      allow=\"accelerometer; autoplay; clipboard-write; encrypted-media; gyroscope; picture-in-picture\"\n      allowFullScreen\n    ></iframe>\n  </div>\n</div>\n\n"

  /** What follows the body. */
  const MdxTail: string := "\n\n"

  predicate NotQuote(c: char) {
    c != '"'
  }

  /** A title that cannot close the iframe's `title` attribute early. */
  predicate Unquoted(s: string) {
    forall i :: 0 <= i < |s| ==> s[i] != '"'
  }

  /** `text` holds the attribute `title="<title>"` at offset `k`. */
  predicate TitleAttributeAt(text: string, title: string, k: nat) {
    k + |title| + 8 <= |text| && text[k..k + |title| + 8] == TitleOpen + title + "\""
  }

  /** `text` holds the attribute `title="<title>"`. */
  predicate HasTitleAttribute(text: string, title: string) {
    exists k: nat :: k <= |text| && TitleAttributeAt(text, title, k)
  }

  /** The template's head ends by opening the `title` attribute. */
  lemma HeadOpensTitle()
    ensures |MdxHead| >= 7 && MdxHead[|MdxHead| - 7..] == TitleOpen
  {
  }

  /** The rest of the template starts by closing the `title` attribute. */
  lemma MidClosesTitle()
    ensures |MdxMid| > 0 && MdxMid[0] == '"'
  {
  }

  /** `createMDXContent(blogContent, _slug)`. The slug is not used: the
      article depends on the title and the body only. */
  function CreateMdxContent(post: BlogContent, slug: string): (mdx: string)
    ensures HasTitleAttribute(mdx, post.title)
    ensures |mdx| >= |post.content| + |MdxTail| && mdx[|mdx| - |MdxTail| - |post.content|..|mdx| - |MdxTail|] == post.content
    ensures Unquoted(post.title) ==> ArticleParts(mdx) == Some((post.title, post.content))
  {
    HeadOpensTitle();
    MidClosesTitle();
    FillTemplate(MdxHead, MdxMid, MdxTail, post.title, post.content)
  }

  /** A template filled with a title and a body. */
  function FillTemplate(head: string, mid: string, tail: string, title: string, content: string): (text: string)
    requires |head| >= 7 && head[|head| - 7..] == TitleOpen
    requires |mid| > 0 && mid[0] == '"'
    ensures HasTitleAttribute(text, title)
    ensures |text| >= |content| + |tail| && text[|text| - |tail| - |content|..|text| - |tail|] == content
    ensures Unquoted(title) ==> SplitTemplate(text, head, mid, tail) == Some((title, content))
  {
    TemplateRoundTrip(head, mid, tail, title, content);
    var text := head + title + mid + content + tail;
    var k := |head| - 7;
    assert text[k..k + |title| + 8] == head[k..] + title + [mid[0]];
    assert [mid[0]] == "\"";
    assert TitleAttributeAt(text, title, k);
    text
  }

  /** Reads an article back: the title is what stands between the template's
      head and the next `"`, and the body what stands between the rest of the
      template and its tail; `None` when the text does not have that shape. */
  function ArticleParts(mdx: string): (parts: Option<(string, string)>)
    ensures parts.Some? ==> Unquoted(parts.value.0)
    ensures parts.Some? ==> mdx == MdxHead + parts.value.0 + MdxMid + parts.value.1 + MdxTail
  {
    SplitTemplate(mdx, MdxHead, MdxMid, MdxTail)
  }

  /** The text between `head` and the next `"`, and the text between `mid`
      and `tail` after it. */
  function SplitTemplate(text: string, head: string, mid: string, tail: string): (parts: Option<(string, string)>)
    ensures parts.Some? ==> Unquoted(parts.value.0)
    ensures parts.Some? ==> text == head + parts.value.0 + mid + parts.value.1 + tail
  {
    if |text| < |head| || text[..|head|] != head then None
    else
      var t := |head| + LeadingRun(text[|head|..], NotQuote);
      var c := t + |mid|;
      var e := |text| - |tail|;
      if c > e || text[t..c] != mid || text[e..] != tail then None
      else
        assert forall i :: |head| <= i < t ==> text[i] == text[|head|..][i - |head|];
        Cuts(text, |head|, t, c, e);
        Some((text[|head|..t], text[c..e]))
  }

  /** A text is the concatenation of its slices between four cut points. */
  lemma Cuts(s: string, a: nat, b: nat, c: nat, d: nat)
    requires a <= b <= c <= d <= |s|
    ensures s == s[..a] + s[a..b] + s[b..c] + s[c..d] + s[d..]
  {
    assert s[..b] == s[..a] + s[a..b];
    assert s[..c] == s[..b] + s[b..c];
    assert s[..d] == s[..c] + s[c..d];
  }

  /** Filling a template whose `mid` opens with `"` and reading it back gives
      the title and the body, for every title without a `"`. */
  lemma TemplateRoundTrip(head: string, mid: string, tail: string, title: string, content: string)
    requires |mid| > 0 && mid[0] == '"'
    ensures Unquoted(title) ==>
      SplitTemplate(head + title + mid + content + tail, head, mid, tail) == Some((title, content))
  {
    if Unquoted(title) {
      var text := head + title + mid + content + tail;
      var h := |head|;
      var t := h + |title|;
      var c := t + |mid|;
      var e := c + |content|;
      assert text[..h] == head;
      assert text[h..] == title + (mid + content + tail);
      assert LeadingRun(text[h..], NotQuote) == |title| by {
        assert text[h..][|title|] == mid[0];
      }
      assert text[h..t] == title;
      assert text[t..c] == mid;
      assert text[c..e] == content;
      assert text[e..] == tail;
    }
  }

  /** The slug argument does not change the article. */
  lemma ArticleIgnoresSlug(post: BlogContent, slugA: string, slugB: string)
    ensures CreateMdxContent(post, slugA) == CreateMdxContent(post, slugB)
  {
  }

  /** Two posts with quote-free titles render to the same article only when
      their titles and bodies agree. */
  lemma ArticleDeterminesPost(a: BlogContent, b: BlogContent, slugA: string, slugB: string)
    requires Unquoted(a.title) && Unquoted(b.title)
    requires CreateMdxContent(a, slugA) == CreateMdxContent(b, slugB)
    ensures a.title == b.title && a.content == b.content
  {
  }
}
