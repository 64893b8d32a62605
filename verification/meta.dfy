/** The post's metadata record (`createBlogPostMeta`) and the TypeScript module
    that exports it (`generateMetaFile`). The author comes from the
    environment and the date from the clock; both are parameters here. */
module Metadata {
  import opened Results
  import opened Runs
  import opened Article
  import opened ReadingTime

  /** The `BlogPost` record of the source's JSDoc. */
  datatype BlogPostMeta = BlogPostMeta(
    slug: string,
    title: string,
    description: string,
    author: string,
    date: string,
    readTime: string,
    image: string)

  /** The author used when `BLOG_AUTHOR` is unset or empty. */
  const DefaultAuthor: string := "Kevin Kane"

  /** The public folder the post's image is served from. */
  const ImageDir: string := "/blog-images/"

  /** `process.env.BLOG_AUTHOR || 'Kevin Kane'`. */
  function ResolveAuthor(blogAuthor: Option<string>): (author: string)
    ensures author != ""
    ensures IsSet(blogAuthor) ==> author == blogAuthor.value
    ensures !IsSet(blogAuthor) ==> author == DefaultAuthor
  {
    match blogAuthor
    case Some(name) => if name != "" then name else DefaultAuthor
    case None => DefaultAuthor
  }

  predicate NotT(c: char) {
    c != 'T'
  }

  /** `date` is the part of the timestamp `iso` before its first `T`. */
  predicate IsDatePart(date: string, iso: string) {
    && |date| <= |iso|
    && date == iso[..|date|]
    && (forall i :: 0 <= i < |date| ==> date[i] != 'T')
    && (|date| < |iso| ==> iso[|date|] == 'T')
  }

  /** `iso.split('T')[0]`: the calendar date of an ISO-8601 timestamp. */
  function CalendarDate(iso: string): (date: string)
    ensures IsDatePart(date, iso)
  {
    iso[..LeadingRun(iso, NotT)]
  }

  /** Only one text is the part of a timestamp before its first `T`. */
  lemma DatePartUnique(iso: string, d1: string, d2: string)
    requires IsDatePart(d1, iso) && IsDatePart(d2, iso)
    ensures d1 == d2
  {
    LeadingRunIs(iso, NotT, |d1|);
    LeadingRunIs(iso, NotT, |d2|);
  }

  /** The image's file name, when `image` lies in the image folder. */
  function ImageFile(image: string): (file: Option<string>)
    ensures file.Some? ==> image == ImageDir + file.value
  {
    if |image| >= |ImageDir| && image[..|ImageDir|] == ImageDir then
      assert image == image[..|ImageDir|] + image[|ImageDir|..];
      Some(image[|ImageDir|..])
    else None
  }

  /** `createBlogPostMeta(blogContent, slug, thumbnailFilename)` with the
      environment's `BLOG_AUTHOR` and the clock's `toISOString()` passed in. */
  function CreateBlogPostMeta(post: BlogContent, slug: string, thumbnailFilename: string,
                              blogAuthor: Option<string>, isoNow: string): (meta: BlogPostMeta)
    ensures meta.slug == slug && meta.title == post.title && meta.description == post.description
    ensures IsSet(blogAuthor) ==> meta.author == blogAuthor.value
    ensures !IsSet(blogAuthor) ==> meta.author == DefaultAuthor
    ensures IsDatePart(meta.date, isoNow)
    ensures ParseReadTime(meta.readTime) == Some(ReadMinutes(WordCount(post.content)))
    ensures ParseReadTime(meta.readTime).value >= 1
    ensures ImageFile(meta.image) == Some(thumbnailFilename)
  {
    var image := ImageDir + thumbnailFilename;
    assert image[..|ImageDir|] == ImageDir && image[|ImageDir|..] == thumbnailFilename;
    BlogPostMeta(slug, post.title, post.description, ResolveAuthor(blogAuthor),
                 CalendarDate(isoNow), ReadTime(post.content), image)
  }

  /** What precedes the serialised record in `blogPost.ts`. */
  const MetaHead: string := "\nexport const blogPost = "

  /** What follows the serialised record. */
  const MetaTail: string := ";\n"

  /** `generateMetaFile(blogPostMeta)`, with `JSON.stringify(…, null, 2)`
      passed in as `stringify`. */
  function GenerateMetaFile(meta: BlogPostMeta, stringify: BlogPostMeta -> string): (text: string)
    ensures MetaFileBody(text) == Some(stringify(meta))
  {
    var text := MetaHead + stringify(meta) + MetaTail;
    assert text[..|MetaHead|] == MetaHead;
    assert text[|text| - |MetaTail|..] == MetaTail;
    assert text[|MetaHead|..|text| - |MetaTail|] == stringify(meta);
    text
  }

  /** The serialised record of a `blogPost.ts` module; `None` when the text
      does not have the module's shape. */
  function MetaFileBody(text: string): (body: Option<string>)
    ensures body.Some? ==> text == MetaHead + body.value + MetaTail
  {
    if |text| < |MetaHead| + |MetaTail| || text[..|MetaHead|] != MetaHead
       || text[|text| - |MetaTail|..] != MetaTail then None
    else
      var body := text[|MetaHead|..|text| - |MetaTail|];
      assert text == text[..|MetaHead|] + body + text[|text| - |MetaTail|..];
      Some(body)
  }

  /** A timestamp from `toISOString()` yields its `YYYY-MM-DD` part. */
  lemma ExampleDate(iso: string)
    requires iso == "2025-01-15T10:30:00.000Z"
    ensures CalendarDate(iso) == "2025-01-15"
  {
    assert IsDatePart("2025-01-15", iso);
    DatePartUnique(iso, CalendarDate(iso), "2025-01-15");
  }
}
