# video-to-blog-post in Dafny

A model of the `VideoToMarkdown` class of `index.js`, the converter that turns
a video into a blog post. It covers:

- **Slug** (`generateSlug`). A title is lowercased and every character outside
  `[a-z0-9\s-]` is dropped. Whitespace runs become `-`, hyphen runs collapse,
  and hyphens are trimmed from both ends.
- **ReadingTime** (the reading-time part of `createBlogPostMeta`).
  `split(/\s+/)` counts the words, `Math.ceil(words / 200)` gives the minutes,
  and the label reads `"<n> min read"`.
- **Metadata**: the `createBlogPostMeta` record (author fallback, calendar
  date, image path) and the `blogPost.ts` module that `generateMetaFile` wraps
  around it.
- **Article** (`createMDXContent`): the MDX template with the title in the
  iframe's `title` attribute and the body spliced in verbatim.
- **Paths**: `path.join` as `dir + "/" + name`, and POSIX `path.basename` and `path.extname`, as far as
  the converter uses them.
- **Pipeline**: the constructor, `processVideo`, and its stages
  `transcribeVideo`, `generateBlogPost` and `extractThumbnail`.
  - Every collaborator is an oracle passed in as a value of
    `Pipeline.Collaborators`: `fs`, the transcription and generation services,
    ffmpeg and `JSON.stringify`.
  - A run is the sequence of effects it attempted, together with the four
    paths it returns or the message of the error it throws.

Helper modules:

- `Runs`: leading and trailing runs, filtering, and the global replacement
  `s.replace(/X+/g, y)`.
- `Tokens`: words and separators of a text.
- `Chars`: the character classes of the regular expressions, including the
  full ECMAScript `\s`.
- `Results`: `Option`, `Result` and `Status`.

## Model

| member | source | states |
|---|---|---|
| Slug.Lower | index.js:210 | lowercasing keeps the length, changes exactly the upper-case ASCII letters, each to the letter 32 code points above it, and leaves none |
| Slug.RemoveDisallowed | index.js:211 | only characters of `[a-z0-9\s-]` are left |
| Slug.RemoveDisallowedKeeps | index.js:211 | the letters and digits survive in order, and a text made of the class alone is unchanged |
| Slug.SpacesToHyphens | index.js:212 | no whitespace is left |
| Slug.SpacesToHyphensKeeps | index.js:212 | the letters and digits survive in order, and a text without whitespace is unchanged |
| Slug.CollapseHyphens | index.js:213 | no two hyphens are left side by side |
| Slug.CollapseHyphensKeeps | index.js:213 | the letters and digits survive in order, and a text without `--` is unchanged |
| Slug.TrimHyphens | index.js:214 | the result is the slice of the input left after removing a prefix and a suffix made only of `-`, and it neither starts nor ends with `-` |
| Slug.GenerateSlug | index.js:208-215 | every slug has only `a`-`z`, `0`-`9` and `-`, no hyphen at either end and never `--` |
| Slug.SlugFixpoint | index.js:208-215 | a well-formed slug passes through every step unchanged |
| Slug.SlugIdempotent | index.js:208-215 | `generateSlug(generateSlug(t)) == generateSlug(t)` for every title |
| Slug.SlugKeepsLettersAndDigits | index.js:209-214 | the slug keeps exactly the letters and digits of the lowercased title, in order |
| Slug.SlugEmptyIff | index.js:209-214 | the slug is empty exactly when the lowercased title has no ASCII letter or digit |
| Slug.SlugIsHyphenatedWords | index.js:209-214 | reference definition: the slug is the title's filtered words joined by single hyphens |
| Slug.SlugFromSplit | index.js:212-214 | any split of the filtered text into words and separators gives the words joined by `-` |
| Slug.SlugOfPieces | index.js:209-214 | a title cut into pieces whose filtered forms split into words has those words, hyphen-joined, as its slug |
| Runs.ReplaceRuns | index.js:212-213 | `s.replace(/X+/g, x)`: the result is no longer than the text, every character is `x` or outside the class, a leading run becomes `x`, and no two class characters are left side by side when `x` is in the class |
| Runs.ReplaceRunsWholeRun | index.js:212-213 | a text that is one run becomes the single replacement character |
| Runs.ReplaceRunsAppend | index.js:212-213 | cutting a text at a place that is not inside a run commutes with the replacement |
| Runs.ReplaceRunsKeepsOthers | index.js:212-213 | characters of a class the replacement does not touch survive in order, and none appear |
| Runs.ReplaceRunsFixpoint | index.js:212-213 | a text whose class characters are all `x` and never adjacent is unchanged |
| Slug.FilteredAppend | index.js:210-211 | lowercasing and filtering distribute over concatenation |
| SlugExamples.WhatsNewSlug | test-seo-slug.js:26 | `"What's New in React 18?"` gives `"whats-new-in-react-18"` |
| SlugExamples.TipsSlug | test-seo-slug.js:25 | `"10 Tips & Tricks for Better Performance"` gives `"10-tips-tricks-for-better-performance"` |
| SlugExamples.PunctuationOnlySlug | index.js:208-215 | `"!!! ???"`, a title without letters or digits, gives `""` |
| SlugExamples.TestPostSlug | index.js:208-215 | `"Test Post"` gives `"test-post"` |
| ReadingTime.SplitOnWhitespace | index.js:219 | `split(/\s+/)` yields one more piece than there are whitespace runs; no piece holds whitespace and only the end pieces may be empty |
| ReadingTime.SplitRejoins | index.js:219 | joining the pieces with single spaces gives the text with each whitespace run replaced by one space |
| ReadingTime.WordCount | index.js:219 | the word count is at least 1 |
| ReadingTime.WordCountOfWords | index.js:219 | `n` words separated by single spaces count `n` words |
| ReadingTime.ReadMinutes | index.js:220 | the minutes are the least whole number with `200 * minutes >= words` |
| ReadingTime.NatToString | index.js:221 | `${n}` is a decimal numeral without leading zeros |
| ReadingTime.NatToStringRoundTrip | index.js:221 | reading back a rendered number gives the number |
| ReadingTime.NumeralRoundTrip | index.js:221 | every decimal numeral without leading zeros is the rendering of its value |
| ReadingTime.ReadTime | index.js:219-221 | the label reads back as `ceil(words / 200)` minutes, always at least 1 |
| ReadingTime.ParseReadTime | index.js:221 | a label that parses is the rendering of its minutes followed by `" min read"` |
| ReadingTime.WordsReadTime | index.js:219-221 | `n` single-spaced words take `ceil(n / 200)` minutes |
| ReadingTime.EmptyBodyReadTime | index.js:219-221 | the empty body gives `"1 min read"` |
| ReadingTime.OneWordReadTime | index.js:219-221 | a one-word body gives `"1 min read"` |
| ReadingTime.FourHundredWordsReadTime | index.js:219-221 | 400 single-spaced words give `"2 min read"` |
| ReadingTime.TwoMinutes | index.js:219-221 | any body that splits into 400 pieces gives `"2 min read"` |
| Metadata.ResolveAuthor | index.js:227 | the author is `BLOG_AUTHOR` when it is set and non-empty, otherwise `"Kevin Kane"` |
| Metadata.CalendarDate | index.js:228 | the date is the part of the timestamp before its first `T` |
| Metadata.DatePartUnique | index.js:228 | only one prefix of a timestamp is its part before the first `T` |
| Metadata.ExampleDate | index.js:228 | `2025-01-15T10:30:00.000Z` gives `2025-01-15` |
| Metadata.ImageFile | index.js:230 | a file name read off an image path is what follows `/blog-images/` |
| Metadata.CreateBlogPostMeta | index.js:217-232 | slug, title and description are copied; the author falls back as above; the date is the calendar date; the reading time is `ceil(words / 200)`, at least 1; the image is `/blog-images/` followed by the thumbnail file name |
| Metadata.GenerateMetaFile | index.js:234-238 | reading the module back yields exactly the serialised record |
| Metadata.MetaFileBody | index.js:234-238 | a module body that is found lies between the `export const blogPost = ` head and the `;` tail |
| Article.CreateMdxContent | index.js:189-206 | the article holds `title="<title>"` and ends with the body verbatim before the closing blank line; for a title without `"` it reads back as the title and the body |
| Article.ArticleParts | index.js:189-206 | parts that are found rebuild the article from the template |
| Article.TemplateRoundTrip | index.js:190-205 | filling the template and splitting it again gives back any title without `"` and any body |
| Article.ArticleIgnoresSlug | index.js:189 | the slug argument does not change the article |
| Article.ArticleDeterminesPost | index.js:189-206 | two posts with quote-free titles that render alike have the same title and body |
| Paths.SplitPath | index.js:66 | a path is the part before its last `/`, a `/`, and a name without `/` |
| Paths.JoinPath | index.js:66 | the joined path is one character longer than directory and name together, with `/` right after the directory |
| Paths.SplitJoin | index.js:66 | splitting a joined path gives back the directory and the name |
| Paths.Basename | index.js:52 | the last segment holds no `/`; it is the whole path without its trailing slashes, or the part of it after its last `/` |
| Paths.ExtName | index.js:52 | `path.extname` is a suffix of the last segment, starting with `.` and holding no other `.`, shorter than the segment; it is empty exactly for `..` and for segments with no `.` after their first character |
| Paths.Extension | index.js:52 | the extension is a suffix that starts with the segment's last `.`; it is empty exactly for `..` and for segments with no `.` after their first character |
| Paths.Stem | index.js:52 | the stem followed by the extension is the segment |
| Paths.VideoName | index.js:52 | the video name followed by `path.extname` is `path.basename` of the path |
| Paths.BasenameOfJoin | index.js:66 | the last segment of a joined path is the name that was joined |
| Paths.VideoNameOfJoin | index.js:52 | a video `<dir>/<stem><ext>`, with `ext` holding its only `.`, is named `<stem>` and has extension `ext` |
| Paths.MyVideoName | index.js:247 | `./videos/my-video.mp4` has extension `.mp4` and is named `my-video` |
| Pipeline.NewVideoToMarkdown | index.js:34-36 | a set `outputDir` is kept; otherwise the output folder is `output` inside the module's directory |
| Pipeline.TranscribeVideo | index.js:137-149 | success exactly when the service answers, carrying its text; a failure carries `Transcription failed: ` and the service's message |
| Pipeline.ExtractThumbnail | index.js:117-135 | success exactly when ffmpeg succeeds, with the frame at `outputDir/filename`; a failure carries `FFmpeg error: ` and ffmpeg's message |
| Pipeline.Effects | index.js:55-99 | a full run has seven effects, in the order transcribe, generate, create folder, thumbnail, transcript, article, metadata |
| Pipeline.ProcessVideo | index.js:38-115 | a missing video fails before the API-key check and both checks fail before any effect. Every run attempts a prefix of the seven effects in order. Each attempted effect but the last succeeds. An error is the last effect's failure with its message. Success means all seven succeeded and returns the plan's four paths. The stages are `Start` (transcription, index.js:55), `Draft` (generation, index.js:61), `Publish` (the folder, index.js:65-69), `Thumbnail` (index.js:72-79) and `SaveFiles` (the three writes, index.js:82-99); each states through `Follows` that its run continues the plan from its own effect on |
| Pipeline.SlugIsSegment | index.js:65-66 | a slug holds no `/`, so it is one path segment |
| Pipeline.SuccessValidated | index.js:43-61 | a run succeeds only when the video exists, the key is set and both services answer |
| Pipeline.PlanPaths | index.js:73-98 | the four returned paths are `transcript.txt`, `blog-post.mdx`, `blogPost.ts` and `<slug>.jpg` inside the post's folder |
| Pipeline.PreparedFolder | index.js:65-66 | the post's folder is the slug of the generated title inside the output folder |
| Pipeline.SuccessfulRunFolder | index.js:65-78 | a successful run created `outputDir/slug` and extracted the thumbnail `<slug>.jpg` into it |
| Pipeline.SuccessfulRunPaths | index.js:65-110 | all four returned paths lie in `outputDir/slug` under their fixed names |
| Pipeline.SuccessfulRunTranscript | index.js:82-83 | the transcript file holds the service's transcript, unchanged |
| Pipeline.SuccessfulRunArticle | index.js:86-89 | the article file carries the generated title and body and reads back as them |
| Pipeline.SuccessfulRunMeta | index.js:92-99 | the metadata file holds the serialised record of the post under its slug, with `<slug>.jpg` as thumbnail |
| Pipeline.AllSucceed | index.js:38-110 | when the run's own seven calls all succeed, the run returns the plan's four paths, whatever the collaborators would answer for other arguments |
| Pipeline.SucceedingRun | index.js:38-110 | when validation passes and the seven calls of this video's plan succeed, `processVideo` returns the four paths |
| Pipeline.FirstFailure | index.js:38-115 | a run stops at the first effect that fails, with that effect's error |
| Pipeline.TranscriptionFailure | index.js:137-149 | a failed transcription stops the run after its only effect, with `Transcription failed: ` and the service's message |
| Pipeline.StopsAtGeneration | index.js:183-186 | a failed generation stops the run after two effects, with the generator's message unchanged |
| Pipeline.GenerationFailure | index.js:111-114 | the same, stated for `processVideo` |
| Pipeline.StopsAtFolder | index.js:68-69 | when the services answer but this run's folder cannot be created, the run stops after three effects, and the file system's message is rethrown unchanged (index.js:111-113) |
| Pipeline.StopsAtTranscriptWrite | index.js:82-83 | when the folder and thumbnail succeed but the transcript cannot be written, the run stops after five effects, with no further file written and the file system's message rethrown unchanged |
| Pipeline.StopsAtThumbnail | index.js:131-133 | when ffmpeg fails on this run's thumbnail, after the folder was created, the run stops after four effects, before any file is written, with `FFmpeg error: ` and its message |
| Pipeline.ThumbnailFailure | index.js:72-79 | the same, stated for `processVideo` with the folder and thumbnail name the generated title gives |

## Left out

- The OpenAI calls are oracles returning a result. Not modelled: the prompt text, the model names, the file stream and `JSON.parse` of the reply (index.js:139-143, 153-182). A reply that parses into some other shape is not modelled either.
- ffmpeg's event-driven frame extraction (index.js:118-134) is an oracle answering success or failure with a message. The timestamp and frame size are not modelled.
- The file-system calls are oracles and no file state is modelled. `pathExists` is a guard checked before the run and is not recorded; `ensureDir` and `writeFile` calls, like the services and ffmpeg, are recorded in the run's trace.
- `path.join` is `dir + "/" + name`. Not modelled: its normalisation of `.`, `..` and repeated slashes, and the empty name an empty slug would give. `Paths.Basename` and `Paths.Extension` follow the POSIX rules of Node's `path`; Windows paths are not modelled.
- `process.env` (`OPENAI_API_KEY`, `BLOG_AUTHOR`) and the clock (`new Date().toISOString()`) are parameters. The module directory `__dirname` is one too.
- `JSON.stringify(…, null, 2)` is an abstract function, so the layout of the serialised record is not modelled.
- `toLowerCase` is modelled on ASCII only. Characters outside ASCII whose lower-case form is ASCII (U+0130, U+212A) are left unchanged, where JavaScript would map them to a letter the slug keeps. `\s` is modelled exactly.
- Pipeline.ProcessVideo: the services are modelled as pure functions of their inputs, so everything the generated post determines is computed before the run's stages. When generation fails, a stand-in post built from the error message fills that place; no effect of the run reads it.
- ReadingTime.ReadMinutes: uses integer division `(words + 199) / 200`. It agrees with the floating-point `Math.ceil(words / 200)` for every string length JavaScript allows.
- Article.CreateMdxContent: the read-back half of the contract is stated only for titles without `"`. A `"` inside the title closes the attribute early, which the source does not guard against.
- Logging, the command-line `main` and its `process.exit` (index.js:242-267), and `example.js` are not modelled. From the command line, only the example path of its usage text is used (Paths.MyVideoName).
- The `test-*.js` scripts need the network and a file system and only print their results. Two of the ten titles of test-seo-slug.js (lines 25-26) are slug examples; test-thumbnail.js lists the same two at the same lines; the other titles of both lists are not. test-thumbnail.js:69 prints an `/images/` prefix for the image; the code uses `/blog-images/` (index.js:230), and the model follows the code.
