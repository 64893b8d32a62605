/** `VideoToMarkdown.processVideo`: validate the input, transcribe the video,
    generate the post, derive its slug, create the post's folder, extract the
    thumbnail and write the transcript, the article and the metadata module.
    Every collaborator (the file system, the transcription and generation
    services, ffmpeg, `JSON.stringify`) is an oracle passed in, and the run is
    the sequence of effects it attempted together with its result. */
module Pipeline {
  import opened Results
  import opened Chars
  import opened Slug
  import opened Paths
  import opened Article
  import opened Metadata

  /** An instance of the class: only its output folder. */
  datatype VideoToMarkdown = VideoToMarkdown(outputDir: string)

  /** The folder name used under the module's directory by default. */
  const DefaultOutput: string := "output"

  /** `new VideoToMarkdown(outputDir)`, where `moduleDir` is the directory of
      the module itself (`__dirname`). */
  function NewVideoToMarkdown(outputDir: Option<string>, moduleDir: string): (converter: VideoToMarkdown)
    ensures IsSet(outputDir) ==> converter.outputDir == outputDir.value
    ensures !IsSet(outputDir) ==> SplitPath(converter.outputDir) == (moduleDir, DefaultOutput)
  {
    if IsSet(outputDir) then VideoToMarkdown(outputDir.value)
    else
      SplitJoin(moduleDir, DefaultOutput);
      VideoToMarkdown(JoinPath(moduleDir, DefaultOutput))
  }

  /** What the run reads from the process: `OPENAI_API_KEY`, `BLOG_AUTHOR`
      and the current time as `toISOString()` renders it. */
  datatype Environment = Environment(apiKey: Option<string>, blogAuthor: Option<string>, isoNow: string)

  /** The answers of the collaborators the source calls out to. */
  datatype Collaborators = Collaborators(
    pathExists: string -> bool,
    transcribe: string -> Result<string>,
    generate: (string, string) -> Result<BlogContent>,
    ensureDir: string -> Status,
    screenshot: (string, string, string) -> Status,
    writeFile: (string, string) -> Status,
    stringify: BlogPostMeta -> string)

  /** The three files written into the post's folder. */
  datatype Artifact = TranscriptText | ArticleMdx | MetaModule

  /** An effect the run attempts, in the order of the source. */
  datatype Effect =
    | Transcribe(video: string)
    | Generate(transcript: string, videoName: string)
    | EnsureDir(dir: string)
    | Screenshot(video: string, folder: string, filename: string)
    | Write(artifact: Artifact, path: string, content: string)

  /** The paths `processVideo` resolves to. */
  datatype Outputs = Outputs(transcriptPath: string, mdxPath: string, metaPath: string, thumbnailPath: string)

  /** The effects attempted, the last one being the one that failed when the
      run failed, and the outputs or the message of the error thrown. */
  datatype Run = Run(trace: seq<Effect>, result: Result<Outputs>)

  const TranscriptName: string := "transcript.txt"
  const ArticleName: string := "blog-post.mdx"
  const MetaName: string := "blogPost.ts"
  const ThumbnailExtension: string := ".jpg"

  const MissingKeyMessage: string := "OPENAI_API_KEY environment variable is required"
  const NotFoundPrefix: string := "Video file not found: "
  const TranscriptionPrefix: string := "Transcription failed: "
  const FFmpegPrefix: string := "FFmpeg error: "

  /** Position of an effect in the source's order of stages. */
  function Rank(e: Effect): nat {
    match e
    case Transcribe(_) => 0
    case Generate(_, _) => 1
    case EnsureDir(_) => 2
    case Screenshot(_, _, _) => 3
    case Write(TranscriptText, _, _) => 4
    case Write(ArticleMdx, _, _) => 5
    case Write(MetaModule, _, _) => 6
  }

  /** The collaborator answers `e` without an error. */
  predicate Succeeds(io: Collaborators, e: Effect) {
    match e
    case Transcribe(v) => io.transcribe(v).Ok?
    case Generate(t, n) => io.generate(t, n).Ok?
    case EnsureDir(d) => io.ensureDir(d).Pass?
    case Screenshot(v, f, n) => io.screenshot(v, f, n).Pass?
    case Write(_, p, c) => io.writeFile(p, c).Pass?
  }

  /** The message `processVideo` rethrows when `e` fails: transcription and
      ffmpeg errors are wrapped, every other error passes through as it is. */
  function ErrorOf(io: Collaborators, e: Effect): string
    requires !Succeeds(io, e)
  {
    match e
    case Transcribe(v) => TranscriptionPrefix + io.transcribe(v).message
    case Generate(t, n) => io.generate(t, n).message
    case EnsureDir(d) => io.ensureDir(d).message
    case Screenshot(v, f, n) => FFmpegPrefix + io.screenshot(v, f, n).message
    case Write(_, p, c) => io.writeFile(p, c).message
  }

  /** `transcribeVideo(videoPath)`: the transcription service's text, or its
      error wrapped. */
  function TranscribeVideo(io: Collaborators, videoPath: string): (r: Result<string>)
    ensures r.Ok? <==> Succeeds(io, Transcribe(videoPath))
    ensures r.Ok? ==> r.value == io.transcribe(videoPath).value
    ensures r.Err? ==> r.message == ErrorOf(io, Transcribe(videoPath))
  {
    match io.transcribe(videoPath)
    case Ok(text) => Ok(text)
    case Err(m) => Err(TranscriptionPrefix + m)
  }

  /** `extractThumbnail(videoPath, outputDir, filename)`: the frame's path in
      `outputDir`, or the ffmpeg error wrapped. */
  function ExtractThumbnail(io: Collaborators, videoPath: string, outputDir: string, filename: string): (r: Result<string>)
    ensures r.Ok? <==> Succeeds(io, Screenshot(videoPath, outputDir, filename))
    ensures r.Ok? && IsSegment(filename) ==> SplitPath(r.value) == (outputDir, filename)
    ensures r.Err? ==> r.message == ErrorOf(io, Screenshot(videoPath, outputDir, filename))
  {
    match io.screenshot(videoPath, outputDir, filename)
    case Pass =>
      assert IsSegment(filename) ==> SplitPath(JoinPath(outputDir, filename)) == (outputDir, filename) by {
        if IsSegment(filename) {
          SplitJoin(outputDir, filename);
        }
      }
      Ok(JoinPath(outputDir, filename))
    case Fail(m) => Err(FFmpegPrefix + m)
  }

  /** The transcript the service returns, `""` when it fails. */
  function TranscriptOf(io: Collaborators, videoPath: string): string {
    var r := io.transcribe(videoPath);
    if r.Ok? then r.value else ""
  }

  /** The post the generator returns for the transcript. When generation
      fails the run stops before any effect uses the post, and a stand-in
      made of the error message takes its place. */
  function PostOf(io: Collaborators, videoPath: string): BlogContent {
    var r := io.generate(TranscriptOf(io, videoPath), VideoName(videoPath));
    if r.Ok? then r.value else BlogContent(r.message, r.message, r.message)
  }

  /** Everything a run derives from the video, its transcript and its post:
      the slug, the post's folder and the texts of the article and of the
      metadata module. */
  datatype Plan = Plan(video: string, transcript: string, videoName: string, slug: string, dir: string,
                       article: string, metaText: string)

  /** The thumbnail's file name, `${slug}.jpg`. */
  function ThumbnailName(plan: Plan): string {
    plan.slug + ThumbnailExtension
  }

  /** The derivations `processVideo` makes once the post is generated. */
  function Prepare(converter: VideoToMarkdown, env: Environment, stringify: BlogPostMeta -> string,
                   videoPath: string, transcript: string, post: BlogContent): Plan
  {
    var slug := GenerateSlug(post.title);
    var meta := CreateBlogPostMeta(post, slug, slug + ThumbnailExtension, env.blogAuthor, env.isoNow);
    Plan(videoPath, transcript, VideoName(videoPath), slug, JoinPath(converter.outputDir, slug),
         CreateMdxContent(post, slug), GenerateMetaFile(meta, stringify))
  }

  /** The plan of a run, given the collaborators' answers. */
  function PlanFor(converter: VideoToMarkdown, env: Environment, io: Collaborators, videoPath: string): Plan {
    Prepare(converter, env, io.stringify, videoPath, TranscriptOf(io, videoPath), PostOf(io, videoPath))
  }

  /** The seven effects of a run in which nothing fails. */
  function Effects(plan: Plan): (effects: seq<Effect>)
    ensures |effects| == 7
    ensures forall k :: 0 <= k < 7 ==> Rank(effects[k]) == k
  {
    [ Transcribe(plan.video),
      Generate(plan.transcript, plan.videoName),
      EnsureDir(plan.dir),
      Screenshot(plan.video, plan.dir, ThumbnailName(plan)),
      Write(TranscriptText, JoinPath(plan.dir, TranscriptName), plan.transcript),
      Write(ArticleMdx, JoinPath(plan.dir, ArticleName), plan.article),
      Write(MetaModule, JoinPath(plan.dir, MetaName), plan.metaText) ]
  }

  /** The paths a successful run returns. */
  function OutputsOf(plan: Plan): Outputs {
    Outputs(JoinPath(plan.dir, TranscriptName), JoinPath(plan.dir, ArticleName), JoinPath(plan.dir, MetaName),
            JoinPath(plan.dir, ThumbnailName(plan)))
  }

  /** `run` attempted the effects `plan[from..]` in order, stopping early
      only at a failure whose message it reports, and it succeeds with
      `outputs` exactly when it completes the plan. */
  predicate Follows(io: Collaborators, plan: seq<Effect>, outputs: Outputs, run: Run, from: nat) {
    && 0 < |run.trace| && from + |run.trace| <= |plan|
    && run.trace == plan[from..from + |run.trace|]
    && (forall k :: 0 <= k < |run.trace| - 1 ==> Succeeds(io, run.trace[k]))
    && (run.result.Err? ==>
          !Succeeds(io, run.trace[|run.trace| - 1]) && run.result.message == ErrorOf(io, run.trace[|run.trace| - 1]))
    && (run.result.Ok? <==> from + |run.trace| == |plan| && Succeeds(io, run.trace[|run.trace| - 1]))
    && (run.result.Ok? ==> run.result.value == outputs)
  }

  /** `r` preceded by the effect `e`. */
  function Then(e: Effect, r: Run): Run {
    Run([e] + r.trace, r.result)
  }

  /** An effect that succeeds, placed before a run that follows the rest of
      the plan, gives a run that follows the plan from that effect on. */
  lemma ThenFollows(io: Collaborators, plan: seq<Effect>, outputs: Outputs, e: Effect, r: Run, from: nat)
    requires from < |plan| && plan[from] == e && Succeeds(io, e)
    requires Follows(io, plan, outputs, r, from + 1)
    ensures Follows(io, plan, outputs, Then(e, r), from)
  {
    var t := Then(e, r).trace;
    assert t == plan[from..from + |t|];
    assert forall k :: 0 < k < |t| ==> t[k] == r.trace[k - 1];
  }

  /** A run that stops at the effect `e` of the plan, which fails with the
      message `m`, follows the plan from `e` on. */
  lemma StopsAt(io: Collaborators, plan: seq<Effect>, outputs: Outputs, e: Effect, from: nat, m: string)
    requires from < |plan| && plan[from] == e && !Succeeds(io, e) && m == ErrorOf(io, e)
    ensures Follows(io, plan, outputs, Run([e], Err(m)), from)
  {
    assert plan[from..from + 1] == [e];
  }

  /** The three writes into the post's folder: the stages from 4 on. */
  function SaveFiles(io: Collaborators, plan: Plan, thumbnailPath: string): (run: Run)
    requires thumbnailPath == JoinPath(plan.dir, ThumbnailName(plan))
    ensures Follows(io, Effects(plan), OutputsOf(plan), run, 4)
  {
    var transcriptPath := JoinPath(plan.dir, TranscriptName);
    var mdxPath := JoinPath(plan.dir, ArticleName);
    var metaPath := JoinPath(plan.dir, MetaName);
    var e5, e6, e7 := Write(TranscriptText, transcriptPath, plan.transcript),
                      Write(ArticleMdx, mdxPath, plan.article), Write(MetaModule, metaPath, plan.metaText);
    var effects := Effects(plan);
    assert effects[4] == e5 && effects[5] == e6 && effects[6] == e7;
    assert effects[4..5] == [e5] && effects[4..6] == [e5, e6] && effects[4..7] == [e5, e6, e7];
    match io.writeFile(transcriptPath, plan.transcript)
    case Fail(m) =>
      StopsAt(io, Effects(plan), OutputsOf(plan), e5, 4, m);
      Run([e5], Err(m))
    case Pass =>
      match io.writeFile(mdxPath, plan.article)
      case Fail(m) => Run([e5, e6], Err(m))
      case Pass =>
        match io.writeFile(metaPath, plan.metaText)
        case Fail(m) => Run([e5, e6, e7], Err(m))
        case Pass => Run([e5, e6, e7], Ok(Outputs(transcriptPath, mdxPath, metaPath, thumbnailPath)))
  }

  /** Extracting the thumbnail into the post's folder, then saving the
      files: the stages from 3 on. */
  function Thumbnail(io: Collaborators, plan: Plan): (run: Run)
    ensures Follows(io, Effects(plan), OutputsOf(plan), run, 3)
  {
    var e4 := Screenshot(plan.video, plan.dir, ThumbnailName(plan));
    match ExtractThumbnail(io, plan.video, plan.dir, ThumbnailName(plan))
    case Err(m) =>
      StopsAt(io, Effects(plan), OutputsOf(plan), e4, 3, m);
      Run([e4], Err(m))
    case Ok(thumbnailPath) =>
      var rest := SaveFiles(io, plan, thumbnailPath);
      ThenFollows(io, Effects(plan), OutputsOf(plan), e4, rest, 3);
      Then(e4, rest)
  }

  /** Creating the post's folder, then the stages from 3 on. */
  function Publish(io: Collaborators, plan: Plan): (run: Run)
    ensures Follows(io, Effects(plan), OutputsOf(plan), run, 2)
  {
    var e3 := EnsureDir(plan.dir);
    match io.ensureDir(plan.dir)
    case Fail(m) =>
      StopsAt(io, Effects(plan), OutputsOf(plan), e3, 2, m);
      Run([e3], Err(m))
    case Pass =>
      var rest := Thumbnail(io, plan);
      ThenFollows(io, Effects(plan), OutputsOf(plan), e3, rest, 2);
      Then(e3, rest)
  }

  /** Generating the post, then publishing it: the stages from 1 on. The
      collaborators are pure, so `plan` already holds everything the
      generated post determines; this stage decides whether generation
      succeeds. */
  function Draft(io: Collaborators, plan: Plan): (run: Run)
    ensures Follows(io, Effects(plan), OutputsOf(plan), run, 1)
  {
    var e2 := Generate(plan.transcript, plan.videoName);
    match io.generate(plan.transcript, plan.videoName)
    case Err(m) =>
      StopsAt(io, Effects(plan), OutputsOf(plan), e2, 1, m);
      Run([e2], Err(m))
    case Ok(_) =>
      var rest := Publish(io, plan);
      ThenFollows(io, Effects(plan), OutputsOf(plan), e2, rest, 1);
      Then(e2, rest)
  }

  /** Transcribing the video, then the stages from 1 on: a run that has
      passed validation. */
  function Start(io: Collaborators, plan: Plan): (run: Run)
    ensures Follows(io, Effects(plan), OutputsOf(plan), run, 0)
  {
    var e1 := Transcribe(plan.video);
    match TranscribeVideo(io, plan.video)
    case Err(m) =>
      StopsAt(io, Effects(plan), OutputsOf(plan), e1, 0, m);
      Run([e1], Err(m))
    case Ok(_) =>
      var rest := Draft(io, plan);
      ThenFollows(io, Effects(plan), OutputsOf(plan), e1, rest, 0);
      Then(e1, rest)
  }

  /** `run` attempted a prefix of the plan's seven effects, in the source's
      order of stages, and every effect but the last succeeded; an error is
      the last effect's failure, reported with its message, and success
      means that all seven effects succeeded and yields the plan's paths. */
  predicate Attempted(io: Collaborators, plan: Plan, run: Run) {
    && |run.trace| <= 7 && run.trace == Effects(plan)[..|run.trace|]
    && (forall k :: 0 <= k < |run.trace| ==> Rank(run.trace[k]) == k)
    && (forall k :: 0 <= k < |run.trace| - 1 ==> Succeeds(io, run.trace[k]))
    && (run.result.Err? && |run.trace| > 0 ==>
          !Succeeds(io, run.trace[|run.trace| - 1]) && run.result.message == ErrorOf(io, run.trace[|run.trace| - 1]))
    && (run.result.Ok? <==> |run.trace| == 7 && Succeeds(io, run.trace[6]))
    && (run.result.Ok? ==> run.trace == Effects(plan) && run.result.value == OutputsOf(plan))
  }

  /** A run that follows a plan from its first effect attempted it. */
  lemma FollowsFromStart(io: Collaborators, plan: Plan, run: Run)
    requires Follows(io, Effects(plan), OutputsOf(plan), run, 0)
    ensures 0 < |run.trace| && Attempted(io, plan, run)
  {
    var effects := Effects(plan);
    assert forall k :: 0 <= k < |run.trace| ==> run.trace[k] == effects[k];
  }

  /** `processVideo(videoPath)`: the two checks fail before any effect, and
      a run that passes them attempts at least the transcription. */
  function ProcessVideo(converter: VideoToMarkdown, env: Environment, io: Collaborators, videoPath: string): (run: Run)
    ensures !io.pathExists(videoPath) ==> run == Run([], Err(NotFoundPrefix + videoPath))
    ensures io.pathExists(videoPath) && !IsSet(env.apiKey) ==> run == Run([], Err(MissingKeyMessage))
    ensures io.pathExists(videoPath) && IsSet(env.apiKey) ==> |run.trace| > 0
    ensures Attempted(io, PlanFor(converter, env, io, videoPath), run)
  {
    if !io.pathExists(videoPath) then Run([], Err(NotFoundPrefix + videoPath))
    else if !IsSet(env.apiKey) then Run([], Err(MissingKeyMessage))
    else
      var plan := PlanFor(converter, env, io, videoPath);
      var run := Start(io, plan);
      FollowsFromStart(io, plan, run);
      run
  }

  /** A slug is a single path segment. */
  lemma SlugIsSegment(slug: string)
    requires IsSlug(slug)
    ensures IsSegment(slug)
  {
    forall i | 0 <= i < |slug|
      ensures slug[i] != '/'
    {
      assert IsSlugChar(slug[i]);
    }
  }

  /** A run succeeds only when the video exists, the API key is set and both
      services answer. */
  lemma SuccessValidated(converter: VideoToMarkdown, env: Environment, io: Collaborators, videoPath: string)
    requires ProcessVideo(converter, env, io, videoPath).result.Ok?
    ensures io.pathExists(videoPath) && IsSet(env.apiKey)
    ensures io.transcribe(videoPath).Ok?
    ensures io.generate(io.transcribe(videoPath).value, VideoName(videoPath)).Ok?
  {
    var run := ProcessVideo(converter, env, io, videoPath);
    assert Succeeds(io, run.trace[0]) && Succeeds(io, run.trace[1]);
  }

  /** The four paths a successful run returns lie in the post's folder under
      their fixed names. */
  lemma PlanPaths(plan: Plan)
    requires IsSegment(plan.slug)
    ensures SplitPath(OutputsOf(plan).transcriptPath) == (plan.dir, TranscriptName)
    ensures SplitPath(OutputsOf(plan).mdxPath) == (plan.dir, ArticleName)
    ensures SplitPath(OutputsOf(plan).metaPath) == (plan.dir, MetaName)
    ensures SplitPath(OutputsOf(plan).thumbnailPath) == (plan.dir, plan.slug + ThumbnailExtension)
  {
    SplitJoin(plan.dir, TranscriptName);
    SplitJoin(plan.dir, ArticleName);
    SplitJoin(plan.dir, MetaName);
    assert IsSegment(ThumbnailName(plan));
    SplitJoin(plan.dir, ThumbnailName(plan));
  }

  /** The post's folder is the slug of the post's title inside the output
      folder. */
  lemma PreparedFolder(converter: VideoToMarkdown, env: Environment, stringify: BlogPostMeta -> string,
                       videoPath: string, transcript: string, post: BlogContent)
    ensures Prepare(converter, env, stringify, videoPath, transcript, post).slug == GenerateSlug(post.title)
    ensures Prepare(converter, env, stringify, videoPath, transcript, post).dir
         == JoinPath(converter.outputDir, GenerateSlug(post.title))
    ensures IsSlug(Prepare(converter, env, stringify, videoPath, transcript, post).slug)
    ensures SplitPath(Prepare(converter, env, stringify, videoPath, transcript, post).dir)
         == (converter.outputDir, GenerateSlug(post.title))
  {
    var slug := GenerateSlug(post.title);
    SlugIsSegment(slug);
    SplitJoin(converter.outputDir, slug);
  }

  /** A successful run created the folder named by the slug of the
      generated title inside the output folder, and extracted the thumbnail
      `<slug>.jpg` of the video into it. */
  lemma SuccessfulRunFolder(converter: VideoToMarkdown, env: Environment, io: Collaborators, videoPath: string)
    requires ProcessVideo(converter, env, io, videoPath).result.Ok?
    ensures var run := ProcessVideo(converter, env, io, videoPath);
            var slug := GenerateSlug(PostOf(io, videoPath).title);
            var dir := JoinPath(converter.outputDir, slug);
      && run.trace[2] == EnsureDir(dir)
      && run.trace[3] == Screenshot(videoPath, dir, slug + ThumbnailExtension)
  {
  }

  /** The four paths a successful run returns lie in the folder named by the
      slug inside the output folder, under their fixed names. */
  lemma SuccessfulRunPaths(converter: VideoToMarkdown, env: Environment, io: Collaborators, videoPath: string)
    requires ProcessVideo(converter, env, io, videoPath).result.Ok?
    ensures var outputs := ProcessVideo(converter, env, io, videoPath).result.value;
            var slug := GenerateSlug(PostOf(io, videoPath).title);
            var dir := JoinPath(converter.outputDir, slug);
      && IsSlug(slug) && SplitPath(dir) == (converter.outputDir, slug)
      && SplitPath(outputs.transcriptPath) == (dir, TranscriptName)
      && SplitPath(outputs.mdxPath) == (dir, ArticleName)
      && SplitPath(outputs.metaPath) == (dir, MetaName)
      && SplitPath(outputs.thumbnailPath) == (dir, slug + ThumbnailExtension)
  {
    var post := PostOf(io, videoPath);
    PreparedFolder(converter, env, io.stringify, videoPath, TranscriptOf(io, videoPath), post);
    SlugIsSegment(GenerateSlug(post.title));
    PlanPaths(PlanFor(converter, env, io, videoPath));
  }

  /** A successful run wrote the transcript the service returned, unchanged,
      to the transcript path it returns. */
  lemma SuccessfulRunTranscript(converter: VideoToMarkdown, env: Environment, io: Collaborators, videoPath: string)
    requires ProcessVideo(converter, env, io, videoPath).result.Ok?
    ensures var run := ProcessVideo(converter, env, io, videoPath);
      run.trace[4] == Write(TranscriptText, run.result.value.transcriptPath, io.transcribe(videoPath).value)
  {
    SuccessValidated(converter, env, io, videoPath);
  }

  /** A successful run wrote, to the article path it returns, an article
      that carries the generated title in the iframe's `title` attribute and
      the generated body verbatim, and reads back as that title and body. */
  lemma SuccessfulRunArticle(converter: VideoToMarkdown, env: Environment, io: Collaborators, videoPath: string)
    requires ProcessVideo(converter, env, io, videoPath).result.Ok?
    ensures var run := ProcessVideo(converter, env, io, videoPath);
            var post := PostOf(io, videoPath);
      && run.trace[5].Write? && run.trace[5].artifact == ArticleMdx
      && run.trace[5].path == run.result.value.mdxPath
      && HasTitleAttribute(run.trace[5].content, post.title)
      && (Unquoted(post.title) ==> ArticleParts(run.trace[5].content) == Some((post.title, post.content)))
  {
  }

  /** A successful run wrote, to the metadata path it returns, the module
      exporting the serialised record of the post under its slug, with the
      thumbnail `<slug>.jpg` as its image. */
  lemma SuccessfulRunMeta(converter: VideoToMarkdown, env: Environment, io: Collaborators, videoPath: string)
    requires ProcessVideo(converter, env, io, videoPath).result.Ok?
    ensures var run := ProcessVideo(converter, env, io, videoPath);
            var post := PostOf(io, videoPath);
            var slug := GenerateSlug(post.title);
      && run.trace[6].Write? && run.trace[6].artifact == MetaModule
      && run.trace[6].path == run.result.value.metaPath
      && MetaFileBody(run.trace[6].content)
         == Some(io.stringify(CreateBlogPostMeta(post, slug, slug + ThumbnailExtension, env.blogAuthor, env.isoNow)))
  {
  }

  /** A run that attempted a plan whose seven effects all succeed returns
      the plan's four paths. */
  lemma AllSucceed(io: Collaborators, plan: Plan, run: Run)
    requires forall k :: 0 <= k < 7 ==> Succeeds(io, Effects(plan)[k])
    requires 0 < |run.trace| && Attempted(io, plan, run)
    ensures run.result == Ok(OutputsOf(plan))
  {
    var effects := Effects(plan);
    assert run.trace[|run.trace| - 1] == effects[|run.trace| - 1];
  }

  /** A run whose checks pass and whose own seven calls all succeed returns
      the plan's four paths. */
  lemma SucceedingRun(converter: VideoToMarkdown, env: Environment, io: Collaborators, videoPath: string)
    requires io.pathExists(videoPath) && IsSet(env.apiKey)
    requires var plan := PlanFor(converter, env, io, videoPath);
      forall k :: 0 <= k < 7 ==> Succeeds(io, Effects(plan)[k])
    ensures ProcessVideo(converter, env, io, videoPath).result == Ok(OutputsOf(PlanFor(converter, env, io, videoPath)))
  {
    AllSucceed(io, PlanFor(converter, env, io, videoPath), ProcessVideo(converter, env, io, videoPath));
  }

  /** A run that attempted the plan stops at the first effect that fails,
      with that effect's error. */
  lemma FirstFailure(io: Collaborators, plan: Plan, run: Run, k: nat)
    requires 0 < |run.trace| && Attempted(io, plan, run)
    requires k < 7 && !Succeeds(io, Effects(plan)[k])
    requires forall j :: 0 <= j < k ==> Succeeds(io, Effects(plan)[j])
    ensures run == Run(Effects(plan)[..k + 1], Err(ErrorOf(io, Effects(plan)[k])))
  {
    var effects := Effects(plan);
    var n := |run.trace|;
    assert forall j :: 0 <= j < n ==> run.trace[j] == effects[j];
  }

  /** A failed transcription stops the run after its one effect, with the
      service's message behind `Transcription failed: `. */
  lemma TranscriptionFailure(converter: VideoToMarkdown, env: Environment, io: Collaborators, videoPath: string)
    requires io.pathExists(videoPath) && IsSet(env.apiKey)
    requires io.transcribe(videoPath).Err?
    ensures ProcessVideo(converter, env, io, videoPath)
         == Run([Transcribe(videoPath)], Err(TranscriptionPrefix + io.transcribe(videoPath).message))
  {
    var plan := PlanFor(converter, env, io, videoPath);
    FirstFailure(io, plan, ProcessVideo(converter, env, io, videoPath), 0);
  }

  /** A run that attempted a plan whose transcription succeeds and whose
      generation fails stops after the generation, with the generator's
      message. */
  lemma StopsAtGeneration(io: Collaborators, plan: Plan, run: Run)
    requires 0 < |run.trace| && Attempted(io, plan, run)
    requires io.transcribe(plan.video).Ok? && io.generate(plan.transcript, plan.videoName).Err?
    ensures run == Run([Transcribe(plan.video), Generate(plan.transcript, plan.videoName)],
                       Err(io.generate(plan.transcript, plan.videoName).message))
  {
    var effects := Effects(plan);
    assert effects[..2] == [Transcribe(plan.video), Generate(plan.transcript, plan.videoName)];
    FirstFailure(io, plan, run, 1);
  }

  /** A failed generation stops the run after its second effect, with the
      generator's message unchanged. */
  lemma GenerationFailure(converter: VideoToMarkdown, env: Environment, io: Collaborators, videoPath: string)
    requires io.pathExists(videoPath) && IsSet(env.apiKey)
    requires io.transcribe(videoPath).Ok?
    requires io.generate(io.transcribe(videoPath).value, VideoName(videoPath)).Err?
    ensures var transcript := io.transcribe(videoPath).value;
            var generated := io.generate(transcript, VideoName(videoPath));
      ProcessVideo(converter, env, io, videoPath)
         == Run([Transcribe(videoPath), Generate(transcript, VideoName(videoPath))], Err(generated.message))
  {
    StopsAtGeneration(io, PlanFor(converter, env, io, videoPath), ProcessVideo(converter, env, io, videoPath));
  }

  /** A run that attempted a plan whose services answer but whose folder
      cannot be created stops after `ensureDir`, with the file system's
      message rethrown unchanged. */
  lemma StopsAtFolder(io: Collaborators, plan: Plan, run: Run, m: string)
    requires 0 < |run.trace| && Attempted(io, plan, run)
    requires io.transcribe(plan.video).Ok? && io.generate(plan.transcript, plan.videoName).Ok?
    requires io.ensureDir(plan.dir) == Fail(m)
    ensures |run.trace| == 3 && run.result == Err(m)
  {
    var effects := Effects(plan);
    assert Succeeds(io, effects[0]) && Succeeds(io, effects[1]);
    FirstFailure(io, plan, run, 2);
  }

  /** A run that attempted a plan whose services answer and whose folder is
      created, but whose thumbnail extraction fails, stops after the
      extraction with ffmpeg's message behind `FFmpeg error: `. */
  lemma StopsAtThumbnail(io: Collaborators, plan: Plan, run: Run, m: string)
    requires 0 < |run.trace| && Attempted(io, plan, run)
    requires io.transcribe(plan.video).Ok? && io.generate(plan.transcript, plan.videoName).Ok?
    requires io.ensureDir(plan.dir).Pass?
    requires io.screenshot(plan.video, plan.dir, ThumbnailName(plan)) == Fail(m)
    ensures |run.trace| == 4 && run.result == Err(FFmpegPrefix + m)
  {
    var effects := Effects(plan);
    assert Succeeds(io, effects[0]) && Succeeds(io, effects[1]) && Succeeds(io, effects[2]);
    FirstFailure(io, plan, run, 3);
  }

  /** A failed thumbnail extraction stops the run after its fourth effect,
      before any file is written, with ffmpeg's message wrapped: the services
      answer, the folder named by the slug of the generated title is created
      in the output folder, and ffmpeg fails to extract `<slug>.jpg` of this
      video into it. */
  lemma ThumbnailFailure(converter: VideoToMarkdown, env: Environment, io: Collaborators, videoPath: string, m: string)
    requires io.pathExists(videoPath) && IsSet(env.apiKey)
    requires io.transcribe(videoPath).Ok?
    requires io.generate(io.transcribe(videoPath).value, VideoName(videoPath)).Ok?
    requires var post := io.generate(io.transcribe(videoPath).value, VideoName(videoPath)).value;
             var slug := GenerateSlug(post.title);
             var dir := JoinPath(converter.outputDir, slug);
      && io.ensureDir(dir).Pass?
      && io.screenshot(videoPath, dir, slug + ThumbnailExtension) == Fail(m)
    ensures var run := ProcessVideo(converter, env, io, videoPath);
      |run.trace| == 4 && run.result == Err(FFmpegPrefix + m)
  {
    var plan := PlanFor(converter, env, io, videoPath);
    PreparedFolder(converter, env, io.stringify, videoPath, TranscriptOf(io, videoPath), PostOf(io, videoPath));
    StopsAtThumbnail(io, plan, ProcessVideo(converter, env, io, videoPath), m);
  }

  /** A run that extracted the thumbnail but cannot write the transcript
      stops after that first write, with the file system's message rethrown
      unchanged and no further file written. */
  lemma StopsAtTranscriptWrite(io: Collaborators, plan: Plan, run: Run, m: string)
    requires 0 < |run.trace| && Attempted(io, plan, run)
    requires io.transcribe(plan.video).Ok? && io.generate(plan.transcript, plan.videoName).Ok?
    requires io.ensureDir(plan.dir).Pass?
    requires io.screenshot(plan.video, plan.dir, ThumbnailName(plan)).Pass?
    requires io.writeFile(JoinPath(plan.dir, TranscriptName), plan.transcript) == Fail(m)
    ensures |run.trace| == 5 && run.result == Err(m)
  {
    var effects := Effects(plan);
    assert Succeeds(io, effects[0]) && Succeeds(io, effects[1]) && Succeeds(io, effects[2]) && Succeeds(io, effects[3]);
    FirstFailure(io, plan, run, 4);
  }
}
