/**
 * The local stand-in used when every backend fails: the first readable file
 * among three fixed candidates, or else a constant SVG placeholder.
 */
module MockImage {
  import opened Options
  import opened JsStrings
  import opened Platform
  import ImageGeneration

  /** The default value of the `skinTone` parameter, used only when it is `undefined`. */
  const DefaultSkinTone := "medium"

  /** V8's message for calling `replace` on `null`. */
  const NullReplace := "Cannot read properties of null " + "(reading 'replace')"

  /** The placeholder's text up to the notice it displays, the notice, and the rest. */
  const SvgHead :=
    "\n" +
    "    <svg width=\"300\" height=\"300\" " + "xmlns=\"http://www.w3.org/2000/svg\">\n" +
    "      <defs>\n" +
    "        <linearGradient id=\"nailGradient\" " + "x1=\"0%\" y1=\"0%\" x2=\"100%\" y2=\"100%\">\n" +
    "          <stop offset=\"0%\" " + "style=\"stop-color:#ff9eb5;stop-opacity:1\" />\n" +
    "          <stop offset=\"100%\" " + "style=\"stop-color:#d471e5;stop-opacity:1\" />\n" +
    "        </linearGradient>\n" +
    "      </defs>\n" +
    "      <g>\n" +
    "        <rect x=\"75\" y=\"50\" rx=\"60\" ry=\"120\" " + "width=\"150\" height=\"220\" " +
    "fill=\"url(#nailGradient)\" />\n" +
    "        <text x=\"150\" y=\"150\" " + "font-family=\"Arial\" font-size=\"12\" " +
    "text-anchor=\"middle\" fill=\"white\">"
  const UnavailableNotice := "API Unavailable"
  const SvgTail :=
    "</text>\n" +
    "        <text x=\"150\" y=\"170\" " + "font-family=\"Arial\" font-size=\"12\" " +
    "text-anchor=\"middle\" fill=\"white\">" + "Mock Nail Image</text>\n" +
    "      </g>\n" +
    "    </svg>"

  /** The gradient nail placeholder: a fixed SVG document. */
  const GradientSvg := SvgHead + UnavailableNotice + SvgTail

  /** The placeholder says that the API is unavailable. */
  lemma PlaceholderSaysUnavailable()
    ensures Contains(GradientSvg, UnavailableNotice)
  {
    var s := SvgHead + UnavailableNotice + SvgTail;
    assert s[|SvgHead|..|SvgHead| + |UnavailableNotice|] == UnavailableNotice;
    assert OccursAt(s, UnavailableNotice, |SvgHead|);
  }

  /** `createGradientNailImage`: the base64 of the fixed SVG, whatever the request. */
  function CreateGradientNailImage(codec: Codec): (image: string)
    ensures exists svg :: image == codec.base64(codec.utf8Bytes(svg)) && Contains(svg, UnavailableNotice)
  {
    PlaceholderSaysUnavailable();
    codec.base64(codec.utf8Bytes(GradientSvg))
  }

  /**
   * The template candidate's file name. The default parameter only covers
   * `undefined`: an empty tone gives `nail-template-.png`, and `null` throws.
   */
  function TemplateCandidateName(skinTone: JsValue): (r: Result<string, Error>)
    ensures r.Failure? <==> skinTone == Null
    ensures r.Failure? ==> r.error == Error(NullReplace)
    ensures skinTone == Absent ==> r == Success("nail-template-medium.png")
  {
    match skinTone
    case Absent =>
      ReplaceFirstCharAbsent(DefaultSkinTone, ' ', '-');
      assert "nail-template-" + DefaultSkinTone + ".png" == "nail-template-medium.png";
      Success("nail-template-" + ReplaceFirst(DefaultSkinTone, " ", "-") + ".png")
    case Null => Failure(Error(NullReplace))
    case Str(tone) => Success("nail-template-" + ReplaceFirst(tone, " ", "-") + ".png")
  }

  /** An empty tone is not defaulted: it leaves an empty slot in the file name. */
  lemma EmptyToneName()
    ensures TemplateCandidateName(Str("")) == Success("nail-template-.png")
  {
    ReplaceFirstCharAbsent("", ' ', '-');
    assert "nail-template-" + "" + ".png" == "nail-template-.png";
  }

  /** The three places searched, in order: the generic sample, the tone's template, the assets copy. */
  function CandidatePaths(cwd: string, skinTone: JsValue): (r: Result<seq<string>, Error>)
    ensures r.Failure? <==> skinTone == Null
    ensures r.Success? ==>
              && |r.value| == 3
              && r.value[0] == cwd + "/public/sample-nail.png"
              && r.value[1] == cwd + "/" + ImageGeneration.TemplatesBasePath + "/" + TemplateCandidateName(skinTone).value
              && r.value[2] == cwd + "/public/assets/sample-nail.png"
  {
    match TemplateCandidateName(skinTone)
    case Failure(e) => Failure(e)
    case Success(name) =>
      SamplePath(cwd);
      AssetsSamplePath(cwd);
      ImageGeneration.TemplateSegments(cwd, name);
      PathJoinThree(cwd, ImageGeneration.TemplatesBasePath, name);
      Success([PathJoin([cwd, "public", "sample-nail.png"]),
               PathJoin([cwd, "public", "templates", "files", name]),
               PathJoin([cwd, "public", "assets", "sample-nail.png"])])
  }

  /** The file at `path` exists and reads. */
  predicate Yields(files: FileSystem, path: string) {
    path in files && files[path].Readable?
  }

  /**
   * The search from candidate `i` on: each candidate is checked for
   * existence, an existing one is read, a failed read is swallowed, and the
   * first successful read ends the search.
   */
  function SearchFrom(files: FileSystem, paths: seq<string>, i: nat): (r: Run<Option<Bytes>>)
    requires i <= |paths|
    ensures r.result.Some? ==>
              exists j :: i <= j < |paths| && Yields(files, paths[j]) && r.result.value == files[paths[j]].bytes
    ensures r.result.None? ==> forall j :: i <= j < |paths| ==> !Yields(files, paths[j])
    decreases |paths| - i
  {
    if i == |paths| then Run([], None)
    else if !ExistsSync(files, paths[i]) then After([Exists(paths[i])], SearchFrom(files, paths, i + 1))
    else match ReadFile(files, paths[i])
      case Success(bytes) => Run([Exists(paths[i]), Read(paths[i])], Some(bytes))
      case Failure(_) => After([Exists(paths[i]), Read(paths[i])], SearchFrom(files, paths, i + 1))
  }

  /** One step of the search, unfolded. */
  lemma SearchStep(files: FileSystem, paths: seq<string>, i: nat)
    requires i < |paths|
    ensures var p := paths[i];
            && (!ExistsSync(files, p) ==>
                  SearchFrom(files, paths, i) == Run([Exists(p)] + SearchFrom(files, paths, i + 1).effects,
                                                     SearchFrom(files, paths, i + 1).result))
            && (ExistsSync(files, p) && ReadFile(files, p).Success? ==>
                  SearchFrom(files, paths, i) == Run([Exists(p), Read(p)], Some(ReadFile(files, p).value)))
            && (ExistsSync(files, p) && ReadFile(files, p).Failure? ==>
                  SearchFrom(files, paths, i) == Run([Exists(p), Read(p)] + SearchFrom(files, paths, i + 1).effects,
                                                     SearchFrom(files, paths, i + 1).result))
  {
  }

  /** The paths whose existence was checked, in order. */
  function Examined(effects: seq<Effect>): seq<string> {
    if effects == [] then []
    else (if effects[0].Exists? then [effects[0].path] else []) + Examined(effects[1..])
  }

  lemma {:induction false} ExaminedAppend(a: seq<Effect>, b: seq<Effect>)
    ensures Examined(a + b) == Examined(a) + Examined(b)
  {
    if a == [] {
      assert a + b == b;
    } else {
      assert (a + b)[1..] == a[1..] + b;
      ExaminedAppend(a[1..], b);
    }
  }

  lemma ExaminedStep(p: string, read: bool, rest: seq<Effect>)
    ensures Examined((if read then [Exists(p), Read(p)] else [Exists(p)]) + rest) == [p] + Examined(rest)
  {
    var head := if read then [Exists(p), Read(p)] else [Exists(p)];
    ExaminedAppend(head, rest);
    assert head[1..] == [] || head[1..] == [Read(p)];
    assert Examined(head) == [p];
  }

  /**
   * The first candidate that yields wins: its bytes are the result, and the
   * candidates after it are not examined.
   */
  lemma {:induction false} SearchFindsFirstYielding(files: FileSystem, paths: seq<string>, i: nat, k: nat)
    requires i <= k < |paths| && Yields(files, paths[k])
    requires forall j :: i <= j < k ==> !Yields(files, paths[j])
    ensures SearchFrom(files, paths, i).result == Some(files[paths[k]].bytes)
    ensures Examined(SearchFrom(files, paths, i).effects) == paths[i..k + 1]
    decreases k - i
  {
    if i == k {
      ExaminedStep(paths[i], true, []);
      assert [Exists(paths[i]), Read(paths[i])] + [] == [Exists(paths[i]), Read(paths[i])];
      assert paths[i..k + 1] == [paths[i]];
    } else {
      SearchFindsFirstYielding(files, paths, i + 1, k);
      var rest := SearchFrom(files, paths, i + 1).effects;
      ExaminedStep(paths[i], ExistsSync(files, paths[i]), rest);
      assert paths[i..k + 1] == [paths[i]] + paths[i + 1..k + 1];
    }
  }

  /** When no candidate yields, every candidate is examined and nothing is found. */
  lemma {:induction false} SearchExhausted(files: FileSystem, paths: seq<string>, i: nat)
    requires i <= |paths|
    requires forall j :: i <= j < |paths| ==> !Yields(files, paths[j])
    ensures SearchFrom(files, paths, i).result == None
    ensures Examined(SearchFrom(files, paths, i).effects) == paths[i..]
    decreases |paths| - i
  {
    if i < |paths| {
      SearchExhausted(files, paths, i + 1);
      var rest := SearchFrom(files, paths, i + 1).effects;
      ExaminedStep(paths[i], ExistsSync(files, paths[i]), rest);
      assert paths[i..] == [paths[i]] + paths[i + 1..];
    }
  }

  /** What `generateMockImage` returns and does, as a function of the files present. */
  function MockImage(host: Host, skinTone: JsValue): (r: Run<Result<string, Error>>)
    ensures r.result.Failure? <==> skinTone == Null
    ensures r.result.Failure? ==> r.effects == [] && r.result.error == Error(NullReplace)
  {
    match CandidatePaths(host.cwd, skinTone)
    case Failure(e) => Run([], Failure(e))
    case Success(paths) =>
      var found := SearchFrom(host.files, paths, 0);
      Run(found.effects,
          Success(match found.result
                  case Some(bytes) => host.codec.base64(bytes)
                  case None => CreateGradientNailImage(host.codec)))
  }

  /** The generic sample candidate spelled out. */
  lemma SamplePath(cwd: string)
    ensures PathJoin([cwd, "public", "sample-nail.png"]) == cwd + "/public/sample-nail.png"
  {
    PathJoinThree(cwd, "public", "sample-nail.png");
    var tail := "/" + "public" + "/" + "sample-nail.png";
    assert tail == "/public/sample-nail.png";
    assert cwd + "/" + "public" + "/" + "sample-nail.png" == cwd + tail;
  }

  /** The assets copy of the sample spelled out. */
  lemma AssetsSamplePath(cwd: string)
    ensures PathJoin([cwd, "public", "assets", "sample-nail.png"]) == cwd + "/public/assets/sample-nail.png"
  {
    PathJoinFour(cwd, "public", "assets", "sample-nail.png");
    var tail := "/" + "public" + "/" + "assets" + "/" + "sample-nail.png";
    assert tail == "/public/assets/sample-nail.png";
    assert cwd + "/" + "public" + "/" + "assets" + "/" + "sample-nail.png" == cwd + tail;
  }

  /**
   * The template candidate is the controller's template path when the tone
   * is missing or truthy; for an empty tone the two disagree, since only the
   * controller falls back to the medium template.
   */
  lemma TemplateCandidateMatchesTemplatePath(cwd: string, skinTone: JsValue)
    requires skinTone == Absent || Truthy(skinTone)
    ensures CandidatePaths(cwd, skinTone).value[1] == ImageGeneration.GetTemplatePath(cwd, skinTone)
  {
    var name := TemplateCandidateName(skinTone).value;
    if skinTone == Absent {
      ReplaceFirstCharAbsent(DefaultSkinTone, ' ', '-');
      assert "nail-template-" + DefaultSkinTone + ".png" == "nail-template-medium.png";
      assert name == ImageGeneration.DefaultTemplateFileName;
    }
    assert name == ImageGeneration.TemplateFileName(skinTone);
    ImageGeneration.TemplateSegments(cwd, name);
  }

  lemma EmptyToneCandidateDiffers(cwd: string)
    ensures CandidatePaths(cwd, Str("")).value[1] != ImageGeneration.GetTemplatePath(cwd, Str(""))
  {
    EmptyToneName();
    PathJoinFive(cwd, "public", "templates", "files", "nail-template-.png");
    PathJoinThree(cwd, ImageGeneration.TemplatesBasePath, ImageGeneration.DefaultTemplateFileName);
    assert |CandidatePaths(cwd, Str("")).value[1]| + 6 == |ImageGeneration.GetTemplatePath(cwd, Str(""))|;
  }

  /**
   * The first candidate that reads is the mock image, base64-encoded, and
   * no later candidate is examined.
   */
  lemma MockFirstReadableWins(host: Host, skinTone: JsValue, k: nat)
    requires skinTone != Null
    requires var paths := CandidatePaths(host.cwd, skinTone).value;
             k < |paths| && Yields(host.files, paths[k]) &&
             forall j :: 0 <= j < k ==> !Yields(host.files, paths[j])
    ensures var paths := CandidatePaths(host.cwd, skinTone).value;
            && MockImage(host, skinTone).result == Success(host.codec.base64(host.files[paths[k]].bytes))
            && Examined(MockImage(host, skinTone).effects) == paths[..k + 1]
  {
    var paths := CandidatePaths(host.cwd, skinTone).value;
    SearchFindsFirstYielding(host.files, paths, 0, k);
  }

  /**
   * When no candidate reads, every candidate has been examined and the
   * result is the placeholder, which depends on nothing in the request.
   */
  lemma MockFallsBackToPlaceholder(host: Host, skinTone: JsValue)
    requires skinTone != Null
    requires var paths := CandidatePaths(host.cwd, skinTone).value;
             forall j :: 0 <= j < |paths| ==> !Yields(host.files, paths[j])
    ensures MockImage(host, skinTone).result == Success(CreateGradientNailImage(host.codec))
    ensures Examined(MockImage(host, skinTone).effects) == CandidatePaths(host.cwd, skinTone).value
  {
    var paths := CandidatePaths(host.cwd, skinTone).value;
    SearchExhausted(host.files, paths, 0);
    assert paths[0..] == paths;
  }

  /** The search only looks at files: it makes no request. */
  lemma {:induction false} SearchFetchesNothing(files: FileSystem, paths: seq<string>, i: nat)
    requires i <= |paths|
    ensures FetchCount(SearchFrom(files, paths, i).effects) == 0
    decreases |paths| - i
  {
    if i < |paths| {
      var p := paths[i];
      SearchStep(files, paths, i);
      SearchFetchesNothing(files, paths, i + 1);
      var rest := SearchFrom(files, paths, i + 1).effects;
      FetchCountAppend([Exists(p)], rest);
      FetchCountAppend([Exists(p), Read(p)], rest);
      FetchCountAppend([Exists(p)], [Read(p)]);
      assert [Exists(p)] + [Read(p)] == [Exists(p), Read(p)];
    }
  }

  /** The mock service never calls a backend. */
  lemma MockFetchesNothing(host: Host, skinTone: JsValue)
    ensures FetchCount(MockImage(host, skinTone).effects) == 0
  {
    if skinTone != Null {
      SearchFetchesNothing(host.files, CandidatePaths(host.cwd, skinTone).value, 0);
    }
  }

  /** What probing one candidate that does not yield leaves in the trace. */
  function Probe(files: FileSystem, path: string): seq<Effect> {
    if ExistsSync(files, path) then [Exists(path), Read(path)] else [Exists(path)]
  }

  /** A candidate that does not yield is probed and the search moves on. */
  lemma SearchSkips(files: FileSystem, paths: seq<string>, i: nat, before: seq<Effect>)
    requires i < |paths| && !Yields(files, paths[i])
    ensures before + SearchFrom(files, paths, i).effects ==
            (before + Probe(files, paths[i])) + SearchFrom(files, paths, i + 1).effects
    ensures SearchFrom(files, paths, i).result == SearchFrom(files, paths, i + 1).result
  {
    SearchStep(files, paths, i);
  }

  /** A candidate that yields ends the search with its bytes. */
  lemma SearchHits(files: FileSystem, paths: seq<string>, i: nat, before: seq<Effect>)
    requires i < |paths| && Yields(files, paths[i])
    ensures before + SearchFrom(files, paths, i).effects == before + [Exists(paths[i]), Read(paths[i])]
    ensures SearchFrom(files, paths, i).result == Some(files[paths[i]].bytes)
  {
    SearchStep(files, paths, i);
  }

  /** The `for` loop of `generateMockImage`: the candidates in order, stopping at the first that reads. */
  method SearchCandidates(files: FileSystem, paths: seq<string>) returns (found: Option<Bytes>, effects: seq<Effect>)
    ensures Run(effects, found) == SearchFrom(files, paths, 0)
  {
    effects := [];
    for i := 0 to |paths|
      invariant effects + SearchFrom(files, paths, i).effects == SearchFrom(files, paths, 0).effects
      invariant SearchFrom(files, paths, i).result == SearchFrom(files, paths, 0).result
    {
      var path := paths[i];
      if ExistsSync(files, path) {
        var read := ReadFile(files, path);
        if read.Success? {
          SearchHits(files, paths, i, effects);
          effects := effects + [Exists(path), Read(path)];
          found := Some(read.value);
          return;
        }
      }
      SearchSkips(files, paths, i, effects);
      effects := effects + Probe(files, path);
    }
    found := None;
  }

  /** `generateMockImage`: the candidates' search, then the placeholder when nothing was read. */
  method GenerateMockImage(host: Host, skinTone: JsValue) returns (image: Result<string, Error>, effects: seq<Effect>)
    ensures Run(effects, image) == MockImage(host, skinTone)
  {
    var candidates := CandidatePaths(host.cwd, skinTone);
    if candidates.Failure? {
      image, effects := Failure(candidates.error), [];
      return;
    }
    var found;
    found, effects := SearchCandidates(host.files, candidates.value);
    if found.Some? {
      image := Success(host.codec.base64(found.value));
    } else {
      image := Success(CreateGradientNailImage(host.codec));
    }
  }
}
