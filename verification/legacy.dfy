/**
 * The single-file server that predates the modular service: its own design
 * endpoint and its own five-provider image ladder, written as a chain of
 * handlers each of which either answers or passes the request on.
 */
module Legacy {
  import opened Options
  import opened JsStrings
  import opened Platform
  import Cascade
  import NailDesign
  import ImageGeneration
  import HuggingFace
  import ImageController

  const InvalidData := "Invalid data"

  /** The guidance line of this server's prompt, with its missing space. */
  const LegacyGuidance :=
    "The design should be simple, elegant, " + "easywith focus on creating " + "a beautiful nail art pattern."

  /**
   * `/generate-nail-design`: the same validation as the design model, a 400
   * instead of a throw, and the same texts but for the guidance line.
   */
  function GenerateNailDesignRoute(skinTone: JsValue, skinToneHex: JsValue, keywords: NailDesign.Keywords): (r: Response)
    ensures r.status == 400 <==> !NailDesign.ValidDesignInput(skinTone, skinToneHex, keywords)
    ensures r.status == 400 ==> r.body == ErrorOnly(InvalidData)
    ensures r.status != 400 ==> r.status == 200 && r.body.DesignBody?
  {
    if !NailDesign.ValidDesignInput(skinTone, skinToneHex, keywords) then Response(400, ErrorOnly(InvalidData))
    else
      var tone, hex, kws := skinTone.s, skinToneHex.s, keywords.items;
      Response(200, DesignBody(NailDesign.DesignPrompt(tone, hex, kws, LegacyGuidance),
                               NailDesign.DesignDescription(tone, hex, kws)))
  }

  /**
   * The two design implementations reject the same requests and describe a
   * design identically; their prompts differ in the guidance line alone,
   * the legacy one being a character shorter.
   */
  lemma DesignRouteAgreesWithModel(skinTone: JsValue, skinToneHex: JsValue, keywords: NailDesign.Keywords)
    ensures var r := GenerateNailDesignRoute(skinTone, skinToneHex, keywords);
            var d := NailDesign.GenerateDesign(skinTone, skinToneHex, keywords);
            && (r.status == 400 <==> d.Failure?)
            && (d.Success? ==>
                  && r.body.designDescription == d.value.designDescription
                  && r.body.promptUsed == NailDesign.DesignPrompt(skinTone.s, skinToneHex.s, keywords.items, LegacyGuidance)
                  && d.value.promptUsed == NailDesign.DesignPrompt(skinTone.s, skinToneHex.s, keywords.items, NailDesign.ModelGuidance)
                  && |r.body.promptUsed| + 1 == |d.value.promptUsed|)
  {
  }

  const HubModels := "https://api-inference.huggingface.co/models/"
  const Pix2PixUrl := HubModels + "timbrooks/instruct-pix2pix"
  const ControlNetUrl := HubModels + "lllyasviel/sd-controlnet-canny"
  const DreamlikeUrl := HubModels + "dreamlike-art/dreamlike-photoreal-2.0"
  const SdxlUrl := HuggingFace.DirectHubUrl
  const OpenJourneyUrl := HubModels + "prompthero/openjourney"

  const Pix2PixInstruction :=
    "Create beautiful nail art only on " + "the white nail area in this image. " + "Do not modify the background."
  const ControlNetSuffix := " Focus only on creating nail art " + "in the white nail area."

  /** The text whose first occurrence in the prompt starts the keyword slice. */
  const KeywordMarker := "key elements to include"

  /** V8's message for the slice when the prompt lacks the marker. */
  const MissingMarker := "Cannot read properties of undefined " + "(reading 'split')"

  /**
   * `prompt.split(marker)[1].split('.')[0]`: `None` when the second piece is
   * `undefined`, which makes the second `split` throw.
   */
  function KeywordSlice(prompt: string): (r: Option<string>)
    ensures r.Some? ==> !Contains(r.value, ".")
  {
    match Piece(prompt, KeywordMarker, 1)
    case None => None
    case Some(after) =>
      SplitPiecesFree(after, ".");
      Some(Split(after, ".")[0])
  }

  /** The slice exists exactly when the prompt holds the marker. */
  lemma KeywordSliceIffMarker(prompt: string)
    ensures KeywordSlice(prompt).Some? <==> Contains(prompt, KeywordMarker)
  {
    IndexOfNoneIffAbsent(prompt, KeywordMarker);
    if !Contains(prompt, KeywordMarker) {
      SplitWithout(prompt, KeywordMarker);
    }
  }

  /**
   * Up to the next '.': the first piece of `b + "." + c` by a separator
   * without '.', cut at its first '.', is `b`, when `b` holds neither.
   */
  lemma UpToDot(sep: string, b: string, c: string)
    requires |sep| > 0 && '.' !in sep
    requires '.' !in b && !Contains(b, sep)
    ensures Split(Split(b + "." + c, sep)[0], ".")[0] == b
  {
    var after := b + "." + c;
    var first := Split(after, sep)[0];
    FirstPiece(after, sep);
    forall j: nat | j <= |b| ensures !OccursAt(after, sep, j) {
      if j + |sep| <= |b| {
        assert after[j..j + |sep|] == b[j..j + |sep|];
        assert !OccursAt(b, sep, j);
      } else if j + |sep| <= |after| {
        assert after[j..j + |sep|][|b| - j] == '.';
      }
    }
    assert |first| > |b|;
    assert first == b + "." + first[|b| + 1..] by {
      assert first == after[..|first|];
    }
    IndexOfChar(b, '.', first[|b| + 1..]);
    assert first[..|b|] == b;
  }

  /**
   * The slice is the text after the first marker up to the next '.', when
   * no second marker starts before that '.'.
   */
  lemma KeywordSliceShape(prompt: string, i: nat, b: string, c: string)
    requires IndexOf(prompt, KeywordMarker) == Some(i)
    requires prompt[i + |KeywordMarker|..] == b + "." + c
    requires '.' !in b && !Contains(b, KeywordMarker)
    ensures KeywordSlice(prompt) == Some(b)
  {
    SecondPiece(prompt, KeywordMarker, i);
    assert '.' !in KeywordMarker;
    UpToDot(KeywordMarker, b, c);
  }

  /**
   * A marker starting inside `x` that `x` does not hold runs into `q`; it
   * cannot when `q` opens with ')', which the marker lacks, or with " s",
   * since no space of the marker is followed by 's'.
   */
  lemma NoMarkerAcross(p: string, x: string, q: string, k: nat)
    requires !Contains(x, KeywordMarker)
    requires |q| >= 2 && (q[0] == ')' || (q[0] == ' ' && q[1] == 's'))
    requires |p| <= k < |p| + |x|
    ensures !OccursAt(p + x + q, KeywordMarker, k)
  {
    var m := KeywordMarker;
    var s := p + x + q;
    var e := |p| + |x|;
    if k + |m| <= e {
      assert s[k..k + |m|] == x[k - |p|..k - |p| + |m|];
      assert !OccursAt(x, m, k - |p|);
    } else if k + |m| <= |s| {
      var d := e - k;
      assert ')' !in m;
      assert forall i :: 0 <= i < |m| && m[i] == ' ' ==> i + 1 < |m| && m[i + 1] != 's';
      assert s[k..k + |m|][d] == q[0];
      if q[0] == ' ' && m[d] == ' ' {
        assert s[k..k + |m|][d + 1] == q[1];
      }
    }
  }

  /** A marker cannot start where one of its characters is contradicted. */
  lemma MismatchAt(s: string, k: nat, d: nat)
    requires k + |KeywordMarker| <= |s| && d < |KeywordMarker|
    requires s[k + d] != KeywordMarker[d]
    ensures !OccursAt(s, KeywordMarker, k)
  {
    assert s[k..k + |KeywordMarker|][d] == s[k + d];
  }

  /**
   * No marker starts before `a`'s end in `o + tone + t + hex + a + rest`
   * when neither `tone` nor `hex` holds one and the fixed parts are shaped
   * like the design prompt's: no 'k' in `o` or `a`, a 'k' in `t` only
   * before a letter other than 'e', `t` opening with " s", `a` with ')'.
   */
  lemma NoMarkerBeforeHeading(o: string, tone: string, t: string, hex: string, a: string, rest: string)
    requires !Contains(tone, KeywordMarker) && !Contains(hex, KeywordMarker)
    requires 'k' !in o && 'k' !in a
    requires |t| >= 2 && t[0] == ' ' && t[1] == 's'
    requires forall i :: 0 <= i < |t| && t[i] == 'k' ==> i + 1 < |t| && t[i + 1] != 'e'
    requires |a| >= 2 && a[0] == ')'
    ensures forall k: nat :: k < |o + tone + t + hex + a| ==> !OccursAt(o + tone + t + hex + a + rest, KeywordMarker, k)
  {
    var m := KeywordMarker;
    var s := o + tone + t + hex + a + rest;
    var ot := |o| + |tone|;
    var u := ot + |t|;
    var v := u + |hex|;
    forall k: nat | k < |o + tone + t + hex + a|
      ensures !OccursAt(s, m, k)
    {
      if k + |m| > |s| {
      } else if k < |o| {
        assert s[k] == o[k] != m[0];
        MismatchAt(s, k, 0);
      } else if k < ot {
        assert s == o + tone + (t + hex + a + rest);
        NoMarkerAcross(o, tone, t + hex + a + rest, k);
      } else if k < u {
        assert s[k] == t[k - ot];
        if t[k - ot] == 'k' {
          assert s[k + 1] == t[k - ot + 1] != m[1];
          MismatchAt(s, k, 1);
        } else {
          MismatchAt(s, k, 0);
        }
      } else if k < v {
        assert s == o + tone + t + hex + (a + rest);
        NoMarkerAcross(o + tone + t, hex, a + rest, k);
      } else {
        assert s[k] == a[k - v] != m[0];
        MismatchAt(s, k, 0);
      }
    }
  }

  /** The design prompt's opening and the text before its key phrase hold no 'k'; the latter opens with ')'. */
  lemma DesignPromptOuterParts()
    ensures 'k' !in NailDesign.PromptOpening
    ensures 'k' !in NailDesign.PromptHexToHeading
    ensures |NailDesign.PromptHexToHeading| >= 2 && NailDesign.PromptHexToHeading[0] == ')'
  {
  }

  /** Between tone and colour: " s" first, and its one 'k' followed by 'i'. */
  lemma DesignPromptToneToHexPart()
    ensures var t := NailDesign.PromptToneToHex;
            && |t| >= 2 && t[0] == ' ' && t[1] == 's'
            && forall i :: 0 <= i < |t| && t[i] == 'k' ==> i + 1 < |t| && t[i + 1] != 'e'
  {
  }

  /** A '.'-free keyword list after a lead-in without 'k' or '.' holds no marker when the list holds none. */
  lemma LeadInKeywordsFree(l: string, joined: string)
    requires 'k' !in l && '.' !in l
    requires '.' !in joined && !Contains(joined, KeywordMarker)
    ensures '.' !in l + joined && !Contains(l + joined, KeywordMarker)
  {
    var m := KeywordMarker;
    var b := l + joined;
    forall k: nat | k + |m| <= |b|
      ensures !OccursAt(b, m, k)
    {
      if k < |l| {
        assert b[k..k + |m|][0] == l[k];
      } else {
        assert b[k..k + |m|] == joined[k - |l|..k - |l| + |m|];
        assert !OccursAt(joined, m, k - |l|);
      }
    }
  }

  /**
   * The keyword slice of a text shaped like the design prompt, with `a`,
   * the marker and `l` forming its third line up to the keywords `j`.
   */
  lemma SliceAfterHeading(o: string, tone: string, t: string, hex: string, a: string, l: string, j: string, c: string)
    requires !Contains(tone, KeywordMarker) && !Contains(hex, KeywordMarker)
    requires 'k' !in o && 'k' !in a
    requires |t| >= 2 && t[0] == ' ' && t[1] == 's'
    requires forall i :: 0 <= i < |t| && t[i] == 'k' ==> i + 1 < |t| && t[i + 1] != 'e'
    requires |a| >= 2 && a[0] == ')'
    requires 'k' !in l && '.' !in l
    requires '.' !in j && !Contains(j, KeywordMarker)
    ensures KeywordSlice(o + tone + t + hex + (a + KeywordMarker + l) + j + ("." + c)) == Some(l + j)
  {
    var b := l + j;
    var rest := KeywordMarker + (b + "." + c);
    Regroup(o, tone, t, hex, a, KeywordMarker, l, j, c);
    NoMarkerBeforeHeading(o, tone, t, hex, a, rest);
    var prompt := o + tone + t + hex + a + rest;
    var i := |o + tone + t + hex + a|;
    assert prompt[i..i + |KeywordMarker|] == KeywordMarker;
    IndexOfFirst(prompt, KeywordMarker, i);
    assert prompt[i + |KeywordMarker|..] == b + "." + c;
    LeadInKeywordsFree(l, j);
    KeywordSliceShape(prompt, i, b, c);
  }

  /** The design prompt's concatenation, regrouped around its key phrase. */
  lemma Regroup(o: string, tone: string, t: string, hex: string, a: string, m: string, l: string, j: string, c: string)
    ensures o + tone + t + hex + (a + m + l) + j + ("." + c) == o + tone + t + hex + a + (m + (l + j + "." + c))
  {
  }

  /**
   * On a prompt from this server's design endpoint the keyword slice is the
   * lead-in " in the nail design are: " and the joined keywords, provided
   * neither tone nor colour nor any keyword holds the marker and no keyword
   * holds a '.'.
   */
  lemma DesignPromptKeywordSlice(tone: string, hex: string, keywords: seq<string>)
    requires !Contains(tone, KeywordMarker) && !Contains(hex, KeywordMarker)
    requires '.' !in Join(keywords, ", ") && !Contains(Join(keywords, ", "), KeywordMarker)
    ensures KeywordSlice(NailDesign.DesignPrompt(tone, hex, keywords, LegacyGuidance)) ==
            Some(NailDesign.KeywordsLeadIn + Join(keywords, ", "))
  {
    var tail := NailDesign.PromptTail(LegacyGuidance);
    assert tail == "." + tail[1..];
    assert NailDesign.KeywordsHeading == KeywordMarker;
    assert 'k' !in NailDesign.KeywordsLeadIn && '.' !in NailDesign.KeywordsLeadIn;
    DesignPromptOuterParts();
    DesignPromptToneToHexPart();
    SliceAfterHeading(NailDesign.PromptOpening, tone, NailDesign.PromptToneToHex, hex, NailDesign.PromptHexToHeading,
                      NailDesign.KeywordsLeadIn, Join(keywords, ", "), tail[1..]);
  }

  function LegacyCall(host: Host, url: string, payload: Payload): Call {
    Call(url, Bearer(host.keys.hfApiToken), payload)
  }

  function Pix2PixCall(host: Host, templateImage: string): Call {
    LegacyCall(host, Pix2PixUrl, ImageInputs(templateImage, Pix2PixInstruction, Some(1.5), Some(7.0)))
  }

  function ControlNetCall(host: Host, templateImage: string, prompt: string): Call {
    LegacyCall(host, ControlNetUrl, ImageInputs(templateImage, prompt + ControlNetSuffix, None, None))
  }

  /** The photoreal prompt: the hex colour and the keyword slice inside fixed wording. */
  function DreamlikePrompt(skinToneHex: JsValue, keywords: string): (p: string)
    ensures Contains(p, keywords) && Contains(p, Interpolate(skinToneHex))
  {
    CarriesTwo(DreamlikeOpening, Interpolate(skinToneHex), DreamlikeHexToKeywords, keywords, DreamlikeClosing);
    DreamlikeOpening + Interpolate(skinToneHex) + DreamlikeHexToKeywords + keywords + DreamlikeClosing
  }

  const DreamlikeOpening := "A close-up photo of a beautiful " + "manicured nail with skin tone color "
  const DreamlikeHexToKeywords := ", with nail art design that includes "
  const DreamlikeClosing := ". Professional nail art, " + "beauty photography, macro photography."

  function DreamlikeCall(host: Host, skinToneHex: JsValue, keywords: string): Call {
    LegacyCall(host, DreamlikeUrl, TextInputs(DreamlikePrompt(skinToneHex, keywords), true, None))
  }

  function SdxlCall(host: Host, prompt: string): Call {
    LegacyCall(host, SdxlUrl, TextInputs(prompt, true, Some(true)))
  }

  function OpenJourneyCall(host: Host, prompt: string): Call {
    LegacyCall(host, OpenJourneyUrl, TextInputs(prompt, true, None))
  }

  /** A plain 200 image or an error with details: what every provider handler answers. */
  predicate PlainAnswer(r: Response) {
    (r.body.Image? && r.status == 200) || r.body.ErrorDetails?
  }

  /** The answer for a provider's image bytes. */
  function Succeeded(codec: Codec, bytes: Bytes): Response {
    Response(200, Image(DataUrl(codec.base64(bytes))))
  }

  /** `openJourneyFallback`: the last provider; its failure is the answer, with its own status. */
  function OpenJourneyFallback(host: Host, prompt: string): (r: Run<Response>)
    ensures r.effects == [Fetch(OpenJourneyCall(host, prompt))]
    ensures PlainAnswer(r.result)
    ensures host.net.binary(OpenJourneyCall(host, prompt)).NonOk? ==>
              var reply := host.net.binary(OpenJourneyCall(host, prompt));
              r.result == Response(reply.status, ErrorDetails(GenerationFailed + ": " + reply.statusText, reply.errorText))
    ensures host.net.binary(OpenJourneyCall(host, prompt)).Threw? ==>
              r.result == Response(500, ErrorDetails(GenerationFailed, host.net.binary(OpenJourneyCall(host, prompt)).message))
  {
    var call := OpenJourneyCall(host, prompt);
    Run([Fetch(call)],
        match host.net.binary(call)
        case Ok(buffer) => Succeeded(host.codec, buffer)
        case NonOk(status, statusText, errorText) =>
          Response(status, ErrorDetails(GenerationFailed + ": " + statusText, errorText))
        case Threw(message) => Response(500, ErrorDetails(GenerationFailed, message)))
  }

  /** `textToImageFallback`: SDXL, and Openjourney after any failure. */
  function TextToImageFallback(host: Host, prompt: string): (r: Run<Response>)
    ensures PlainAnswer(r.result)
    ensures TextProvidersOnly(r.effects)
    ensures |r.effects| > 0 && r.effects[0] == Fetch(SdxlCall(host, prompt))
    ensures |r.effects| > 1 ==> r.effects[1..] == [Fetch(OpenJourneyCall(host, prompt))]
  {
    var call := SdxlCall(host, prompt);
    match host.net.binary(call)
    case Ok(buffer) => Run([Fetch(call)], Succeeded(host.codec, buffer))
    case _ => After([Fetch(call)], OpenJourneyFallback(host, prompt))
  }

  /**
   * `tryDreamlikePhotoreal`: without the marker the slice throws before any
   * request; either failure passes on to SDXL.
   */
  function TryDreamlikePhotoreal(host: Host, prompt: string, skinToneHex: JsValue): (r: Run<Response>)
    ensures PlainAnswer(r.result)
    ensures KeywordSlice(prompt).None? ==> r == TextToImageFallback(host, prompt)
  {
    match KeywordSlice(prompt)
    case None => TextToImageFallback(host, prompt)
    case Some(keywords) =>
      var call := DreamlikeCall(host, skinToneHex, keywords);
      match host.net.binary(call)
      case Ok(buffer) => Run([Fetch(call)], Succeeded(host.codec, buffer))
      case _ => After([Fetch(call)], TextToImageFallback(host, prompt))
  }

  /** `tryControlNet`: any failure passes on to the photoreal model. */
  function TryControlNet(host: Host, templateImage: string, prompt: string, skinToneHex: JsValue): (r: Run<Response>)
    ensures PlainAnswer(r.result)
  {
    var call := ControlNetCall(host, templateImage, prompt);
    match host.net.binary(call)
    case Ok(buffer) => Run([Fetch(call)], Succeeded(host.codec, buffer))
    case _ => After([Fetch(call)], TryDreamlikePhotoreal(host, prompt, skinToneHex))
  }

  /** Where this server looks for the template of a tone, under its own directory. */
  function LegacyTemplatePath(appDir: string, skinTone: JsValue): (path: string)
    ensures path == appDir + "/" + ImageGeneration.TemplatesBasePath + "/" + ImageGeneration.TemplateFileName(skinTone)
    ensures path == ImageGeneration.GetTemplatePath(appDir, skinTone)
  {
    var name := ImageGeneration.TemplateFileName(skinTone);
    ImageGeneration.TemplateSegments(appDir, name);
    assert ImageGeneration.GetTemplatePath(appDir, skinTone) == PathJoin([appDir, ImageGeneration.TemplatesBasePath, name]);
    PathJoin([appDir, "public", "templates", "files", name])
  }

  /**
   * The part of `/generate-image` after the template loaded: pix2pix, whose
   * non-ok answer passes on to ControlNet but whose thrown error is answered
   * with a 500 at once.
   */
  function Pix2PixStep(host: Host, templateImage: string, prompt: string, skinToneHex: JsValue): (r: Run<Response>)
    ensures |r.effects| > 0 && r.effects[0] == Fetch(Pix2PixCall(host, templateImage))
    ensures host.net.binary(Pix2PixCall(host, templateImage)).Threw? ==>
              r == Run([Fetch(Pix2PixCall(host, templateImage))],
                       Response(500, ErrorDetails(GenerationFailed, host.net.binary(Pix2PixCall(host, templateImage)).message)))
    ensures PlainAnswer(r.result)
  {
    var call := Pix2PixCall(host, templateImage);
    match host.net.binary(call)
    case Ok(buffer) => Run([Fetch(call)], Succeeded(host.codec, buffer))
    case NonOk(_, _, _) => After([Fetch(call)], TryControlNet(host, templateImage, prompt, skinToneHex))
    case Threw(message) => Run([Fetch(call)], Response(500, ErrorDetails(GenerationFailed, message)))
  }

  /**
   * `/generate-image`: 400 without a prompt; without a template, straight to
   * SDXL; with one, the pix2pix step on the template as a data URL. No
   * answer carries a warning; a provider's own status, 4xx included, can
   * reach the client through Openjourney.
   */
  function GenerateImageRoute(host: Host, appDir: string, req: ImageController.ImageRequest): (r: Run<Response>)
    ensures r.result.body.ErrorOnly? <==> !Truthy(req.prompt)
    ensures !Truthy(req.prompt) ==> r == Run([], Response(400, ErrorOnly(PromptRequired)))
    ensures Truthy(req.prompt) ==>
              PlainAnswer(r.result) && |r.effects| > 0 && r.effects[0] == Read(LegacyTemplatePath(appDir, req.skinTone))
    ensures Truthy(req.prompt) && ReadFile(host.files, LegacyTemplatePath(appDir, req.skinTone)).Failure? ==>
              r == After([Read(LegacyTemplatePath(appDir, req.skinTone))], TextToImageFallback(host, req.prompt.s))
    ensures Truthy(req.prompt) && ReadFile(host.files, LegacyTemplatePath(appDir, req.skinTone)).Success? ==>
              var template := DataUrl(host.codec.base64(ReadFile(host.files, LegacyTemplatePath(appDir, req.skinTone)).value));
              r == After([Read(LegacyTemplatePath(appDir, req.skinTone))], Pix2PixStep(host, template, req.prompt.s, req.skinToneHex))
  {
    if !Truthy(req.prompt) then Run([], Response(400, ErrorOnly(PromptRequired)))
    else
      var prompt := req.prompt.s;
      var templatePath := LegacyTemplatePath(appDir, req.skinTone);
      match ReadFile(host.files, templatePath)
      case Failure(_) => After([Read(templatePath)], TextToImageFallback(host, prompt))
      case Success(bytes) => After([Read(templatePath)], Pix2PixStep(host, DataUrl(host.codec.base64(bytes)), prompt, req.skinToneHex))
  }

  // The ladder as an instance of the generic first-success cascade.

  /** A one-request rung: the base64 image, or the answer its failure would give as the last rung. */
  function Outcome(codec: Codec, reply: Reply<Bytes>): Result<string, Response> {
    match reply
    case Ok(buffer) => Success(codec.base64(buffer))
    case NonOk(status, statusText, errorText) =>
      Failure(Response(status, ErrorDetails(GenerationFailed + ": " + statusText, errorText)))
    case Threw(message) => Failure(Response(500, ErrorDetails(GenerationFailed, message)))
  }

  function Rung(host: Host, call: Call): Cascade.Attempt<string, Response> {
    Run([Fetch(call)], Outcome(host.codec, host.net.binary(call)))
  }

  /** The photoreal rung fails without a request when the prompt has no marker. */
  function DreamlikeRung(host: Host, prompt: string, skinToneHex: JsValue): Cascade.Attempt<string, Response> {
    match KeywordSlice(prompt)
    case None => Run([], Failure(Response(500, ErrorDetails(GenerationFailed, MissingMarker))))
    case Some(keywords) => Rung(host, DreamlikeCall(host, skinToneHex, keywords))
  }

  /** The text-only rungs: SDXL, then Openjourney. */
  function TextRungs(host: Host, prompt: string): seq<Cascade.Attempt<string, Response>> {
    [Rung(host, SdxlCall(host, prompt)), Rung(host, OpenJourneyCall(host, prompt))]
  }

  /** The rungs after pix2pix: ControlNet, the photoreal model, then the text-only rungs. */
  function TemplateRungs(host: Host, templateImage: string, prompt: string, skinToneHex: JsValue): seq<Cascade.Attempt<string, Response>> {
    [Rung(host, ControlNetCall(host, templateImage, prompt)), DreamlikeRung(host, prompt, skinToneHex)] + TextRungs(host, prompt)
  }

  /** The ladder's answer: a success becomes the image, the last failure is answered as it is. */
  function Respond(a: Cascade.Attempt<string, Response>): Run<Response> {
    Run(a.effects, match a.result
                   case Success(image) => Response(200, Image(DataUrl(image)))
                   case Failure(answer) => answer)
  }

  lemma RespondAfter(effects: seq<Effect>, a: Cascade.Attempt<string, Response>)
    ensures Respond(After(effects, a)) == After(effects, Respond(a))
  {
  }

  /** Adding a rung in front of a ladder. */
  lemma RespondStep(first: Cascade.Attempt<string, Response>, rest: seq<Cascade.Attempt<string, Response>>)
    requires |rest| > 0
    ensures Respond(Cascade.FirstSuccess([first] + rest)) ==
            if first.result.Success? then Respond(first) else After(first.effects, Respond(Cascade.FirstSuccess(rest)))
  {
    Cascade.FirstSuccessCons(first, rest);
    if first.result.Failure? {
      RespondAfter(first.effects, Cascade.FirstSuccess(rest));
    }
  }

  /** SDXL then Openjourney is the first-success ladder over the text-only rungs. */
  lemma TextToImageIsCascade(host: Host, prompt: string)
    ensures TextToImageFallback(host, prompt) == Respond(Cascade.FirstSuccess(TextRungs(host, prompt)))
  {
    var sdxl, oj := Rung(host, SdxlCall(host, prompt)), Rung(host, OpenJourneyCall(host, prompt));
    assert TextRungs(host, prompt) == [sdxl] + [oj];
    RespondStep(sdxl, [oj]);
  }

  /** From the photoreal model on, the handlers are the ladder over its rung and the text-only ones. */
  lemma DreamlikeIsCascade(host: Host, prompt: string, skinToneHex: JsValue)
    ensures TryDreamlikePhotoreal(host, prompt, skinToneHex) ==
            Respond(Cascade.FirstSuccess([DreamlikeRung(host, prompt, skinToneHex)] + TextRungs(host, prompt)))
  {
    TextToImageIsCascade(host, prompt);
    RespondStep(DreamlikeRung(host, prompt, skinToneHex), TextRungs(host, prompt));
    if KeywordSlice(prompt).None? {
      assert After([], TextToImageFallback(host, prompt)) == TextToImageFallback(host, prompt);
    }
  }

  /** From ControlNet on, the handlers are the ladder over the template rungs. */
  lemma ControlNetIsCascade(host: Host, templateImage: string, prompt: string, skinToneHex: JsValue)
    ensures TryControlNet(host, templateImage, prompt, skinToneHex) ==
            Respond(Cascade.FirstSuccess(TemplateRungs(host, templateImage, prompt, skinToneHex)))
  {
    var cn := Rung(host, ControlNetCall(host, templateImage, prompt));
    var rest := [DreamlikeRung(host, prompt, skinToneHex)] + TextRungs(host, prompt);
    assert TemplateRungs(host, templateImage, prompt, skinToneHex) == [cn] + rest;
    DreamlikeIsCascade(host, prompt, skinToneHex);
    RespondStep(cn, rest);
  }

  /** When pix2pix answers (ok or not), its step is the ladder with pix2pix in front of the template rungs. */
  lemma Pix2PixIsCascade(host: Host, templateImage: string, prompt: string, skinToneHex: JsValue)
    requires !host.net.binary(Pix2PixCall(host, templateImage)).Threw?
    ensures Pix2PixStep(host, templateImage, prompt, skinToneHex) ==
            Respond(Cascade.FirstSuccess([Rung(host, Pix2PixCall(host, templateImage))] +
                                         TemplateRungs(host, templateImage, prompt, skinToneHex)))
  {
    ControlNetIsCascade(host, templateImage, prompt, skinToneHex);
    RespondStep(Rung(host, Pix2PixCall(host, templateImage)), TemplateRungs(host, templateImage, prompt, skinToneHex));
  }

  /**
   * With a template and a pix2pix answer (ok or not), the route is the
   * five-rung ladder pix2pix, ControlNet, photoreal, SDXL, Openjourney;
   * without a template it is the two text-only rungs.
   */
  lemma RouteIsCascade(host: Host, appDir: string, req: ImageController.ImageRequest)
    requires Truthy(req.prompt)
    ensures var path := LegacyTemplatePath(appDir, req.skinTone);
            var read := ReadFile(host.files, path);
            var prompt := req.prompt.s;
            && (read.Failure? ==>
                  GenerateImageRoute(host, appDir, req) ==
                  After([Read(path)], Respond(Cascade.FirstSuccess(TextRungs(host, prompt)))))
            && (read.Success? && !host.net.binary(Pix2PixCall(host, DataUrl(host.codec.base64(read.value)))).Threw? ==>
                  var template := DataUrl(host.codec.base64(read.value));
                  GenerateImageRoute(host, appDir, req) ==
                  After([Read(path)], Respond(Cascade.FirstSuccess(
                    [Rung(host, Pix2PixCall(host, template))] + TemplateRungs(host, template, prompt, req.skinToneHex)))))
  {
    var path := LegacyTemplatePath(appDir, req.skinTone);
    var read := ReadFile(host.files, path);
    var prompt := req.prompt.s;
    if read.Failure? {
      TextToImageIsCascade(host, prompt);
    } else {
      var template := DataUrl(host.codec.base64(read.value));
      if !host.net.binary(Pix2PixCall(host, template)).Threw? {
        Pix2PixIsCascade(host, template, prompt, req.skinToneHex);
      }
    }
  }

  /** The requests a run makes go only to the text-only providers. */
  predicate TextProvidersOnly(effects: seq<Effect>) {
    forall k :: 0 <= k < |effects| && effects[k].Fetch? ==> effects[k].call.url in {SdxlUrl, OpenJourneyUrl}
  }

  /**
   * Without a template, pix2pix, ControlNet and the photoreal model are
   * never asked: the only requests go to SDXL and Openjourney, in that order.
   */
  lemma MissingTemplateSkipsToText(host: Host, appDir: string, req: ImageController.ImageRequest)
    requires Truthy(req.prompt)
    requires ReadFile(host.files, LegacyTemplatePath(appDir, req.skinTone)).Failure?
    ensures var r := GenerateImageRoute(host, appDir, req);
            && TextProvidersOnly(r.effects)
            && r.effects[1] == Fetch(SdxlCall(host, req.prompt.s))
            && (|r.effects| > 2 ==> r.effects[2] == Fetch(OpenJourneyCall(host, req.prompt.s)))
  {
    var r := GenerateImageRoute(host, appDir, req);
    var t := TextToImageFallback(host, req.prompt.s);
    assert r.effects == [Read(LegacyTemplatePath(appDir, req.skinTone))] + t.effects;
    forall k | 0 <= k < |r.effects| && r.effects[k].Fetch?
      ensures r.effects[k].call.url in {SdxlUrl, OpenJourneyUrl}
    {
      assert r.effects[k] == t.effects[k - 1];
    }
    if |r.effects| > 2 {
      assert r.effects[2] == t.effects[1..][0];
    }
  }

  /**
   * Unlike pix2pix, a later provider that throws passes the request on: a
   * thrown ControlNet call leads to the photoreal model's handler.
   */
  lemma LaterThrowAdvances(host: Host, templateImage: string, prompt: string, skinToneHex: JsValue)
    requires host.net.binary(ControlNetCall(host, templateImage, prompt)).Threw?
    ensures TryControlNet(host, templateImage, prompt, skinToneHex) ==
            After([Fetch(ControlNetCall(host, templateImage, prompt))], TryDreamlikePhotoreal(host, prompt, skinToneHex))
  {
  }
}
