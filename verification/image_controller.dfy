/**
 * The image endpoint of the modular service: validation, the template
 * branch, the remote attempts, and the mock image with its warning.
 */
module ImageController {
  import opened Options
  import opened JsStrings
  import opened Platform
  import ImageGeneration
  import HuggingFace
  import MockImage
  import Cascade

  const MockWarning := "API services unavailable. " + "Using mock image for development."

  /** The request body fields the endpoint reads. */
  datatype ImageRequest = ImageRequest(prompt: JsValue, skinTone: JsValue, skinToneHex: JsValue)

  const TextPromptOpening := "A close-up photo of a beautiful " + "manicured nail with "
  const TextPromptToneToHex := " skin tone ("
  const TextPromptClosing := "). Professional nail art, beauty photography."

  /** The prompt used when no template could be loaded; missing fields read as `undefined`. */
  function TextPrompt(skinTone: JsValue, skinToneHex: JsValue): (p: string)
    ensures Contains(p, Interpolate(skinTone)) && Contains(p, Interpolate(skinToneHex))
  {
    CarriesTwo(TextPromptOpening, Interpolate(skinTone), TextPromptToneToHex, Interpolate(skinToneHex), TextPromptClosing);
    TextPromptOpening + Interpolate(skinTone) + TextPromptToneToHex + Interpolate(skinToneHex) + TextPromptClosing
  }

  /** Where the template for the request's tone is looked for. */
  function TemplatePath(host: Host, req: ImageRequest): string {
    ImageGeneration.GetTemplatePath(host.cwd, req.skinTone)
  }

  /** The template for the request's tone exists and reads. */
  predicate TemplateLoads(host: Host, req: ImageRequest) {
    MockImage.Yields(host.files, TemplatePath(host, req))
  }

  /** The service cascade on the loaded template. */
  function Ladder(host: Host, req: ImageRequest): Run<Result<string, Error>>
    requires Truthy(req.prompt) && TemplateLoads(host, req)
  {
    var template := ImageGeneration.LoadTemplateImage(host, TemplatePath(host, req)).result.value;
    HuggingFace.GenerateImage(host, template, req.prompt.s, req.skinToneHex)
  }

  /** The single text-to-image request of the `catch (templateError)` branch. */
  function TextRequest(host: Host, req: ImageRequest): Run<Result<Bytes, Error>> {
    HuggingFace.GenerateWithTextToImage(host, TextPrompt(req.skinTone, req.skinToneHex), req.skinToneHex)
  }

  /** The template loads and the cascade on it succeeds. */
  predicate LadderSucceeds(host: Host, req: ImageRequest)
    requires Truthy(req.prompt)
  {
    TemplateLoads(host, req) && Ladder(host, req).result.Success?
  }

  predicate TextSucceeds(host: Host, req: ImageRequest) {
    TextRequest(host, req).result.Success?
  }

  /** The mock image answered with the warning. */
  function Warned(host: Host, skinTone: JsValue): Response
    requires skinTone != Null
  {
    Response(200, ImageWithWarning(DataUrl(MockImage.MockImage(host, skinTone).result.value), MockWarning))
  }

  /**
   * `generateMockImage` as both handlers call it: its image answered with
   * the warning; what it throws propagates to the enclosing `catch`.
   */
  function MockAnswer(host: Host, skinTone: JsValue): (r: Run<Result<Response, Error>>)
    ensures r.effects == MockImage.MockImage(host, skinTone).effects
    ensures r.result.Success? <==> skinTone != Null
    ensures r.result.Success? ==> r.result.value == Warned(host, skinTone)
    ensures r.result.Failure? ==> r.effects == [] && r.result.error == Error(MockImage.NullReplace)
  {
    var mock := MockImage.MockImage(host, skinTone);
    Run(mock.effects, match mock.result
                      case Success(image) => Success(Response(200, ImageWithWarning(DataUrl(image), MockWarning)))
                      case Failure(e) => Failure(e))
  }

  /**
   * The template branch, the `try` that `catch (templateError)` guards: the
   * template read, the cascade on it, and the mock after a failed cascade.
   * A failure is what reaches that `catch`: the read error, or the mock's
   * throw for a `null` tone.
   */
  function TemplateAttempt(host: Host, req: ImageRequest): (r: Run<Result<Response, Error>>)
    requires Truthy(req.prompt)
    ensures r.result.Failure? <==> !TemplateLoads(host, req) || (!LadderSucceeds(host, req) && req.skinTone == Null)
    ensures !TemplateLoads(host, req) ==> r.effects == [Read(TemplatePath(host, req))]
    ensures LadderSucceeds(host, req) ==>
              r == Run([Read(TemplatePath(host, req))] + Ladder(host, req).effects,
                       Success(Response(200, Image(DataUrl(Ladder(host, req).result.value)))))
    ensures TemplateLoads(host, req) && !LadderSucceeds(host, req) ==>
              r.effects == [Read(TemplatePath(host, req))] + (Ladder(host, req).effects + MockImage.MockImage(host, req.skinTone).effects) &&
              (req.skinTone != Null ==> r.result == Success(Warned(host, req.skinTone)))
  {
    var load := ImageGeneration.LoadTemplateImage(host, TemplatePath(host, req));
    if !TemplateLoads(host, req) then Run(load.effects, Failure(load.result.error))
    else
      var ladder := Ladder(host, req);
      After(load.effects,
            match ladder.result
            case Success(base64Image) => Run(ladder.effects, Success(Response(200, Image(DataUrl(base64Image)))))
            case Failure(_) => After(ladder.effects, MockAnswer(host, req.skinTone)))
  }

  /**
   * The `catch (templateError)` branch: one text-to-image request on the
   * tone-and-colour prompt, whose Buffer is interpolated as UTF-8 text, and
   * the mock after it failed. A failure is the mock's throw.
   */
  function TextAttempt(host: Host, req: ImageRequest): (r: Run<Result<Response, Error>>)
    ensures r.result.Failure? <==> !TextSucceeds(host, req) && req.skinTone == Null
    ensures TextSucceeds(host, req) ==>
              r == Run(TextRequest(host, req).effects,
                       Success(Response(200, Image(DataUrl(host.codec.utf8(TextRequest(host, req).result.value))))))
    ensures !TextSucceeds(host, req) ==>
              r.effects == TextRequest(host, req).effects + MockImage.MockImage(host, req.skinTone).effects &&
              (req.skinTone != Null ==> r.result == Success(Warned(host, req.skinTone))) &&
              (req.skinTone == Null ==> r.result == Failure(Error(MockImage.NullReplace)))
  {
    var t2i := TextRequest(host, req);
    match t2i.result
    case Success(buffer) => Run(t2i.effects, Success(Response(200, Image(DataUrl(host.codec.utf8(buffer))))))
    case Failure(_) => After(t2i.effects, MockAnswer(host, req.skinTone))
  }

  /**
   * `generateImage`: 400 without a prompt and before anything else; a plain
   * image when the cascade succeeds, or when the text-to-image request that
   * follows a missing template or a thrown mock succeeds; the mock image with
   * the warning for any other tone than `null`; 500 only when a `null` tone
   * made the mock throw in both branches.
   */
  function GenerateImage(host: Host, req: ImageRequest): (r: Run<Response>)
    ensures r.result.status == 400 <==> !Truthy(req.prompt)
    ensures r.result.status == 400 ==> r.effects == [] && r.result.body == ErrorOnly(PromptRequired)
    ensures r.result.status in {200, 400, 500}
    ensures r.result.body.Image? <==>
              Truthy(req.prompt) &&
              (LadderSucceeds(host, req) ||
               ((!TemplateLoads(host, req) || req.skinTone == Null) && TextSucceeds(host, req)))
    ensures r.result.body.ImageWithWarning? <==>
              Truthy(req.prompt) && req.skinTone != Null && !LadderSucceeds(host, req) &&
              (TemplateLoads(host, req) || !TextSucceeds(host, req))
    ensures r.result.body.ImageWithWarning? ==> r.result == Warned(host, req.skinTone)
    ensures r.result.status == 500 <==>
              Truthy(req.prompt) && req.skinTone == Null && !LadderSucceeds(host, req) && !TextSucceeds(host, req)
    ensures r.result.status == 500 ==>
              r.result.body == ErrorDetails(GenerationFailed, MockImage.MockImage(host, req.skinTone).result.error.message)
  {
    if !Truthy(req.prompt) then Run([], Response(400, ErrorOnly(PromptRequired)))
    else
      var first := TemplateAttempt(host, req);
      match first.result
      case Success(response) => Run(first.effects, response)
      case Failure(_) =>
        var second := TextAttempt(host, req);
        After(first.effects,
              match second.result
              case Success(response) => Run(second.effects, response)
              case Failure(error) => Run(second.effects, Response(500, ErrorDetails(GenerationFailed, error.message))))
  }

  /**
   * With a template, the response image is the cascade's first success on
   * the loaded template, and only the rungs up to it were requested.
   */
  lemma TemplateBranchIsCascade(host: Host, req: ImageRequest)
    requires Truthy(req.prompt) && TemplateLoads(host, req)
    ensures var path := TemplatePath(host, req);
            var template := ImageGeneration.LoadTemplateImage(host, path).result.value;
            var ladder := Cascade.FirstSuccess(HuggingFace.Rungs(host, template, req.prompt.s, req.skinToneHex));
            && Ladder(host, req) == ladder
            && (ladder.result.Success? ==>
                  GenerateImage(host, req) == Run([Read(path)] + ladder.effects, Response(200, Image(DataUrl(ladder.result.value)))))
  {
    var path := TemplatePath(host, req);
    var template := ImageGeneration.LoadTemplateImage(host, path).result.value;
    HuggingFace.GenerateImageIsCascade(host, template, req.prompt.s, req.skinToneHex);
  }

  /**
   * A failed cascade is followed by the mock, whose image is answered with
   * the warning, for any other tone than `null`; without a template the
   * mock follows the failed text-to-image request instead.
   */
  lemma WarnedAfterFailures(host: Host, req: ImageRequest)
    requires Truthy(req.prompt) && req.skinTone != Null && !LadderSucceeds(host, req)
    ensures var r := GenerateImage(host, req);
            var mock := MockImage.MockImage(host, req.skinTone).effects;
            var read := [Read(TemplatePath(host, req))];
            && (TemplateLoads(host, req) ==>
                  r == Run(read + (Ladder(host, req).effects + mock), Warned(host, req.skinTone)))
            && (!TemplateLoads(host, req) && !TextSucceeds(host, req) ==>
                  r == Run(read + (TextRequest(host, req).effects + mock), Warned(host, req.skinTone)))
  {
    if !TemplateLoads(host, req) && !TextSucceeds(host, req) {
      var second := TextAttempt(host, req);
      assert GenerateImage(host, req).effects == [Read(TemplatePath(host, req))] + second.effects;
    }
  }

  /**
   * For a `null` tone the mock throws inside the template branch, so a
   * failed cascade is followed by the text-to-image request; 500 comes only
   * when that request fails too and the second mock call throws again.
   */
  lemma NullToneRetriesText(host: Host, req: ImageRequest)
    requires Truthy(req.prompt) && req.skinTone == Null && TemplateLoads(host, req) && !LadderSucceeds(host, req)
    ensures var r := GenerateImage(host, req);
            var t2i := TextRequest(host, req);
            && r.effects == [Read(TemplatePath(host, req))] + Ladder(host, req).effects + t2i.effects
            && r.result == if t2i.result.Success?
                           then Response(200, Image(DataUrl(host.codec.utf8(t2i.result.value))))
                           else Response(500, ErrorDetails(GenerationFailed, MockImage.NullReplace))
  {
    var first := TemplateAttempt(host, req);
    var second := TextAttempt(host, req);
    assert MockImage.MockImage(host, req.skinTone).effects == [];
    assert Ladder(host, req).effects + [] == Ladder(host, req).effects;
    assert first.effects == [Read(TemplatePath(host, req))] + Ladder(host, req).effects;
    assert GenerateImage(host, req) == After(first.effects, Run(second.effects, GenerateImage(host, req).result));
  }

  /**
   * Without a template the service cascade is never entered: the only
   * request is one text-to-image call on the tone-and-colour prompt, the
   * mock making none.
   */
  lemma NoTemplateSingleRequest(host: Host, req: ImageRequest)
    requires Truthy(req.prompt) && !TemplateLoads(host, req)
    ensures var r := GenerateImage(host, req);
            && FetchCount(r.effects) == 1
            && |r.effects| >= 2
            && r.effects[1] == Fetch(HuggingFace.TextToImageCall(host.keys, TextPrompt(req.skinTone, req.skinToneHex), req.skinToneHex))
            && (TextSucceeds(host, req) ==>
                  r.result == Response(200, Image(DataUrl(host.codec.utf8(TextRequest(host, req).result.value)))))
  {
    var path := TemplatePath(host, req);
    var second := TextAttempt(host, req);
    TextAttemptFetchesOnce(host, req);
    assert TemplateAttempt(host, req).effects == [Read(path)];
    assert GenerateImage(host, req).effects == [Read(path)] + second.effects;
    FetchCountAppend([Read(path)], second.effects);
  }

  /** The text attempt sends one request, before anything else it does. */
  lemma TextAttemptFetchesOnce(host: Host, req: ImageRequest)
    ensures var e := TextAttempt(host, req).effects;
            && FetchCount(e) == 1
            && |e| >= 1
            && e[0] == Fetch(HuggingFace.TextToImageCall(host.keys, TextPrompt(req.skinTone, req.skinToneHex), req.skinToneHex))
  {
    var call := HuggingFace.TextToImageCall(host.keys, TextPrompt(req.skinTone, req.skinToneHex), req.skinToneHex);
    var second := TextAttempt(host, req);
    var mock := MockImage.MockImage(host, req.skinTone);
    MockImage.MockFetchesNothing(host, req.skinTone);
    if TextSucceeds(host, req) {
      assert second.effects == [Fetch(call)];
    } else {
      assert second.effects == [Fetch(call)] + mock.effects;
      FetchCountAppend([Fetch(call)], mock.effects);
    }
  }


}
