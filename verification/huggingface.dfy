/**
 * The Hugging Face adapters and the service's own three-step cascade:
 * image-to-image through the inference gateway, then text-to-image through
 * the gateway, then text-to-image straight from the model hub.
 */
module HuggingFace {
  import opened Options
  import opened JsStrings
  import opened Platform
  import Cascade

  // Long texts are written as concatenations of short literals, which the
  // verifier handles far more cheaply than one long literal.
  const RouterImages := "https://router.huggingface.co" + "/hf-inference/v3/openai/images/"
  const TextToImageUrl := RouterImages + "generations"
  const ImageToImageUrl := RouterImages + "edits"
  const DirectHubUrl := "https://api-inference.huggingface.co/models/" + SdxlModel

  const SdxlModel := "stabilityai/stable-diffusion-xl-base-1.0"
  const EditModel := "runwayml/stable-diffusion-v1-5"
  const ImageSize := "1024x1024"
  const GatewayProvider := "hf-inference"

  /** The instruction put in front of the caller's prompt for image editing. */
  const EditInstruction := "Create beautiful nail art " + "only on the white nail area. "

  const TextToImageLabel := "HF Inference Provider Error"
  const ImageToImageLabel := "HF Inference I2I Error"
  const DirectHubLabel := "Direct Hub API Error"

  /** Node's message for `Buffer.from(undefined, 'base64')`, thrown when a data URL has no comma. */
  const BufferFromUndefined :=
    "The first argument must be of type string " + "or an instance of Buffer, ArrayBuffer, " +
    "or Array or an Array-like Object. " + "Received undefined"

  const EnhancedOpening := "A close-up photo of a beautiful " + "manicured nail with skin tone color "
  const EnhancedHexToPrompt := ", with nail art. "
  const EnhancedClosing := ". Professional nail art, " + "beauty photography, macro photography."

  /** The prompt sent for text-to-image: the hex colour and the caller's prompt inside fixed wording. */
  function EnhancedPrompt(prompt: string, skinToneHex: JsValue): (p: string)
    ensures Contains(p, prompt) && Contains(p, Interpolate(skinToneHex))
  {
    CarriesTwo(EnhancedOpening, Interpolate(skinToneHex), EnhancedHexToPrompt, prompt, EnhancedClosing);
    EnhancedOpening + Interpolate(skinToneHex) + EnhancedHexToPrompt + prompt + EnhancedClosing
  }

  function TextToImageCall(keys: Keys, prompt: string, skinToneHex: JsValue): Call {
    Call(TextToImageUrl, Bearer(keys.hfApiTokenInference),
         ImagesGenerations(EnhancedPrompt(prompt, skinToneHex), SdxlModel, 1, ImageSize, GatewayProvider))
  }

  function ImageToImageCall(keys: Keys, templateImage: string, prompt: string): Call {
    Call(ImageToImageUrl, Bearer(keys.hfApiTokenInference),
         ImagesEdits(templateImage, EditInstruction + prompt, EditModel, 1, ImageSize, GatewayProvider))
  }

  function DirectHubCall(keys: Keys, prompt: string): Call {
    Call(DirectHubUrl, Bearer(keys.hfApiToken), TextInputs(prompt, true, Some(true)))
  }

  /**
   * Reading a gateway reply: a status outside 2xx throws `source: statusText`,
   * a thrown error passes through, and an ok reply yields the bytes decoded
   * from the payload of its data URL (no payload: Buffer.from throws).
   */
  function GatewayResult(codec: Codec, reply: Reply<string>, source: string): (r: Result<Bytes, Error>)
    ensures r.Success? <==> reply.Ok? && DataUrlPayload(reply.body).Some?
    ensures r.Success? ==> r.value == codec.fromBase64(DataUrlPayload(reply.body).value)
    ensures reply.NonOk? ==> r == Failure(Error(source + ": " + reply.statusText))
    ensures reply.Threw? ==> r == Failure(Error(reply.message))
  {
    match reply
    case Ok(url) =>
      (match DataUrlPayload(url)
       case Some(payload) => Success(codec.fromBase64(payload))
       case None => Failure(Error(BufferFromUndefined)))
    case NonOk(_, statusText, _) => Failure(Error(source + ": " + statusText))
    case Threw(message) => Failure(Error(message))
  }

  /** Reading a binary reply: the body itself on success, otherwise as for the gateway. */
  function BinaryResult(reply: Reply<Bytes>, source: string): (r: Result<Bytes, Error>)
    ensures r.Success? <==> reply.Ok?
    ensures reply.Ok? ==> r.value == reply.body
    ensures reply.NonOk? ==> r == Failure(Error(source + ": " + reply.statusText))
    ensures reply.Threw? ==> r == Failure(Error(reply.message))
  {
    match reply
    case Ok(bytes) => Success(bytes)
    case NonOk(_, statusText, _) => Failure(Error(source + ": " + statusText))
    case Threw(message) => Failure(Error(message))
  }

  /** `generateWithTextToImage`: exactly one request, never retried. */
  function GenerateWithTextToImage(host: Host, prompt: string, skinToneHex: JsValue): (r: Run<Result<Bytes, Error>>)
    ensures r.effects == [Fetch(TextToImageCall(host.keys, prompt, skinToneHex))]
    ensures r.effects[0].call.payload.prompt == EnhancedPrompt(prompt, skinToneHex)
    ensures r.result.Success? <==> host.net.json(r.effects[0].call).Ok? &&
                                   DataUrlPayload(host.net.json(r.effects[0].call).body).Some?
  {
    var call := TextToImageCall(host.keys, prompt, skinToneHex);
    Run([Fetch(call)], GatewayResult(host.codec, host.net.json(call), TextToImageLabel))
  }

  /** `generateWithImageToImage`: exactly one request carrying the template and the instructed prompt. */
  function GenerateWithImageToImage(host: Host, templateImage: string, prompt: string): (r: Run<Result<Bytes, Error>>)
    ensures r.effects == [Fetch(ImageToImageCall(host.keys, templateImage, prompt))]
    ensures r.effects[0].call.payload.image == templateImage
    ensures r.effects[0].call.payload.prompt == EditInstruction + prompt
    ensures r.result.Success? <==> host.net.json(r.effects[0].call).Ok? &&
                                   DataUrlPayload(host.net.json(r.effects[0].call).body).Some?
  {
    var call := ImageToImageCall(host.keys, templateImage, prompt);
    Run([Fetch(call)], GatewayResult(host.codec, host.net.json(call), ImageToImageLabel))
  }

  /** `generateWithDirectHubAPI`: exactly one request; the reply body is the image. */
  function GenerateWithDirectHubAPI(host: Host, prompt: string): (r: Run<Result<Bytes, Error>>)
    ensures r.effects == [Fetch(DirectHubCall(host.keys, prompt))]
    ensures r.effects[0].call.payload.inputs == prompt
    ensures r.result.Success? <==> host.net.binary(r.effects[0].call).Ok?
  {
    var call := DirectHubCall(host.keys, prompt);
    Run([Fetch(call)], BinaryResult(host.net.binary(call), DirectHubLabel))
  }

  /** An adapter's outcome with its bytes base64-encoded, as `generateImage` returns them. */
  function Encoded(codec: Codec, r: Run<Result<Bytes, Error>>): Run<Result<string, Error>> {
    Run(r.effects, match r.result
                   case Success(bytes) => Success(codec.base64(bytes))
                   case Failure(e) => Failure(e))
  }

  /**
   * `generateImage`: image-to-image first; text-to-image only after it
   * failed; the hub only after both failed, with the same enhanced prompt as
   * text-to-image; the hub's error is rethrown when all three fail.
   */
  function GenerateImage(host: Host, templateImage: string, prompt: string, skinToneHex: JsValue): (r: Run<Result<string, Error>>)
    ensures 1 <= |r.effects| <= 3
    ensures r.effects[0] == Fetch(ImageToImageCall(host.keys, templateImage, prompt))
    ensures GenerateWithImageToImage(host, templateImage, prompt).result.Success? ==>
              |r.effects| == 1 &&
              r.result == Success(host.codec.base64(GenerateWithImageToImage(host, templateImage, prompt).result.value))
    ensures |r.effects| >= 2 ==>
              GenerateWithImageToImage(host, templateImage, prompt).result.Failure? &&
              r.effects[1] == Fetch(TextToImageCall(host.keys, prompt, skinToneHex))
    ensures |r.effects| == 3 ==>
              GenerateWithTextToImage(host, prompt, skinToneHex).result.Failure? &&
              r.effects[2] == Fetch(DirectHubCall(host.keys, EnhancedPrompt(prompt, skinToneHex)))
    ensures r.result.Failure? ==>
              var hub := GenerateWithDirectHubAPI(host, EnhancedPrompt(prompt, skinToneHex)).result;
              |r.effects| == 3 && hub.Failure? && r.result.error == hub.error
  {
    var i2i := GenerateWithImageToImage(host, templateImage, prompt);
    match i2i.result
    case Success(buffer) => Run(i2i.effects, Success(host.codec.base64(buffer)))
    case Failure(_) =>
      var t2i := GenerateWithTextToImage(host, prompt, skinToneHex);
      After(i2i.effects,
            match t2i.result
            case Success(buffer) => Run(t2i.effects, Success(host.codec.base64(buffer)))
            case Failure(_) =>
              var enhancedPrompt := EnhancedPrompt(prompt, skinToneHex);
              var hub := GenerateWithDirectHubAPI(host, enhancedPrompt);
              After(t2i.effects,
                    match hub.result
                    case Success(buffer) => Run(hub.effects, Success(host.codec.base64(buffer)))
                    case Failure(directError) => Run(hub.effects, Failure(directError))))
  }

  /** The three rungs of `generateImage`, in order. */
  function Rungs(host: Host, templateImage: string, prompt: string, skinToneHex: JsValue): seq<Cascade.Attempt<string, Error>> {
    [Encoded(host.codec, GenerateWithImageToImage(host, templateImage, prompt)),
     Encoded(host.codec, GenerateWithTextToImage(host, prompt, skinToneHex)),
     Encoded(host.codec, GenerateWithDirectHubAPI(host, EnhancedPrompt(prompt, skinToneHex)))]
  }

  /** The nested try/catch of `generateImage` is the generic first-success ladder over its three rungs. */
  lemma GenerateImageIsCascade(host: Host, templateImage: string, prompt: string, skinToneHex: JsValue)
    ensures GenerateImage(host, templateImage, prompt, skinToneHex) ==
            Cascade.FirstSuccess(Rungs(host, templateImage, prompt, skinToneHex))
  {
    var rungs := Rungs(host, templateImage, prompt, skinToneHex);
    var i2i, t2i, hub := rungs[0], rungs[1], rungs[2];
    assert rungs[1..] == [t2i, hub];
    assert [t2i, hub][1..] == [hub];
    if i2i.result.Failure? {
      assert Cascade.FirstSuccess(rungs) == After(i2i.effects, Cascade.FirstSuccess([t2i, hub]));
      if t2i.result.Failure? {
        assert Cascade.FirstSuccess([t2i, hub]) == After(t2i.effects, hub);
      }
    }
  }

}
