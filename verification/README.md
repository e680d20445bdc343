# Nail design AI: the image-generation fallback ladders

This project models the part of the nail-design service that decides where
an image comes from. It covers two implementations.

- The modular service:
  - the controller validates the request and resolves a template image for
    the client's skin tone;
  - with a template, it runs the Hugging Face cascade: image-to-image through
    the inference gateway, then text-to-image through the gateway, then SDXL
    straight from the model hub;
  - without a template, it makes a single text-to-image attempt;
  - when a remote attempt fails, it answers with a local mock image and a
    warning. The mock searches three local files in order, and falls back to a
    fixed SVG.
- The legacy single-file server:
  - its own design endpoint;
  - its own five-provider ladder: pix2pix, ControlNet, Dreamlike photoreal,
    SDXL, Openjourney;
  - the keyword slice cut from the prompt.

The outside world is explicit and passed in as a `Host` value:
- the files, as a map from path to readable bytes or a read error;
- the backends, as functions from a request to one of three outcomes (ok
  with a body, a non-ok status, or a thrown error);
- base64 and UTF-8 conversion, as uninterpreted functions;
- the API keys and the working directory.

Every handler returns a `Run`: the ordered list of its effects (`fetch`,
`existsSync`, file read) and its result. "Later providers are not called" is
therefore a statement about that list.

The Hugging Face cascade is proved to be an instance of one generic
definition, `Cascade.FirstSuccess`: the rungs are tried in order, the first
success wins, and on exhaustion the last failure remains. The legacy ladder
is an instance of the same definition with one exception: a pix2pix call
that throws answers 500 at once instead of passing on to ControlNet
(`Legacy.Pix2PixStep`). `Legacy.Pix2PixIsCascade` and `Legacy.RouteIsCascade`
therefore assume a pix2pix call that answers.

The direct hub call receives the prompt text-to-image sent. The service
spells that wording twice, in identical literals, and the model builds both
from the one function `HuggingFace.EnhancedPrompt`.

The mock service's candidate search is an imperative loop,
`MockImage.SearchCandidates`, proved against the search function
`MockImage.SearchFrom`.

Behaviour kept as the code has it:
- The controller's no-template branch puts the Buffer returned by
  text-to-image straight into the data URL. This is its UTF-8 text, not base64
  (`ImageController.TextAttempt`).
- The mock service defaults the tone only when it is `undefined`:
  - an empty tone makes it look for `nail-template-.png`, where the controller
    uses the medium template (`MockImage.EmptyToneCandidateDiffers`);
  - a `null` tone makes the mock throw. Inside the template branch that throw
    is caught by the template branch's own handler, which then tries
    text-to-image on the tone-and-colour prompt
    (`ImageController.NullToneRetriesText`). The controller answers 500 only
    when that request fails too and the mock throws a second time.
- The legacy design prompt reads "easywith" where the modular one reads
  "easy with" (`Legacy.DesignRouteAgreesWithModel`).
- The legacy photoreal rung cuts its keywords from the prompt at the marker
  "key elements to include". On a prompt from the legacy design endpoint this
  gives " in the nail design are: " followed by the joined keywords, not the
  keywords alone (`Legacy.DesignPromptKeywordSlice`).
- In the legacy route, Openjourney's own non-ok status is passed to the
  client. A request with a prompt can therefore still receive a 4xx, but
  never the `{error}`-only body of the missing-prompt case.

## Model

| member | source | states |
|---|---|---|
| JsStrings.SplitPiecesFree | services/huggingfaceService.js:48 | no piece of a `split` with a string separator contains the separator |
| JsStrings.JoinSplit | services/huggingfaceService.js:48 | joining the pieces of a split with the same separator gives the original text back |
| JsStrings.FirstPiece | index.js:156 | the first piece of a split is the prefix before the first separator; the separator follows it unless it is the whole text |
| JsStrings.ReplaceFirst | models/imageGeneration.js:16 | `replace` with a string pattern leaves a text without the pattern unchanged, and keeps its length when pattern and replacement have equal length |
| Platform.ReadFile | models/imageGeneration.js:29 | a read succeeds exactly on a readable file and returns its bytes; a missing file fails with ENOENT naming the path |
| Platform.DataUrlRoundTrip | services/huggingfaceService.js:48 | `split(',')[1]` of `data:image/png;base64,XYZ` is exactly `XYZ` for any comma-free payload |
| Cascade.FirstWinner | services/huggingfaceService.js:128-155 | locates the first successful rung: every earlier rung failed; none means all failed |
| Cascade.FirstSuccessWins | services/huggingfaceService.js:128-140 | the first successful rung's value is the ladder's result, and only the rungs up to it have any effect |
| Cascade.FirstSuccessExhausted | services/huggingfaceService.js:150-153 | when every rung fails, all were attempted in order and the last failure is the result |
| Cascade.FirstSuccessSucceedsIff | services/huggingfaceService.js:128-155 | the ladder succeeds exactly when some rung does |
| ImageGeneration.TemplateFileName | models/imageGeneration.js:15-17 | a falsy tone gives `nail-template-medium.png`; every name starts `nail-template-` and ends `.png` |
| ImageGeneration.TemplateFileNamePlain | models/imageGeneration.js:16 | a non-empty tone without spaces appears verbatim (`deep` gives `nail-template-deep.png`) |
| ImageGeneration.TemplateFileNameFirstSpaceOnly | models/imageGeneration.js:16 | only the first space of the tone becomes `-`; later spaces stay |
| ImageGeneration.GetTemplatePath | models/imageGeneration.js:19 | the path is the working directory, `public/templates/files` and the template file name, joined with `/` |
| ImageGeneration.LoadTemplateImage | models/imageGeneration.js:27-34 | one read; success exactly for a readable file, as `data:image/png;base64,` plus its base64; a failure's message starts `Failed to load template image: ` |
| ImageGeneration.LoadedTemplatePayload | models/imageGeneration.js:30 | the gateway's payload extraction recovers the template's base64 from the data URL |
| NailDesign.GenerateDesign | models/nailDesign.js:13-30 | rejects with 'Invalid input parameters' exactly when tone or colour is falsy or keywords is not a 3-element array; otherwise prompt and description both carry tone, colour and the keywords joined with ", ", and the description opens with "A refined nail design for " |
| NailDesign.DesignPromptCarries | models/nailDesign.js:18-22 | the prompt contains the tone, the hex colour and the joined keywords |
| NailDesign.DesignDescriptionCarries | models/nailDesign.js:24 | the description opens with its fixed phrase and contains tone, colour and joined keywords |
| HuggingFace.EnhancedPrompt | services/huggingfaceService.js:22 | the enhanced prompt contains the caller's prompt and the colour as it interpolates; line 147 spells the same wording for the hub call |
| HuggingFace.GatewayResult | services/huggingfaceService.js:40-49 | a non-ok reply throws `<label>: statusText`; an ok reply yields the bytes decoded from the data URL's payload, and throws when there is none |
| HuggingFace.BinaryResult | services/huggingfaceService.js:112-118 | a non-ok reply throws `Direct Hub API Error: statusText`; an ok reply's body is the image |
| HuggingFace.GenerateWithTextToImage | services/huggingfaceService.js:19-50 | exactly one request, not retried, carrying the enhanced prompt; success exactly when the reply is ok and its URL has a payload |
| HuggingFace.GenerateWithImageToImage | services/huggingfaceService.js:58-87 | exactly one request carrying the template and "Create beautiful nail art only on the white nail area. " followed by the prompt |
| HuggingFace.GenerateWithDirectHubAPI | services/huggingfaceService.js:94-119 | exactly one request with the given prompt as input; success exactly on an ok reply |
| HuggingFace.GenerateImage | services/huggingfaceService.js:128-156 | image-to-image first; its success ends the cascade with its base64; text-to-image only after it failed; the hub only after both failed, on the enhanced prompt; a failure is the hub's error |
| HuggingFace.GenerateImageIsCascade | services/huggingfaceService.js:128-156 | the nested try/catch equals the first-success ladder over its three rungs |
| MockImage.PlaceholderSaysUnavailable | services/mockImageService.js:46-65 | the fixed SVG contains "API Unavailable" |
| MockImage.TemplateCandidateName | services/mockImageService.js:13-19 | the name computation throws exactly for a `null` tone; `undefined` is defaulted to `nail-template-medium.png` |
| MockImage.EmptyToneName | services/mockImageService.js:19 | an empty tone gives `nail-template-.png` |
| MockImage.CreateGradientNailImage | services/mockImageService.js:46-65 | the placeholder is the base64 of the UTF-8 bytes of an SVG that contains "API Unavailable" |
| MockImage.CandidatePaths | services/mockImageService.js:17-21 | fails exactly for a `null` tone; otherwise three candidates in order: `<cwd>/public/sample-nail.png`, `<cwd>/public/templates/files/` followed by the tone's template name, and `<cwd>/public/assets/sample-nail.png` |
| MockImage.SearchFrom | services/mockImageService.js:24-35 | a found image is the bytes of some candidate that exists and reads; finding nothing means no remaining candidate exists and reads |
| MockImage.SearchFindsFirstYielding | services/mockImageService.js:24-35 | the first candidate that exists and reads is the result; candidates after it are not examined |
| MockImage.SearchExhausted | services/mockImageService.js:24-35 | when no candidate reads, every candidate is examined in order and nothing is found; read errors are swallowed |
| MockImage.SearchFetchesNothing | services/mockImageService.js:24-35 | the search makes no request |
| MockImage.SearchCandidates | services/mockImageService.js:24-35 | the loop with its early return and swallowed errors performs exactly the effects and finds exactly the bytes of the search function |
| MockImage.MockImage | services/mockImageService.js:13-40 | fails exactly for a `null` tone, before any file is touched |
| MockImage.GenerateMockImage | services/mockImageService.js:13-40 | the service's effects and result are those of the specification `MockImage` |
| MockImage.MockFirstReadableWins | services/mockImageService.js:24-29 | the mock image is the base64 of the first readable candidate, and later ones are not examined |
| MockImage.MockFallsBackToPlaceholder | services/mockImageService.js:37-39 | with no readable candidate, all three are examined and the result is the fixed SVG's base64 |
| MockImage.MockFetchesNothing | services/mockImageService.js:13-40 | the mock service never calls a backend |
| MockImage.TemplateCandidateMatchesTemplatePath | services/mockImageService.js:19 | for a missing or non-empty tone, the second candidate is the controller's template path |
| MockImage.EmptyToneCandidateDiffers | services/mockImageService.js:19 | for an empty tone, the second candidate differs from the controller's template path |
| ImageController.MockAnswer | controllers/imageController.js:45-49 | the mock's effects; for any tone but `null` a 200 with the mock's image as a data URL and the fixed warning; for `null` the mock's throw, with no effects |
| ImageController.TemplateAttempt | controllers/imageController.js:29-51 | the template is read first; a failed read, or a failed cascade followed by the mock's throw for a `null` tone, reaches the template-error handler; a successful cascade answers its base64 as a data URL after its requests; a failed one is followed by the mock |
| ImageController.TextAttempt | controllers/imageController.js:55-72 | one text-to-image request on the tone-and-colour prompt; its Buffer, as text, is the image; after a failure the mock answers with the warning, or throws for a `null` tone |
| ImageController.GenerateImage | controllers/imageController.js:14-78 | 400 'Prompt is required' exactly without a prompt, with no effects; a plain image exactly when the cascade succeeds, or when the text-to-image request reached after a missing template or a `null` tone succeeds; the mock image with the fixed warning exactly when the tone is not `null`, the cascade failed, and no text-to-image request succeeded; 500 'Image generation failed' with the mock's message exactly for a `null` tone when both remote paths failed |
| ImageController.WarnedAfterFailures | controllers/imageController.js:40-49 | for a tone that is not `null`, a failed cascade is followed by the mock and answered with its image and the warning; without a template the mock follows the failed text-to-image request instead |
| ImageController.NullToneRetriesText | controllers/imageController.js:45-76 | for a `null` tone with a template and a failed cascade, the text-to-image request follows; its success is answered as a plain image; its failure gives 500 with the mock's `null` message |
| ImageController.TemplateBranchIsCascade | controllers/imageController.js:31-39 | with a template, the answer is the cascade's first success as a data URL, with only the rungs up to it requested |
| ImageController.NoTemplateSingleRequest | controllers/imageController.js:52-61 | without a template, exactly one request is made, text-to-image on the tone-and-colour prompt; when it succeeds the answer is a 200 whose data URL holds the returned Buffer as UTF-8 text |
| ImageController.TextPrompt | controllers/imageController.js:57 | the fallback prompt contains the tone and the colour as they interpolate |
| Legacy.GenerateNailDesignRoute | index.js:23-39 | 400 'Invalid data' exactly on invalid input; otherwise a 200 with the prompt and the description |
| Legacy.DesignRouteAgreesWithModel | index.js:26-36 | rejects exactly when the design model throws; identical description; the prompts differ in the guidance line only, the legacy one a character shorter |
| Legacy.KeywordSliceIffMarker | index.js:156 | the keyword slice exists exactly when the prompt contains "key elements to include" |
| Legacy.UpToDot | index.js:156 | cutting the first piece at its first '.' yields the text before that '.' |
| Legacy.KeywordSlice | index.js:156 | a keyword slice never contains '.' |
| Legacy.KeywordSliceShape | index.js:156 | when no second marker comes before the next '.', the slice is the text after the first marker up to that '.' |
| Legacy.DesignPromptKeywordSlice | index.js:156 | on the prompt built by the legacy design endpoint (index.js:30-34), the slice is " in the nail design are: " followed by the keywords joined with ", ", when neither tone nor colour nor any keyword holds the marker and no keyword holds a '.' |
| Legacy.DreamlikePrompt | index.js:156 | the photoreal prompt contains the keyword slice and the colour as it interpolates |
| Legacy.LegacyTemplatePath | index.js:53-57 | the legacy template path is the server's directory, `public/templates/files` and the template file name, joined with `/`; it is the modular service's template path rooted at that directory |
| Legacy.OpenJourneyFallback | index.js:222-253 | one request; a non-ok reply answers with the provider's status and 'Image generation failed: statusText'; a thrown one with 500 |
| Legacy.TextToImageFallback | index.js:188-219 | SDXL first, then Openjourney after any failure; only those two are requested; the answer is a plain image or an error |
| Legacy.TryDreamlikePhotoreal | index.js:152-185 | without the marker no photoreal request is made and SDXL's handler answers |
| Legacy.TryControlNet | index.js:116-149 | the answer is a plain image or an error with details |
| Legacy.Pix2PixStep | index.js:73-112 | pix2pix is requested first; a thrown error answers 500 at once with only that request made |
| Legacy.GenerateImageRoute | index.js:42-113 | the `{error}`-only 400 exactly without a prompt, with no effects; otherwise the template is read first; a failed read goes straight to SDXL's handler; a successful one to pix2pix on its data URL; no answer carries a warning |
| Legacy.TextToImageIsCascade | index.js:188-253 | SDXL then Openjourney is the first-success ladder over those two rungs |
| Legacy.DreamlikeIsCascade | index.js:152-185 | from the photoreal model on, the handlers are the ladder photoreal, SDXL, Openjourney |
| Legacy.ControlNetIsCascade | index.js:116-149 | from ControlNet on, the handlers are the ladder ControlNet, photoreal, SDXL, Openjourney |
| Legacy.Pix2PixIsCascade | index.js:92-97 | when pix2pix answers, ok or not, its step is the five-rung ladder in the order pix2pix, ControlNet, photoreal, SDXL, Openjourney |
| Legacy.RouteIsCascade | index.js:62-97 | the route is the five-rung ladder with a template and an answering pix2pix, and the two text rungs without a template |
| Legacy.MissingTemplateSkipsToText | index.js:67-71 | without a template, pix2pix, ControlNet and photoreal are never requested; SDXL comes first, then Openjourney |
| Legacy.LaterThrowAdvances | index.js:145-148 | a thrown ControlNet call passes on to the photoreal handler instead of answering 500 |

## Left out

- HTTP itself (Express routing, CORS, static files, the server start) is not modelled. The handlers return a `Response` value instead of writing to `res`.
- JSON and body decoding are not modelled. A failure of `response.json()`, `text()` or `arrayBuffer()` counts as a thrown fetch. A gateway body without `data[0]` is not distinguished from one whose URL has no payload.
- Request fields are modelled as strings, `null` or missing. Numbers, arrays or objects where strings are expected are not modelled.
- Base64 and UTF-8 conversion are uninterpreted functions, so nothing is proved about their round trip. The claim that the placeholder is decodable base64 is outside the model.
- File existence and reads come from one map, so a file cannot change between `existsSync` and `readFile`.
- `path.join` is modelled as joining with "/". There is no normalisation of `..`, repeated or trailing separators.
- The working directory, the legacy server's own directory and the API keys are parameters. The template folder is a constant, `ImageGeneration.TemplatesBasePath`, and the legacy server's template paths are literals in `Legacy.LegacyTemplatePath`. Configuration loading (config/config.js, dotenv) is not part of this model.
- Logging is not modelled.
- The non-ok branch's `response.text()` value is modelled as part of the reply.
- Backends are functions of the request, so an identical request always gets the same reply. The source makes separate requests that could be answered differently. For example, take a `null` tone, a template, a failed cascade, and a prompt equal to `TextPrompt(Null, hex)`. The controller's second text-to-image request is then identical to the cascade's, so the model always answers 500 in that case.
- controllers/nailDesignController.js, routes, server.js, public/app.js and public/sw.js are not part of this model.
- Legacy.DesignPromptKeywordSlice: the slice of a design prompt is not characterised when the tone, the colour or a keyword holds the marker, or a keyword holds a '.'. In those cases the marker is found earlier or the slice is cut shorter. `Legacy.KeywordSliceShape` covers any prompt in which a '.' follows the first marker with no second marker before it.
