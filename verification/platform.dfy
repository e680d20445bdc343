/**
 * What the service sees of the world around it, as values: bytes and their
 * encodings, the file system, the network, the HTTP response it sends, and
 * the record of what it did (its effects), so that "not called" and "not
 * examined" are statements about that record.
 */
module Platform {
  import opened Options
  import opened JsStrings

  type Bytes = seq<bv8>

  /**
   * Node's Buffer conversions, taken as given functions: `toString('base64')`,
   * `Buffer.from(s, 'base64')`, `toString()` (UTF-8 decoding, which is also
   * what interpolating a Buffer into a template literal does) and
   * `Buffer.from(s)` (UTF-8 encoding).
   */
  datatype Codec = Codec(
    base64: Bytes -> string,
    fromBase64: string -> Bytes,
    utf8: Bytes -> string,
    utf8Bytes: string -> Bytes)

  /** A JavaScript `Error`: only its message is observable. */
  datatype Error = Error(message: string)

  datatype Result<+T, +E> = Success(value: T) | Failure(error: E)

  /** What a path holds: a file that reads, or something that exists but fails to read (a directory, say). */
  datatype FileEntry = Readable(bytes: Bytes) | Unreadable(reason: string)

  /** A path absent from the map does not exist. */
  type FileSystem = map<string, FileEntry>

  /** `fs.existsSync(path)`. */
  predicate ExistsSync(files: FileSystem, path: string) {
    path in files
  }

  /** `fs.promises.readFile(path)`, with Node's message for a missing file. */
  function ReadFile(files: FileSystem, path: string): (r: Result<Bytes, Error>)
    ensures r.Success? <==> path in files && files[path].Readable?
    ensures r.Success? ==> r.value == files[path].bytes
    ensures path !in files ==>
              r == Failure(Error("ENOENT: no such file or directory, open '" + path + "'"))
  {
    if path !in files then Failure(Error("ENOENT: no such file or directory, open '" + path + "'"))
    else match files[path]
      case Readable(b) => Success(b)
      case Unreadable(reason) => Failure(Error(reason))
  }

  /** `path.join(...)` on segments that need no normalisation. */
  function PathJoin(segments: seq<string>): string {
    Join(segments, "/")
  }

  /** Three segments joined with `/`. */
  lemma PathJoinThree(a: string, b: string, c: string)
    ensures PathJoin([a, b, c]) == a + "/" + b + "/" + c
  {
    assert [a, b, c][1..] == [b, c];
    assert [b, c][1..] == [c];
    assert Join([b, c], "/") == b + "/" + c;
  }

  /** Four segments joined with `/`. */
  lemma PathJoinFour(a: string, b: string, c: string, d: string)
    ensures PathJoin([a, b, c, d]) == a + "/" + b + "/" + c + "/" + d
  {
    assert [a, b, c, d][1..] == [b, c, d];
    PathJoinThree(b, c, d);
    assert Join([b, c, d], "/") == b + "/" + c + "/" + d;
  }

  /** Five segments joined with `/`. */
  lemma PathJoinFive(a: string, b: string, c: string, d: string, e: string)
    ensures PathJoin([a, b, c, d, e]) == a + "/" + b + "/" + c + "/" + d + "/" + e
  {
    assert [a, b, c, d, e][1..] == [b, c, d, e];
    PathJoinFour(b, c, d, e);
    assert Join([b, c, d, e], "/") == b + "/" + (c + "/" + d + "/" + e);
  }

  /** The body of an outgoing request, one shape per backend family. */
  datatype Payload =
    | ImagesGenerations(prompt: string, model: string, n: nat, size: string, provider: string)
    | ImagesEdits(image: string, prompt: string, model: string, n: nat, size: string, provider: string)
    | TextInputs(inputs: string, waitForModel: bool, useGpu: Option<bool>)
    | ImageInputs(image: string, prompt: string, imageGuidanceScale: Option<real>, guidanceScale: Option<real>)

  /** One `fetch` POST: endpoint, `Authorization` header and JSON body. */
  datatype Call = Call(url: string, authorization: string, payload: Payload)

  /**
   * What awaiting one `fetch` gives: a response with `ok` set and a body, a
   * response outside the 2xx range (its status, statusText and error text),
   * or a thrown error.
   */
  datatype Reply<+T> = Ok(body: T) | NonOk(status: int, statusText: string, errorText: string) | Threw(message: string)

  /**
   * The backends. `json` answers the gateway endpoints, whose body is a JSON
   * envelope: the value given is its `data[0].url`. `binary` answers the
   * endpoints whose body is the image itself.
   */
  datatype Net = Net(json: Call -> Reply<string>, binary: Call -> Reply<Bytes>)

  /** The process-wide configuration: API keys as read from the environment. */
  datatype Keys = Keys(hfApiToken: JsValue, hfApiTokenInference: JsValue)

  function Bearer(key: JsValue): string {
    "Bearer " + Interpolate(key)
  }

  /** Everything a request handler may consult. */
  datatype Host = Host(cwd: string, files: FileSystem, codec: Codec, net: Net, keys: Keys)

  datatype Effect = Fetch(call: Call) | Exists(path: string) | Read(path: string)

  /** A computation's effects, in order, and its result. */
  datatype Run<+T> = Run(effects: seq<Effect>, result: T)

  function After<T>(effects: seq<Effect>, r: Run<T>): (r': Run<T>)
    ensures r'.result == r.result && r'.effects == effects + r.effects
  {
    Run(effects + r.effects, r.result)
  }

  /** Number of `fetch` calls among the effects. */
  function FetchCount(effects: seq<Effect>): nat {
    if effects == [] then 0
    else (if effects[0].Fetch? then 1 else 0) + FetchCount(effects[1..])
  }

  lemma {:induction false} FetchCountAppend(a: seq<Effect>, b: seq<Effect>)
    ensures FetchCount(a + b) == FetchCount(a) + FetchCount(b)
  {
    if a != [] {
      assert (a + b)[1..] == a[1..] + b;
      FetchCountAppend(a[1..], b);
    } else {
      assert a + b == b;
    }
  }

  const DataUrlPrefix := "data:image/png;base64,"

  /** `data:image/png;base64,${payload}`. */
  function DataUrl(payload: string): string {
    DataUrlPrefix + payload
  }

  /** `url.split(',')[1]`: the text between the first and the second comma. */
  function DataUrlPayload(url: string): Option<string> {
    Piece(url, ",", 1)
  }

  /** The payload of a data URL built here is recovered whole, as long as it holds no comma. */
  lemma {:induction false} DataUrlRoundTrip(payload: string)
    requires ',' !in payload
    ensures DataUrlPayload(DataUrl(payload)) == Some(payload)
  {
    var head := "data:image/png;base64";
    assert ',' !in head;
    assert DataUrl(payload) == head + [','] + payload;
    IndexOfChar(head, ',', payload);
    IndexOfCharAbsent(payload, ',');
    assert DataUrl(payload)[|head| + 1..] == payload;
    assert Split(payload, ",") == [payload];
  }

  /** The error texts both image endpoints answer with. */
  const PromptRequired := "Prompt is required"
  const GenerationFailed := "Image generation failed"

  /** The JSON body a handler sends, one variant per shape the handlers use. */
  datatype Body =
    | Image(image: string)
    | ImageWithWarning(image: string, warning: string)
    | ErrorOnly(error: string)
    | ErrorDetails(error: string, details: string)
    | DesignBody(promptUsed: string, designDescription: string)

  /** `res.status(status).json(body)`; `res.json(body)` is status 200. */
  datatype Response = Response(status: int, body: Body)

}
