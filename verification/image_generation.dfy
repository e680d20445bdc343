/**
 * Template resolution: from a skin tone to the path of its template image,
 * and from that path to the data URL sent to the image-editing backend.
 */
module ImageGeneration {
  import opened Options
  import opened JsStrings
  import opened Platform

  /** `config.templates.basePath`. */
  const TemplatesBasePath := "public/templates/files"

  const DefaultTemplateFileName := "nail-template-medium.png"

  const LoadFailurePrefix := "Failed to load template image: "

  /**
   * The template file for a tone: a falsy tone gives the medium template,
   * otherwise the tone goes into the name with its first space turned into '-'.
   */
  function TemplateFileName(skinTone: JsValue): (name: string)
    ensures !Truthy(skinTone) ==> name == DefaultTemplateFileName
    ensures |name| >= |"nail-template-.png"|
    ensures name[..14] == "nail-template-" && name[|name| - 4..] == ".png"
  {
    if Truthy(skinTone) then "nail-template-" + ReplaceFirst(skinTone.s, " ", "-") + ".png"
    else DefaultTemplateFileName
  }

  /** A tone without spaces appears in the file name as it is. */
  lemma TemplateFileNamePlain(tone: string)
    requires tone != "" && ' ' !in tone
    ensures TemplateFileName(Str(tone)) == "nail-template-" + tone + ".png"
  {
    ReplaceFirstCharAbsent(tone, ' ', '-');
  }

  /** Only the first space of a tone becomes '-'; later spaces stay. */
  lemma TemplateFileNameFirstSpaceOnly(first: string, rest: string)
    requires ' ' !in first
    ensures TemplateFileName(Str(first + " " + rest)) == "nail-template-" + first + "-" + rest + ".png"
  {
    ReplaceFirstCharAfter(first, ' ', '-', rest);
  }

  /** `getTemplatePath`: the working directory, the template folder, then the file name. */
  function GetTemplatePath(cwd: string, skinTone: JsValue): (path: string)
    ensures path == cwd + "/" + TemplatesBasePath + "/" + TemplateFileName(skinTone)
    ensures var name := TemplateFileName(skinTone);
            |name| <= |path| && path[|path| - |name|..] == name
    ensures |cwd| <= |path| && path[..|cwd|] == cwd
  {
    PathJoinThree(cwd, TemplatesBasePath, TemplateFileName(skinTone));
    PathJoin([cwd, TemplatesBasePath, TemplateFileName(skinTone)])
  }

  /** Spelling the template folder as three segments, as the mock and the legacy server do, gives the same path. */
  lemma TemplateSegments(cwd: string, name: string)
    ensures PathJoin([cwd, "public", "templates", "files", name]) ==
            PathJoin([cwd, TemplatesBasePath, name])
  {
    PathJoinFive(cwd, "public", "templates", "files", name);
    PathJoinThree(cwd, TemplatesBasePath, name);
    assert "public" + "/" + "templates" + "/" + "files" == TemplatesBasePath;
  }
  /**
   * `loadTemplateImage`: one read of the path; its bytes come back as a PNG
   * data URL, and a read failure is rethrown with a fixed prefix.
   */
  function LoadTemplateImage(host: Host, path: string): (r: Run<Result<string, Error>>)
    ensures r.effects == [Read(path)]
    ensures r.result.Success? <==> path in host.files && host.files[path].Readable?
    ensures r.result.Success? ==>
              r.result.value == DataUrlPrefix + host.codec.base64(host.files[path].bytes)
    ensures r.result.Failure? ==>
              |LoadFailurePrefix| <= |r.result.error.message| &&
              r.result.error.message[..|LoadFailurePrefix|] == LoadFailurePrefix
  {
    var read := ReadFile(host.files, path);
    Run([Read(path)],
        match read
        case Success(bytes) => Success(DataUrl(host.codec.base64(bytes)))
        case Failure(e) => Failure(Error(LoadFailurePrefix + e.message)))
  }

  /** The template's base64 payload is what a gateway-style consumer extracts from the data URL. */
  lemma LoadedTemplatePayload(host: Host, path: string)
    requires path in host.files && host.files[path].Readable?
    requires ',' !in host.codec.base64(host.files[path].bytes)
    ensures DataUrlPayload(LoadTemplateImage(host, path).result.value) ==
            Some(host.codec.base64(host.files[path].bytes))
  {
    DataUrlRoundTrip(host.codec.base64(host.files[path].bytes));
  }
}
