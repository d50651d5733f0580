/**
 * The upload script: the same content checks as the save script, but the
 * only file name check is the `.json` suffix. After the file is written the
 * category is registered in the configuration under the file name with
 * every `.json` removed.
 */
module UploadFile {
  import opened Wrappers
  import opened PyStr
  import opened JsonValue
  import opened DayFile
  import opened ConfigUpdate
  import opened CategoryNaming
  import SaveFile

  /** The request fields: `filename` and `content` (`''` when absent) and `display_name` when given. */
  datatype UploadRequest = UploadRequest(filename: string, content: string, displayName: Option<Json>)

  /**
   * An error before anything is written; an exception raised before
   * anything is written, which the handler reports by its text (not
   * modelled); the file written and the category registered; or the file
   * written and the configuration update raising.
   */
  datatype UploadOutcome =
    | UploadFailed(message: string)
    | UploadRaised
    | Uploaded(filename: string, data: Members, categoryName: string, config: Members, message: string)
    | RegisterFailed(filename: string, data: Members)

  const RequiredMessage := "Filename and content are required"
  const NotJsonMessage := "File must be a JSON file (.json)"

  function UploadedMessage(filename: string): string {
    "File " + filename + " uploaded successfully"
  }

  /** `input_data.get('display_name', default)`. */
  function DisplayNameFor(req: UploadRequest): Json {
    match req.displayName
    case Some(v) => v
    case None => JString(DefaultDisplayName(CategoryName(req.filename)))
  }

  /** The script on a request and the configuration the registration loads; `parse` stands for `json.loads`. */
  function Upload(req: UploadRequest, parse: string -> Parsed, config: Members): (r: UploadOutcome)
    ensures req.filename == [] || req.content == [] ==> r == UploadFailed(RequiredMessage)
    ensures req.filename != [] && req.content != [] && !EndsWith(req.filename, JsonSuffix) ==>
      r == UploadFailed(NotJsonMessage)
    ensures !r.UploadFailed? <==> (req.filename != [] && req.content != [] && EndsWith(req.filename, JsonSuffix)
      && CheckDataset(parse(req.content)).Accepted?)
    ensures req.filename != [] && req.content != [] && EndsWith(req.filename, JsonSuffix) && r.UploadFailed? ==>
      r.message == CheckDataset(parse(req.content)).message
    ensures r.Uploaded? ==> (r.filename == req.filename && r.categoryName == CategoryName(req.filename)
      && parse(req.content) == Parsed(JObject(r.data))
      && Some(r.config) == AddCategory(config, r.categoryName, DataFilePath(req.filename), DisplayNameFor(req)))
    ensures r.Uploaded? ==> r.message == UploadedMessage(req.filename)
    ensures r.RegisterFailed? ==> (r.filename == req.filename && parse(req.content) == Parsed(JObject(r.data))
      && AddCategory(config, CategoryName(req.filename), DataFilePath(req.filename), DisplayNameFor(req)).None?)
    ensures !r.UploadRaised?
    ensures !r.UploadFailed? ==>
      (r.Uploaded? <==> AddCategory(config, CategoryName(req.filename), DataFilePath(req.filename), DisplayNameFor(req)).Some?)
  {
    if req.filename == [] || req.content == [] then UploadFailed(RequiredMessage)
    else if !EndsWith(req.filename, JsonSuffix) then UploadFailed(NotJsonMessage)
    else
      match CheckDataset(parse(req.content))
      case Rejected(message) => UploadFailed(message)
      case Accepted(data) =>
        var name := CategoryName(req.filename);
        match AddCategory(config, name, DataFilePath(req.filename), DisplayNameFor(req))
        case None => RegisterFailed(req.filename, data)
        case Some(c) => Uploaded(req.filename, data, name, c, UploadedMessage(req.filename))
  }

  /**
   * After an upload the category is registered, enabled, with the uploaded
   * file as its data file, and listed in the category order.
   */
  lemma UploadRegisters(req: UploadRequest, parse: string -> Parsed, config: Members)
    requires Upload(req, parse, config).Uploaded?
    ensures var r := Upload(req, parse, config);
      && CategoriesIn(r.config).Some?
      && Get(CategoriesIn(r.config).value, r.categoryName) == Some(CategoryEntry(DataFilePath(req.filename), DisplayNameFor(req)))
      && OrderIn(r.config).Some? && PyIn(OrderIn(r.config).value, r.categoryName) == Some(true)
  {
    var r := Upload(req, parse, config);
    AddRegisters(config, r.categoryName, DataFilePath(req.filename), DisplayNameFor(req));
  }

  /**
   * The upload checks no path separator: a name that climbs out of the
   * data directory is taken when the content is a valid dataset, while the
   * save script refuses the same name.
   */
  lemma UploadTakesParentPath(content: string, parse: string -> Parsed, config: Members, displayName: Option<Json>)
    requires content != [] && CheckDataset(parse(content)).Accepted?
    ensures !Upload(UploadRequest("../x.json", content, displayName), parse, config).UploadFailed?
    ensures SaveFile.Save("../x.json", content, parse) == SaveFile.SaveFailed(SaveFile.InvalidFilenameMessage)
  {
    assert ".." <= "../x.json";
    assert "../x.json"[9 - 5..] == JsonSuffix;
  }

  /**
   * The whole script on what `json.load(sys.stdin)` returns. A request that
   * is not an object raises at `.get`; a truthy file name that is not a
   * string raises at `.endswith`, and a truthy content that is not a string
   * at `json.loads`.
   */
  function UploadInput(stdin: Parsed, parse: string -> Parsed, config: Members): (r: UploadOutcome)
    ensures stdin.ParseFailed? ==> r == UploadFailed(stdin.detail)
    ensures stdin.Parsed? && !stdin.value.JObject? ==> r == UploadRaised
    ensures stdin.Parsed? && stdin.value.JObject? ==>
      var m := stdin.value.members;
      var f, c := GetOr(m, "filename", JString("")), GetOr(m, "content", JString(""));
      && (!Truthy(f) || !Truthy(c) ==> r == UploadFailed(RequiredMessage))
      && (Truthy(f) && Truthy(c) && !f.JString? ==> r == UploadRaised)
      && (f.JString? && c.JString? ==> r == Upload(UploadRequest(f.s, c.s, Get(m, "display_name")), parse, config))
      && (Truthy(f) && f.JString? && EndsWith(f.s, JsonSuffix) && Truthy(c) && !c.JString? ==> r == UploadRaised)
    ensures !r.UploadFailed? && !r.UploadRaised? ==> (stdin.Parsed? && stdin.value.JObject?
      && GetOr(stdin.value.members, "filename", JString("")).JString?
      && GetOr(stdin.value.members, "content", JString("")).JString?)
  {
    match stdin
    case ParseFailed(detail) => UploadFailed(detail)
    case Parsed(request) =>
      if !request.JObject? then UploadRaised
      else
        var m := request.members;
        var f, c := GetOr(m, "filename", JString("")), GetOr(m, "content", JString(""));
        if !Truthy(f) || !Truthy(c) then UploadFailed(RequiredMessage)
        else if !f.JString? then UploadRaised
        else if !EndsWith(f.s, JsonSuffix) then UploadFailed(NotJsonMessage)
        else if !c.JString? then UploadRaised
        else Upload(UploadRequest(f.s, c.s, Get(m, "display_name")), parse, config)
  }
}
