/**
 * The save script: a file name and a JSON text come in; the file name
 * must not leave the data directory, and the text must be a dataset
 * keyed by day numbers. The checks run in order and the first failure
 * decides the message; only when all pass is the parsed object written.
 */
module SaveFile {
  import opened Wrappers
  import opened PyStr
  import opened JsonValue
  import opened DayFile

  /**
   * An error message; an exception raised inside the script, which the
   * handler reports by its text (not modelled); or the file name and the
   * object written under it with the success message.
   */
  datatype SaveOutcome =
    | SaveFailed(message: string)
    | SaveRaised
    | Saved(filename: string, data: Members, message: string)

  const RequiredMessage := "Filename and content are required"
  const InvalidFilenameMessage := "Invalid filename"

  function SavedMessage(filename: string): string {
    "File " + filename + " saved successfully"
  }

  /** The traversal guard: `'..' in filename or '/' in filename or '\\' in filename`. */
  function Traverses(filename: string): (r: bool)
    ensures '/' in filename || '\\' in filename ==> r
    ensures r ==> '.' in filename || '/' in filename || '\\' in filename
  {
    OccursFirstChar("..", filename);
    Occurs("..", filename) || '/' in filename || '\\' in filename
  }

  /**
   * The script for the request fields `filename` and `content` (each `''`
   * when absent); `parse` stands for `json.loads`.
   */
  function Save(filename: string, content: string, parse: string -> Parsed): (r: SaveOutcome)
    ensures filename == [] || content == [] ==> r == SaveFailed(RequiredMessage)
    ensures filename != [] && content != [] && Traverses(filename) ==> r == SaveFailed(InvalidFilenameMessage)
    ensures r.Saved? <==> (filename != [] && content != [] && !Traverses(filename)
      && CheckDataset(parse(content)).Accepted?)
    ensures filename != [] && content != [] && !Traverses(filename) && !r.Saved? ==>
      r == SaveFailed(CheckDataset(parse(content)).message)
    ensures r.Saved? ==> (r.filename == filename && parse(content) == Parsed(JObject(r.data))
      && r.message == SavedMessage(filename))
  {
    if filename == [] || content == [] then SaveFailed(RequiredMessage)
    else if Traverses(filename) then SaveFailed(InvalidFilenameMessage)
    else
      match CheckDataset(parse(content))
      case Rejected(message) => SaveFailed(message)
      case Accepted(data) => Saved(filename, data, SavedMessage(filename))
  }

  /**
   * What is written is a dataset keyed by day numbers 1..365 under a name
   * free of `..`, `/` and `\`; in particular it has no entry for day 366.
   */
  lemma SavedIsDataset(filename: string, content: string, parse: string -> Parsed)
    requires Save(filename, content, parse).Saved?
    ensures var r := Save(filename, content, parse);
      && !Occurs("..", r.filename) && '/' !in r.filename && '\\' !in r.filename
      && (forall i :: 0 <= i < |r.data| ==> IsDayKey(r.data[i].0))
      && NatToString(366) !in Keys(r.data)
  {
    AcceptedHasNoDay366(parse(content));
  }

  function FilenameField(m: Members): Json {
    GetOr(m, "filename", JString(""))
  }

  function ContentField(m: Members): Json {
    GetOr(m, "content", JString(""))
  }

  /**
   * The traversal guard on whatever the request holds: Python's `in` on a
   * string, a list or a dict, and None where `in` raises (a number, a bool).
   */
  function TraversesJson(filename: Json): (r: Option<bool>)
    ensures filename.JString? ==> r == Some(Traverses(filename.s))
    ensures filename.JNumber? || filename.JBool? || filename.JNull? ==> r == None
    ensures filename.JArray? ==> r == Some(JString("..") in filename.items || JString("/") in filename.items
      || JString("\\") in filename.items)
  {
    if filename.JString? then
      OccursChar('/', filename.s);
      OccursChar('\\', filename.s);
      assert "/" == ['/'] && "\\" == ['\\'];
      Some(Traverses(filename.s))
    else
      match PyIn(filename, "..")
      case None => None
      case Some(true) => Some(true)
      case Some(false) =>
        match PyIn(filename, "/")
        case None => None
        case Some(true) => Some(true)
        case Some(false) => PyIn(filename, "\\")
  }

  /**
   * The whole script on what `json.load(sys.stdin)` returns. A request
   * that is not an object raises at `.get`; a truthy file name that `in`
   * cannot search, a truthy content that is not a string (`json.loads`),
   * and a file name that is not a string when the path is built, raise too.
   */
  function SaveInput(stdin: Parsed, parse: string -> Parsed): (r: SaveOutcome)
    ensures stdin.ParseFailed? ==> r == SaveFailed(stdin.detail)
    ensures stdin.Parsed? && !stdin.value.JObject? ==> r == SaveRaised
    ensures stdin.Parsed? && stdin.value.JObject? ==>
      var f, c := FilenameField(stdin.value.members), ContentField(stdin.value.members);
      && (!Truthy(f) || !Truthy(c) ==> r == SaveFailed(RequiredMessage))
      && (f.JString? && c.JString? ==> r == Save(f.s, c.s, parse))
      && (Truthy(f) && Truthy(c) && TraversesJson(f) == Some(true) ==> r == SaveFailed(InvalidFilenameMessage))
      && (Truthy(f) && Truthy(c) && TraversesJson(f).None? ==> r == SaveRaised)
    ensures r.Saved? ==> (stdin.Parsed? && stdin.value.JObject?
      && FilenameField(stdin.value.members) == JString(r.filename)
      && ContentField(stdin.value.members).JString?)
  {
    match stdin
    case ParseFailed(detail) => SaveFailed(detail)
    case Parsed(request) =>
      if !request.JObject? then SaveRaised
      else
        var f, c := FilenameField(request.members), ContentField(request.members);
        if !Truthy(f) || !Truthy(c) then SaveFailed(RequiredMessage)
        else
          match TraversesJson(f)
          case None => SaveRaised
          case Some(true) => SaveFailed(InvalidFilenameMessage)
          case Some(false) =>
            if !c.JString? then SaveRaised
            else if f.JString? then Save(f.s, c.s, parse)
            else
              match CheckDataset(parse(c.s))
              case Rejected(message) => SaveFailed(message)
              case Accepted(_) => SaveRaised
  }

  /**
   * A file name given as a list passes the guard unless it holds one of the
   * guarded strings as an element; a valid content then reaches the path
   * join, which raises: nothing is written.
   */
  lemma ListFilenameRaises(names: seq<Json>, content: string, parse: string -> Parsed)
    requires names != [] && JString("..") !in names && JString("/") !in names && JString("\\") !in names
    requires content != [] && CheckDataset(parse(content)).Accepted?
    ensures SaveInput(Parsed(JObject([("filename", JArray(names)), ("content", JString(content))])), parse) == SaveRaised
  {
    var m := [("filename", JArray(names)), ("content", JString(content))];
    assert FilenameField(m) == JArray(names);
    assert m[0].0 != "content";
    assert m[1..] == [("content", JString(content))];
    assert Get(m[1..], "content") == Some(JString(content));
    assert Get(m, "content") == Get(m[1..], "content");
    assert ContentField(m) == JString(content);
    assert TraversesJson(JArray(names)) == Some(false);
  }
}
