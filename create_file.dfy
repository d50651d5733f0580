/**
 * The create script: a category name comes in, is checked, and a dataset
 * with an empty entry for each of the days 1..365 is written under
 * `<name>.json`; the category is then registered in the configuration.
 * Which files already exist is given as a set of names.
 */
module CreateFile {
  import opened Wrappers
  import opened PyStr
  import opened JsonValue
  import opened DayFile
  import opened ConfigUpdate
  import opened CategoryNaming

  /** The request fields: `category_name` (`''` when absent) and `display_name` when given. */
  datatype CreateRequest = CreateRequest(categoryName: string, displayName: Option<Json>)

  /**
   * An error before anything is written; an exception raised before
   * anything is written, which the handler reports by its text (not
   * modelled); the template written and the category registered; or the
   * template written and the registration raising.
   */
  datatype CreateOutcome =
    | CreateFailed(message: string)
    | CreateRaised
    | Created(filename: string, template: Members, categoryName: string, config: Members, message: string)
    | RegisterFailed(filename: string, template: Members)

  const NameRequiredMessage := "Category name is required"
  const BadNameMessage := "Category name must contain only letters, numbers, and underscores"

  function ExistsMessage(filename: string): string {
    "File " + filename + " already exists"
  }

  function CreatedMessage(filename: string): string {
    "File " + filename + " created successfully"
  }

  /** The entry every day of a new dataset starts with. */
  const EmptyEntry := JObject([("title", JString("")), ("subtitle", JString("")), ("description", JString(""))])

  /** `name.replace('_', '').isalnum()`. */
  predicate ValidCategoryName(name: string) {
    IsAlnum(Replace(name, "_", ""))
  }

  /** The first `n` entries of the template: the days 1..n in order. */
  function TemplateUpTo(n: nat): (t: Members)
    ensures |t| == n && forall i :: 0 <= i < n ==> t[i] == (NatToString(i + 1), EmptyEntry)
  {
    seq(n, i requires 0 <= i < n => (NatToString(i + 1), EmptyEntry))
  }

  /** The dataset the script writes: `str(day)` for each day 1..365, in order. */
  function Template(): (t: Members)
    ensures |t| == LastDay
    ensures forall i :: 0 <= i < |t| ==> t[i].1 == EmptyEntry
  {
    TemplateUpTo(LastDay)
  }

  /** The template loop: `template[str(day)] = {...}` for `day in range(1, 366)`. */
  method BuildTemplate() returns (template: Members)
    ensures template == Template()
  {
    template := [];
    for day := 1 to LastDay + 1
      invariant template == TemplateUpTo(day - 1)
    {
      TemplateLacksNext(day);
      SetAppends(template, NatToString(day), EmptyEntry);
      TemplateGrows(day);
      template := Set(template, NatToString(day), EmptyEntry);
    }
  }

  /** The template for the days up to `n` extends the one for the days before `n` by day `n`. */
  lemma TemplateGrows(n: nat)
    requires n >= 1
    ensures TemplateUpTo(n - 1) + [(NatToString(n), EmptyEntry)] == TemplateUpTo(n)
  {
    var t, u := TemplateUpTo(n - 1), TemplateUpTo(n);
    assert forall i :: 0 <= i < n - 1 ==> (t + [(NatToString(n), EmptyEntry)])[i] == t[i] == u[i];
  }

  /** Before the pass for day `n`, the template has no key for it. */
  lemma TemplateLacksNext(n: nat)
    requires n >= 1
    ensures NatToString(n) !in Keys(TemplateUpTo(n - 1))
  {
    var t := TemplateUpTo(n - 1);
    forall i | 0 <= i < |t| ensures Keys(t)[i] != NatToString(n) {
      if t[i].0 == NatToString(n) {
        NatToStringInjective(i + 1, n);
      }
    }
  }

  /** `input_data.get('display_name', default)`, the default computed from the stripped name. */
  function DisplayNameFor(req: CreateRequest): Json {
    match req.displayName
    case Some(v) => v
    case None =>
      var name := Strip(req.categoryName);
      JString(if name != [] then DefaultDisplayName(name) else "")
  }

  /** The script on a request, the names already in the data directory, and the configuration the registration loads. */
  function Create(req: CreateRequest, existing: set<string>, config: Members): (r: CreateOutcome)
    ensures Strip(req.categoryName) == [] ==> r == CreateFailed(NameRequiredMessage)
    ensures Strip(req.categoryName) != [] && !ValidCategoryName(Strip(req.categoryName)) ==> r == CreateFailed(BadNameMessage)
    ensures !r.CreateFailed? <==> (Strip(req.categoryName) != [] && ValidCategoryName(Strip(req.categoryName))
      && Strip(req.categoryName) + JsonSuffix !in existing)
    ensures r.Created? ==> (r.categoryName == Strip(req.categoryName) && r.filename == r.categoryName + JsonSuffix
      && r.template == Template()
      && Some(r.config) == AddCategory(config, r.categoryName, DataFilePath(r.filename), DisplayNameFor(req)))
    ensures r.Created? ==> r.message == CreatedMessage(r.filename)
    ensures !r.CreateRaised?
    ensures var name := Strip(req.categoryName);
      name != [] && ValidCategoryName(name) && name + JsonSuffix in existing ==>
        r == CreateFailed(ExistsMessage(name + JsonSuffix))
    ensures var name := Strip(req.categoryName);
      !r.CreateFailed? ==>
        var added := AddCategory(config, name, DataFilePath(name + JsonSuffix), DisplayNameFor(req));
        && (r.Created? <==> added.Some?)
        && (r.RegisterFailed? ==> r.filename == name + JsonSuffix && r.template == Template() && added.None?)
  {
    var name := Strip(req.categoryName);
    if name == [] then CreateFailed(NameRequiredMessage)
    else if !ValidCategoryName(name) then CreateFailed(BadNameMessage)
    else
      var filename := name + JsonSuffix;
      if filename in existing then CreateFailed(ExistsMessage(filename))
      else
        match AddCategory(config, name, DataFilePath(filename), DisplayNameFor(req))
        case None => RegisterFailed(filename, Template())
        case Some(c) => Created(filename, Template(), name, c, CreatedMessage(filename))
  }

  /**
   * A name is valid exactly when it is not all underscores and every
   * other character is a letter or a digit.
   */
  lemma ValidCategoryNameChars(name: string)
    ensures ValidCategoryName(name) <==>
      (!(forall i :: 0 <= i < |name| ==> name[i] == '_')
      && forall i :: 0 <= i < |name| && name[i] != '_' ==> IsAlnumChar(name[i]))
  {
    assert "_" == ['_'] && "" == [];
    DeleteCharKeepsOthers(name, '_');
    var t := Replace(name, "_", "");
    if forall i :: 0 <= i < |name| && name[i] != '_' ==> IsAlnumChar(name[i]) {
      forall i | 0 <= i < |t| ensures IsAlnumChar(t[i]) {
        assert t[i] in t;
      }
    } else {
      var i :| 0 <= i < |name| && name[i] != '_' && !IsAlnumChar(name[i]);
      assert name[i] in t;
    }
  }

  /** The template is a dict: its keys are distinct. */
  lemma TemplateDistinct()
    ensures DistinctKeys(Template())
  {
    var t := Template();
    forall i, j | 0 <= i < j < |t| ensures t[i].0 != t[j].0 {
      if t[i].0 == t[j].0 {
        NatToStringInjective(i + 1, j + 1);
      }
    }
  }

  /** Every key of the template is the canonical rendering of a day 1..365. */
  lemma TemplateKeysAreDays(k: string)
    requires k in Keys(Template())
    ensures IsDayKey(k) && NatToString(ParseInt(k).value) == k
  {
    var t := Template();
    var i :| 0 <= i < |t| && Keys(t)[i] == k;
    ParseNatToString(i + 1);
  }

  /** Every canonical rendering of a day 1..365 is a key of the template. */
  lemma DaysAreTemplateKeys(k: string)
    requires IsDayKey(k) && NatToString(ParseInt(k).value) == k
    ensures k in Keys(Template())
  {
    var n := ParseInt(k).value;
    assert Keys(Template())[n - 1] == k;
  }

  /** Each day 1..365 maps to the empty entry. */
  lemma TemplateEntry(n: nat)
    requires 1 <= n <= LastDay
    ensures Get(Template(), NatToString(n)) == Some(EmptyEntry)
  {
    TemplateDistinct();
    GetAt(Template(), n - 1);
  }

  /** A day after 365 has no entry. */
  lemma TemplateHasNoLaterDay(n: nat)
    requires n > LastDay
    ensures Get(Template(), NatToString(n)) == None
  {
    DayKeyOfDay(n);
    if NatToString(n) in Keys(Template()) {
      TemplateKeysAreDays(NatToString(n));
    }
  }

  /** The template passes the checks of the save and upload scripts. */
  lemma TemplateAccepted()
    ensures CheckDataset(Parsed(JObject(Template()))) == Accepted(Template())
  {
    var t := Template();
    forall i | 0 <= i < |t| ensures IsDayKey(t[i].0) {
      ParseNatToString(i + 1);
    }
  }

  /** A name of underscores only is refused. */
  lemma UnderscoresOnlyRefused(req: CreateRequest, existing: set<string>, config: Members)
    requires Strip(req.categoryName) != []
    requires forall i :: 0 <= i < |Strip(req.categoryName)| ==> Strip(req.categoryName)[i] == '_'
    ensures Create(req, existing, config) == CreateFailed(BadNameMessage)
  {
    ValidCategoryNameChars(Strip(req.categoryName));
  }

  /** A created category is registered, enabled, with its new file as data file. */
  lemma CreatedRegisters(req: CreateRequest, existing: set<string>, config: Members)
    requires Create(req, existing, config).Created?
    ensures var r := Create(req, existing, config);
      && CategoriesIn(r.config).Some?
      && Get(CategoriesIn(r.config).value, r.categoryName) == Some(CategoryEntry(DataFilePath(r.filename), DisplayNameFor(req)))
  {
    var r := Create(req, existing, config);
    AddRegisters(config, r.categoryName, DataFilePath(r.filename), DisplayNameFor(req));
  }

  /** A valid category name never contains `.json`, so the upload rule recovers it from `<name>.json`. */
  lemma CreatedFileNamesCategory(name: string)
    requires ValidCategoryName(name)
    ensures CategoryName(name + JsonSuffix) == name
  {
    ValidCategoryNameChars(name);
    assert !IsAlnumChar('.');
    AbsentFirstNoOccurrence(JsonSuffix, name);
    CategoryNameOfFile(name);
  }

  /**
   * The whole script on what `json.load(sys.stdin)` returns. A request that
   * is not an object raises at `.get`, and a category name that is not a
   * string (even a falsy one: `null`, `0`, `[]`) raises at `.strip()`.
   */
  function CreateInput(stdin: Parsed, existing: set<string>, config: Members): (r: CreateOutcome)
    ensures stdin.ParseFailed? ==> r == CreateFailed(stdin.detail)
    ensures stdin.Parsed? && !stdin.value.JObject? ==> r == CreateRaised
    ensures stdin.Parsed? && stdin.value.JObject? ==>
      var m := stdin.value.members;
      var n := GetOr(m, "category_name", JString(""));
      && (!n.JString? ==> r == CreateRaised)
      && (n.JString? ==> r == Create(CreateRequest(n.s, Get(m, "display_name")), existing, config))
    ensures stdin.Parsed? && stdin.value.JObject? && "category_name" !in Keys(stdin.value.members) ==>
      r == CreateFailed(NameRequiredMessage)
  {
    match stdin
    case ParseFailed(detail) => CreateFailed(detail)
    case Parsed(request) =>
      if !request.JObject? then CreateRaised
      else
        var m := request.members;
        var n := GetOr(m, "category_name", JString(""));
        if !n.JString? then CreateRaised
        else Create(CreateRequest(n.s, Get(m, "display_name")), existing, config)
  }
}
