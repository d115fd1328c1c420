/**
 * `BuildConfig` (build.js): reading a build description. A batch description lists other
 * description files; a single one names the source and destination directories and the
 * HTML, source and plain-file listings. Malformed parts raise the tool's own messages.
 */
module BuildConfiguration {
  import opened Wrappers
  import opened Strings
  import opened Paths
  import opened FileSystem
  import opened JsonValues
  import opened ExternalTools

  const BatchNotArray := "The \"batch_build\" entry in build instructions file has to be an Array type!"
  const MissingSourceDir := "Build instructions file is missing the source_dir entry!"
  const MissingDestinationDir := "Build instructions file is missing the destination_dir entry!"
  const HtmlNotStrings := "Every element in \"html\" entry listing has to be a String type!"
  const HeaderNotStrings := "Every element in \"sources\" entry \"header\" listing has to be a String type!"
  const HeadersNotStrings := "Every element in \"headers\" listing has to be a String type!"
  const VariablesNotStrings := "Every element in \"variables\" listing has to be a String type!"
  const SourcesNotArray := "The \"sources\" entry in build instructions file has to be an Array type!"
  const FilesNotStrings := "Every element in \"files\" entry listing has to be a String type!"
  const NullDescription := "TypeError: Cannot read properties of null (reading 'hasOwnProperty')"
  const NotJson := "SyntaxError: the build instructions file is not valid JSON"

  /** One entry of `batch_build`: a description file and its own option string. */
  datatype BatchEntry = BatchEntry(file: string, options: Option<string>)

  /** One entry of `sources`, with only the members that had the right type. */
  datatype SourceEntry = SourceEntry(
    file: string,
    outputFile: Option<string>,
    compileOptions: Option<string>,
    header: Option<seq<string>>,
    variables: Option<map<string, seq<string>>>,
    preprocess: bool)

  /** The normalized description. The two directories are kept as given: they are only
      required to exist, and are checked to be strings when a build uses them. */
  datatype ConfigData =
    | Batch(batch: seq<BatchEntry>)
    | Single(sourceDir: Json, destinationDir: Json, html: seq<string>, sources: seq<SourceEntry>, files: seq<string>)

  /** A batch entry: a string is a file name (even an empty one); an object or array counts
      only with a non-empty string `file`, and keeps `options` only when it is a string. */
  function BatchItem(x: Json): (r: Option<BatchEntry>)
    ensures x.JString? ==> r == Some(BatchEntry(x.s, None))
    ensures !x.JString? ==>
      (r.Some? <==> IsObjectLike(x) && StringMember(x, "file").Some? && StringMember(x, "file").value != "")
    ensures !x.JString? && r.Some? ==>
      r.value.file == StringMember(x, "file").value && r.value.options == StringMember(x, "options")
  {
    match x
    case JString(s) => Some(BatchEntry(s, None))
    case JArray(_) | JObject(_) =>
      var file := StringMember(x, "file");
      if file.Some? && file.value != "" then Some(BatchEntry(file.value, StringMember(x, "options")))
      else None
    case _ => None
  }

  /** The batch listing: the entries `BatchItem` keeps, in order. */
  function BatchListing(xs: seq<Json>): seq<BatchEntry>
    decreases |xs|
  {
    if xs == [] then []
    else
      var last := BatchItem(xs[|xs| - 1]);
      BatchListing(xs[..|xs| - 1]) + (if last.Some? then [last.value] else [])
  }

  /** An `html`/`files`/`header` member: an all-string array as it is, a lone string as a
      one-element list, anything else as nothing; an array with a non-string is an error. */
  function StringList(j: Json, error: string): (r: Result<Option<seq<string>>>)
    ensures r.Err? <==> j.JArray? && !AllStrings(j.items)
    ensures r.Err? ==> r.error == error
    ensures j.JString? ==> r == Ok(Some([j.s]))
    ensures j.JArray? && r.Ok? ==> (r.value.Some? && |r.value.value| == |j.items| &&
      forall i :: 0 <= i < |j.items| ==> r.value.value[i] == j.items[i].s)
    ensures !j.JString? && !j.JArray? ==> r == Ok(None)
  {
    match j
    case JArray(xs) => if AllStrings(xs) then Ok(Some(StringItems(xs))) else Err(error)
    case JString(s) => Ok(Some([s]))
    case _ => Ok(None)
  }

  /** A top-level listing: absent or of another type, it is empty. */
  function Listing(member: Option<Json>, error: string): (r: Result<seq<string>>)
    ensures member.None? ==> r == Ok([])
    ensures member.Some? ==> (r.Err? <==> StringList(member.value, error).Err?)
  {
    match member
    case None => Ok([])
    case Some(j) =>
      match StringList(j, error)
      case Err(e) => Err(e)
      case Ok(l) => Ok(l.GetOr([]))
  }

  /** A `variables` object: its array-valued members, which must hold only strings. */
  function VariableMap(m: map<string, Json>): (r: Result<map<string, seq<string>>>)
    ensures r.Err? <==> exists k :: k in m && m[k].JArray? && !AllStrings(m[k].items)
    ensures r.Ok? ==> forall k :: k in r.value <==> k in m && m[k].JArray?
  {
    if exists k :: k in m && m[k].JArray? && !AllStrings(m[k].items) then Err(VariablesNotStrings)
    else Ok(map k | k in m && m[k].JArray? :: StringItems(m[k].items))
  }

  /** The header of a source entry: its own `header`, or else the `headers` member named by
      `use_header`; a reference that does not resolve gives no header. */
  function HeaderOf(root: Json, x: Json): Result<Option<seq<string>>> {
    match GetOwn(x, "header")
    case Some(h) => StringList(h, HeaderNotStrings)
    case None =>
      match GetOwn(x, "use_header")
      case Some(JString(name)) =>
        var headers := GetOwn(root, "headers");
        if headers.Some? && Truthy(headers.value) then
          match GetOwn(headers.value, name)
          case Some(h) => StringList(h, HeadersNotStrings)
          case None => Ok(None)
        else Ok(None)
      case _ => Ok(None)
  }

  /** The variables of a source entry: its own `variables` object, or else the `variables`
      member named by `use_variables`; anything else gives none. */
  function VariablesOf(root: Json, x: Json): Result<Option<map<string, seq<string>>>> {
    match GetOwn(x, "variables")
    case Some(v) =>
      if v.JObject? then
        match VariableMap(v.fields)
        case Ok(m) => Ok(Some(m))
        case Err(e) => Err(e)
      else Ok(None)
    case None =>
      match GetOwn(x, "use_variables")
      case Some(JString(name)) =>
        var variables := GetOwn(root, "variables");
        if variables.Some? && Truthy(variables.value) then
          match GetOwn(variables.value, name)
          case Some(JObject(m)) =>
            (match VariableMap(m)
             case Ok(vm) => Ok(Some(vm))
             case Err(e) => Err(e))
          case _ => Ok(None)
        else Ok(None)
      case _ => Ok(None)
  }

  /** A source entry: a string is a file name; an object or array is read member by member
      (its header and variables checked first) and kept only with a non-empty string `file`. */
  function SourceItem(root: Json, x: Json): (r: Result<Option<SourceEntry>>)
    ensures x.JString? ==> r == Ok(Some(SourceEntry(x.s, None, None, None, None, false)))
    ensures r.Ok? && r.value.Some? && !x.JString? ==>
      IsObjectLike(x) && StringMember(x, "file") == Some(r.value.value.file) && r.value.value.file != ""
    ensures !x.JString? && !IsObjectLike(x) ==> r == Ok(None)
  {
    match x
    case JString(s) => Ok(Some(SourceEntry(s, None, None, None, None, false)))
    case JArray(_) | JObject(_) =>
      (match HeaderOf(root, x)
       case Err(e) => Err(e)
       case Ok(header) =>
         match VariablesOf(root, x)
         case Err(e) => Err(e)
         case Ok(variables) =>
           var file := StringMember(x, "file");
           if file.Some? && file.value != "" then
             Ok(Some(SourceEntry(file.value, StringMember(x, "output_file"), StringMember(x, "compile_options"),
               header, variables, GetOwn(x, "preprocess") == Some(JBool(true)))))
           else Ok(None))
    case _ => Ok(None)
  }

  /** The sources listing: the kept entries in order, or the first entry's error. */
  function SourcesListing(root: Json, xs: seq<Json>): Result<seq<SourceEntry>>
    decreases |xs|
  {
    if xs == [] then Ok([])
    else
      match SourcesListing(root, xs[..|xs| - 1])
      case Err(e) => Err(e)
      case Ok(listing) =>
        match SourceItem(root, xs[|xs| - 1])
        case Err(e) => Err(e)
        case Ok(item) => Ok(listing + (if item.Some? then [item.value] else []))
  }

  /** The `sources` member: absent is empty, anything but an array is an error. */
  function SourcesMember(root: Json): Result<seq<SourceEntry>> {
    match GetOwn(root, "sources")
    case None => Ok([])
    case Some(JArray(xs)) => SourcesListing(root, xs)
    case Some(_) => Err(SourcesNotArray)
  }

  /** A single description from its directories on, checked in the constructor's order. */
  function SingleOf(root: Json, sourceDir: Json, destinationDir: Json): Result<ConfigData> {
    match Listing(GetOwn(root, "html"), HtmlNotStrings)
    case Err(e) => Err(e)
    case Ok(html) =>
      match SourcesMember(root)
      case Err(e) => Err(e)
      case Ok(sources) =>
        match Listing(GetOwn(root, "files"), FilesNotStrings)
        case Err(e) => Err(e)
        case Ok(files) => Ok(Single(sourceDir, destinationDir, html, sources, files))
  }

  /** The whole description, checked in the order the constructor checks it. */
  function ConfigOf(root: Json): Result<ConfigData> {
    if root.JNull? then Err(NullDescription)
    else match GetOwn(root, "batch_build")
      case Some(b) => if b.JArray? then Ok(Batch(BatchListing(b.items))) else Err(BatchNotArray)
      case None =>
        match GetOwn(root, "source_dir")
        case None => Err(MissingSourceDir)
        case Some(sourceDir) =>
          match GetOwn(root, "destination_dir")
          case None => Err(MissingDestinationDir)
          case Some(destinationDir) => SingleOf(root, sourceDir, destinationDir)
  }

  /** The parsed build description file, `BuildConfig`'s fields. */
  class BuildConfig {
    var sourceFile: string
    var baseDir: string
    var isBatch: bool
    var batchListing: seq<BatchEntry>
    var sourceDir: Json
    var destinationDir: Json
    var htmlListing: seq<string>
    var sourcesListing: seq<SourceEntry>
    var filesListing: seq<string>

    /** The description the fields hold. */
    function Data(): ConfigData
      reads this
    {
      if isBatch then Batch(batchListing)
      else Single(sourceDir, destinationDir, htmlListing, sourcesListing, filesListing)
    }

    /** The file's base name and directory, before anything is read. */
    constructor (file: string)
      ensures sourceFile == StrBase(file) && baseDir == StrDir(file)
      ensures !isBatch && batchListing == [] && sourcesListing == []
    {
      sourceFile := StrBase(file);
      baseDir := StrDir(file);
      isBatch := false;
      batchListing := [];
      sourceDir := JNull;
      destinationDir := JNull;
      htmlListing := [];
      sourcesListing := [];
      filesListing := [];
    }

    /** The batch listing, built by pushing the kept entries one by one. */
    method PushBatchEntries(xs: seq<Json>)
      modifies this
      ensures batchListing == BatchListing(xs)
      ensures isBatch == old(isBatch) && sourceFile == old(sourceFile) && baseDir == old(baseDir)
    {
      batchListing := [];
      for i := 0 to |xs|
        invariant batchListing == BatchListing(xs[..i])
        invariant isBatch == old(isBatch) && sourceFile == old(sourceFile) && baseDir == old(baseDir)
      {
        assert xs[..i + 1][..i] == xs[..i];
        var item := BatchItem(xs[i]);
        if item.Some? {
          batchListing := batchListing + [item.value];
        }
      }
      assert xs[..|xs|] == xs;
    }

    /** The sources listing, built by pushing the kept entries one by one; the first
        malformed entry stops it. */
    method PushSourceEntries(root: Json, xs: seq<Json>) returns (error: Option<string>)
      modifies this
      ensures error.None? <==> SourcesListing(root, xs).Ok?
      ensures error.Some? ==> SourcesListing(root, xs) == Err(error.value)
      ensures error.None? ==> sourcesListing == SourcesListing(root, xs).value
      ensures isBatch == old(isBatch) && sourceFile == old(sourceFile) && baseDir == old(baseDir)
      ensures sourceDir == old(sourceDir) && destinationDir == old(destinationDir) && htmlListing == old(htmlListing)
    {
      sourcesListing := [];
      for i := 0 to |xs|
        invariant SourcesListing(root, xs[..i]) == Ok(sourcesListing)
        invariant isBatch == old(isBatch) && sourceFile == old(sourceFile) && baseDir == old(baseDir)
        invariant sourceDir == old(sourceDir) && destinationDir == old(destinationDir) && htmlListing == old(htmlListing)
      {
        assert xs[..i + 1][..i] == xs[..i];
        var item := SourceItem(root, xs[i]);
        if item.Err? {
          SourcesErrorPersists(root, xs, i + 1);
          return Some(item.error);
        }
        assert xs[..i + 1][i] == xs[i];
        assert SourcesListing(root, xs[..i + 1]) ==
          Ok(sourcesListing + (if item.value.Some? then [item.value.value] else []));
        ghost var next := sourcesListing + (if item.value.Some? then [item.value.value] else []);
        if item.value.Some? {
          sourcesListing := sourcesListing + [item.value.value];
        }
        assert sourcesListing == next;
        assert SourcesListing(root, xs[..i + 1]) == Ok(sourcesListing);
      }
      assert xs[..|xs|] == xs;
      return None;
    }

    /** The constructor's work on the parsed JSON; the first malformed part is reported. */
    method Configure(root: Json) returns (error: Option<string>)
      modifies this
      ensures error.None? <==> ConfigOf(root).Ok?
      ensures error.Some? ==> ConfigOf(root) == Err(error.value)
      ensures error.None? ==> Data() == ConfigOf(root).value
      ensures sourceFile == old(sourceFile) && baseDir == old(baseDir)
    {
      if root.JNull? {
        return Some(NullDescription);
      }
      var batch := GetOwn(root, "batch_build");
      if batch.Some? {
        isBatch := true;
        if !batch.value.JArray? {
          return Some(BatchNotArray);
        }
        PushBatchEntries(batch.value.items);
        return None;
      }
      var src := GetOwn(root, "source_dir");
      if src.None? {
        return Some(MissingSourceDir);
      }
      sourceDir := src.value;
      var dst := GetOwn(root, "destination_dir");
      if dst.None? {
        return Some(MissingDestinationDir);
      }
      destinationDir := dst.value;
      error := ConfigureLists(root);
    }

    /** The single description's listings, once its directories are set: HTML pages,
        sources, files, in that order; the first malformed one is reported. */
    method ConfigureLists(root: Json) returns (error: Option<string>)
      modifies this
      ensures error.None? <==> SingleOf(root, sourceDir, destinationDir).Ok?
      ensures error.Some? ==> SingleOf(root, sourceDir, destinationDir) == Err(error.value)
      ensures error.None? ==> Data() == SingleOf(root, sourceDir, destinationDir).value
      ensures sourceFile == old(sourceFile) && baseDir == old(baseDir)
      ensures sourceDir == old(sourceDir) && destinationDir == old(destinationDir)
    {
      var html := Listing(GetOwn(root, "html"), HtmlNotStrings);
      if html.Err? {
        return Some(html.error);
      }
      htmlListing := html.value;
      isBatch := false;
      var sources := GetOwn(root, "sources");
      if sources.Some? {
        if !sources.value.JArray? {
          return Some(SourcesNotArray);
        }
        error := PushSourceEntries(root, sources.value.items);
        if error.Some? {
          return error;
        }
      } else {
        sourcesListing := [];
      }
      var files := Listing(GetOwn(root, "files"), FilesNotStrings);
      if files.Err? {
        return Some(files.error);
      }
      filesListing := files.value;
      return None;
    }
  }

  /** Once an entry is malformed, the whole listing reports that entry's error. */
  lemma {:induction false} SourcesErrorPersists(root: Json, xs: seq<Json>, k: nat)
    requires 0 < k <= |xs| && SourcesListing(root, xs[..k]).Err?
    ensures SourcesListing(root, xs) == SourcesListing(root, xs[..k])
    decreases |xs| - k
  {
    if k < |xs| {
      assert xs[..k + 1][..k] == xs[..k];
      SourcesErrorPersists(root, xs, k + 1);
    } else {
      assert xs[..k] == xs;
    }
  }

  /** The description a file holds, or the first error reading, parsing or checking it. */
  function ConfigFile(fs: Fs, tools: Tools, file: string): Result<ConfigData> {
    match ReadFile(fs, Parse(file))
    case Err(e) => Err(e)
    case Ok(content) =>
      match tools.parseJson(content)
      case None => Err(NotJson)
      case Some(root) => ConfigOf(root)
  }

  /** `new BuildConfig(file)`: read the file, parse it, configure. */
  method LoadBuildConfig(fs: Fs, tools: Tools, file: string) returns (r: Result<BuildConfig>)
    ensures r.Err? <==>
      ReadFile(fs, Parse(file)).Err? ||
      tools.parseJson(ReadFile(fs, Parse(file)).value).None? ||
      ConfigOf(tools.parseJson(ReadFile(fs, Parse(file)).value).value).Err?
    ensures r.Err? ==> ConfigFile(fs, tools, file) == Err(r.error)
    ensures r.Ok? ==> (fresh(r.value) &&
      r.value.sourceFile == StrBase(file) && r.value.baseDir == StrDir(file) &&
      r.value.Data() == ConfigOf(tools.parseJson(ReadFile(fs, Parse(file)).value).value).value &&
      ConfigFile(fs, tools, file) == Ok(r.value.Data()))
  {
    var config := new BuildConfig(file);
    var content := ReadFile(fs, Parse(file));
    if content.Err? {
      return Err(content.error);
    }
    var json := tools.parseJson(content.value);
    if json.None? {
      return Err(NotJson);
    }
    var error := config.Configure(json.value);
    if error.Some? {
      return Err(error.value);
    }
    return Ok(config);
  }

  /** A description with `batch_build` is a batch exactly when that member is an array;
      every other description must name both directories, source first. */
  lemma ConfigShape(root: Json)
    requires !root.JNull?
    ensures GetOwn(root, "batch_build").Some? ==>
      (ConfigOf(root).Ok? <==> GetOwn(root, "batch_build").value.JArray?) &&
      (ConfigOf(root).Err? ==> ConfigOf(root).error == BatchNotArray)
    ensures GetOwn(root, "batch_build").None? && GetOwn(root, "source_dir").None? ==>
      ConfigOf(root) == Err(MissingSourceDir)
    ensures GetOwn(root, "batch_build").None? && GetOwn(root, "source_dir").Some? && GetOwn(root, "destination_dir").None? ==>
      ConfigOf(root) == Err(MissingDestinationDir)
    ensures ConfigOf(root).Ok? && ConfigOf(root).value.Single? ==>
      Some(ConfigOf(root).value.sourceDir) == GetOwn(root, "source_dir") &&
      Some(ConfigOf(root).value.destinationDir) == GetOwn(root, "destination_dir")
  {
  }

  /** The listings of a single description: absent `html`, `sources` and `files` are empty,
      a lone string is a one-element list, and a non-array `sources` is an error. */
  lemma SingleListings(root: Json)
    requires root.JObject? && "batch_build" !in root.fields
    requires "source_dir" in root.fields && "destination_dir" in root.fields
    ensures "html" !in root.fields && "sources" !in root.fields && "files" !in root.fields ==>
      ConfigOf(root).Ok? && ConfigOf(root).value.html == [] && ConfigOf(root).value.sources == [] &&
      ConfigOf(root).value.files == []
    ensures ConfigOf(root).Ok? && "html" in root.fields && root.fields["html"].JString? ==>
      ConfigOf(root).value.html == [root.fields["html"].s]
    ensures ConfigOf(root).Ok? && "files" in root.fields && root.fields["files"].JString? ==>
      ConfigOf(root).value.files == [root.fields["files"].s]
    ensures "html" in root.fields && root.fields["html"].JArray? && !AllStrings(root.fields["html"].items) ==>
      ConfigOf(root) == Err(HtmlNotStrings)
    ensures (Listing(GetOwn(root, "html"), HtmlNotStrings).Ok? && "sources" in root.fields &&
      !root.fields["sources"].JArray?) ==> ConfigOf(root) == Err(SourcesNotArray)
  {
  }

  /** The batch listing keeps the kept entries and nothing else, in order. */
  lemma {:induction false} BatchListingFilters(xs: seq<Json>)
    ensures |BatchListing(xs)| <= |xs|
    ensures forall e :: e in BatchListing(xs) ==> exists x :: x in xs && BatchItem(x) == Some(e)
    ensures forall x :: x in xs && BatchItem(x).Some? ==> BatchItem(x).value in BatchListing(xs)
    decreases |xs|
  {
    if xs != [] {
      var init := xs[..|xs| - 1];
      BatchListingFilters(init);
      assert xs == init + [xs[|xs| - 1]];
      forall e | e in BatchListing(xs) ensures exists x :: x in xs && BatchItem(x) == Some(e) {
        if e in BatchListing(init) {
          var x :| x in init && BatchItem(x) == Some(e);
          assert x in xs;
        } else {
          assert BatchItem(xs[|xs| - 1]) == Some(e);
        }
      }
    }
  }

  /** A source entry whose header or variables reference does not resolve is kept
      without a header or without variables, and no error is raised for it. */
  lemma UnresolvedReferences(root: Json, x: Json)
    requires x.JObject? && root.JObject?
    requires "header" !in x.fields && "use_header" in x.fields && x.fields["use_header"].JString?
    requires "headers" !in root.fields || GetOwn(root.fields["headers"], x.fields["use_header"].s).None?
    ensures HeaderOf(root, x) == Ok(None)
  {
  }

  /** Its own `header` wins over `use_header`; a `header` of the wrong type gives no header
      and does not fall back to the reference. */
  lemma OwnHeaderWins(root: Json, x: Json)
    requires x.JObject? && "header" in x.fields
    ensures HeaderOf(root, x) == StringList(x.fields["header"], HeaderNotStrings)
  {
  }
}
