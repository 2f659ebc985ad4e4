/**
 * The résumé loader: a structured document read from one file and kept in
 * memory until the file's modification time changes.
 */
module Resume {
  import opened Wrappers
  import opened Strings
  import opened Paths

  /** A parsed document: the values YAML and JSON loaders produce; `Null` is Python's `None`. */
  datatype Doc =
    | Null
    | Bool(b: bool)
    | Int(i: int)
    | Float(x: real)
    | Str(s: string)
    | Arr(elems: seq<Doc>)
    | Obj(fields: map<string, Doc>)

  /** The empty mapping `{}`. */
  const EmptyDoc: Doc := Obj(map[])

  /** Python truthiness of a parsed value, as `or` tests it. */
  predicate DocTruthy(d: Doc)
  {
    match d
    case Null => false
    case Bool(b) => b
    case Int(i) => i != 0
    case Float(x) => x != 0.0
    case Str(s) => s != []
    case Arr(elems) => elems != []
    case Obj(fields) => fields != map[]
  }

  /** A loader from file text to a document; an error stands for the exception it raises. */
  type Parser = string -> Result<Doc, string>

  /** What the file system reports about the résumé file at the moment of a load. */
  datatype FileState = Missing | Present(mtime: int, contents: string)

  /** The file is read as YAML when its suffix is `.yaml` or `.yml` in any letter case. */
  predicate IsYamlPath(path: string)
  {
    Lower(Suffix(path)) in {".yaml", ".yml"}
  }

  /**
   * A file whose extension is `.yaml` or `.yml`, in any letter case, is
   * read as YAML, whatever its stem.
   */
  lemma YamlExtensionIsYaml(stem: string, ext: string)
    requires stem != [] && '/' !in stem
    requires Lower(ext) == ".yaml" || Lower(ext) == ".yml"
    ensures IsYamlPath(stem + ext)
  {
    var low := Lower(ext);
    forall i | 0 <= i < |ext|
      ensures ext[i] != '/'
      ensures (ext[i] == '.') == (i == 0)
    {
      assert low[i] == LowerChar(ext[i]);
      assert low[i] != '/' && ((low[i] == '.') == (i == 0));
    }
    assert '.' !in ext[1..] by {
      forall c | c in ext[1..] ensures c != '.' {
        var j :| 0 <= j < |ext[1..]| && ext[1..][j] == c;
        assert c == ext[j + 1];
      }
    }
    SuffixOfFileName(stem, ext);
  }

  /** The loader object: the path and the two parsers are fixed; the cache pair changes. */
  class ResumeLoader {
    const path: string
    const yamlLoad: Parser
    const jsonLoad: Parser
    var cache: Doc
    var lastMtime: Option<int>
    /** How many times the file has been parsed: the work the cache saves. */
    ghost var parses: nat

    constructor (path: string, yamlLoad: Parser, jsonLoad: Parser)
      ensures this.path == path && this.yamlLoad == yamlLoad && this.jsonLoad == jsonLoad
      ensures cache == Null && lastMtime == None && parses == 0
    {
      this.path := path;
      this.yamlLoad := yamlLoad;
      this.jsonLoad := jsonLoad;
      cache := Null;
      lastMtime := None;
      parses := 0;
    }

    /**
     * Parsing the file text by its suffix: YAML with a falsy result replaced
     * by `{}`, so a YAML document is never `None`; JSON as the loader gives it.
     */
    function Parse(contents: string): (r: Result<Doc, string>)
      ensures IsYamlPath(path) ==>
        (r.Ok? <==> yamlLoad(contents).Ok?) &&
        (r.Ok? ==> r.value != Null && (DocTruthy(r.value) || r.value == EmptyDoc))
    ensures IsYamlPath(path) && yamlLoad(contents).Ok? ==>
      r == Ok(if DocTruthy(yamlLoad(contents).value) then yamlLoad(contents).value else EmptyDoc)
    ensures IsYamlPath(path) && yamlLoad(contents).Err? ==> r == Err(yamlLoad(contents).error)
      ensures !IsYamlPath(path) ==> r == jsonLoad(contents)
    {
      if IsYamlPath(path) then
        match yamlLoad(contents)
        case Ok(d) => Ok(if DocTruthy(d) then d else EmptyDoc)
        case Err(e) => Err(e)
      else
        jsonLoad(contents)
    }

    /** The cached document may be returned for a file with this modification time. */
    predicate IsFresh(mtime: int)
      reads this
    {
      cache != Null && lastMtime == Some(mtime)
    }

    /**
     * `load()`: `{}` for a missing file, leaving the cache alone; the cached
     * document when one is held for the current modification time; otherwise
     * the file is parsed and, if that succeeds, the result and the time are
     * cached. A parse error is passed to the caller and caches nothing.
     */
    method Load(file: FileState) returns (r: Result<Doc, string>)
      modifies this`cache, this`lastMtime, this`parses
      ensures file.Missing? ==>
        r == Ok(EmptyDoc) && cache == old(cache) && lastMtime == old(lastMtime) && parses == old(parses)
      ensures file.Present? && old(IsFresh(file.mtime)) ==>
        r == Ok(old(cache)) && cache == old(cache) && lastMtime == old(lastMtime) && parses == old(parses)
      ensures file.Present? && !old(IsFresh(file.mtime)) ==>
        && r == Parse(file.contents)
        && parses == old(parses) + 1
        && (r.Ok? ==> cache == r.value && lastMtime == Some(file.mtime))
        && (r.Err? ==> cache == old(cache) && lastMtime == old(lastMtime))
    {
      if file.Missing? {
        return Ok(EmptyDoc);
      }
      var mtime := file.mtime;
      if cache != Null && lastMtime == Some(mtime) {
        return Ok(cache);
      }
      parses := parses + 1;
      r := Parse(file.contents);
      if r.Ok? {
        cache := r.value;
        lastMtime := Some(mtime);
      }
    }
  }

  /**
   * Two loads of an unchanged file parse it at most once, and return the
   * same document, provided the first load succeeded with something other
   * than `null` (a JSON file holding `null` is parsed again every time).
   */
  method LoadTwice(loader: ResumeLoader, file: FileState) returns (first: Result<Doc, string>, second: Result<Doc, string>)
    modifies loader
    ensures first.Ok? && first.value != Null ==> second == first && loader.parses <= old(loader.parses) + 1
  {
    first := loader.Load(file);
    second := loader.Load(file);
  }

  /** A changed modification time always makes the next load parse the file. */
  method LoadAfterTouch(loader: ResumeLoader, file: FileState, touched: FileState)
    returns (first: Result<Doc, string>, second: Result<Doc, string>)
    modifies loader
    ensures file.Present? && touched.Present? && touched.mtime != file.mtime && first.Ok? ==>
      && second == loader.Parse(touched.contents)
      && loader.parses == old(loader.parses) + (if old(loader.IsFresh(file.mtime)) then 1 else 2)
  {
    first := loader.Load(file);
    second := loader.Load(touched);
  }
}
