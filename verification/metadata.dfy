/**
 * Metadata and title extraction for one Markdown file: YAML front matter over
 * filesystem properties, the body without its front matter, and a title taken
 * from a leading level-1 heading or else the file name.
 */
module Metadata {
  import opened Wrappers
  import opened Errors
  import opened Text
  import opened Dicts
  import opened FileSystems

  /** What the front-matter parser gives: the front-matter mapping and the body after it. */
  datatype Post = Post(metadata: Dict, content: string)

  /** The YAML front-matter parser applied to the decoded file text; `None` where it raises. */
  type Parser = string -> Option<Post>

  const FilePropertyKeys: seq<string> := ["filename", "filepath", "modified_time", "created_time", "size"]

  /** `_extract_file_properties()`: the five properties derived from the path and `stat`. */
  function FileProperties(path: Path, stat: Stat): (d: Dict)
    ensures Keys(d) == FilePropertyKeys && UniqueKeys(d)
  {
    [ ("filename", Str(Name(path))),
      ("filepath", Str(PathString(path))),
      ("modified_time", Str(stat.modified)),
      ("created_time", Str(stat.created)),
      ("size", Int(stat.size)) ]
  }

  /** Loading the file with the parser: `None` where decoding or parsing raises. */
  function Load(file: FileData, parse: Parser): Option<Post> {
    if file.text.Some? then parse(file.text.value) else None
  }

  /** `_extract_frontmatter()`: the front matter when it parses and is not empty. */
  function FrontMatter(file: FileData, parse: Parser): (r: Option<Dict>)
    ensures r.Some? ==> r.value != []
  {
    match Load(file, parse)
    case Some(post) => if post.metadata != [] then Some(post.metadata) else None
    case None => None
  }

  /** `extract()`: the file properties overlaid with the front matter. */
  function ExtractedMetadata(path: Path, file: FileData, parse: Parser): Dict {
    match FrontMatter(file, parse)
    case Some(fm) => Update(FileProperties(path, file.stat), fm)
    case None => FileProperties(path, file.stat)
  }

  /**
   * Front matter wins: a front-matter key has its front-matter value, any
   * other key its file-property value; the five property keys come first, then
   * the new front-matter keys in their order.
   */
  lemma ExtractFrontMatterWins(path: Path, file: FileData, parse: Parser, k: string)
    requires FrontMatter(file, parse).Some?
    requires UniqueKeys(FrontMatter(file, parse).value)
    ensures var fm := FrontMatter(file, parse).value;
            Get(ExtractedMetadata(path, file, parse), k)
            == if k in Keys(fm) then Get(fm, k) else Get(FileProperties(path, file.stat), k)
    ensures var fm := FrontMatter(file, parse).value;
            Keys(ExtractedMetadata(path, file, parse)) == FilePropertyKeys + NewKeys(FilePropertyKeys, Keys(fm))
  {
    var fm := FrontMatter(file, parse).value;
    UpdateGet(FileProperties(path, file.stat), fm, k);
    UpdateKeys(FileProperties(path, file.stat), fm);
  }

  /** Without usable front matter, exactly the five file properties, in order. */
  lemma ExtractWithoutFrontMatter(path: Path, file: FileData, parse: Parser)
    requires Load(file, parse).None? || Load(file, parse).value.metadata == []
    ensures Keys(ExtractedMetadata(path, file, parse)) == FilePropertyKeys
    ensures ExtractedMetadata(path, file, parse) == FileProperties(path, file.stat)
  {
  }

  /** `get_content()`: the body after the front matter, else the raw text; undecodable text raises. */
  function Body(file: FileData, parse: Parser): Result<string, Error> {
    match Load(file, parse)
    case Some(post) => Success(post.content)
    case None => if file.text.Some? then Success(file.text.value) else Failure(DecodeError)
  }

  // ---------------------------------------------------------------- titles

  /** A line the title scan passes over: once stripped, blank or a `#` line that is not `"# "`. */
  predicate Skippable(line: string) {
    var s := Strip(line);
    s == [] || ("#" <= s && !("# " <= s))
  }

  /** The text of a level-1 heading line: what follows `"# "`, stripped. */
  function HeadingText(line: string): string
    requires "# " <= line
  {
    Strip(line[2..])
  }

  /** The scan of `get_title()` over the lines: the first `"# "` line, stopping at body text. */
  function TitleScan(lines: seq<string>): Option<string> {
    if lines == [] then None
    else
      var line := Strip(lines[0]);
      if "# " <= line then Some(HeadingText(line))
      else if line != [] && !("#" <= line) then None
      else TitleScan(lines[1..])
  }

  /** Index of the first line from `k` on that the title scan does not pass over. */
  function FirstUnskippableFrom(lines: seq<string>, k: nat): (i: nat)
    requires k <= |lines|
    ensures k <= i <= |lines|
    ensures forall j :: k <= j < i ==> Skippable(lines[j])
    ensures i < |lines| ==> !Skippable(lines[i])
    decreases |lines| - k
  {
    if k == |lines| || !Skippable(lines[k]) then k else FirstUnskippableFrom(lines, k + 1)
  }

  /** Index of the first line that the title scan does not pass over. */
  function FirstUnskippable(lines: seq<string>): (i: nat)
    ensures i <= |lines|
    ensures forall j :: 0 <= j < i ==> Skippable(lines[j])
    ensures i < |lines| ==> !Skippable(lines[i])
  {
    FirstUnskippableFrom(lines, 0)
  }

  /**
   * The title scan, stated without the loop: the first line that is neither
   * blank nor a non-H1 `#` line decides; it gives the title when it starts with
   * `"# "`, and otherwise stops the scan with no title.
   */
  lemma TitleScanCharacterised(lines: seq<string>)
    ensures var i := FirstUnskippable(lines);
            TitleScan(lines) == if i < |lines| && "# " <= Strip(lines[i]) then Some(HeadingText(Strip(lines[i]))) else None
  {
    TitleScanFrom(lines, 0);
    assert lines[0..] == lines;
  }

  /** The title scan over the lines from `k` on. */
  lemma {:induction false} TitleScanFrom(lines: seq<string>, k: nat)
    requires k <= |lines|
    ensures var i := FirstUnskippableFrom(lines, k);
            TitleScan(lines[k..]) == if i < |lines| && "# " <= Strip(lines[i]) then Some(HeadingText(Strip(lines[i]))) else None
    decreases |lines| - k
  {
    if k < |lines| {
      var rest := lines[k..];
      assert rest[0] == lines[k];
      if Skippable(lines[k]) {
        TitleScanFrom(lines, k + 1);
        assert rest[1..] == lines[k + 1..];
      }
    }
  }

  /** `get_title()` on a body: the title found by the scan, else the file stem. */
  function TitleOf(content: string, stem: string): string {
    TitleScan(Split(Strip(content), '\n')).GetOr(stem)
  }

  /** An empty body yields the stem. */
  lemma TitleOfEmpty(stem: string)
    ensures TitleOf("", stem) == stem
  {
    assert Strip("") == "";
    assert Split("", '\n') == [""];
    assert TitleScan([""]) == TitleScan([]);
  }

  /**
   * The extractor for one file. `post` caches the parsed file; whenever it is
   * set, it is what parsing the file gives, so every reading method returns
   * the same result however often it is called.
   */
  class MetadataExtractor {
    const path: Path
    const file: FileData
    const parse: Parser
    var post: Option<Post>

    ghost predicate Valid()
      reads this
    {
      post == None || post == Load(file, parse)
    }

    constructor (path: Path, file: FileData, parse: Parser)
      ensures Valid() && post == None
      ensures this.path == path && this.file == file && this.parse == parse
    {
      this.path := path;
      this.file := file;
      this.parse := parse;
      post := None;
    }

    /** `_extract_frontmatter()`: caches the parsed file when it parses. */
    method ExtractFrontMatter() returns (fm: Option<Dict>)
      requires Valid()
      modifies this`post
      ensures Valid()
      ensures fm == FrontMatter(file, parse)
      ensures post == if Load(file, parse).Some? then Load(file, parse) else old(post)
    {
      var loaded := Load(file, parse);
      if loaded.Some? {
        post := loaded;
        if loaded.value.metadata != [] {
          return Some(loaded.value.metadata);
        }
      }
      return None;
    }

    /** `extract()` */
    method Extract() returns (m: Dict)
      requires Valid()
      modifies this`post
      ensures Valid()
      ensures m == ExtractedMetadata(path, file, parse)
      ensures post == if Load(file, parse).Some? then Load(file, parse) else old(post)
    {
      m := FileProperties(path, file.stat);
      var fm := ExtractFrontMatter();
      if fm.Some? {
        m := Update(m, fm.value);
      }
    }

    /** `get_content()`: the same body on every call, whether or not the parse is cached. */
    method GetContent() returns (r: Result<string, Error>)
      requires Valid()
      modifies this`post
      ensures Valid()
      ensures r == Body(file, parse)
      ensures post == if old(post).Some? then old(post) else Load(file, parse)
    {
      if post.None? {
        var loaded := Load(file, parse);
        if loaded.None? {
          if file.text.None? {
            return Failure(DecodeError);
          }
          return Success(file.text.value);
        }
        post := loaded;
      }
      return Success(post.value.content);
    }

    /** `get_title()` */
    method GetTitle() returns (r: Result<string, Error>)
      requires Valid()
      modifies this`post
      ensures Valid()
      ensures r == match Body(file, parse)
                   case Success(content) => Success(TitleOf(content, Stem(path)))
                   case Failure(e) => Failure(e)
      ensures post == if old(post).Some? then old(post) else Load(file, parse)
    {
      var content := GetContent();
      if content.Failure? {
        return Failure(content.error);
      }
      return Success(TitleOf(content.value, Stem(path)));
    }
  }

  /** `MarkdownMetadataExtractor(path)`: raises ValueError unless `path` is a regular file. */
  method NewExtractor(fs: FileSystem, path: Path, parse: Parser) returns (r: Result<MetadataExtractor, Error>)
    ensures path !in fs.files <==> r.Failure?
    ensures r.Failure? ==> r.error.ValueError?
    ensures r.Success? ==> && fresh(r.value) && r.value.Valid() && r.value.post == None
                           && r.value.path == path && r.value.file == fs.files[path] && r.value.parse == parse
  {
    if path !in fs.files {
      return Failure(ValueError("File does not exist: " + PathString(path)));
    }
    var extractor := new MetadataExtractor(path, fs.files[path], parse);
    return Success(extractor);
  }
}
