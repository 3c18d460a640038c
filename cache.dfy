/** The parsed-XML memo table of the exporter (`XMLCache`). The file system is
    a value `fs` from paths (as component sequences) to file contents. */
module Cache {
  import opened Wrappers
  import opened Xml

  /** A path as its components, e.g. `[base, project, file_name]`. */
  type Path = seq<string>

  /** What a path on disk holds, as far as `etree.parse` is concerned. */
  datatype FileContent = Parsable(root: Element) | Unparsable(message: string)

  type FileSystem = map<Path, FileContent>

  /** `_path_of_file`: `base_path / project / file_name`. */
  function PathOfFile(basePath: Path, project: string, fileName: string): (r: Path)
    ensures |r| == |basePath| + 2 && r[..|basePath|] == basePath
    ensures r[|basePath|] == project && r[|basePath| + 1] == fileName
  {
    basePath + [project, fileName]
  }

  lemma PathOfFileInjective(basePath: Path, p1: string, f1: string, p2: string, f2: string)
    requires PathOfFile(basePath, p1, f1) == PathOfFile(basePath, p2, f2)
    ensures p1 == p2 && f1 == f2
  {
    assert PathOfFile(basePath, p1, f1)[|basePath|] == p1;
    assert PathOfFile(basePath, p1, f1)[|basePath| + 1] == f1;
  }

  /** What `parse_xml` produces for a key that is not cached yet. */
  function ParseFromDisk(fs: FileSystem, basePath: Path, project: string, fileName: string): (r: Result<Element, PyError>)
    ensures PathOfFile(basePath, project, fileName) !in fs ==>
      r == Err(FileNotFoundError(Join(PathOfFile(basePath, project, fileName))))
    ensures r.Ok? <==> PathOfFile(basePath, project, fileName) in fs && fs[PathOfFile(basePath, project, fileName)].Parsable?
    ensures r.Ok? ==> fs[PathOfFile(basePath, project, fileName)] == Parsable(r.value)
  {
    var path := PathOfFile(basePath, project, fileName);
    if path !in fs then Err(FileNotFoundError(Join(path)))
    else match fs[path]
      case Parsable(root) => Ok(root)
      case Unparsable(msg) => Err(ParseError(msg))
  }

  /** A path printed with '/' separators, for error messages. */
  function Join(p: Path): string
  {
    if |p| == 0 then "" else if |p| == 1 then p[0] else p[0] + "/" + Join(p[1..])
  }

  class XmlCache {
    const basePath: Path
    var cache: map<(string, string), Element>

    /** Every cached tree is the parse of its file on disk. */
    ghost predicate ConsistentWith(fs: FileSystem)
      reads this
    {
      forall k :: k in cache ==>
        PathOfFile(basePath, k.0, k.1) in fs && fs[PathOfFile(basePath, k.0, k.1)] == Parsable(cache[k])
    }

    /** A new cache is empty. */
    constructor (basePath: Path)
      ensures this.basePath == basePath && cache == map[]
    {
      this.basePath := basePath;
      cache := map[];
    }

    /** `parse_xml`: a hit returns the stored tree without touching the disk; a
        miss parses the file and stores it under exactly (project, file_name);
        a missing file or a failing parse raises and stores nothing. */
    method ParseXml(project: string, fileName: string, fs: FileSystem) returns (r: Result<Element, PyError>)
      modifies this
      ensures (project, fileName) in old(cache) ==> r == Ok(old(cache)[(project, fileName)]) && cache == old(cache)
      ensures (project, fileName) !in old(cache) ==> r == ParseFromDisk(fs, basePath, project, fileName)
      ensures (project, fileName) !in old(cache) && r.Ok? ==> cache == old(cache)[(project, fileName) := r.value]
      ensures r.Err? ==> cache == old(cache)
      ensures forall k :: k in old(cache) ==> k in cache && cache[k] == old(cache)[k]
      ensures old(ConsistentWith(fs)) ==> ConsistentWith(fs)
    {
      if (project, fileName) in cache {
        return Ok(cache[(project, fileName)]);
      }
      var path := PathOfFile(basePath, project, fileName);
      if path !in fs {
        return Err(FileNotFoundError(Join(path)));
      }
      match fs[path]
      case Unparsable(msg) =>
        return Err(ParseError(msg));
      case Parsable(root) =>
        cache := cache[(project, fileName) := root];
        return Ok(root);
    }
  }

  /** Under a consistent cache, a lookup gives the same tree the disk does, so
      whether a key was cached or not cannot be observed in the result. */
  lemma CachedAgreesWithDisk(c: map<(string, string), Element>, fs: FileSystem, basePath: Path, project: string, fileName: string)
    requires forall k :: k in c ==>
      PathOfFile(basePath, k.0, k.1) in fs && fs[PathOfFile(basePath, k.0, k.1)] == Parsable(c[k])
    requires (project, fileName) in c
    ensures ParseFromDisk(fs, basePath, project, fileName) == Ok(c[(project, fileName)])
  {
    var k := (project, fileName);
    assert PathOfFile(basePath, k.0, k.1) in fs;
  }
}
