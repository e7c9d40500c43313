/** The few `pathlib` operations the bot uses, on normalised POSIX path
    strings (no trailing '/', no repeated '/'). */
module Paths {
  import opened Wrappers
  import opened Text

  /** `Path(p).name`: the final component, after the last '/'. */
  function Name(path: string): (r: string)
    ensures '/' !in r
    ensures |r| <= |path| && r == path[|path| - |r|..]
  {
    match LastIndexOf(path, '/')
    case None => path
    case Some(i) => path[i + 1..]
  }

  /** `Path(p).stem`: the final component without its last suffix; a dot that
      starts or ends the name does not begin a suffix. */
  function Stem(path: string): (r: string)
    ensures '/' !in r
    ensures |r| <= |Name(path)| && r == Name(path)[..|r|]
    ensures |r| < |Name(path)| ==> Name(path)[|r|] == '.' && '.' !in Name(path)[|r| + 1..]
    ensures |r| < |Name(path)| ==> 0 < |r| < |Name(path)| - 1
    ensures (exists i :: 0 < i < |Name(path)| - 1 && Name(path)[i] == '.' && '.' !in Name(path)[i + 1..]) ==>
      |r| < |Name(path)|
  {
    var name := Name(path);
    match LastIndexOf(name, '.')
    case None => name
    case Some(i) => if 0 < i < |name| - 1 then name[..i] else name
  }

  /** `Path(dir) / name`. */
  function Child(dir: string, name: string): string {
    dir + "/" + name
  }

  /** A file named `<base>.<ext>` has stem `<base>`. */
  lemma StemOfFileName(base: string, ext: string)
    requires base != [] && '/' !in base
    requires ext != [] && '/' !in ext && '.' !in ext
    ensures Stem(base + "." + ext) == base
  {
    var name := base + "." + ext;
    assert '/' !in name;
    assert Name(name) == name;
    assert LastIndexOf(name, '.') == Some(|base|) by {
      assert name[|base|] == '.';
      assert name[|base| + 1..] == ext;
    }
    assert name[..|base|] == base;
  }

  /** A file written into a directory as `<base>.<ext>` has stem `<base>`. */
  lemma StemOfChild(dir: string, base: string, ext: string)
    requires base != [] && '/' !in base
    requires ext != [] && '/' !in ext && '.' !in ext
    ensures Stem(Child(dir, base + "." + ext)) == base
  {
    var name := base + "." + ext;
    var path := Child(dir, name);
    assert path == (dir + "/") + name;
    assert '/' !in name;
    assert LastIndexOf(path, '/') == Some(|dir|) by {
      assert path[|dir|] == '/';
      assert path[|dir| + 1..] == name;
    }
    assert Name(path) == name;
    StemOfFileName(base, ext);
  }
}
