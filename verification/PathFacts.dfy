/** File names, extensions and replaced extensions, from the parts of a path. */
module PathFacts {
  import opened Options
  import opened Paths

  // ----- File names -----

  predicate PlainName(name: string) {
    name != "" && name != "." && name != ".." && '/' !in name
  }

  lemma {:induction false} NameStartsAfterSlash(dir: string, name: string)
    requires '/' !in name
    ensures NameStart(dir + "/" + name) == |dir| + 1
    decreases |name|
  {
    var path := dir + "/" + name;
    if name != "" {
      assert path[..|path| - 1] == dir + "/" + name[..|name| - 1];
      NameStartsAfterSlash(dir, name[..|name| - 1]);
      assert name[|name| - 1] in name;
    }
  }

  lemma {:induction false} NameStartsAlone(name: string)
    requires '/' !in name
    ensures NameStart(name) == 0
    decreases |name|
  {
    if name != "" {
      NameStartsAlone(name[..|name| - 1]);
      assert name[|name| - 1] in name;
    }
  }

  lemma {:induction false} NothingToTrim(path: string, name: string)
    requires PlainName(name) && (path == name || (|path| > |name| && path[|path| - |name| - 1..] == "/" + name))
    ensures TrimEnd(path) == path
  {
    assert path[|path| - 1] == name[|name| - 1] && name[|name| - 1] in name;
    assert |name| > 1 ==> name[|name| - 2] == path[|path| - 2] && name[|name| - 2] in name;
  }

  /** The file name is what follows the last slash. */
  lemma {:induction false} FileNameOf(dir: string, name: string)
    requires PlainName(name)
    ensures FileName(dir + "/" + name) == Some(name) && FileName(name) == Some(name)
  {
    var path := dir + "/" + name;
    NameStartsAfterSlash(dir, name);
    NameStartsAlone(name);
    assert path[|path| - |name| - 1..] == "/" + name;
    NothingToTrim(path, name);
    NothingToTrim(name, name);
    assert path[|dir| + 1..] == name && name[0..] == name;
  }

  // ----- Extensions -----

  /** A file name with a stem and an extension. */
  predicate Parts(stem: string, extension: string) {
    PlainName(stem + "." + extension) && stem != "" && '.' !in extension
  }

  lemma {:induction false} LastDotAt(stem: string, extension: string)
    requires '.' !in extension
    ensures LastDot(stem + "." + extension) == Some(|stem|)
    decreases |extension|
  {
    var name := stem + "." + extension;
    if extension != "" {
      assert name[..|name| - 1] == stem + "." + extension[..|extension| - 1];
      LastDotAt(stem, extension[..|extension| - 1]);
      assert extension[|extension| - 1] in extension;
    }
  }

  /** The extension is what follows the last dot of the file name. */
  lemma {:induction false} ExtensionOf(dir: string, stem: string, extension: string)
    requires Parts(stem, extension)
    ensures Extension(dir + "/" + (stem + "." + extension)) == Some(extension)
    ensures Extension(stem + "." + extension) == Some(extension)
  {
    FileNameOf(dir, stem + "." + extension);
    LastDotAt(stem, extension);
    assert (stem + "." + extension)[|stem| + 1..] == extension;
  }

  lemma {:induction false} StemOf(stem: string, extension: string)
    requires stem != "" && '.' !in extension
    ensures Stem(stem + "." + extension) == stem
  {
    LastDotAt(stem, extension);
    assert (stem + "." + extension)[..|stem|] == stem;
  }

  lemma {:induction false} TrimDir(dir: string)
    requires TrimEnd(dir) == dir && (dir == "" || dir[|dir| - 1] != '/')
    ensures TrimEnd(dir + "/") == if dir == "" then "/" else dir
  {
    assert (dir + "/")[..|dir|] == dir;
  }

  lemma {:induction false} NameWithExtension(stem: string, extension: string, other: string)
    requires Parts(stem, extension)
    ensures WithExtension(stem + "." + extension, other) == stem + "." + other
  {
    var name := stem + "." + extension;
    FileNameOf("", name);
    StemOf(stem, extension);
    NameStartsAlone(name);
    NothingToTrim(name, name);
    assert name[..0] == "";
  }

  /** Another extension, in the same directory. */
  lemma {:induction false} WithExtensionOf(dir: string, stem: string, extension: string, other: string)
    requires Parts(stem, extension) && TrimEnd(dir) == dir && (dir == "" || dir[|dir| - 1] != '/')
    ensures WithExtension(dir + "/" + (stem + "." + extension), other) == dir + "/" + (stem + "." + other)
  {
    var name := stem + "." + extension;
    StemOf(stem, extension);
    InDirectory(dir, name, stem + "." + other, other);
  }

  lemma {:induction false} Replaced(path: string, dir: string, name: string, file: string, other: string)
    requires FileName(path) == Some(name) && TrimEnd(path) == path && file == Stem(name) + "." + other
    requires TrimEnd(path[..NameStart(path)]) == dir
    ensures WithExtension(path, other)
         == if dir == "" then file else if dir[|dir| - 1] == '/' then dir + file else dir + "/" + file
  {
  }

  lemma {:induction false} InDirectory(dir: string, name: string, file: string, other: string)
    requires PlainName(name) && TrimEnd(dir) == dir && (dir == "" || dir[|dir| - 1] != '/')
    requires file == Stem(name) + "." + other
    ensures WithExtension(dir + "/" + name, other) == dir + "/" + file
  {
    var path := dir + "/" + name;
    FileNameOf(dir, name);
    NameStartsAfterSlash(dir, name);
    PathParts(dir, name);
    NothingToTrim(path, name);
    TrimDir(dir);
    if dir == "" {
      Replaced(path, "/", name, file, other);
    } else {
      Replaced(path, dir, name, file, other);
    }
  }

  lemma {:induction false} PathParts(dir: string, name: string)
    ensures
      var path := dir + "/" + name;
      path[..|dir| + 1] == dir + "/" && path[|path| - |name| - 1..] == "/" + name
  {
  }
}
