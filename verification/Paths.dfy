/** File names and extensions of Unix paths, as `std::path::Path` reads them. */
module Paths {
  import opened Options

  /** Trailing separators and trailing `.` components do not count. */
  function TrimEnd(path: string): string {
    if |path| > 1 && path[|path| - 1] == '/' then TrimEnd(path[..|path| - 1])
    else if |path| > 1 && path[|path| - 2..] == "/." then TrimEnd(path[..|path| - 1])
    else path
  }

  /** Where the last component starts. */
  function NameStart(path: string): (i: nat)
    ensures i <= |path|
  {
    if path == "" || path[|path| - 1] == '/' then |path| else NameStart(path[..|path| - 1])
  }

  function FileName(path: string): Option<string> {
    var trimmed := TrimEnd(path);
    var name := trimmed[NameStart(trimmed)..];
    if name == "" || name == "." || name == ".." then None else Some(name)
  }

  function LastDot(name: string): Option<nat> {
    if name == "" then None
    else if name[|name| - 1] == '.' then Some(|name| - 1)
    else LastDot(name[..|name| - 1])
  }

  /** None without a dot, or when the only dot comes first. */
  function Extension(path: string): Option<string> {
    var name := FileName(path);
    if name.None? then None
    else
      match LastDot(name.value)
      case Some(i) => if i == 0 || i >= |name.value| then None else Some(name.value[i + 1..])
      case None => None
  }

  function Stem(name: string): string {
    match LastDot(name)
    case Some(i) => if i == 0 || i >= |name| then name else name[..i]
    case None => name
  }

  function WithExtension(path: string, extension: string): string {
    var name := FileName(path);
    if name.None? then path
    else
      var trimmed := TrimEnd(path);
      var dir := TrimEnd(trimmed[..NameStart(trimmed)]);
      var file := Stem(name.value) + "." + extension;
      if dir == "" then file
      else if dir[|dir| - 1] == '/' then dir + file
      else dir + "/" + file
  }
}
