/** What a compiler command line is parsed into, for every compiler kind. */
module CompilerArguments {
  import opened Options

  datatype ParsedArguments = ParsedArguments(
    input: string,
    extension: string,
    depfile: Option<string>,
    outputs: map<string, string>,
    preprocessorArgs: seq<string>,
    commonArgs: seq<string>)

  datatype Parsed =
    | Accepted(args: ParsedArguments)
    | CannotCache
    | NotCompilation

  const OBJ := "obj"
  const DWO := "dwo"
  const PDB := "pdb"

  /** The names under which outputs are cached. */
  predicate OutputNames(names: set<string>) {
    OBJ in names && names <= {OBJ, DWO, PDB}
  }
}
