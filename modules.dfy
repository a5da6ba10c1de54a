/** The `Module` record a user's configuration declares. */
module SysModules {
  import opened Variables

  /** A file entry: a path inside the dotfiles directory to link, or a
      generator of the file's contents from the variable store. */
  datatype FileSource = Link(path: string) | Generate(gen: Vars -> string)

  /** `Module`. The records whose order is observable (`Object.entries`)
      are sequences of pairs in declaration order. */
  datatype Module = Module(
    name: string,
    variables: Vars,
    packages: seq<(string, seq<string>)>,
    directories: seq<(string, string)>,
    files: seq<(string, FileSource)>)
}
