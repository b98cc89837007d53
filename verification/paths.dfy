/** Filesystem paths, kept symbolic: a path is either the text it was built
    from or a base path joined with one relative component. */
module Paths {

  datatype Path =
    | FromText(text: string)
    | Join(base: Path, name: string)
}
