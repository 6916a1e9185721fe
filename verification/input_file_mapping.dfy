/** The mapping handed to the configuration generator: for every input name,
    the ordered list of its generated file paths. Names keep the order of
    their first registration, as the keys of a Python dict do. The mapping
    only grows: a path is appended, never removed. */
module InputFileMapping {

  datatype FileMapping = FileMapping(names: seq<string>, paths: map<string, seq<string>>)

  /** Every registered name once, and exactly the names that have a list. */
  ghost predicate Valid(m: FileMapping) {
    && (forall i, j :: 0 <= i < j < |m.names| ==> m.names[i] != m.names[j])
    && (forall name :: name in m.paths <==> name in m.names)
  }

  function Empty(): (m: FileMapping)
    ensures Valid(m)
    ensures forall name :: Get(m, name) == []
  {
    FileMapping([], map[])
  }

  /** The paths registered for `name`; none for a name never seen. */
  function Get(m: FileMapping, name: string): seq<string> {
    if name in m.paths then m.paths[name] else []
  }

  /** Appends `path` to the list of `name`, creating the list on first use. */
  function AddInputFile(m: FileMapping, name: string, path: string): (r: FileMapping)
    ensures Valid(m) ==> Valid(r)
    ensures Get(r, name) == Get(m, name) + [path]
    ensures forall other :: other != name ==> Get(r, other) == Get(m, other)
    ensures r.paths.Keys == m.paths.Keys + {name}
    ensures Valid(m) ==> r.names == if name in m.paths then m.names else m.names + [name]
  {
    var names := if name in m.paths then m.names else m.names + [name];
    FileMapping(names, m.paths[name := Get(m, name) + [path]])
  }
}
