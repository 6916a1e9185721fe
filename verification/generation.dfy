/** The generation loop: for each index `idx` of `zip(range(count), samples)`
    the bound tokenizer turns the sample into named arrays, the k-th array is
    paired with the k-th model data type, dumped to `{name}_{idx:03d}.bin` and
    registered under its name. The loop is modelled as the list of writes it
    performs, in order, and its effect as two folds over that list: the files
    of the binary dataset directory and the input-file mapping. */
module Generation {
  import opened NetworkInputs
  import opened BinaryEncoding
  import opened FileNames
  import opened InputFileMapping
  import CountPlanning

  /** One named tokenizer output. */
  datatype NamedArray = NamedArray(name: string, data: seq<int>)

  /** The tokenizer with its shape-derived arguments already bound: one text
      sample to its named outputs, in the tokenizer's own order. */
  type Tokenizer = string -> seq<NamedArray>

  /** Where the file of an input name at an index goes. */
  type Namer = (string, nat) -> string

  /** The job's naming: `{name}_{idx:03d}.bin` inside the binary dataset directory. */
  function DirectoryNamer(dir: string): Namer {
    (name: string, idx: nat) => PathOf(dir, name, idx)
  }

  /** Distinct (name, index) pairs get distinct paths. */
  ghost predicate Injective(pathOf: Namer) {
    forall a, i, b, j :: pathOf(a, i) == pathOf(b, j) ==> a == b && i == j
  }

  lemma DirectoryNamerInjective(dir: string)
    ensures Injective(DirectoryNamer(dir))
  {
    forall a, i, b, j | DirectoryNamer(dir)(a, i) == DirectoryNamer(dir)(b, j)
      ensures a == b && i == j
    {
      PathInjective(dir, a, i, b, j);
    }
  }

  /** One file written by the loop and registered under `name`. */
  datatype Write = Write(name: string, index: nat, path: string, contents: seq<Byte>)

  predicate Distinct(names: seq<string>) {
    forall i, j :: 0 <= i < j < |names| ==> names[i] != names[j]
  }

  /** How many times the loop body runs: `zip` stops at the shorter of
      `range(count)` and the samples. */
  function Iterations(count: int, available: nat): (n: nat)
    ensures n <= available
    ensures count <= 0 ==> n == 0
    ensures count > 0 ==> n <= count && (n == count || n == available)
  {
    if count <= 0 then 0 else CountPlanning.Min(count, available)
  }

  /** The writes of one iteration: outputs and data types zipped by position,
      so that surplus entries on either side are dropped. */
  function SampleWrites(pathOf: Namer, idx: nat, items: seq<NamedArray>, types: seq<ElementType>): (ws: seq<Write>)
    ensures |ws| == CountPlanning.Min(|items|, |types|)
    ensures forall k :: 0 <= k < |ws| ==> ws[k].name == items[k].name && ws[k].index == idx
    ensures forall k :: 0 <= k < |ws| ==> ws[k].path == pathOf(items[k].name, idx)
    ensures forall k :: 0 <= k < |ws| ==> ws[k].contents == EncodeArray(items[k].data, types[k])
    decreases |items|
  {
    if |items| == 0 || |types| == 0 then []
    else
      var item := items[0];
      var rest := SampleWrites(pathOf, idx, items[1..], types[1..]);
      [Write(item.name, idx, pathOf(item.name, idx), EncodeArray(item.data, types[0]))] + rest
  }

  /** The writes of the first `n` iterations, in the order the loop makes them. */
  function Writes(pathOf: Namer, samples: seq<string>, tokenize: Tokenizer, types: seq<ElementType>, n: nat): (ws: seq<Write>)
    requires n <= |samples|
  {
    if n == 0 then []
    else
      var front := Writes(pathOf, samples, tokenize, types, n - 1);
      var last := SampleWrites(pathOf, n - 1, tokenize(samples[n - 1]), types);
      front + last
  }

  /** The paths registered under `name` by a list of writes, in order. */
  function PathsFor(ws: seq<Write>, name: string): seq<string> {
    if |ws| == 0 then []
    else
      var w := ws[|ws| - 1];
      PathsFor(ws[..|ws| - 1], name) + (if w.name == name then [w.path] else [])
  }

  /** The mapping after `add_input_file` for every write in turn. */
  function Register(ws: seq<Write>): (m: FileMapping)
    ensures Valid(m)
    ensures forall name :: Get(m, name) == PathsFor(ws, name)
    ensures m.paths.Keys == WrittenNames(ws)
  {
    if |ws| == 0 then Empty()
    else
      var w := ws[|ws| - 1];
      AddInputFile(Register(ws[..|ws| - 1]), w.name, w.path)
  }

  /** The names of a list of writes. */
  function WrittenNames(ws: seq<Write>): (names: set<string>)
    ensures forall p :: 0 <= p < |ws| ==> ws[p].name in names
  {
    if |ws| == 0 then {} else WrittenNames(ws[..|ws| - 1]) + {ws[|ws| - 1].name}
  }

  /** The paths of a list of writes. */
  function WrittenPaths(ws: seq<Write>): (paths: set<string>)
    ensures forall p :: 0 <= p < |ws| ==> ws[p].path in paths
  {
    if |ws| == 0 then {} else WrittenPaths(ws[..|ws| - 1]) + {ws[|ws| - 1].path}
  }

  /** The directory contents after every write in turn; a later write to the
      same path would overwrite an earlier one. */
  function WriteFiles(ws: seq<Write>): (files: map<string, seq<Byte>>)
    ensures files.Keys == WrittenPaths(ws)
  {
    if |ws| == 0 then map[]
    else
      var w := ws[|ws| - 1];
      WriteFiles(ws[..|ws| - 1])[w.path := w.contents]
  }

  /** What one run of the loop leaves behind. */
  datatype Output = Output(files: map<string, seq<Byte>>, mapping: FileMapping)

  /** The generation loop over the samples the dataset yields. */
  function GenerateInputs(dir: string, count: int, samples: seq<string>, tokenize: Tokenizer,
                          types: seq<ElementType>): (out: Output)
    ensures Valid(out.mapping)
  {
    var ws := Writes(DirectoryNamer(dir), samples, tokenize, types, Iterations(count, |samples|));
    Output(WriteFiles(ws), Register(ws))
  }

  /** The tokenizer's outputs for one sample carry exactly these names, in order. */
  ghost predicate HasNames(items: seq<NamedArray>, names: seq<string>) {
    && |items| == |names|
    && forall k :: 0 <= k < |names| ==> items[k].name == names[k]
  }

  /** Every sample among the first `n` tokenizes to the same distinct names,
      as the keys of the tokenizer's dictionary are. */
  ghost predicate Consistent(samples: seq<string>, tokenize: Tokenizer, n: nat, names: seq<string>)
    requires n <= |samples|
  {
    && Distinct(names)
    && forall i :: 0 <= i < n ==> HasNames(tokenize(samples[i]), names)
  }

  /** How many of the names are paired with a data type and so get files. */
  function Paired(names: seq<string>, types: seq<ElementType>): nat {
    CountPlanning.Min(|names|, |types|)
  }

  /** The paths of `name` over the iterations `0 .. n-1`, in that order. */
  function ExpectedPaths(pathOf: Namer, name: string, n: nat): (ps: seq<string>)
    ensures |ps| == n
    ensures forall i :: 0 <= i < n ==> ps[i] == pathOf(name, i)
  {
    seq(n, i requires 0 <= i < n => pathOf(name, i))
  }
}
