/** Properties of the generation loop: which paths each input name gets,
    how many files are written, and what each file holds. */
module GenerationProperties {
  import opened Errors
  import opened NetworkInputs
  import opened BinaryEncoding
  import opened FileNames
  import opened InputFileMapping
  import opened Generation

  // Facts about any list of writes.

  lemma {:induction false} PathsForConcat(a: seq<Write>, b: seq<Write>, name: string)
    ensures PathsFor(a + b, name) == PathsFor(a, name) + PathsFor(b, name)
  {
    if |b| > 0 {
      var ab := a + b;
      assert ab[..|ab| - 1] == a + b[..|b| - 1];
      PathsForConcat(a, b[..|b| - 1], name);
    } else {
      assert a + b == a;
    }
  }

  /** A name is registered exactly when some write carries it. */
  lemma {:induction false} RegisteredIffWritten(ws: seq<Write>, name: string)
    ensures name in WrittenNames(ws) <==> PathsFor(ws, name) != []
  {
    if |ws| > 0 {
      RegisteredIffWritten(ws[..|ws| - 1], name);
    }
  }

  /** A name no write carries has no paths. */
  lemma {:induction false} PathsForNone(ws: seq<Write>, name: string)
    requires forall p :: 0 <= p < |ws| ==> ws[p].name != name
    ensures PathsFor(ws, name) == []
  {
    if |ws| > 0 {
      PathsForNone(ws[..|ws| - 1], name);
    }
  }

  /** A name exactly one write carries has exactly that write's path. */
  lemma {:induction false} PathsForOne(ws: seq<Write>, name: string, q: nat)
    requires q < |ws| && ws[q].name == name
    requires forall p :: 0 <= p < |ws| && p != q ==> ws[p].name != name
    ensures PathsFor(ws, name) == [ws[q].path]
  {
    var front := ws[..|ws| - 1];
    if q == |ws| - 1 {
      PathsForNone(front, name);
    } else {
      PathsForOne(front, name, q);
    }
  }

  /** A path no write targets is not in the directory. */
  lemma {:induction false} NotWritten(ws: seq<Write>, path: string)
    requires forall p :: 0 <= p < |ws| ==> ws[p].path != path
    ensures path !in WrittenPaths(ws)
  {
    if |ws| > 0 {
      NotWritten(ws[..|ws| - 1], path);
    }
  }

  /** The file at a path holds the last write to it. */
  lemma {:induction false} LastWriteWins(ws: seq<Write>, q: nat)
    requires q < |ws|
    requires forall r :: q < r < |ws| ==> ws[r].path != ws[q].path
    ensures ws[q].path in WriteFiles(ws)
    ensures WriteFiles(ws)[ws[q].path] == ws[q].contents
  {
    if q < |ws| - 1 {
      var front := ws[..|ws| - 1];
      LastWriteWins(front, q);
    }
  }

  lemma {:induction false} WriteFilesConcat(a: seq<Write>, b: seq<Write>, path: string)
    ensures WrittenPaths(a + b) == WrittenPaths(a) + WrittenPaths(b)
    ensures path in WriteFiles(b) ==> WriteFiles(a + b)[path] == WriteFiles(b)[path]
    ensures path !in WriteFiles(b) && path in WriteFiles(a) ==> WriteFiles(a + b)[path] == WriteFiles(a)[path]
  {
    if |b| > 0 {
      var ab := a + b;
      assert ab[..|ab| - 1] == a + b[..|b| - 1];
      assert ab[|ab| - 1] == b[|b| - 1];
      WriteFilesConcat(a, b[..|b| - 1], path);
    } else {
      assert a + b == a;
    }
  }

  /** Every path in the directory is the path of some write. */
  lemma {:induction false} WrittenPathHasWrite(ws: seq<Write>, path: string)
    requires path in WrittenPaths(ws)
    ensures exists p :: 0 <= p < |ws| && ws[p].path == path
  {
    var front := ws[..|ws| - 1];
    if path != ws[|ws| - 1].path {
      WrittenPathHasWrite(front, path);
      var p :| 0 <= p < |front| && front[p].path == path;
      assert ws[p] == front[p];
    }
  }

  // One iteration of the loop.

  /** Each paired output of one iteration is registered once, at its path. */
  lemma SampleRegistersPairedName(pathOf: Namer, idx: nat, items: seq<NamedArray>, types: seq<ElementType>,
                                  names: seq<string>, k: nat)
    requires HasNames(items, names) && Distinct(names) && k < Paired(names, types)
    ensures PathsFor(SampleWrites(pathOf, idx, items, types), names[k]) == [pathOf(names[k], idx)]
  {
    PathsForOne(SampleWrites(pathOf, idx, items, types), names[k], k);
  }

  /** A name not among the paired outputs of one iteration is not registered by it. */
  lemma SampleSkipsOtherName(pathOf: Namer, idx: nat, items: seq<NamedArray>, types: seq<ElementType>,
                             names: seq<string>, name: string)
    requires HasNames(items, names)
    requires forall k :: 0 <= k < Paired(names, types) ==> names[k] != name
    ensures PathsFor(SampleWrites(pathOf, idx, items, types), name) == []
  {
    PathsForNone(SampleWrites(pathOf, idx, items, types), name);
  }

  /** In one iteration with distinct names, the file of the k-th paired output
      holds that output's dump at the k-th data type. */
  lemma SampleFile(pathOf: Namer, idx: nat, items: seq<NamedArray>, types: seq<ElementType>,
                   names: seq<string>, k: nat)
    requires Injective(pathOf) && HasNames(items, names) && Distinct(names) && k < Paired(names, types)
    ensures pathOf(names[k], idx) in WriteFiles(SampleWrites(pathOf, idx, items, types))
    ensures WriteFiles(SampleWrites(pathOf, idx, items, types))[pathOf(names[k], idx)]
            == EncodeArray(items[k].data, types[k])
  {
    LastWriteWins(SampleWrites(pathOf, idx, items, types), k);
  }

  /** One iteration writes no file of another index. */
  lemma SampleMissesOtherIndex(pathOf: Namer, idx: nat, items: seq<NamedArray>, types: seq<ElementType>,
                               name: string, i: nat)
    requires Injective(pathOf) && i != idx
    ensures pathOf(name, i) !in WriteFiles(SampleWrites(pathOf, idx, items, types))
  {
    NotWritten(SampleWrites(pathOf, idx, items, types), pathOf(name, i));
  }

  /** One iteration writes only the files of its paired outputs. */
  lemma SampleOnlyPairedPaths(pathOf: Namer, idx: nat, items: seq<NamedArray>, types: seq<ElementType>,
                              names: seq<string>, path: string)
    requires HasNames(items, names)
    requires path in WrittenPaths(SampleWrites(pathOf, idx, items, types))
    ensures exists k :: 0 <= k < Paired(names, types) && path == pathOf(names[k], idx)
  {
    var ws := SampleWrites(pathOf, idx, items, types);
    WrittenPathHasWrite(ws, path);
    var p :| 0 <= p < |ws| && ws[p].path == path;
    assert path == pathOf(names[p], idx);
  }

  // The whole loop, for a tokenizer that names its outputs consistently.

  lemma ExpectedPathsSnoc(pathOf: Namer, name: string, n: nat)
    requires n > 0
    ensures ExpectedPaths(pathOf, name, n) == ExpectedPaths(pathOf, name, n - 1) + [pathOf(name, n - 1)]
  {
  }

  /** The writes of `idx + 1` iterations are those of `idx` followed by the last one's. */
  lemma WritesStep(pathOf: Namer, samples: seq<string>, tokenize: Tokenizer, types: seq<ElementType>, idx: nat)
    requires idx < |samples|
    ensures Writes(pathOf, samples, tokenize, types, idx + 1)
            == Writes(pathOf, samples, tokenize, types, idx) + SampleWrites(pathOf, idx, tokenize(samples[idx]), types)
  {
  }

  /** A paired name is registered once per iteration, in ascending index order. */
  lemma {:induction false} PairedNamePaths(pathOf: Namer, samples: seq<string>, tokenize: Tokenizer,
                                           types: seq<ElementType>, n: nat, names: seq<string>, k: nat)
    requires n <= |samples| && Consistent(samples, tokenize, n, names) && k < Paired(names, types)
    ensures PathsFor(Writes(pathOf, samples, tokenize, types, n), names[k]) == ExpectedPaths(pathOf, names[k], n)
  {
    if n > 0 {
      var idx: nat := n - 1;
      var front := Writes(pathOf, samples, tokenize, types, idx);
      var items := tokenize(samples[idx]);
      var last := SampleWrites(pathOf, idx, items, types);
      WritesStep(pathOf, samples, tokenize, types, idx);
      assert Writes(pathOf, samples, tokenize, types, n) == front + last;
      PathsForConcat(front, last, names[k]);
      PairedNamePaths(pathOf, samples, tokenize, types, idx, names, k);
      SampleRegistersPairedName(pathOf, idx, items, types, names, k);
      ExpectedPathsSnoc(pathOf, names[k], n);
    }
  }

  /** A name that is not paired with a data type is never registered. */
  lemma {:induction false} OtherNamePaths(pathOf: Namer, samples: seq<string>, tokenize: Tokenizer,
                                          types: seq<ElementType>, n: nat, names: seq<string>, name: string)
    requires n <= |samples| && Consistent(samples, tokenize, n, names)
    requires forall k :: 0 <= k < Paired(names, types) ==> names[k] != name
    ensures PathsFor(Writes(pathOf, samples, tokenize, types, n), name) == []
  {
    if n > 0 {
      var idx: nat := n - 1;
      var front := Writes(pathOf, samples, tokenize, types, idx);
      var items := tokenize(samples[idx]);
      var last := SampleWrites(pathOf, idx, items, types);
      WritesStep(pathOf, samples, tokenize, types, idx);
      assert Writes(pathOf, samples, tokenize, types, n) == front + last;
      PathsForConcat(front, last, name);
      OtherNamePaths(pathOf, samples, tokenize, types, idx, names, name);
      SampleSkipsOtherName(pathOf, idx, items, types, names, name);
    }
  }

  lemma SnocProduct(i: nat, z: nat)
    ensures i * z + z == (i + 1) * z
  {
  }

  /** The loop writes no file besides `pathOf(names[k], i)` for an iteration
      `i` and a paired output `k`. */
  lemma {:induction false} OnlyGeneratedPaths(pathOf: Namer, samples: seq<string>, tokenize: Tokenizer,
                                              types: seq<ElementType>, n: nat, names: seq<string>, path: string)
    requires n <= |samples| && Consistent(samples, tokenize, n, names)
    requires path in WrittenPaths(Writes(pathOf, samples, tokenize, types, n))
    ensures exists i, k :: 0 <= i < n && 0 <= k < Paired(names, types) && path == pathOf(names[k], i)
  {
    var idx: nat := n - 1;
    var front := Writes(pathOf, samples, tokenize, types, idx);
    var items := tokenize(samples[idx]);
    var last := SampleWrites(pathOf, idx, items, types);
    WritesStep(pathOf, samples, tokenize, types, idx);
    assert Writes(pathOf, samples, tokenize, types, n) == front + last;
    WriteFilesConcat(front, last, path);
    if path in WrittenPaths(front) {
      OnlyGeneratedPaths(pathOf, samples, tokenize, types, idx, names, path);
      var i, k :| 0 <= i < idx && 0 <= k < Paired(names, types) && path == pathOf(names[k], i);
      assert i < n;
    } else {
      SampleOnlyPairedPaths(pathOf, idx, items, types, names, path);
      var k :| 0 <= k < Paired(names, types) && path == pathOf(names[k], idx);
    }
  }

  /** `add_input_file` runs once per iteration and paired output. */
  lemma {:induction false} WriteCount(pathOf: Namer, samples: seq<string>, tokenize: Tokenizer,
                                      types: seq<ElementType>, n: nat, names: seq<string>)
    requires n <= |samples| && Consistent(samples, tokenize, n, names)
    ensures |Writes(pathOf, samples, tokenize, types, n)| == n * Paired(names, types)
  {
    if n > 0 {
      var idx: nat := n - 1;
      var front := Writes(pathOf, samples, tokenize, types, idx);
      var items := tokenize(samples[idx]);
      var last := SampleWrites(pathOf, idx, items, types);
      var z := Paired(names, types);
      WritesStep(pathOf, samples, tokenize, types, idx);
      assert Writes(pathOf, samples, tokenize, types, n) == front + last;
      WriteCount(pathOf, samples, tokenize, types, idx, names);
      assert HasNames(items, names);
      assert |last| == z;
      SnocProduct(idx, z);
    }
  }

  /** The file of paired output k at iteration i holds that output's dump. */
  lemma {:induction false} FileOfWrite(pathOf: Namer, samples: seq<string>, tokenize: Tokenizer,
                                       types: seq<ElementType>, n: nat, names: seq<string>, i: nat, k: nat)
    requires Injective(pathOf) && n <= |samples| && Consistent(samples, tokenize, n, names)
    requires i < n && k < Paired(names, types)
    ensures pathOf(names[k], i) in WriteFiles(Writes(pathOf, samples, tokenize, types, n))
    ensures WriteFiles(Writes(pathOf, samples, tokenize, types, n))[pathOf(names[k], i)]
            == EncodeArray(tokenize(samples[i])[k].data, types[k])
  {
    var idx: nat := n - 1;
    var front := Writes(pathOf, samples, tokenize, types, idx);
    var items := tokenize(samples[idx]);
    var last := SampleWrites(pathOf, idx, items, types);
    var path := pathOf(names[k], i);
    WritesStep(pathOf, samples, tokenize, types, idx);
    assert Writes(pathOf, samples, tokenize, types, n) == front + last;
    WriteFilesConcat(front, last, path);
    if i == idx {
      SampleFile(pathOf, idx, items, types, names, k);
    } else {
      FileOfWrite(pathOf, samples, tokenize, types, idx, names, i, k);
      SampleMissesOtherIndex(pathOf, idx, items, types, names[k], i);
    }
  }

  // The loop as the job runs it, writing into its binary dataset directory.

  /** Under a consistent tokenizer, each paired input name maps to one path
      per iteration, `{name}_{idx:03d}.bin` for `idx` ascending from 0. */
  lemma MappingOfPairedName(dir: string, count: int, samples: seq<string>, tokenize: Tokenizer,
                            types: seq<ElementType>, names: seq<string>, k: nat)
    requires Consistent(samples, tokenize, Iterations(count, |samples|), names)
    requires k < Paired(names, types)
    ensures |Get(GenerateInputs(dir, count, samples, tokenize, types).mapping, names[k])| == Iterations(count, |samples|)
    ensures forall i :: 0 <= i < Iterations(count, |samples|) ==>
              Get(GenerateInputs(dir, count, samples, tokenize, types).mapping, names[k])[i] == PathOf(dir, names[k], i)
  {
    PairedNamePaths(DirectoryNamer(dir), samples, tokenize, types, Iterations(count, |samples|), names, k);
  }

  /** A name not paired with a data type gets no entry in the mapping. */
  lemma MappingOmitsOtherName(dir: string, count: int, samples: seq<string>, tokenize: Tokenizer,
                              types: seq<ElementType>, names: seq<string>, name: string)
    requires Consistent(samples, tokenize, Iterations(count, |samples|), names)
    requires forall k :: 0 <= k < Paired(names, types) ==> names[k] != name
    ensures name !in GenerateInputs(dir, count, samples, tokenize, types).mapping.paths
  {
    var ws := Writes(DirectoryNamer(dir), samples, tokenize, types, Iterations(count, |samples|));
    OtherNamePaths(DirectoryNamer(dir), samples, tokenize, types, Iterations(count, |samples|), names, name);
    RegisteredIffWritten(ws, name);
  }

  /** The freshly reset directory ends up holding the generated files and nothing else. */
  lemma DirectoryHoldsOnlyGeneratedFiles(dir: string, count: int, samples: seq<string>, tokenize: Tokenizer,
                                         types: seq<ElementType>, names: seq<string>, path: string)
    requires Consistent(samples, tokenize, Iterations(count, |samples|), names)
    requires path in GenerateInputs(dir, count, samples, tokenize, types).files
    ensures exists i, k :: 0 <= i < Iterations(count, |samples|) && 0 <= k < Paired(names, types)
                           && path == PathOf(dir, names[k], i)
  {
    var n := Iterations(count, |samples|);
    OnlyGeneratedPaths(DirectoryNamer(dir), samples, tokenize, types, n, names, path);
    var i, k :| 0 <= i < n && 0 <= k < Paired(names, types) && path == DirectoryNamer(dir)(names[k], i);
    assert path == PathOf(dir, names[k], i);
  }

  /** Reading a generated file at its data type gives the tokenizer's output
      after the cast to that type. */
  lemma GeneratedFileDecodes(dir: string, count: int, samples: seq<string>, tokenize: Tokenizer,
                             types: seq<ElementType>, names: seq<string>, i: nat, k: nat)
    requires Consistent(samples, tokenize, Iterations(count, |samples|), names)
    requires i < Iterations(count, |samples|) && k < Paired(names, types)
    ensures PathOf(dir, names[k], i) in GenerateInputs(dir, count, samples, tokenize, types).files
    ensures DecodeArray(GenerateInputs(dir, count, samples, tokenize, types).files[PathOf(dir, names[k], i)], types[k])
            == Some(CastAll(tokenize(samples[i])[k].data, types[k]))
  {
    DirectoryNamerInjective(dir);
    FileOfWrite(DirectoryNamer(dir), samples, tokenize, types, Iterations(count, |samples|), names, i, k);
    ArrayRoundTrip(tokenize(samples[i])[k].data, types[k]);
  }
}
