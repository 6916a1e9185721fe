/** The generation loop written as the job writes it: an outer loop over
    `zip(range(count), samples)` and an inner loop over the tokenizer's
    outputs zipped with the model's data types, each step dumping one file
    and calling `add_input_file` once. It is proved to leave exactly what the
    fold `Generation.GenerateInputs` describes. */
module GenerationLoop {
  import opened NetworkInputs
  import opened BinaryEncoding
  import opened InputFileMapping
  import opened Generation
  import opened GenerationProperties

  /** The effect of one write on the directory and the mapping. */
  function Apply(out: Output, w: Write): Output {
    Output(out.files[w.path := w.contents], AddInputFile(out.mapping, w.name, w.path))
  }

  /** Every write applied in turn to the empty directory and mapping. */
  function Replay(ws: seq<Write>): Output {
    if |ws| == 0 then Output(map[], Empty()) else Apply(Replay(ws[..|ws| - 1]), ws[|ws| - 1])
  }

  /** Replaying the writes leaves the two folds of `Generation`. */
  lemma {:induction false} ReplayIsFolds(ws: seq<Write>)
    ensures Replay(ws) == Output(WriteFiles(ws), Register(ws))
  {
    if |ws| > 0 {
      ReplayIsFolds(ws[..|ws| - 1]);
    }
  }

  lemma ReplaySnoc(ws: seq<Write>, w: Write)
    ensures Replay(ws + [w]) == Apply(Replay(ws), w)
  {
    assert (ws + [w])[..|ws|] == ws;
  }

  /** The writes applied in turn, starting from `out`. */
  function ReplayFrom(out: Output, ws: seq<Write>): Output
    decreases |ws|
  {
    if |ws| == 0 then out else ReplayFrom(Apply(out, ws[0]), ws[1..])
  }

  /** Continuing a replay with more writes is replaying the concatenation. */
  lemma {:induction false} ReplayFromIsReplay(front: seq<Write>, ws: seq<Write>)
    ensures ReplayFrom(Replay(front), ws) == Replay(front + ws)
    decreases |ws|
  {
    if |ws| > 0 {
      ReplaySnoc(front, ws[0]);
      assert (front + [ws[0]]) + ws[1..] == front + ws;
      ReplayFromIsReplay(front + [ws[0]], ws[1..]);
    } else {
      assert front + ws == front;
    }
  }

  /** The directory and mapping after the first `n` iterations of the outer loop. */
  function Progress(pathOf: Namer, samples: seq<string>, tokenize: Tokenizer, types: seq<ElementType>,
                    n: nat): Output
    requires n <= |samples|
  {
    if n == 0 then Output(map[], Empty())
    else ReplayFrom(Progress(pathOf, samples, tokenize, types, n - 1),
                    SampleWrites(pathOf, n - 1, tokenize(samples[n - 1]), types))
  }

  lemma ProgressStep(pathOf: Namer, samples: seq<string>, tokenize: Tokenizer, types: seq<ElementType>,
                     idx: nat)
    requires idx < |samples|
    ensures Progress(pathOf, samples, tokenize, types, idx + 1)
            == ReplayFrom(Progress(pathOf, samples, tokenize, types, idx),
                          SampleWrites(pathOf, idx, tokenize(samples[idx]), types))
  {
  }

  /** The iterations so far leave what replaying their writes leaves. */
  lemma {:induction false} ProgressIsReplay(pathOf: Namer, samples: seq<string>, tokenize: Tokenizer,
                                           types: seq<ElementType>, n: nat)
    requires n <= |samples|
    ensures Progress(pathOf, samples, tokenize, types, n) == Replay(Writes(pathOf, samples, tokenize, types, n))
  {
    if n > 0 {
      var idx: nat := n - 1;
      ProgressIsReplay(pathOf, samples, tokenize, types, idx);
      ProgressStep(pathOf, samples, tokenize, types, idx);
      WritesStep(pathOf, samples, tokenize, types, idx);
      ReplayFromIsReplay(Writes(pathOf, samples, tokenize, types, idx),
                         SampleWrites(pathOf, idx, tokenize(samples[idx]), types));
    }
  }

  /** Replaying every write of the loop gives the directory and mapping of the fold. */
  lemma ReplayIsGenerated(dir: string, count: int, samples: seq<string>, tokenize: Tokenizer,
                          types: seq<ElementType>)
    ensures Replay(Writes(DirectoryNamer(dir), samples, tokenize, types, Iterations(count, |samples|)))
            == GenerateInputs(dir, count, samples, tokenize, types)
  {
    ReplayIsFolds(Writes(DirectoryNamer(dir), samples, tokenize, types, Iterations(count, |samples|)));
  }

  /** One step of the inner loop: output `k` dumped at the k-th data type is
      the k-th write of the iteration, and applying it leaves the rest to do. */
  lemma InnerStep(pathOf: Namer, idx: nat, items: seq<NamedArray>, types: seq<ElementType>,
                  out: Output, k: nat)
    requires k < |items| && k < |types|
    ensures k < |SampleWrites(pathOf, idx, items, types)|
    ensures var ws := SampleWrites(pathOf, idx, items, types);
            ReplayFrom(out, ws[k..])
            == ReplayFrom(Apply(out, Write(items[k].name, idx, pathOf(items[k].name, idx),
                                           EncodeArray(items[k].data, types[k]))), ws[k + 1..])
  {
    var ws := SampleWrites(pathOf, idx, items, types);
    assert ws[k..][1..] == ws[k + 1..];
  }

  /** The inner loop: the outputs of sample `idx` zipped with the data types,
      each dumped to the file `pathOf` names and registered under its name. */
  method WriteSample(pathOf: Namer, idx: nat, items: seq<NamedArray>, types: seq<ElementType>, before: Output)
    returns (after: Output)
    ensures after == ReplayFrom(before, SampleWrites(pathOf, idx, items, types))
  {
    ghost var sample := SampleWrites(pathOf, idx, items, types);
    after := before;
    var k := 0;
    while k < |items| && k < |types|
      invariant 0 <= k <= |sample|
      invariant ReplayFrom(after, sample[k..]) == ReplayFrom(before, sample)
    {
      InnerStep(pathOf, idx, items, types, after, k);
      after := Apply(after, Write(items[k].name, idx, pathOf(items[k].name, idx),
                                  EncodeArray(items[k].data, types[k])));
      k := k + 1;
    }
    assert sample[k..] == [];
  }

  /** The files written and the mapping built by the job's loop. */
  method GenerateLoop(dir: string, count: int, samples: seq<string>, tokenize: Tokenizer, types: seq<ElementType>)
    returns (out: Output)
    ensures out == GenerateInputs(dir, count, samples, tokenize, types)
  {
    out := Output(map[], Empty());
    var idx := 0;
    while idx < count && idx < |samples|
      invariant 0 <= idx <= |samples| && idx <= Iterations(count, |samples|)
      invariant out == Progress(DirectoryNamer(dir), samples, tokenize, types, idx)
    {
      ProgressStep(DirectoryNamer(dir), samples, tokenize, types, idx);
      out := WriteSample(DirectoryNamer(dir), idx, tokenize(samples[idx]), types, out);
      idx := idx + 1;
    }
    assert idx == Iterations(count, |samples|);
    ProgressIsReplay(DirectoryNamer(dir), samples, tokenize, types, idx);
    ReplayIsGenerated(dir, count, samples, tokenize, types);
  }
}
