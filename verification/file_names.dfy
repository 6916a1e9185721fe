/** Names of the generated binary files: `{input_name}_{idx:03d}.bin` inside
    the job's binary dataset directory. */
module FileNames {
  import opened Errors
  import opened Decimal

  const Extension: string := ".bin"

  /** The index in decimal, zero-padded to at least three digits (`{idx:03d}`). */
  function Pad3(idx: nat): (s: string)
    ensures AllDigits(s) && |s| >= 3
    ensures |Digits(idx)| >= 3 ==> s == Digits(idx)
    ensures |Digits(idx)| < 3 ==> |s| == 3
  {
    var d := Digits(idx);
    if |d| >= 3 then d else Zeros(3 - |d|) + d
  }

  /** The file name of input `inputName` at iteration `idx`. */
  function FileName(inputName: string, idx: nat): string {
    inputName + "_" + Pad3(idx) + Extension
  }

  /** The path of that file inside directory `dir`. The input name is taken as a
      plain file-name component, for which joining a path is adding a separator. */
  function PathOf(dir: string, inputName: string, idx: nat): string {
    dir + "/" + FileName(inputName, idx)
  }

  function LastIndexOf(s: string, c: char): (r: Option<nat>)
    ensures r.Some? ==> r.value < |s| && s[r.value] == c
    ensures r.Some? ==> forall k :: r.value < k < |s| ==> s[k] != c
    ensures r.None? ==> forall k :: 0 <= k < |s| ==> s[k] != c
  {
    if |s| == 0 then None
    else if s[|s| - 1] == c then Some(|s| - 1)
    else LastIndexOf(s[..|s| - 1], c)
  }

  /** Reads an input name and an index back from a file name: the index is
      the digit run after the last underscore, before the extension. */
  function SplitFileName(name: string): (r: Option<(string, nat)>)
    ensures r.Some? ==> |r.value.0| + 8 <= |name|
  {
    if |name| < |Extension| || name[|name| - |Extension|..] != Extension then None
    else
      var stem := name[..|name| - |Extension|];
      match LastIndexOf(stem, '_')
      case None => None
      case Some(k) =>
        var digits := stem[k + 1..];
        if |digits| >= 3 && AllDigits(digits) then Some((stem[..k], Value(digits))) else None
  }

  /** The padded index reads back as the index. */
  lemma PadValue(idx: nat)
    ensures Value(Pad3(idx)) == idx
  {
    var d := Digits(idx);
    ValueOfDigits(idx);
    if |d| < 3 {
      ValueOfConcat(Zeros(3 - |d|), d);
      ValueOfZeros(3 - |d|);
    }
  }

  lemma {:induction false} LastIndexAfterPrefix(a: string, c: char, p: string)
    requires forall k :: 0 <= k < |p| ==> p[k] != c
    ensures LastIndexOf(a + [c] + p, c) == Some(|a|)
  {
    var s := a + [c] + p;
    if |p| > 0 {
      assert s[..|s| - 1] == a + [c] + p[..|p| - 1];
      LastIndexAfterPrefix(a, c, p[..|p| - 1]);
    }
  }

  /** Splitting a generated file name recovers the input name and the index. */
  lemma SplitFileNameRoundTrip(inputName: string, idx: nat)
    ensures SplitFileName(FileName(inputName, idx)) == Some((inputName, idx))
  {
    var name := FileName(inputName, idx);
    var p := Pad3(idx);
    var stem := inputName + "_" + p;
    assert name == stem + Extension;
    assert name[|name| - |Extension|..] == Extension;
    assert name[..|name| - |Extension|] == stem;
    assert forall k :: 0 <= k < |p| ==> p[k] != '_';
    LastIndexAfterPrefix(inputName, '_', p);
    assert stem[|inputName| + 1..] == p;
    assert stem[..|inputName|] == inputName;
    PadValue(idx);
  }

  /** Distinct (input name, index) pairs never share a file name, even when
      input names contain underscores and digits themselves. */
  lemma FileNameInjective(a: string, i: nat, b: string, j: nat)
    requires FileName(a, i) == FileName(b, j)
    ensures a == b && i == j
  {
    SplitFileNameRoundTrip(a, i);
    SplitFileNameRoundTrip(b, j);
  }

  /** Within one directory, distinct pairs never share a path. */
  lemma PathInjective(dir: string, a: string, i: nat, b: string, j: nat)
    requires PathOf(dir, a, i) == PathOf(dir, b, j)
    ensures a == b && i == j
  {
    var prefix := dir + "/";
    assert PathOf(dir, a, i) == prefix + FileName(a, i);
    assert PathOf(dir, b, j) == prefix + FileName(b, j);
    assert FileName(a, i) == PathOf(dir, a, i)[|prefix|..];
    assert FileName(b, j) == PathOf(dir, b, j)[|prefix|..];
    FileNameInjective(a, i, b, j);
  }

  /** Index 7 of input `input_ids` is written to `input_ids_007.bin`, and
      index 1234 to `input_ids_1234.bin`. */
  lemma FileNameExamples()
    ensures FileName("input_ids", 7) == "input_ids_007.bin"
    ensures FileName("input_ids", 1234) == "input_ids_1234.bin"
  {
  }
}
