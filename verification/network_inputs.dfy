/** The pure part of reading a model's inputs: the element-type table and the
    conversion of every shape dimension with `int(str(dimension))`. The model
    reader itself is not modelled; its answer is the sequence of `ModelInput`
    records, one per model input in declaration order. */
module NetworkInputs {
  import opened Errors
  import opened Decimal

  /** The two element types the table knows: 32- and 64-bit signed integers. */
  datatype ElementType = Int32 | Int64

  /** Bytes per element. */
  function Width(t: ElementType): nat {
    match t
    case Int32 => 4
    case Int64 => 8
  }

  /** One model input as the reader reports it: its name, the text of each
      dimension of its partial shape, and the name of its element type. */
  datatype ModelInput = ModelInput(anyName: string, dimensions: seq<string>, typeName: string)

  /** What the job keeps of the model inputs: a shape per input name, and the
      element types in declaration order. */
  datatype Inputs = Inputs(shapes: map<string, seq<int>>, dataTypes: seq<ElementType>)

  /** The element-type table lookup; any other name is a lookup failure. */
  function ParseTypeName(name: string): (r: Result<ElementType>)
    ensures r == Ok(Int32) <==> name == "i32"
    ensures r == Ok(Int64) <==> name == "i64"
    ensures r.Err? <==> name != "i32" && name != "i64"
    ensures r.Err? ==> r.error == UnsupportedElementType(name)
  {
    if name == "i32" then Ok(Int32)
    else if name == "i64" then Ok(Int64)
    else Err(UnsupportedElementType(name))
  }

  /** The characters Python's `int()` strips around an ASCII number: space, tab,
      line feed, vertical tab, form feed and carriage return. */
  predicate IsSpace(c: char) {
    c == ' ' || 9 <= c as int <= 13
  }

  function TrimStart(s: string): (t: string)
    ensures |t| <= |s| && t == s[|s| - |t|..]
    ensures |t| > 0 ==> !IsSpace(t[0])
    ensures forall i :: 0 <= i < |s| - |t| ==> IsSpace(s[i])
  {
    if |s| > 0 && IsSpace(s[0]) then TrimStart(s[1..]) else s
  }

  function TrimEnd(s: string): (t: string)
    ensures |t| <= |s| && t == s[..|t|]
    ensures |t| > 0 ==> !IsSpace(t[|t| - 1])
    ensures forall i :: |t| <= i < |s| ==> IsSpace(s[i])
  {
    if |s| > 0 && IsSpace(s[|s| - 1]) then TrimEnd(s[..|s| - 1]) else s
  }

  /** `s` with surrounding white space removed. */
  function Strip(s: string): string {
    TrimEnd(TrimStart(s))
  }

  /** Digits with single underscores between them, as `int()` accepts. */
  predicate WellGrouped(s: string) {
    && |s| > 0
    && IsDigit(s[0])
    && IsDigit(s[|s| - 1])
    && (forall i :: 0 <= i < |s| ==> IsDigit(s[i]) || s[i] == '_')
    && (forall i :: 0 <= i < |s| - 1 ==> !(s[i] == '_' && s[i + 1] == '_'))
  }

  function DropUnderscores(s: string): (t: string)
    requires forall i :: 0 <= i < |s| ==> IsDigit(s[i]) || s[i] == '_'
    ensures AllDigits(t)
    ensures AllDigits(s) ==> t == s
  {
    if |s| == 0 then []
    else if s[0] == '_' then DropUnderscores(s[1..])
    else [s[0]] + DropUnderscores(s[1..])
  }

  /** Dropping underscores works piecewise: the digits of both parts are kept, in order. */
  lemma {:induction false} DropUnderscoresConcat(a: string, b: string)
    requires forall i :: 0 <= i < |a| ==> IsDigit(a[i]) || a[i] == '_'
    requires forall i :: 0 <= i < |b| ==> IsDigit(b[i]) || b[i] == '_'
    ensures DropUnderscores(a + b) == DropUnderscores(a) + DropUnderscores(b)
    decreases |a|
  {
    if |a| == 0 {
      assert a + b == b;
    } else {
      assert (a + b)[0] == a[0];
      assert (a + b)[1..] == a[1..] + b;
      DropUnderscoresConcat(a[1..], b);
    }
  }

  /** An underscore is dropped and a digit is kept. */
  lemma DropUnderscoresOne(c: char)
    requires IsDigit(c) || c == '_'
    ensures DropUnderscores([c]) == if c == '_' then [] else [c]
  {
    assert [c][1..] == [];
  }

  /** The unsigned part of an integer literal. */
  function ParseUnsigned(s: string): Option<nat> {
    if WellGrouped(s) then Some(Value(DropUnderscores(s))) else None
  }

  /** `int(str(dimension))`: white space around an optional sign and grouped
      decimal digits; anything else, such as the `?` of a dynamic dimension or
      the `1..10` of a bounded one, is rejected. */
  function ParseDimension(text: string): (r: Result<int>)
    ensures r.Err? ==> r.error == UnresolvedDimension(text)
  {
    var t := Strip(text);
    var negative := |t| > 0 && t[0] == '-';
    var digits := if |t| > 0 && (t[0] == '-' || t[0] == '+') then t[1..] else t;
    match ParseUnsigned(digits)
    case Some(v) => Ok(if negative then -(v as int) else v)
    case None => Err(UnresolvedDimension(text))
  }

  /** The values of a sequence of results, or the error of the first that failed. */
  function Collect<T>(rs: seq<Result<T>>): (r: Result<seq<T>>)
    ensures r.Ok? <==> forall i :: 0 <= i < |rs| ==> rs[i].Ok?
    ensures r.Ok? ==> |r.value| == |rs| && forall i :: 0 <= i < |rs| ==> rs[i] == Ok(r.value[i])
    ensures r.Err? ==> exists i :: 0 <= i < |rs| && rs[i] == Err(r.error)
  {
    if |rs| == 0 then Ok([])
    else
      var tail := Collect(rs[1..]);
      assert forall i :: 1 <= i < |rs| ==> rs[i] == rs[1..][i - 1];
      if rs[0].Err? then Err(rs[0].error)
      else if tail.Err? then
        var j :| 0 <= j < |rs[1..]| && rs[1..][j] == Err(tail.error);
        assert rs[j + 1] == Err(tail.error);
        Err(tail.error)
      else
        var vs := [rs[0].value] + tail.value;
        assert forall i :: 1 <= i < |rs| ==> vs[i] == tail.value[i - 1];
        Ok(vs)
  }

  /** The error of a collection is the one of its first failed result. */
  lemma {:induction false} CollectFirstFailure<T>(rs: seq<Result<T>>, i: nat)
    requires i < |rs| && rs[i].Err?
    requires forall j :: 0 <= j < i ==> rs[j].Ok?
    ensures Collect(rs) == Err(rs[i].error)
  {
    if i > 0 {
      assert forall j :: 0 <= j < i - 1 ==> rs[1..][j] == rs[j + 1];
      CollectFirstFailure(rs[1..], i - 1);
    }
  }

  /** Every dimension of one input through `int(str(dimension))`. */
  function ParseDimensions(dimensions: seq<string>): (rs: seq<Result<int>>)
    ensures |rs| == |dimensions|
    ensures forall i :: 0 <= i < |dimensions| ==> rs[i] == ParseDimension(dimensions[i])
  {
    seq(|dimensions|, i requires 0 <= i < |dimensions| => ParseDimension(dimensions[i]))
  }

  /** The shape of one input, stopping at the first dimension that does not parse. */
  function ParseShape(dimensions: seq<string>): (r: Result<seq<int>>)
    ensures r.Ok? ==> |r.value| == |dimensions|
    ensures r.Ok? ==> forall i :: 0 <= i < |dimensions| ==> ParseDimension(dimensions[i]) == Ok(r.value[i])
    ensures r.Ok? <==> forall i :: 0 <= i < |dimensions| ==> ParseDimension(dimensions[i]).Ok?
    ensures r.Err? ==> r.error.UnresolvedDimension?
  {
    var rs := ParseDimensions(dimensions);
    var r := Collect(rs);
    if r.Err? then
      var i :| 0 <= i < |rs| && rs[i] == Err(r.error);
      r
    else r
  }

  /** The error of a shape is the one of its first unresolvable dimension. */
  lemma ParseShapeFirstFailure(dimensions: seq<string>, i: nat)
    requires i < |dimensions| && ParseDimension(dimensions[i]).Err?
    requires forall j :: 0 <= j < i ==> ParseDimension(dimensions[j]).Ok?
    ensures ParseShape(dimensions) == Err(UnresolvedDimension(dimensions[i]))
  {
    CollectFirstFailure(ParseDimensions(dimensions), i);
  }

  /** A dictionary built entry by entry, as a dict comprehension builds it:
      a later entry with the same key replaces an earlier one, and the first
      entry whose value fails aborts the whole. */
  function BuildMap<V>(entries: seq<(string, Result<V>)>): (r: Result<map<string, V>>)
    ensures r.Ok? <==> forall i :: 0 <= i < |entries| ==> entries[i].1.Ok?
    ensures r.Ok? ==> r.value.Keys == Keys(entries)
    ensures r.Err? ==> exists i :: 0 <= i < |entries| && entries[i].1 == Err(r.error)
                          && forall j :: 0 <= j < i ==> entries[j].1.Ok?
  {
    if |entries| == 0 then Ok(map[])
    else
      var init := entries[..|entries| - 1];
      var last := entries[|entries| - 1];
      var front := BuildMap(init);
      assert forall i :: 0 <= i < |init| ==> init[i] == entries[i];
      if front.Err? then
        var j :| 0 <= j < |init| && init[j].1 == Err(front.error) && forall k :: 0 <= k < j ==> init[k].1.Ok?;
        Err(front.error)
      else if last.1.Err? then Err(last.1.error)
      else Ok(front.value[last.0 := last.1.value])
  }

  /** A failed dictionary carries the error of its first failing entry. */
  lemma BuildMapFirstFailure<V>(entries: seq<(string, Result<V>)>, i: nat)
    requires i < |entries| && entries[i].1.Err?
    requires forall j :: 0 <= j < i ==> entries[j].1.Ok?
    ensures BuildMap(entries) == Err(entries[i].1.error)
  {
    var r := BuildMap(entries);
    var i' :| 0 <= i' < |entries| && entries[i'].1 == Err(r.error) && forall j :: 0 <= j < i' ==> entries[j].1.Ok?;
    assert i' == i;
  }

  /** The keys of a list of entries. */
  function Keys<V>(entries: seq<(string, V)>): (keys: set<string>)
    ensures forall i :: 0 <= i < |entries| ==> entries[i].0 in keys
    ensures forall key :: key in keys ==> exists i :: 0 <= i < |entries| && entries[i].0 == key
  {
    if |entries| == 0 then {}
    else
      var init := entries[..|entries| - 1];
      assert forall i :: 0 <= i < |init| ==> init[i] == entries[i];
      Keys(init) + {entries[|entries| - 1].0}
  }

  /** Each key's value is the one of the last entry carrying that key. */
  lemma {:induction false} BuildMapLastWins<V>(entries: seq<(string, Result<V>)>, i: nat)
    requires i < |entries| && BuildMap(entries).Ok?
    requires forall j :: i < j < |entries| ==> entries[j].0 != entries[i].0
    ensures entries[i].1 == Ok(BuildMap(entries).value[entries[i].0])
  {
    var init := entries[..|entries| - 1];
    assert forall j :: 0 <= j < |init| ==> init[j] == entries[j];
    if i < |entries| - 1 {
      BuildMapLastWins(init, i);
    }
  }

  /** Each input's name with the outcome of parsing its shape. */
  function ShapeEntries(inputs: seq<ModelInput>): (entries: seq<(string, Result<seq<int>>)>)
    ensures |entries| == |inputs|
    ensures forall i :: 0 <= i < |inputs| ==> entries[i] == (inputs[i].anyName, ParseShape(inputs[i].dimensions))
  {
    seq(|inputs|, i requires 0 <= i < |inputs| => (inputs[i].anyName, ParseShape(inputs[i].dimensions)))
  }

  /** The names of the inputs. */
  function Names(inputs: seq<ModelInput>): set<string> {
    set i | 0 <= i < |inputs| :: inputs[i].anyName
  }

  /** The shape dictionary `{parameter.any_name: [...] for parameter in model.inputs}`. */
  function ParseShapes(inputs: seq<ModelInput>): (r: Result<map<string, seq<int>>>)
    ensures r.Ok? <==> forall i :: 0 <= i < |inputs| ==> ParseShape(inputs[i].dimensions).Ok?
    ensures r.Ok? ==> r.value.Keys == Names(inputs)
    ensures r.Err? ==> r.error.UnresolvedDimension?
    // the failure is the shape error of the first input whose shape does not convert
    ensures r.Err? ==> exists i :: 0 <= i < |inputs| && ParseShape(inputs[i].dimensions) == Err(r.error)
                          && forall j :: 0 <= j < i ==> ParseShape(inputs[j].dimensions).Ok?
  {
    var entries := ShapeEntries(inputs);
    var r := BuildMap(entries);
    if r.Err? then
      var i :| 0 <= i < |entries| && entries[i].1 == Err(r.error) && forall j :: 0 <= j < i ==> entries[j].1.Ok?;
      assert ParseShape(inputs[i].dimensions) == Err(r.error);
      assert forall j :: 0 <= j < i ==> ParseShape(inputs[j].dimensions).Ok? by {
        forall j | 0 <= j < i ensures ParseShape(inputs[j].dimensions).Ok? {
          assert entries[j].1 == ParseShape(inputs[j].dimensions);
        }
      }
      r
    else
      ShapeEntriesKeys(inputs);
      r
  }

  /** The keys of the shape entries are the input names. */
  lemma ShapeEntriesKeys(inputs: seq<ModelInput>)
    ensures Keys(ShapeEntries(inputs)) == Names(inputs)
  {
    var entries := ShapeEntries(inputs);
    forall key | key in Keys(entries) ensures key in Names(inputs) {
      var i :| 0 <= i < |entries| && entries[i].0 == key;
    }
  }

  /** The shape dictionary fails with the first unresolvable dimension of the
      first input whose shape does not convert. */
  lemma ParseShapesFirstFailure(inputs: seq<ModelInput>, i: nat, d: nat)
    requires i < |inputs| && d < |inputs[i].dimensions|
    requires forall j :: 0 <= j < i ==> ParseShape(inputs[j].dimensions).Ok?
    requires ParseDimension(inputs[i].dimensions[d]).Err?
    requires forall e :: 0 <= e < d ==> ParseDimension(inputs[i].dimensions[e]).Ok?
    ensures ParseShapes(inputs) == Err(UnresolvedDimension(inputs[i].dimensions[d]))
  {
    ParseShapeFirstFailure(inputs[i].dimensions, d);
    BuildMapFirstFailure(ShapeEntries(inputs), i);
  }

  /** Each name's shape is the one of the last input carrying that name. */
  lemma ParseShapesLastWins(inputs: seq<ModelInput>, i: nat)
    requires i < |inputs| && ParseShapes(inputs).Ok?
    requires forall j :: i < j < |inputs| ==> inputs[j].anyName != inputs[i].anyName
    ensures ParseShape(inputs[i].dimensions) == Ok(ParseShapes(inputs).value[inputs[i].anyName])
  {
    BuildMapLastWins(ShapeEntries(inputs), i);
  }

  /** The element types, in input order, stopping at the first unknown name. */
  function ParseTypes(inputs: seq<ModelInput>): (r: Result<seq<ElementType>>)
    ensures r.Ok? ==> |r.value| == |inputs|
    ensures r.Ok? ==> forall i :: 0 <= i < |inputs| ==> ParseTypeName(inputs[i].typeName) == Ok(r.value[i])
    ensures r.Err? <==> exists i :: 0 <= i < |inputs| && ParseTypeName(inputs[i].typeName).Err?
    ensures r.Err? ==>
              exists i :: 0 <= i < |inputs| && ParseTypeName(inputs[i].typeName) == Err(r.error)
                && forall j :: 0 <= j < i ==> ParseTypeName(inputs[j].typeName).Ok?
  {
    if |inputs| == 0 then Ok([])
    else
      assert forall j :: 1 <= j <= |inputs[1..]| ==> inputs[1..][j - 1] == inputs[j];
      match ParseTypeName(inputs[0].typeName)
      case Err(e) => Err(e)
      case Ok(t) =>
        match ParseTypes(inputs[1..])
        case Err(e) => Err(e)
        case Ok(ts) => Ok([t] + ts)
  }

  /** The shapes and data types of a model's inputs. Every shape is parsed
      before any type name is looked up, so a bad dimension is reported even
      when a type name is unknown too. */
  function GetNetworkInputs(inputs: seq<ModelInput>): (r: Result<Inputs>)
    ensures r.Ok? <==>
              (forall i :: 0 <= i < |inputs| ==> ParseShape(inputs[i].dimensions).Ok?)
              && (forall i :: 0 <= i < |inputs| ==> ParseTypeName(inputs[i].typeName).Ok?)
    ensures (exists i :: 0 <= i < |inputs| && ParseShape(inputs[i].dimensions).Err?)
            ==> r.Err? && r.error.UnresolvedDimension?
    // a bad shape is reported as the error of the first input whose shape does not convert
    ensures (exists i :: 0 <= i < |inputs| && ParseShape(inputs[i].dimensions).Err?) ==>
              exists i :: 0 <= i < |inputs| && ParseShape(inputs[i].dimensions) == Err(r.error)
                && forall j :: 0 <= j < i ==> ParseShape(inputs[j].dimensions).Ok?
    ensures r.Ok? ==> r.value.shapes.Keys == Names(inputs)
    ensures r.Ok? ==> |r.value.dataTypes| == |inputs|
    ensures r.Ok? ==> forall i :: 0 <= i < |inputs| ==> ParseTypeName(inputs[i].typeName) == Ok(r.value.dataTypes[i])
    ensures r.Ok? ==> ParseShapes(inputs) == Ok(r.value.shapes) && ParseTypes(inputs) == Ok(r.value.dataTypes)
    // with every shape resolved, the failure is the lookup of the first unknown type name
    ensures (forall i :: 0 <= i < |inputs| ==> ParseShape(inputs[i].dimensions).Ok?) && r.Err? ==>
              exists i :: 0 <= i < |inputs| && r.error == UnsupportedElementType(inputs[i].typeName)
                && ParseTypeName(inputs[i].typeName).Err?
                && forall j :: 0 <= j < i ==> ParseTypeName(inputs[j].typeName).Ok?
  {
    match ParseShapes(inputs)
    case Err(e) => Err(e)
    case Ok(shapes) =>
      match ParseTypes(inputs)
      case Err(e) => Err(e)
      case Ok(types) => Ok(Inputs(shapes, types))
  }

  /** The inputs fail with the first unresolvable dimension of the first input
      whose shape does not convert, whatever the type names. */
  lemma UnresolvedDimensionFails(inputs: seq<ModelInput>, i: nat, d: nat)
    requires i < |inputs| && d < |inputs[i].dimensions|
    requires forall j :: 0 <= j < i ==> ParseShape(inputs[j].dimensions).Ok?
    requires ParseDimension(inputs[i].dimensions[d]).Err?
    requires forall e :: 0 <= e < d ==> ParseDimension(inputs[i].dimensions[e]).Ok?
    ensures GetNetworkInputs(inputs) == Err(UnresolvedDimension(inputs[i].dimensions[d]))
  {
    ParseShapesFirstFailure(inputs, i, d);
  }

  /** With every shape resolved, the inputs fail with the first unknown type name. */
  lemma UnsupportedTypeFails(inputs: seq<ModelInput>, i: nat)
    requires forall k :: 0 <= k < |inputs| ==> ParseShape(inputs[k].dimensions).Ok?
    requires i < |inputs| && ParseTypeName(inputs[i].typeName).Err?
    requires forall j :: 0 <= j < i ==> ParseTypeName(inputs[j].typeName).Ok?
    ensures GetNetworkInputs(inputs) == Err(UnsupportedElementType(inputs[i].typeName))
  {
    var r := GetNetworkInputs(inputs);
    var i' :| 0 <= i' < |inputs| && r.error == UnsupportedElementType(inputs[i'].typeName)
              && ParseTypeName(inputs[i'].typeName).Err?
              && forall j :: 0 <= j < i' ==> ParseTypeName(inputs[j].typeName).Ok?;
    assert i' == i;
  }

  /** A static dimension prints as its decimal value, which parses back. */
  lemma ParseShowRoundTrip(n: int)
    ensures ParseDimension(ShowInt(n)) == Ok(n)
  {
    var s := ShowInt(n);
    var m := if n < 0 then -n else n;
    NoSpaceStripsToItself(s);
    assert WellGrouped(Digits(m));
    ValueOfDigits(m);
    if n < 0 {
      assert s[1..] == Digits(m);
    }
  }

  lemma NoSpaceStripsToItself(s: string)
    requires |s| > 0 && !IsSpace(s[0]) && !IsSpace(s[|s| - 1])
    ensures Strip(s) == s
  {
  }

  /** Any character other than white space, a sign, a digit or an underscore
      makes the dimension unresolvable: the `?` of a dynamic dimension, the
      dots of a bounded range `1..10`. */
  lemma {:induction false} ForeignCharacterRejected(text: string, k: nat)
    requires k < |text|
    requires !IsSpace(text[k]) && !IsDigit(text[k]) && text[k] !in "+-_"
    ensures ParseDimension(text) == Err(UnresolvedDimension(text))
  {
    var t := Strip(text);
    var s := TrimStart(text);
    var off := |text| - |s|;
    assert off <= k;
    assert s[k - off] == text[k];
    assert k - off < |t|;
    assert t[k - off] == text[k];
    var digits := if |t| > 0 && (t[0] == '-' || t[0] == '+') then t[1..] else t;
    if |t| > 0 && (t[0] == '-' || t[0] == '+') {
      assert k - off >= 1;
      assert digits[k - off - 1] == text[k];
    } else {
      assert digits[k - off] == text[k];
    }
    assert !WellGrouped(digits);
  }

  /** Two groups of digits joined by one underscore are well grouped. */
  lemma JoinedGroupsWellGrouped(a: string, b: string)
    requires |a| > 0 && |b| > 0 && AllDigits(a) && AllDigits(b)
    ensures WellGrouped(a + "_" + b)
  {
    var t := a + "_" + b;
    assert forall i :: 0 <= i < |a| ==> t[i] == a[i];
    assert t[|a|] == '_';
    assert forall i :: |a| < i < |t| ==> t[i] == b[i - |a| - 1];
  }

  /** Dropping the underscore that joins two groups of digits leaves the digits of both. */
  lemma {:induction false} DropJoined(a: string, b: string)
    requires AllDigits(a) && AllDigits(b)
    ensures DropUnderscores(a + "_" + b) == a + b
    decreases |a|
  {
    var t := a + "_" + b;
    if |a| == 0 {
      assert t[0] == '_' && t[1..] == b;
    } else {
      assert t[0] == a[0] && t[1..] == a[1..] + "_" + b;
      DropJoined(a[1..], b);
      assert [a[0]] + (a[1..] + b) == a + b;
    }
  }

  /** Text without surrounding white space that starts with a digit converts to its unsigned value. */
  lemma UnsignedDimension(t: string, v: nat)
    requires |t| > 0 && IsDigit(t[0]) && Strip(t) == t && ParseUnsigned(t) == Some(v)
    ensures ParseDimension(t) == Ok(v)
  {
  }

  /** An underscore between two groups of digits does not change the value:
      `1_000` converts to 1000. */
  lemma UnderscoreGroupingIgnored(a: string, b: string)
    requires |a| > 0 && |b| > 0 && AllDigits(a) && AllDigits(b)
    ensures AllDigits(a + b)
    ensures ParseDimension(a + "_" + b) == Ok(Value(a + b))
  {
    var t := a + "_" + b;
    assert t[0] == a[0] && t[|t| - 1] == b[|b| - 1];
    NoSpaceStripsToItself(t);
    JoinedGroupsWellGrouped(a, b);
    DropJoined(a, b);
    assert ParseUnsigned(t) == Some(Value(a + b));
    UnsignedDimension(t, Value(a + b));
  }

  /** A dynamic dimension prints as `?` and fails the conversion. */
  lemma DynamicDimensionRejected()
    ensures ParseDimension("?").Err?
  {
    ForeignCharacterRejected("?", 0);
  }
}
