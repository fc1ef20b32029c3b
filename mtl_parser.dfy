/**
 * `parseMTL` run step by step: `materials` and the current record are variables the
 * handlers of the keyword table update in place. Every method is proved to perform the
 * step of `Mtl` that specifies it. The keyword lookup is the intended one, `Mtl.Step`:
 * a keyword naming an `Object.prototype` member is skipped like any other keyword
 * without a handler, where the source as written throws (`Mtl.ParseAsWritten`).
 */
module MtlParsing {
  import opened Wrappers
  import opened JsText
  import opened Mtl

  /** The state of one run of `parseMTL`. */
  class MtlParser {
    /** The global `parseFloat`, which the model does not define. */
    const parseFloat: string -> real
    var materials: map<string, Material>
    /** The name `material` was last stored under, once a `newmtl` has run. */
    var current: Option<string>

    /** The parser's variables as one value. */
    function State(): MtlState
      reads this
    {
      MtlState(materials, current)
    }

    /** `const materials = {}; let material;`. */
    constructor(parseFloat: string -> real)
      ensures State() == Init() && this.parseFloat == parseFloat
    {
      this.parseFloat := parseFloat;
      materials := map[];
      current := None;
    }

    /** `keywords[keyword](parts, unparsedArgs)` for a keyword of the table, or nothing for any other. */
    method Apply(d: MtlDirective, parts: seq<string>, unparsedArgs: string) returns (outcome: Outcome<MtlError>)
      requires Valid(State())
      modifies this
      ensures outcome.Pass? <==> Mtl.Apply(old(State()), d, parts, unparsedArgs, parseFloat).Ok?
      ensures outcome.Pass? ==> State() == Mtl.Apply(old(State()), d, parts, unparsedArgs, parseFloat).value
      ensures outcome.Fail? ==> outcome.error == Mtl.Apply(old(State()), d, parts, unparsedArgs, parseFloat).error
    {
      outcome := Pass;
      if d == NewMtl {
        materials := materials[unparsedArgs := EmptyMaterial()];
        current := Some(unparsedArgs);
      } else if d != Unhandled {
        if current.None? {
          // `material` is still `undefined`: setting a property on it throws
          return Fail(NoCurrentMaterial(d));
        }
        var name := current.value;
        materials := materials[name := SetField(materials[name], d, parts, unparsedArgs, parseFloat)];
      }
    }

    /** One iteration of the line loop. */
    method Step(rawLine: string) returns (outcome: Outcome<MtlError>)
      requires Valid(State())
      modifies this
      ensures outcome.Pass? <==> Mtl.Step(old(State()), rawLine, parseFloat).Ok?
      ensures outcome.Pass? ==> State() == Mtl.Step(old(State()), rawLine, parseFloat).value
      ensures outcome.Fail? ==> outcome.error == Mtl.Step(old(State()), rawLine, parseFloat).error
    {
      var line := Trim(rawLine);
      if line == "" || StartsWith(line, "#") {
        return Pass;
      }
      var m := MatchKeyword(line);
      var parts := SplitOnSpace(line)[1..];
      outcome := Apply(MtlDirectiveOf(m.keyword), parts, m.unparsedArgs);
    }
  }

  /** `parseMTL(text)`, with the intended keyword lookup: the materials it returns, or the exception it throws. */
  method ParseMtl(text: string, parseFloat: string -> real) returns (r: Result<map<string, Material>, MtlError>)
    ensures r == Mtl.Parse(text, parseFloat)
  {
    var parser := new MtlParser(parseFloat);
    var lines := Split(text, '\n');
    var lineNo := 0;
    while lineNo < |lines|
      invariant 0 <= lineNo <= |lines|
      invariant Lines(lines[..lineNo], parseFloat) == Ok(parser.State())
    {
      LinesSnoc(lines, lineNo, parseFloat);
      var outcome := parser.Step(lines[lineNo]);
      if outcome.Fail? {
        LinesStayFailed(lines, lineNo + 1, parseFloat);
        assert lines[..|lines|] == lines;
        return Err(outcome.error);
      }
      lineNo := lineNo + 1;
    }
    assert lines[..lineNo] == lines;
    assert Lines(lines, parseFloat) == Ok(parser.State());
    r := Ok(parser.State().materials);
  }

  // ---------------------------------------------------------------------------------
  // An exception ends the line loop

  lemma LinesSnoc(lines: seq<string>, i: nat, parseFloat: string -> real)
    requires i < |lines|
    ensures Lines(lines[..i + 1], parseFloat)
         == if Lines(lines[..i], parseFloat).Ok? then Step(Lines(lines[..i], parseFloat).value, lines[i], parseFloat)
            else Lines(lines[..i], parseFloat)
  {
    assert lines[..i + 1][..i] == lines[..i];
  }

  lemma {:induction false} LinesStayFailed(lines: seq<string>, n: nat, parseFloat: string -> real)
    requires n <= |lines| && Lines(lines[..n], parseFloat).Err?
    ensures Lines(lines, parseFloat) == Lines(lines[..n], parseFloat)
    decreases |lines|
  {
    if n < |lines| {
      var shorter := lines[..|lines| - 1];
      assert shorter[..n] == lines[..n];
      LinesStayFailed(shorter, n, parseFloat);
    } else {
      assert lines[..n] == lines;
    }
  }
}
