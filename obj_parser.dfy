/**
 * `parseOBJ` run step by step: the parser's local variables become the fields of an
 * `ObjParser`, and its inner functions become methods that update them in place.
 * Every method is proved to perform the step of `Obj` that specifies it, so that the
 * properties proved there hold of the parser. The keyword lookup is the intended one,
 * `Obj.Step`: a keyword naming an `Object.prototype` member is skipped like any other
 * keyword without a handler, where the source as written throws (`Obj.ParseAsWritten`).
 */
module ObjParsing {
  import opened Wrappers
  import opened JsText
  import opened Obj

  /** The state of one run of `parseOBJ`. */
  class ObjParser {
    /** The global `parseFloat`, which the model does not define. */
    const parseFloat: string -> real
    var positions: seq<Tuple>
    var texcoords: seq<Tuple>
    var normals: seq<Tuple>
    var colors: seq<Tuple>
    var geometries: seq<Geometry>
    /** Whether `geometry` is set; when it is, it is the last of `geometries`. */
    var open: bool
    var groups: seq<string>
    var material: string
    var objectName: string
    var materialLibs: seq<string>

    /** The parser's variables as one value. */
    function State(): ObjState
      reads this
    {
      ObjState(positions, texcoords, normals, colors, geometries, open, groups, material, objectName,
               materialLibs)
    }

    /** The variable declarations at the head of `parseOBJ`. */
    constructor(parseFloat: string -> real)
      ensures State() == Init() && this.parseFloat == parseFloat
    {
      this.parseFloat := parseFloat;
      positions := [[0.0, 0.0, 0.0]];
      texcoords := [[0.0, 0.0]];
      normals := [[0.0, 0.0, 0.0]];
      colors := [[0.0, 0.0, 0.0]];
      geometries := [];
      open := false;
      groups := ["default"];
      material := "default";
      objectName := "default";
      materialLibs := [];
    }

    /** `newGeometry()`: forget the open geometry when it holds a position. */
    method NewGeometry()
      requires Valid(State())
      modifies this
      ensures State() == Obj.NewGeometry(old(State()))
    {
      if open && |Last(geometries).data[Position]| > 0 {
        open := false;
      }
    }

    /** `setGeometry()`: open a new geometry with the current context unless one is open. */
    method SetGeometry()
      requires Valid(State())
      modifies this
      ensures State() == Obj.SetGeometry(old(State()))
    {
      if !open {
        geometries := geometries + [Geometry(objectName, groups, material, EmptyBuffers())];
        open := true;
      }
    }

    /** `webglVertexData[a].push(...t)`: the buffers of the open geometry grow in place. */
    method Push(a: Attribute, t: Tuple)
      requires HasOpenGeometry(State())
      modifies this
      ensures State() == AppendToOpen(old(State()), a, t)
    {
      var n := |geometries| - 1;
      var g := geometries[n];
      geometries := geometries[n := g.(data := g.data[a := g.data[a] + t])];
    }

    /** The callback of `ptn.forEach` in `addVertex`, for field `field` at position `i`. */
    method AddField(field: string, i: nat) returns (outcome: Outcome<ObjError>)
      requires HasOpenGeometry(State())
      modifies this
      ensures outcome.Pass? <==> Obj.AddField(old(State()), field, i).Ok?
      ensures outcome.Pass? ==> State() == Obj.AddField(old(State()), field, i).value
      ensures outcome.Fail? ==> outcome.error == Obj.AddField(old(State()), field, i).error
    {
      if field == "" {
        return Pass;
      }
      if i >= 4 {
        return Fail(NoSuchAttribute(field));
      }
      var objIndex := ParseInt(field);
      if objIndex.NaN? {
        return Fail(IndexNotFound(field));
      }
      var store := Store(State(), i);
      var index := ResolveIndex(objIndex.value, |store|);
      if !(0 <= index < |store|) {
        return Fail(IndexNotFound(field));
      }
      var withColors := |colors| > 1;
      var before := colors;
      Push(AttributeAt(i), store[index]);
      if i == 0 && withColors {
        if index < |before| {
          Push(Color, before[index]);
        } else {
          return Fail(ColorNotFound(field));
        }
      }
      return Pass;
    }

    /** `addVertex(vert)`: the fields of one face reference, in order; the first failing field throws. */
    method AddVertex(vert: string) returns (outcome: Outcome<ObjError>)
      requires HasOpenGeometry(State())
      modifies this
      ensures outcome.Pass? <==> Obj.AddVertex(old(State()), vert).Ok?
      ensures outcome.Pass? ==> State() == Obj.AddVertex(old(State()), vert).value
      ensures outcome.Fail? ==> outcome.error == Obj.AddVertex(old(State()), vert).error
    {
      var ptn := Split(vert, '/');
      var i := 0;
      while i < |ptn|
        invariant 0 <= i <= |ptn|
        invariant HasOpenGeometry(State())
        invariant AddFields(old(State()), ptn, i) == Ok(State())
      {
        outcome := AddField(ptn[i], i);
        if outcome.Fail? {
          AddFieldsStaysFailed(old(State()), ptn, i + 1, |ptn|);
          return;
        }
        i := i + 1;
      }
      return Pass;
    }

    /** One iteration of the fan loop: `addVertex` on the three references of triangle `tri`. */
    method Triangle(parts: seq<string>, tri: nat, ghost start: ObjState) returns (outcome: Outcome<ObjError>)
      requires HasOpenGeometry(start) && tri + 2 < |parts|
      requires HasOpenGeometry(State()) && AddVertices(start, Fan(parts, tri)) == Ok(State())
      modifies this
      ensures outcome.Pass? <==> AddVertices(start, Fan(parts, tri + 1)).Ok?
      ensures outcome.Pass? ==> HasOpenGeometry(State()) && AddVertices(start, Fan(parts, tri + 1)) == Ok(State())
      ensures outcome.Fail? ==> AddVertices(start, Fan(parts, tri + 1)) == Err(outcome.error)
    {
      ghost var first := Fan(parts, tri) + [parts[0]];
      ghost var second := first + [parts[tri + 1]];
      assert Fan(parts, tri + 1) == second + [parts[tri + 2]];
      outcome := AddVertex(parts[0]);
      AddVerticesSnoc(start, Fan(parts, tri), parts[0]);
      if outcome.Fail? {
        assert Fan(parts, tri + 1) == first + [parts[tri + 1], parts[tri + 2]];
        AddVerticesStaysFailed(start, first, [parts[tri + 1], parts[tri + 2]]);
        return;
      }
      outcome := AddVertex(parts[tri + 1]);
      AddVerticesSnoc(start, first, parts[tri + 1]);
      if outcome.Fail? {
        AddVerticesStaysFailed(start, second, [parts[tri + 2]]);
        return;
      }
      outcome := AddVertex(parts[tri + 2]);
      AddVerticesSnoc(start, second, parts[tri + 2]);
    }

    /** The `f` handler: open a geometry, then emit the fan of triangles around `parts[0]`. */
    method Face(parts: seq<string>) returns (outcome: Outcome<ObjError>)
      requires Valid(State())
      modifies this
      ensures outcome.Pass? <==> Obj.Face(old(State()), parts).Ok?
      ensures outcome.Pass? ==> State() == Obj.Face(old(State()), parts).value
      ensures outcome.Fail? ==> outcome.error == Obj.Face(old(State()), parts).error
    {
      SetGeometry();
      ghost var start := State();
      assert Obj.Face(old(State()), parts) == AddVertices(start, Fan(parts, TriangleCount(parts)));
      var numTriangles := |parts| - 2;
      var tri := 0;
      while tri < numTriangles
        invariant tri == 0 || 0 < tri <= numTriangles
        invariant HasOpenGeometry(State())
        invariant AddVertices(start, Fan(parts, tri)) == Ok(State())
      {
        outcome := Triangle(parts, tri, start);
        if outcome.Fail? {
          FanFails(start, parts, tri);
          return;
        }
        tri := tri + 1;
      }
      assert tri == TriangleCount(parts);
      return Pass;
    }

    /** The handler for directive `d`. */
    method Apply(d: ObjDirective, parts: seq<string>, unparsedArgs: string) returns (outcome: Outcome<ObjError>)
      requires Valid(State())
      modifies this
      ensures outcome.Pass? <==> Obj.Apply(old(State()), d, parts, unparsedArgs, parseFloat).Ok?
      ensures outcome.Pass? ==> State() == Obj.Apply(old(State()), d, parts, unparsedArgs, parseFloat).value
      ensures outcome.Fail? ==> outcome.error == Obj.Apply(old(State()), d, parts, unparsedArgs, parseFloat).error
    {
      outcome := Pass;
      match d
      case V =>
        if |parts| > 3 {
          positions := positions + [Floats(parseFloat, parts[..3])];
          colors := colors + [Floats(parseFloat, parts[3..])];
        } else {
          positions := positions + [Floats(parseFloat, parts)];
        }
      case Vn => normals := normals + [Floats(parseFloat, parts)];
      case Vt => texcoords := texcoords + [Floats(parseFloat, parts)];
      case F => outcome := Face(parts);
      case S =>
      case Mtllib => materialLibs := materialLibs + [Join(parts, " ")];
      case Usemtl =>
        material := unparsedArgs;
        NewGeometry();
      case G =>
        groups := parts;
        NewGeometry();
      case O =>
        objectName := unparsedArgs;
        NewGeometry();
      case Unhandled =>
    }

    /** One iteration of the line loop. */
    method Step(rawLine: string) returns (outcome: Outcome<ObjError>)
      requires Valid(State())
      modifies this
      ensures outcome.Pass? <==> Obj.Step(old(State()), rawLine, parseFloat).Ok?
      ensures outcome.Pass? ==> State() == Obj.Step(old(State()), rawLine, parseFloat).value
      ensures outcome.Fail? ==> outcome.error == Obj.Step(old(State()), rawLine, parseFloat).error
    {
      var line := Trim(rawLine);
      if line == "" || StartsWith(line, "#") {
        return Pass;
      }
      var m := MatchKeyword(line);
      var parts := SplitOnSpace(line)[1..];
      outcome := Apply(ObjDirectiveOf(m.keyword), parts, m.unparsedArgs);
    }

    /** The loop after the line loop: drop the empty buffers of every geometry, in place. */
    method RemoveEmptyBuffers()
      modifies this
      ensures State() == old(State()).(geometries := Finalize(old(State()).geometries))
    {
      var i := 0;
      while i < |geometries|
        invariant 0 <= i <= |geometries| == |old(geometries)|
        invariant State().(geometries := old(geometries)) == old(State())
        invariant forall j :: 0 <= j < i ==> geometries[j] == Finalize(old(geometries))[j]
        invariant forall j :: i <= j < |geometries| ==> geometries[j] == old(geometries)[j]
      {
        var g := geometries[i];
        geometries := geometries[i := g.(data := WithoutEmptyBuffers(g.data))];
        i := i + 1;
      }
    }
  }

  /** `parseOBJ(text)`, with the intended keyword lookup: the model it returns, or the exception it throws. */
  method ParseObj(text: string, parseFloat: string -> real) returns (r: Result<ObjModel, ObjError>)
    ensures r == Obj.Parse(text, parseFloat)
  {
    var parser := new ObjParser(parseFloat);
    var lines := Split(text, '\n');
    var lineNo := 0;
    while lineNo < |lines|
      invariant 0 <= lineNo <= |lines|
      invariant Lines(lines[..lineNo], parseFloat) == Ok(parser.State())
    {
      LinesSnoc(lines, lineNo, parseFloat);
      var outcome := parser.Step(lines[lineNo]);
      if outcome.Fail? {
        LinesStayFailed(lines, lineNo + 1, parseFloat);
        assert lines[..|lines|] == lines;
        return Err(outcome.error);
      }
      lineNo := lineNo + 1;
    }
    assert lines[..lineNo] == lines;
    parser.RemoveEmptyBuffers();
    return Ok(ObjModel(parser.geometries, parser.materialLibs));
  }

  // ---------------------------------------------------------------------------------
  // An exception ends the loop it is thrown in

  lemma {:induction false} AddFieldsStaysFailed(st: ObjState, ptn: seq<string>, n: nat, m: nat)
    requires HasOpenGeometry(st) && n <= m <= |ptn| && AddFields(st, ptn, n).Err?
    ensures AddFields(st, ptn, m) == AddFields(st, ptn, n)
    decreases m
  {
    if m > n {
      AddFieldsStaysFailed(st, ptn, n, m - 1);
    }
  }

  /** `addVertex` on one more reference continues from where the earlier references left off. */
  lemma AddVerticesSnoc(st: ObjState, refs: seq<string>, x: string)
    requires HasOpenGeometry(st)
    ensures AddVertices(st, refs + [x])
         == if AddVertices(st, refs).Ok? then AddVertex(AddVertices(st, refs).value, x) else AddVertices(st, refs)
  {
    assert (refs + [x])[..|refs|] == refs;
  }

  lemma {:induction false} AddVerticesStaysFailed(st: ObjState, refs: seq<string>, more: seq<string>)
    requires HasOpenGeometry(st) && AddVertices(st, refs).Err?
    ensures AddVertices(st, refs + more) == AddVertices(st, refs)
    decreases |more|
  {
    if |more| > 0 {
      var shorter := more[..|more| - 1];
      var x := more[|more| - 1];
      assert refs + more == (refs + shorter) + [x];
      AddVerticesStaysFailed(st, refs, shorter);
      AddVerticesSnoc(st, refs + shorter, x);
    } else {
      assert refs + more == refs;
    }
  }

  /** A triangle that throws makes the whole fan throw the same error. */
  lemma FanFails(start: ObjState, parts: seq<string>, tri: nat)
    requires HasOpenGeometry(start) && tri + 2 < |parts|
    requires AddVertices(start, Fan(parts, tri + 1)).Err?
    ensures AddVertices(start, Fan(parts, TriangleCount(parts))) == AddVertices(start, Fan(parts, tri + 1))
  {
    var all := Fan(parts, TriangleCount(parts));
    FanPrefix(parts, tri + 1, TriangleCount(parts));
    assert Fan(parts, tri + 1) + all[3 * (tri + 1)..] == all;
    AddVerticesStaysFailed(start, Fan(parts, tri + 1), all[3 * (tri + 1)..]);
  }

  lemma {:induction false} FanPrefix(parts: seq<string>, u: nat, t: nat)
    requires u <= t && t + 2 <= |parts|
    ensures Fan(parts, t)[..3 * u] == Fan(parts, u)
    decreases t - u
  {
    if u < t {
      FanPrefix(parts, u, t - 1);
      assert Fan(parts, t)[..3 * (t - 1)] == Fan(parts, t - 1);
    } else {
      assert Fan(parts, t)[..3 * t] == Fan(parts, t);
    }
  }

  /** The line loop over one more line continues from where the earlier lines left off. */
  lemma LinesSnoc(lines: seq<string>, i: nat, parseFloat: string -> real)
    requires i < |lines|
    ensures Lines(lines[..i + 1], parseFloat)
         == if Lines(lines[..i], parseFloat).Ok? then Step(Lines(lines[..i], parseFloat).value, lines[i], parseFloat)
            else Lines(lines[..i], parseFloat)
  {
    assert lines[..i + 1][..i] == lines[..i];
  }

  lemma {:induction false} LinesStayFailed(lines: seq<string>, n: nat, parseFloat: string -> real)
    requires n <= |lines| && Lines(lines[..n], parseFloat).Err?
    ensures Lines(lines, parseFloat) == Lines(lines[..n], parseFloat)
    decreases |lines|
  {
    if n < |lines| {
      var shorter := lines[..|lines| - 1];
      assert shorter[..n] == lines[..n];
      LinesStayFailed(shorter, n, parseFloat);
    } else {
      assert lines[..n] == lines;
    }
  }
}
