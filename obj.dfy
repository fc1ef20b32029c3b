/**
 * The Wavefront OBJ reader `parseOBJ` as a state machine on values: the state the
 * reader's closures share, one function per closure and keyword handler, the fold over
 * the lines, and the lemmas about what a parse promises. The class in `ObjParsing`
 * runs the same steps in place and is proved to follow these functions.
 */
module Obj {
  import opened Wrappers
  import opened JsText
  import JsObject

  /** The numbers of one `v`, `vt` or `vn` line, or the color part of a `v` line: as many as the line had. */
  type Tuple = seq<real>

  /** The four per-vertex attributes, in the order of the slash fields of a face reference. */
  datatype Attribute = Position | Texcoord | Normal | Color

  /** The attribute that slash field `i` of a face reference, and store `i`, stand for. */
  function AttributeAt(i: nat): Attribute
    requires i < 4
  {
    if i == 0 then Position else if i == 1 then Texcoord else if i == 2 then Normal else Color
  }

  /**
   * One geometry: the object, groups and material current when it was created, and its
   * flat buffers by attribute. While the parse runs every geometry has all four buffers;
   * the result keeps only the non-empty ones.
   */
  datatype Geometry = Geometry(objectName: string, groups: seq<string>, material: string,
                               data: map<Attribute, seq<real>>)

  /** The buffers of a geometry just created: all four, all empty. */
  function EmptyBuffers(): (data: map<Attribute, seq<real>>)
    ensures forall a: Attribute :: a in data && data[a] == []
  {
    var data := map[Position := [], Texcoord := [], Normal := [], Color := []];
    EveryAttribute(data);
    data
  }

  lemma EveryAttribute(data: map<Attribute, seq<real>>)
    requires Position in data && Texcoord in data && Normal in data && Color in data
    ensures forall a: Attribute :: a in data
  {
    forall a: Attribute ensures a in data {
      match a
      case Position =>
      case Texcoord =>
      case Normal =>
      case Color =>
    }
  }

  predicate HasAllBuffers(g: Geometry) {
    forall a: Attribute :: a in g.data
  }

  /** The context a geometry captured when it was created. */
  predicate SameContext(g: Geometry, h: Geometry) {
    g.objectName == h.objectName && g.groups == h.groups && g.material == h.material
  }

  /** What a parse returns. */
  datatype ObjModel = ObjModel(geometries: seq<Geometry>, materialLibs: seq<string>)

  /**
   * The TypeErrors a parse can raise, each aborting it: a slash field whose index does
   * not parse or names no stored tuple, a position index with no color tuple while
   * vertex colors are in use, a fifth slash field, and (only in the dispatch as written)
   * a keyword that names an inherited `Object.prototype` member that throws.
   */
  datatype ObjError =
    | IndexNotFound(field: string)
    | ColorNotFound(field: string)
    | NoSuchAttribute(field: string)
    | PrototypeMember(keyword: string)

  /**
   * The variables `parseOBJ`'s closures share. `open` says whether `geometry` is
   * defined; when it is, the geometry it points to, and whose arrays
   * `webglVertexData` holds, is the last element of `geometries`.
   */
  datatype ObjState = ObjState(
    positions: seq<Tuple>, texcoords: seq<Tuple>, normals: seq<Tuple>, colors: seq<Tuple>,
    geometries: seq<Geometry>, open: bool,
    groups: seq<string>, material: string, objectName: string,
    materialLibs: seq<string>)

  function Last<T>(s: seq<T>): T
    requires |s| > 0
  {
    s[|s| - 1]
  }

  /** Store `i`, in the order of `objVertexData`. */
  function Store(st: ObjState, i: nat): seq<Tuple>
    requires i < 4
  {
    if i == 0 then st.positions else if i == 1 then st.texcoords
    else if i == 2 then st.normals else st.colors
  }

  /** The state is consistent: an open geometry exists, and every geometry has its four buffers. */
  predicate Valid(st: ObjState) {
    (st.open ==> |st.geometries| > 0)
    && forall j :: 0 <= j < |st.geometries| ==> HasAllBuffers(st.geometries[j])
  }

  predicate HasOpenGeometry(st: ObjState) {
    Valid(st) && st.open
  }

  /** Buffer `a` of the open geometry. */
  function OpenBuffer(st: ObjState, a: Attribute): seq<real>
    requires HasOpenGeometry(st)
  {
    Last(st.geometries).data[a]
  }

  /** The state before the first line: each store holds its slot-0 sentinel, and the context is 'default'. */
  function Init(): (st: ObjState)
    ensures Valid(st) && !st.open && st.geometries == [] && st.materialLibs == []
    ensures st.objectName == "default" && st.material == "default" && st.groups == ["default"]
  {
    ObjState([[0.0, 0.0, 0.0]], [[0.0, 0.0]], [[0.0, 0.0, 0.0]], [[0.0, 0.0, 0.0]],
             [], false, ["default"], "default", "default", [])
  }

  /** `newGeometry`: forget the open geometry, but only if it already holds a position. */
  function NewGeometry(st: ObjState): (r: ObjState)
    requires Valid(st)
    ensures Valid(r)
    ensures r.open <==> st.open && |Last(st.geometries).data[Position]| == 0
    ensures r.(open := st.open) == st
  {
    if st.open && |Last(st.geometries).data[Position]| > 0 then st.(open := false) else st
  }

  /** `setGeometry`: when no geometry is open, open a new one with the current context and empty buffers. */
  function SetGeometry(st: ObjState): (r: ObjState)
    requires Valid(st)
    ensures HasOpenGeometry(r)
    ensures st.open ==> r == st
    ensures !st.open ==>
      r.geometries == st.geometries + [Geometry(st.objectName, st.groups, st.material, EmptyBuffers())]
      && r.(geometries := st.geometries, open := false) == st
  {
    if st.open then st
    else st.(geometries := st.geometries + [Geometry(st.objectName, st.groups, st.material, EmptyBuffers())],
             open := true)
  }

  /** Appends `t` to buffer `a` of the open geometry. */
  function AppendToOpen(st: ObjState, a: Attribute, t: Tuple): (r: ObjState)
    requires HasOpenGeometry(st)
    ensures HasOpenGeometry(r)
  {
    var n := |st.geometries| - 1;
    var g := st.geometries[n];
    st.(geometries := st.geometries[n := g.(data := g.data[a := g.data[a] + t])])
  }

  /** The append grows buffer `a` of the open geometry by `t` and changes nothing else. */
  lemma AppendToOpenFacts(st: ObjState, a: Attribute, t: Tuple)
    requires HasOpenGeometry(st)
    ensures var r := AppendToOpen(st, a, t);
      && OnlyOpenBuffersChanged(st, r)
      && OpenBuffer(r, a) == OpenBuffer(st, a) + t
      && forall b :: b != a ==> OpenBuffer(r, b) == OpenBuffer(st, b)
  {
  }

  /**
   * The frame of vertex emission: only the buffers of the open geometry change, and
   * they only grow.
   */
  predicate OnlyOpenBuffersChanged(st: ObjState, r: ObjState)
    requires HasOpenGeometry(st) && HasOpenGeometry(r)
  {
    r.(geometries := st.geometries) == st
    && |r.geometries| == |st.geometries|
    && r.geometries[..|r.geometries| - 1] == st.geometries[..|st.geometries| - 1]
    && SameContext(Last(r.geometries), Last(st.geometries))
    && forall a :: OpenBuffer(st, a) <= OpenBuffer(r, a)
  }

  /** Where a signed, one-based index points in a store of `len` tuples: negative indices count back from the end. */
  function ResolveIndex(k: int, len: nat): int {
    k + (if k >= 0 then 0 else len)
  }

  /**
   * One slash field `field`, in position `i`, of a face reference (the callback of
   * `ptn.forEach` in `addVertex`): an empty field adds nothing; otherwise the tuple the
   * index resolves to is appended to buffer `i`, and for the position field, once vertex
   * colors are in use, the color tuple at the same index besides.
   */
  function AddField(st: ObjState, field: string, i: nat): (r: Result<ObjState, ObjError>)
    requires HasOpenGeometry(st)
    ensures r.Ok? ==> HasOpenGeometry(r.value)
    ensures field == "" ==> r == Ok(st)
  {
    if field == "" then Ok(st)
    else if i >= 4 then Err(NoSuchAttribute(field))
    else match ParseInt(field)
      case NaN => Err(IndexNotFound(field))
      case Int(k) =>
        var store := Store(st, i);
        var index := ResolveIndex(k, |store|);
        if !(0 <= index < |store|) then Err(IndexNotFound(field))
        else
          var st1 := AppendToOpen(st, AttributeAt(i), store[index]);
          if i == 0 && |st.colors| > 1 then
            if index < |st.colors| then Ok(AppendToOpen(st1, Color, st.colors[index]))
            else Err(ColorNotFound(field))
          else Ok(st1)
  }

  /**
   * A non-empty field that succeeds names an existing tuple of store `i` and appends it to
   * buffer `i`; the position field appends the color tuple at the same index once colors are
   * in use; and the field throws exactly when it is a fifth field, is not a number, points
   * outside its store, or points past the colors.
   */
  lemma AddFieldFacts(st: ObjState, field: string, i: nat)
    requires HasOpenGeometry(st)
    ensures var r := AddField(st, field, i);
      && (r.Ok? && field != "" ==>
            && i < 4 && ParseInt(field).Int?
            && var index := ResolveIndex(ParseInt(field).value, |Store(st, i)|);
               && 0 <= index < |Store(st, i)|
               && OpenBuffer(r.value, AttributeAt(i)) == OpenBuffer(st, AttributeAt(i)) + Store(st, i)[index])
      && (r.Ok? && field != "" && i == 0 ==>
            var index := ResolveIndex(ParseInt(field).value, |st.positions|);
            OpenBuffer(r.value, Color)
            == OpenBuffer(st, Color) + (if |st.colors| > 1 && 0 <= index < |st.colors| then st.colors[index] else []))
      && (r.Ok? && i < 4 ==> forall a :: a != AttributeAt(i) && !(i == 0 && a == Color) ==>
            OpenBuffer(r.value, a) == OpenBuffer(st, a))
      && (r.Ok? ==> OnlyOpenBuffersChanged(st, r.value))
      && (r.Err? <==>
            field != "" && (i >= 4 || ParseInt(field).NaN?
              || !(0 <= ResolveIndex(ParseInt(field).value, |Store(st, i)|) < |Store(st, i)|)
              || (i == 0 && |st.colors| > 1
                  && ResolveIndex(ParseInt(field).value, |st.positions|) >= |st.colors|)))
  {
    if field != "" && i < 4 && ParseInt(field).Int? {
      var store := Store(st, i);
      var index := ResolveIndex(ParseInt(field).value, |store|);
      if 0 <= index < |store| {
        var st1 := AppendToOpen(st, AttributeAt(i), store[index]);
        AppendToOpenFacts(st, AttributeAt(i), store[index]);
        if i == 0 && |st.colors| > 1 && index < |st.colors| {
          AppendToOpenFacts(st1, Color, st.colors[index]);
          OnlyOpenBuffersChangedTransitive(st, st1, AppendToOpen(st1, Color, st.colors[index]));
        }
      }
    }
  }

  lemma OnlyOpenBuffersChangedTransitive(s1: ObjState, s2: ObjState, s3: ObjState)
    requires HasOpenGeometry(s1) && HasOpenGeometry(s2) && HasOpenGeometry(s3)
    requires OnlyOpenBuffersChanged(s1, s2) && OnlyOpenBuffersChanged(s2, s3)
    ensures OnlyOpenBuffersChanged(s1, s3)
  {
    forall a ensures OpenBuffer(s1, a) <= OpenBuffer(s3, a) {
      assert OpenBuffer(s1, a) <= OpenBuffer(s2, a) <= OpenBuffer(s3, a);
    }
  }

  /** The first `n` slash fields of `ptn`, in order; the first failing field aborts. */
  function AddFields(st: ObjState, ptn: seq<string>, n: nat): (r: Result<ObjState, ObjError>)
    requires HasOpenGeometry(st) && n <= |ptn|
    ensures r.Ok? ==> HasOpenGeometry(r.value)
  {
    if n == 0 then Ok(st)
    else match AddFields(st, ptn, n - 1)
      case Err(e) => Err(e)
      case Ok(s) => AddField(s, ptn[n - 1], n - 1)
  }

  /** `addVertex(vert)`: every slash field of one face reference, in order. */
  function AddVertex(st: ObjState, vert: string): (r: Result<ObjState, ObjError>)
    requires HasOpenGeometry(st)
    ensures r.Ok? ==> HasOpenGeometry(r.value)
  {
    var ptn := Split(vert, '/');
    AddFields(st, ptn, |ptn|)
  }

  /** `addVertex` applied to each of `refs` in turn; the first failing reference aborts. */
  function AddVertices(st: ObjState, refs: seq<string>): (r: Result<ObjState, ObjError>)
    requires HasOpenGeometry(st)
    ensures r.Ok? ==> HasOpenGeometry(r.value)
  {
    if |refs| == 0 then Ok(st)
    else match AddVertices(st, refs[..|refs| - 1])
      case Err(e) => Err(e)
      case Ok(s) => AddVertex(s, refs[|refs| - 1])
  }

  /** The first `n` fields of a reference change only the open geometry's buffers, and only by growing them. */
  lemma {:induction false} AddFieldsFrame(st: ObjState, ptn: seq<string>, n: nat)
    requires HasOpenGeometry(st) && n <= |ptn| && AddFields(st, ptn, n).Ok?
    ensures OnlyOpenBuffersChanged(st, AddFields(st, ptn, n).value)
    decreases n
  {
    if n > 0 {
      var s := AddFields(st, ptn, n - 1).value;
      AddFieldsFrame(st, ptn, n - 1);
      AddFieldFacts(s, ptn[n - 1], n - 1);
      OnlyOpenBuffersChangedTransitive(st, s, AddFields(st, ptn, n).value);
    }
  }

  /** `addVertex` on each of `refs` changes only the open geometry's buffers, and only by growing them. */
  lemma {:induction false} AddVerticesFrame(st: ObjState, refs: seq<string>)
    requires HasOpenGeometry(st) && AddVertices(st, refs).Ok?
    ensures OnlyOpenBuffersChanged(st, AddVertices(st, refs).value)
    decreases |refs|
  {
    if |refs| > 0 {
      var s := AddVertices(st, refs[..|refs| - 1]).value;
      AddVerticesFrame(st, refs[..|refs| - 1]);
      var ptn := Split(refs[|refs| - 1], '/');
      AddFieldsFrame(s, ptn, |ptn|);
      OnlyOpenBuffersChangedTransitive(st, s, AddVertices(st, refs).value);
    }
  }

  /** `parts.length - 2` triangles, none when the face lists fewer than three references. */
  function TriangleCount(parts: seq<string>): nat {
    if |parts| >= 3 then |parts| - 2 else 0
  }

  /**
   * The references the first `t` iterations of the fan loop in the `f` handler pass to
   * `addVertex`: three per triangle, `parts[0]`, `parts[j + 1]`, `parts[j + 2]` for
   * triangle `j`.
   */
  function Fan(parts: seq<string>, t: nat): (refs: seq<string>)
    requires t == 0 || t + 2 <= |parts|
    ensures |refs| == 3 * t
    ensures forall j :: 0 <= j < t ==>
      refs[3 * j] == parts[0] && refs[3 * j + 1] == parts[j + 1] && refs[3 * j + 2] == parts[j + 2]
  {
    if t == 0 then [] else Fan(parts, t - 1) + [parts[0], parts[t], parts[t + 1]]
  }

  /** The `f` handler: open a geometry if none is open, then emit the fan of the face's references. */
  function Face(st: ObjState, parts: seq<string>): (r: Result<ObjState, ObjError>)
    requires Valid(st)
    ensures r.Ok? ==> HasOpenGeometry(r.value)
    ensures |parts| < 3 ==> r == Ok(SetGeometry(st))
  {
    AddVertices(SetGeometry(st), Fan(parts, TriangleCount(parts)))
  }

  /** A face that succeeds changes only the buffers of the geometry it opened or found open, and only by growing them. */
  lemma FaceFrame(st: ObjState, parts: seq<string>)
    requires Valid(st) && Face(st, parts).Ok?
    ensures OnlyOpenBuffersChanged(SetGeometry(st), Face(st, parts).value)
  {
    AddVerticesFrame(SetGeometry(st), Fan(parts, TriangleCount(parts)));
  }

  /** The keywords the `keywords` table of `parseOBJ` defines, and `Unhandled` for any other. */
  datatype ObjDirective = V | Vn | Vt | F | S | Mtllib | Usemtl | G | O | Unhandled

  /** `keywords[keyword]`, looking only at the table's own entries. */
  function ObjDirectiveOf(keyword: string): ObjDirective {
    match keyword
    case "v" => V
    case "vn" => Vn
    case "vt" => Vt
    case "f" => F
    case "s" => S
    case "mtllib" => Mtllib
    case "usemtl" => Usemtl
    case "g" => G
    case "o" => O
    case _ => Unhandled
  }

  /** The handler for directive `d`, given the line's `parts` and `unparsedArgs`. */
  function Apply(st: ObjState, d: ObjDirective, parts: seq<string>, unparsedArgs: string,
                 parseFloat: string -> real): (r: Result<ObjState, ObjError>)
    requires Valid(st)
    ensures r.Ok? ==> Valid(r.value)
    ensures d == Unhandled || d == S ==> r == Ok(st)
  {
    match d
    case V =>
      if |parts| > 3 then
        Ok(st.(positions := st.positions + [Floats(parseFloat, parts[..3])],
               colors := st.colors + [Floats(parseFloat, parts[3..])]))
      else Ok(st.(positions := st.positions + [Floats(parseFloat, parts)]))
    case Vn => Ok(st.(normals := st.normals + [Floats(parseFloat, parts)]))
    case Vt => Ok(st.(texcoords := st.texcoords + [Floats(parseFloat, parts)]))
    case F => Face(st, parts)
    case S => Ok(st)
    case Mtllib => Ok(st.(materialLibs := st.materialLibs + [Join(parts, " ")]))
    case Usemtl => Ok(NewGeometry(st.(material := unparsedArgs)))
    case G => Ok(NewGeometry(st.(groups := parts)))
    case O => Ok(NewGeometry(st.(objectName := unparsedArgs)))
    case Unhandled => Ok(st)
  }

  /** One iteration of the line loop of `parseOBJ`. */
  function Step(st: ObjState, rawLine: string, parseFloat: string -> real): (r: Result<ObjState, ObjError>)
    requires Valid(st)
    ensures r.Ok? ==> Valid(r.value)
    ensures Skipped(Trim(rawLine)) ==> r == Ok(st)
    ensures !Skipped(Trim(rawLine)) && ObjDirectiveOf(MatchKeyword(Trim(rawLine)).keyword) == Unhandled ==> r == Ok(st)
  {
    var line := Trim(rawLine);
    if Skipped(line) then Ok(st)
    else
      var m := MatchKeyword(line);
      Apply(st, ObjDirectiveOf(m.keyword), Parts(line), m.unparsedArgs, parseFloat)
  }

  /** The line loop over `lines`, from the initial state; the first failing line aborts. */
  function Lines(lines: seq<string>, parseFloat: string -> real): (r: Result<ObjState, ObjError>)
    ensures r.Ok? ==> Valid(r.value)
  {
    if |lines| == 0 then Ok(Init())
    else match Lines(lines[..|lines| - 1], parseFloat)
      case Err(e) => Err(e)
      case Ok(st) => Step(st, lines[|lines| - 1], parseFloat)
  }

  /** `Object.fromEntries(Object.entries(data).filter(([, array]) => array.length > 0))`. */
  function WithoutEmptyBuffers(data: map<Attribute, seq<real>>): (r: map<Attribute, seq<real>>)
    ensures forall a :: a in r <==> a in data && |data[a]| > 0
    ensures forall a :: a in r ==> r[a] == data[a]
  {
    map a | a in data && |data[a]| > 0 :: data[a]
  }

  /** The loop after the line loop: every geometry, in order, keeps only its non-empty buffers. */
  function Finalize(gs: seq<Geometry>): (r: seq<Geometry>)
    ensures |r| == |gs|
    ensures forall j :: 0 <= j < |gs| ==>
      SameContext(r[j], gs[j]) && r[j].data == WithoutEmptyBuffers(gs[j].data)
  {
    seq(|gs|, j requires 0 <= j < |gs| => gs[j].(data := WithoutEmptyBuffers(gs[j].data)))
  }

  /** `parseOBJ(text)`, with `parseFloat` standing for the global of that name. */
  function Parse(text: string, parseFloat: string -> real): (r: Result<ObjModel, ObjError>)
    ensures r.Ok? ==> forall j, a :: 0 <= j < |r.value.geometries| && a in r.value.geometries[j].data
                        ==> |r.value.geometries[j].data[a]| > 0
  {
    match Lines(Split(text, '\n'), parseFloat)
    case Err(e) => Err(e)
    case Ok(st) => Ok(ObjModel(Finalize(st.geometries), st.materialLibs))
  }

  // ---------------------------------------------------------------------------------
  // Face references and index resolution

  /** Two fields that resolve to the same index append the same tuples, or fail together. */
  lemma AddFieldByIndex(st: ObjState, f1: string, f2: string, i: nat)
    requires HasOpenGeometry(st) && i < 4 && f1 != "" && f2 != ""
    requires ParseInt(f1).Int? && ParseInt(f2).Int?
    requires ResolveIndex(ParseInt(f1).value, |Store(st, i)|) == ResolveIndex(ParseInt(f2).value, |Store(st, i)|)
    ensures AddField(st, f1, i).Ok? <==> AddField(st, f2, i).Ok?
    ensures AddField(st, f1, i).Ok? ==> AddField(st, f1, i) == AddField(st, f2, i)
  {
  }

  /**
   * A negative index `k - len` and the positive index `k` name the same tuple of a store
   * of `len` tuples: the two references append the same tuples, or fail together.
   */
  lemma NegativeIndexMirrorsPositive(st: ObjState, i: nat, k: int)
    requires HasOpenGeometry(st) && i < 4
    requires 0 < k < |Store(st, i)|
    ensures AddField(st, IntToString(k - |Store(st, i)|), i).Ok? <==> AddField(st, IntToString(k), i).Ok?
    ensures AddField(st, IntToString(k - |Store(st, i)|), i).Ok? ==>
      AddField(st, IntToString(k - |Store(st, i)|), i) == AddField(st, IntToString(k), i)
  {
    var negative := IntToString(k - |Store(st, i)|);
    var positive := IntToString(k);
    ParseIntOfDecimal(k - |Store(st, i)|);
    ParseIntOfDecimal(k);
    AddFieldByIndex(st, negative, positive, i);
  }

  lemma ParseMinusOne()
    ensures ParseInt("-1") == Int(-1)
  {
    ParseIntOfDecimal(-1);
    assert NatToString(1) == "1";
    assert IntToString(-1) == "-1";
  }

  /**
   * The reference `-1` appends the tuple appended to the store most recently; in the
   * position field, once vertex colors are in use, also the color at that same index,
   * which throws when the colors stop short of it.
   */
  lemma MinusOneIsMostRecent(st: ObjState, i: nat)
    requires HasOpenGeometry(st) && i < 4 && |Store(st, i)| > 0
    ensures i != 0 || |st.colors| <= 1 ==>
      AddField(st, "-1", i) == Ok(AppendToOpen(st, AttributeAt(i), Last(Store(st, i))))
    ensures i == 0 && |st.colors| > 1 ==>
      AddField(st, "-1", i)
      == if |st.positions| <= |st.colors|
         then Ok(AppendToOpen(AppendToOpen(st, Position, Last(st.positions)), Color, st.colors[|st.positions| - 1]))
         else Err(ColorNotFound("-1"))
  {
    var field := "-1";
    ParseMinusOne();
    var store := Store(st, i);
    assert ResolveIndex(-1, |store|) == |store| - 1;
  }

  // ---------------------------------------------------------------------------------
  // The `v` line

  /**
   * A `v` line: with more than three numbers the first three are a position and the
   * rest a color tuple; otherwise all of them are the position. Nothing else changes.
   */
  lemma VertexLine(st: ObjState, numbers: seq<string>, parseFloat: string -> real)
    requires Valid(st)
    requires forall i :: 0 <= i < |numbers| ==> numbers[i] != ""
    requires forall i, j :: 0 <= i < |numbers| && 0 <= j < |numbers[i]| ==> !IsSpace(numbers[i][j])
    ensures Step(st, Join(["v"] + numbers, " "), parseFloat)
      == if |numbers| > 3 then
           Ok(st.(positions := st.positions + [Floats(parseFloat, numbers[..3])],
                  colors := st.colors + [Floats(parseFloat, numbers[3..])]))
         else Ok(st.(positions := st.positions + [Floats(parseFloat, numbers)]))
  {
    StepOfDirectiveLine(st, "v", numbers, parseFloat);
  }

  /** A line written as a keyword and space-separated arguments runs that keyword's handler on those arguments. */
  lemma StepOfDirectiveLine(st: ObjState, keyword: string, args: seq<string>, parseFloat: string -> real)
    requires Valid(st)
    requires |keyword| > 0 && forall i :: 0 <= i < |keyword| ==> IsWordChar(keyword[i])
    requires forall i :: 0 <= i < |args| ==> args[i] != ""
    requires forall i, j :: 0 <= i < |args| && 0 <= j < |args[i]| ==> !IsSpace(args[i][j])
    ensures Step(st, Join([keyword] + args, " "), parseFloat)
         == Apply(st, ObjDirectiveOf(keyword), args, Join(args, " "), parseFloat)
  {
    DirectiveLine(keyword, args);
  }

  /** An `mtllib` line appends its names, joined by single spaces, to the library list, and changes nothing else. */
  lemma MaterialLibraryLine(st: ObjState, names: seq<string>, parseFloat: string -> real)
    requires Valid(st)
    requires forall i :: 0 <= i < |names| ==> names[i] != ""
    requires forall i, j :: 0 <= i < |names| && 0 <= j < |names[i]| ==> !IsSpace(names[i][j])
    ensures Step(st, Join(["mtllib"] + names, " "), parseFloat)
         == Ok(st.(materialLibs := st.materialLibs + [Join(names, " ")]))
  {
    var keyword := "mtllib";
    assert forall i :: 0 <= i < |keyword| ==> IsWordChar(keyword[i]);
    assert ObjDirectiveOf(keyword) == Mtllib;
    StepOfDirectiveLine(st, keyword, names, parseFloat);
  }

  // ---------------------------------------------------------------------------------
  // The geometry lifecycle

  /**
   * `o`, `g` and `usemtl` keep an open geometry that holds no position open: the next
   * face goes into that same geometry, which keeps the context it captured earlier.
   */
  lemma EmptyGeometryIsReused(st: ObjState, d: ObjDirective, args: seq<string>, unparsedArgs: string,
                              parts: seq<string>, parseFloat: string -> real)
    requires HasOpenGeometry(st) && OpenBuffer(st, Position) == []
    requires d == O || d == G || d == Usemtl
    ensures var st1 := Apply(st, d, args, unparsedArgs, parseFloat).value;
      st1.open && st1.geometries == st.geometries
      && var r := Face(st1, parts);
         r.Ok? ==> |r.value.geometries| == |st.geometries|
                   && SameContext(Last(r.value.geometries), Last(st.geometries))
  {
    var st1 := Apply(st, d, args, unparsedArgs, parseFloat).value;
    if Face(st1, parts).Ok? {
      FaceFrame(st1, parts);
    }
  }

  /**
   * `o`, `g` and `usemtl` close an open geometry that holds a position: the next face
   * opens a new geometry, appended after it, with the new context.
   */
  lemma FilledGeometryIsClosed(st: ObjState, d: ObjDirective, args: seq<string>, unparsedArgs: string,
                               parts: seq<string>, parseFloat: string -> real)
    requires HasOpenGeometry(st) && OpenBuffer(st, Position) != []
    requires d == O || d == G || d == Usemtl
    ensures var st1 := Apply(st, d, args, unparsedArgs, parseFloat).value;
      !st1.open && st1.geometries == st.geometries
      && var r := Face(st1, parts);
         r.Ok? ==> |r.value.geometries| == |st.geometries| + 1
                   && r.value.geometries[..|st.geometries|] == st.geometries
                   && Last(r.value.geometries).objectName == st1.objectName
                   && Last(r.value.geometries).groups == st1.groups
                   && Last(r.value.geometries).material == st1.material
  {
    var st1 := Apply(st, d, args, unparsedArgs, parseFloat).value;
    var withGeometry := SetGeometry(st1);
    assert withGeometry.geometries[..|st.geometries|] == st.geometries;
    if Face(st1, parts).Ok? {
      FaceFrame(st1, parts);
    }
  }

  // ---------------------------------------------------------------------------------
  // What every line step keeps

  /** Geometry `j` is closed: it is not the open one, so no later line changes it. */
  predicate Closed(st: ObjState, j: nat) {
    j < |st.geometries| - 1 || !st.open
  }

  /**
   * `r` is a later state than `st`: the stores and the library list only grew, the
   * geometries of `st` are still there in the same order with the context they
   * captured, and those that were closed are unchanged and still closed.
   */
  predicate Extends(st: ObjState, r: ObjState) {
    st.positions <= r.positions && st.texcoords <= r.texcoords
    && st.normals <= r.normals && st.colors <= r.colors
    && st.materialLibs <= r.materialLibs
    && |st.geometries| <= |r.geometries|
    && (forall j :: 0 <= j < |st.geometries| ==> SameContext(r.geometries[j], st.geometries[j]))
    && (forall j :: 0 <= j < |st.geometries| && Closed(st, j) ==>
          r.geometries[j] == st.geometries[j] && Closed(r, j))
  }

  lemma ExtendsTransitive(s1: ObjState, s2: ObjState, s3: ObjState)
    requires Extends(s1, s2) && Extends(s2, s3)
    ensures Extends(s1, s3)
  {
    assert s1.positions <= s2.positions <= s3.positions;
    assert s1.texcoords <= s2.texcoords <= s3.texcoords;
    assert s1.normals <= s2.normals <= s3.normals;
    assert s1.colors <= s2.colors <= s3.colors;
    assert s1.materialLibs <= s2.materialLibs <= s3.materialLibs;
  }

  /** The reachable-state invariant: the sentinels stay in slot 0, and no closed geometry lacks a position. */
  predicate Reachable(st: ObjState) {
    Valid(st)
    && |st.positions| > 0 && st.positions[0] == [0.0, 0.0, 0.0]
    && |st.texcoords| > 0 && st.texcoords[0] == [0.0, 0.0]
    && |st.normals| > 0 && st.normals[0] == [0.0, 0.0, 0.0]
    && |st.colors| > 0 && st.colors[0] == [0.0, 0.0, 0.0]
    && forall j :: 0 <= j < |st.geometries| && Closed(st, j) ==> st.geometries[j].data[Position] != []
  }

  lemma FaceKeeps(st: ObjState, parts: seq<string>)
    requires Valid(st) && Face(st, parts).Ok?
    ensures Extends(st, Face(st, parts).value)
    ensures Reachable(st) ==> Reachable(Face(st, parts).value)
  {
    var withGeometry := SetGeometry(st);
    var r := Face(st, parts).value;
    FaceFrame(st, parts);
    var n := |withGeometry.geometries|;
    assert forall j :: 0 <= j < n - 1 ==> r.geometries[j] == r.geometries[..n - 1][j];
    assert forall j :: 0 <= j < n - 1 ==> withGeometry.geometries[j] == withGeometry.geometries[..n - 1][j];
  }

  lemma NewGeometryKeeps(st: ObjState)
    requires Valid(st)
    ensures Extends(st, NewGeometry(st))
    ensures Reachable(st) ==> Reachable(NewGeometry(st))
  {
  }

  /** Growing the stores and the library list, and nothing else, extends the state and keeps the invariant. */
  lemma AppendsKeep(st: ObjState, r: ObjState)
    requires Valid(st)
    requires r.(positions := st.positions, texcoords := st.texcoords, normals := st.normals,
                colors := st.colors, materialLibs := st.materialLibs) == st
    requires st.positions <= r.positions && st.texcoords <= r.texcoords
    requires st.normals <= r.normals && st.colors <= r.colors && st.materialLibs <= r.materialLibs
    ensures Extends(st, r)
    ensures Reachable(st) ==> Reachable(r)
  {
  }

  /** The `v`, `vn`, `vt`, `s` and `mtllib` handlers, and a keyword without one, only grow the stores and the library list. */
  lemma StoreLineKeeps(st: ObjState, d: ObjDirective, parts: seq<string>, unparsedArgs: string,
                       parseFloat: string -> real)
    requires Valid(st) && d != F && d != Usemtl && d != G && d != O
    ensures Extends(st, Apply(st, d, parts, unparsedArgs, parseFloat).value)
    ensures Reachable(st) ==> Reachable(Apply(st, d, parts, unparsedArgs, parseFloat).value)
  {
    AppendsKeep(st, Apply(st, d, parts, unparsedArgs, parseFloat).value);
  }

  /** The `usemtl`, `g` and `o` handlers change the context and close a geometry that holds a position. */
  lemma ContextLineKeeps(st: ObjState, d: ObjDirective, parts: seq<string>, unparsedArgs: string,
                         parseFloat: string -> real)
    requires Valid(st) && (d == Usemtl || d == G || d == O)
    ensures Extends(st, Apply(st, d, parts, unparsedArgs, parseFloat).value)
    ensures Reachable(st) ==> Reachable(Apply(st, d, parts, unparsedArgs, parseFloat).value)
  {
    if d == Usemtl {
      NewGeometryKeeps(st.(material := unparsedArgs));
    } else if d == G {
      NewGeometryKeeps(st.(groups := parts));
    } else {
      NewGeometryKeeps(st.(objectName := unparsedArgs));
    }
  }

  /** One handler extends the state and keeps the invariant. */
  lemma ApplyKeeps(st: ObjState, d: ObjDirective, parts: seq<string>, unparsedArgs: string,
                   parseFloat: string -> real)
    requires Valid(st) && Apply(st, d, parts, unparsedArgs, parseFloat).Ok?
    ensures Extends(st, Apply(st, d, parts, unparsedArgs, parseFloat).value)
    ensures Reachable(st) ==> Reachable(Apply(st, d, parts, unparsedArgs, parseFloat).value)
  {
    if d == F {
      FaceKeeps(st, parts);
    } else if d == Usemtl || d == G || d == O {
      ContextLineKeeps(st, d, parts, unparsedArgs, parseFloat);
    } else {
      StoreLineKeeps(st, d, parts, unparsedArgs, parseFloat);
    }
  }

  /** One line step extends the state and keeps the invariant. */
  lemma StepKeeps(st: ObjState, line: string, parseFloat: string -> real)
    requires Valid(st) && Step(st, line, parseFloat).Ok?
    ensures Extends(st, Step(st, line, parseFloat).value)
    ensures Reachable(st) ==> Reachable(Step(st, line, parseFloat).value)
  {
    var t := Trim(line);
    if !Skipped(t) {
      var m := MatchKeyword(t);
      ApplyKeeps(st, ObjDirectiveOf(m.keyword), Parts(t), m.unparsedArgs, parseFloat);
    }
  }

  /** Every state the line loop reaches satisfies the invariant, and extends every earlier one. */
  lemma {:induction false} LinesKeep(lines: seq<string>, n: nat, parseFloat: string -> real)
    requires n <= |lines| && Lines(lines, parseFloat).Ok?
    ensures Lines(lines[..n], parseFloat).Ok?
    ensures Reachable(Lines(lines, parseFloat).value)
    ensures Extends(Lines(lines[..n], parseFloat).value, Lines(lines, parseFloat).value)
    decreases |lines|
  {
    if |lines| == 0 {
      assert lines[..n] == lines;
    } else {
      var prefix := lines[..|lines| - 1];
      var before := Lines(prefix, parseFloat);
      assert before.Ok?;
      var after := Lines(lines, parseFloat).value;
      StepKeeps(before.value, lines[|lines| - 1], parseFloat);
      if n == |lines| {
        assert lines[..n] == lines;
        LinesKeep(prefix, |prefix|, parseFloat);
      } else {
        assert prefix[..n] == lines[..n];
        LinesKeep(prefix, n, parseFloat);
        ExtendsTransitive(Lines(lines[..n], parseFloat).value, before.value, after);
      }
    }
  }

  /** In a parsed model, every geometry but the last has a position buffer; only the geometry still open at the end can lack one. */
  lemma ParsedGeometriesHavePositions(text: string, parseFloat: string -> real)
    requires Parse(text, parseFloat).Ok?
    ensures var gs := Parse(text, parseFloat).value.geometries;
      forall j :: 0 <= j < |gs| - 1 ==> Position in gs[j].data
  {
    var lines := Split(text, '\n');
    LinesKeep(lines, |lines|, parseFloat);
  }

  // ---------------------------------------------------------------------------------
  // The dispatch as written

  /**
   * One iteration of the line loop as the source writes it: `keywords[keyword]` is a
   * property lookup on an object literal, so a keyword that is not in the table but
   * names a member of `Object.prototype` finds that member, and calling it throws.
   */
  function StepAsWritten(st: ObjState, rawLine: string, parseFloat: string -> real): (r: Result<ObjState, ObjError>)
    requires Valid(st)
    ensures var line := Trim(rawLine);
      !Skipped(line) && ObjDirectiveOf(MatchKeyword(line).keyword) == Unhandled
      && JsObject.InheritedMember(MatchKeyword(line).keyword) == JsObject.Throws
      ==> r.Err?
    ensures r.Ok? ==> Valid(r.value)
    ensures r != Step(st, rawLine, parseFloat) ==>
      r == Err(PrototypeMember(MatchKeyword(Trim(rawLine)).keyword)) && Step(st, rawLine, parseFloat) == Ok(st)
  {
    var line := Trim(rawLine);
    if Skipped(line) then Ok(st)
    else
      var m := MatchKeyword(line);
      var d := ObjDirectiveOf(m.keyword);
      if d == Unhandled && JsObject.InheritedMember(m.keyword) == JsObject.Throws then
        Err(PrototypeMember(m.keyword))
      else Apply(st, d, Parts(line), m.unparsedArgs, parseFloat)
  }

  /**
   * A line naming a throwing member of `Object.prototype` makes the step as written throw,
   * while the intended dispatch leaves the state as it was.
   */
  lemma PrototypeKeywordAborts(st: ObjState, keyword: string, parseFloat: string -> real)
    requires Valid(st)
    requires IsKeyword(keyword)
    requires ObjDirectiveOf(keyword) == Unhandled && JsObject.InheritedMember(keyword) == JsObject.Throws
    ensures StepAsWritten(st, keyword, parseFloat) == Err(PrototypeMember(keyword))
    ensures Step(st, keyword, parseFloat) == Ok(st)
  {
    BareKeywordLine(keyword);
  }

  /** The line `valueOf` is one such line. */
  lemma ValueOfLineAborts(st: ObjState, parseFloat: string -> real)
    requires Valid(st)
    ensures StepAsWritten(st, "valueOf", parseFloat) == Err(PrototypeMember("valueOf"))
    ensures Step(st, "valueOf", parseFloat) == Ok(st)
  {
    var keyword := "valueOf";
    assert forall i :: 0 <= i < |keyword| ==> IsWordChar(keyword[i]);
    assert ObjDirectiveOf(keyword) == Unhandled;
    assert JsObject.InheritedMember(keyword) == JsObject.Throws;
    PrototypeKeywordAborts(st, keyword, parseFloat);
  }

  /** The line loop of `parseOBJ` as written; where it does not throw, it agrees with the intended loop. */
  function LinesAsWritten(lines: seq<string>, parseFloat: string -> real): (r: Result<ObjState, ObjError>)
    ensures r.Ok? ==> Valid(r.value) && r == Lines(lines, parseFloat)
  {
    if |lines| == 0 then Ok(Init())
    else match LinesAsWritten(lines[..|lines| - 1], parseFloat)
      case Err(e) => Err(e)
      case Ok(st) => StepAsWritten(st, lines[|lines| - 1], parseFloat)
  }

  /** `parseOBJ(text)` as written; where it does not throw, it returns what the intended parse does. */
  function ParseAsWritten(text: string, parseFloat: string -> real): (r: Result<ObjModel, ObjError>)
    ensures r.Ok? ==> r == Parse(text, parseFloat)
  {
    match LinesAsWritten(Split(text, '\n'), parseFloat)
    case Err(e) => Err(e)
    case Ok(st) => Ok(ObjModel(Finalize(st.geometries), st.materialLibs))
  }

  /** Lines holding a throwing `Object.prototype` keyword make the loop as written throw, wherever that line is. */
  lemma {:induction false} PrototypeLineAbortsLines(lines: seq<string>, k: nat, parseFloat: string -> real)
    requires k < |lines| && IsKeyword(lines[k])
    requires ObjDirectiveOf(lines[k]) == Unhandled && JsObject.InheritedMember(lines[k]) == JsObject.Throws
    ensures LinesAsWritten(lines, parseFloat).Err?
  {
    var prefix := lines[..|lines| - 1];
    if k == |lines| - 1 {
      if LinesAsWritten(prefix, parseFloat).Ok? {
        PrototypeKeywordAborts(LinesAsWritten(prefix, parseFloat).value, lines[k], parseFloat);
      }
    } else {
      assert prefix[k] == lines[k];
      PrototypeLineAbortsLines(prefix, k, parseFloat);
    }
  }

  /** A text one of whose lines is a throwing `Object.prototype` keyword makes `parseOBJ` throw as written. */
  lemma PrototypeLineAbortsParse(lines: seq<string>, k: nat, parseFloat: string -> real)
    requires k < |lines| && forall i :: 0 <= i < |lines| ==> '\n' !in lines[i]
    requires IsKeyword(lines[k])
    requires ObjDirectiveOf(lines[k]) == Unhandled && JsObject.InheritedMember(lines[k]) == JsObject.Throws
    ensures ParseAsWritten(Join(lines, "\n"), parseFloat).Err?
  {
    SplitOfJoin(lines, '\n');
    PrototypeLineAbortsLines(lines, k, parseFloat);
  }

  /** The text `valueOf` makes `parseOBJ` throw as written, and parses to an empty model as intended. */
  lemma ValueOfTextAborts(parseFloat: string -> real)
    ensures ParseAsWritten("valueOf", parseFloat) == Err(PrototypeMember("valueOf"))
    ensures Parse("valueOf", parseFloat) == Ok(ObjModel([], []))
  {
    SplitOfNoSeparator("valueOf", '\n');
    ValueOfLineAborts(Init(), parseFloat);
    assert LinesAsWritten(["valueOf"], parseFloat) == StepAsWritten(Init(), "valueOf", parseFloat) by {
      assert ["valueOf"][..0] == [];
    }
    assert Lines(["valueOf"], parseFloat) == Step(Init(), "valueOf", parseFloat) by {
      assert ["valueOf"][..0] == [];
    }
  }
}
