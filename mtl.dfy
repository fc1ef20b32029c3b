/**
 * `parseMTL`: a material library, read line by line into a map from material name to a
 * record of optional fields. `newmtl` starts a fresh record and makes it current; the
 * property directives write one field of the current record.
 *
 * The source's `material` variable refers to the record stored under the name the last
 * `newmtl` gave, so the model keeps that name and writes through the map.
 */
module Mtl {
  import opened Wrappers
  import opened JsText
  import JsObject

  /** A material record; a field is `None` until a directive sets it. */
  datatype Material = Material(
    shininess: Option<real>,
    ambient: Option<seq<real>>,
    diffuse: Option<seq<real>>,
    specular: Option<seq<real>>,
    emissive: Option<seq<real>>,
    diffuseMap: Option<string>,
    specularMap: Option<string>,
    normalMap: Option<string>,
    opticalDensity: Option<real>,
    opacity: Option<real>,
    illum: Option<JsInt>)

  /** `{}`, the record `newmtl` starts. */
  function EmptyMaterial(): Material {
    Material(None, None, None, None, None, None, None, None, None, None, None)
  }

  /** The keywords the `keywords` table of `parseMTL` defines, and `Unhandled` for any other. */
  datatype MtlDirective = NewMtl | Ns | Ka | Kd | Ks | Ke | MapKd | MapNs | MapBump | Ni | D | Illum | Unhandled

  /** `keywords[keyword]`, looking only at the table's own entries. */
  function MtlDirectiveOf(keyword: string): MtlDirective {
    match keyword
    case "newmtl" => NewMtl
    case "Ns" => Ns
    case "Ka" => Ka
    case "Kd" => Kd
    case "Ks" => Ks
    case "Ke" => Ke
    case "map_Kd" => MapKd
    case "map_Ns" => MapNs
    case "map_Bump" => MapBump
    case "Ni" => Ni
    case "d" => D
    case "illum" => Illum
    case _ => Unhandled
  }

  /** The directives that write a field of the current record. */
  predicate IsProperty(d: MtlDirective) {
    d != NewMtl && d != Unhandled
  }

  /** What one field of a record holds. */
  datatype FieldValue = Scalar(x: real) | Vector(v: seq<real>) | Path(p: string) | Integer(n: JsInt)

  function LiftScalar(o: Option<real>): Option<FieldValue> {
    match o
    case None => None
    case Some(x) => Some(Scalar(x))
  }

  function LiftVector(o: Option<seq<real>>): Option<FieldValue> {
    match o
    case None => None
    case Some(v) => Some(Vector(v))
  }

  function LiftPath(o: Option<string>): Option<FieldValue> {
    match o
    case None => None
    case Some(p) => Some(Path(p))
  }

  function LiftInteger(o: Option<JsInt>): Option<FieldValue> {
    match o
    case None => None
    case Some(n) => Some(Integer(n))
  }

  /** The field that property directive `d` writes, as it reads in `m`. */
  function Get(m: Material, d: MtlDirective): Option<FieldValue>
    requires IsProperty(d)
  {
    match d
    case Ns => LiftScalar(m.shininess)
    case Ka => LiftVector(m.ambient)
    case Kd => LiftVector(m.diffuse)
    case Ks => LiftVector(m.specular)
    case Ke => LiftVector(m.emissive)
    case MapKd => LiftPath(m.diffuseMap)
    case MapNs => LiftPath(m.specularMap)
    case MapBump => LiftPath(m.normalMap)
    case Ni => LiftScalar(m.opticalDensity)
    case D => LiftScalar(m.opacity)
    case Illum => LiftInteger(m.illum)
  }

  /** Every field of a record is one some property directive writes: two records that read alike are equal. */
  lemma GetDetermines(m1: Material, m2: Material)
    requires forall d :: IsProperty(d) ==> Get(m1, d) == Get(m2, d)
    ensures m1 == m2
  {
    assert Get(m1, Ns) == Get(m2, Ns);
    assert Get(m1, Ka) == Get(m2, Ka);
    assert Get(m1, Kd) == Get(m2, Kd);
    assert Get(m1, Ks) == Get(m2, Ks);
    assert Get(m1, Ke) == Get(m2, Ke);
    assert Get(m1, MapKd) == Get(m2, MapKd);
    assert Get(m1, MapNs) == Get(m2, MapNs);
    assert Get(m1, MapBump) == Get(m2, MapBump);
    assert Get(m1, Ni) == Get(m2, Ni);
    assert Get(m1, D) == Get(m2, D);
    assert Get(m1, Illum) == Get(m2, Illum);
  }

  /** `parseMapArgs(unparsedArgs)`: texture options are not handled, the remainder is the path. */
  function ParseMapArgs(unparsedArgs: string): string {
    unparsedArgs
  }

  /**
   * The value property directive `d` writes: `parseFloat(parts[0])` for the scalars,
   * `parts.map(parseFloat)` for the colors, `parseMapArgs(unparsedArgs)` for the
   * texture maps and `parseInt(parts[0])` for the illumination model.
   */
  function ValueOf(d: MtlDirective, parts: seq<string>, unparsedArgs: string, parseFloat: string -> real): FieldValue
    requires IsProperty(d)
  {
    match d
    case Ns => Scalar(parseFloat(FirstArg(parts)))
    case Ni => Scalar(parseFloat(FirstArg(parts)))
    case D => Scalar(parseFloat(FirstArg(parts)))
    case Ka => Vector(Floats(parseFloat, parts))
    case Kd => Vector(Floats(parseFloat, parts))
    case Ks => Vector(Floats(parseFloat, parts))
    case Ke => Vector(Floats(parseFloat, parts))
    case MapKd => Path(ParseMapArgs(unparsedArgs))
    case MapNs => Path(ParseMapArgs(unparsedArgs))
    case MapBump => Path(ParseMapArgs(unparsedArgs))
    case Illum => Integer(ParseInt(FirstArg(parts)))
  }

  /** The handler of property directive `d` on the current record: its field is written and no other. */
  function SetField(m: Material, d: MtlDirective, parts: seq<string>, unparsedArgs: string,
                    parseFloat: string -> real): (r: Material)
    requires IsProperty(d)
    ensures Get(r, d) == Some(ValueOf(d, parts, unparsedArgs, parseFloat))
    ensures forall e :: IsProperty(e) && e != d ==> Get(r, e) == Get(m, e)
  {
    var floats := Floats(parseFloat, parts);
    match d
    case Ns => m.(shininess := Some(parseFloat(FirstArg(parts))))
    case Ka => m.(ambient := Some(floats))
    case Kd => m.(diffuse := Some(floats))
    case Ks => m.(specular := Some(floats))
    case Ke => m.(emissive := Some(floats))
    case MapKd => m.(diffuseMap := Some(ParseMapArgs(unparsedArgs)))
    case MapNs => m.(specularMap := Some(ParseMapArgs(unparsedArgs)))
    case MapBump => m.(normalMap := Some(ParseMapArgs(unparsedArgs)))
    case Ni => m.(opticalDensity := Some(parseFloat(FirstArg(parts))))
    case D => m.(opacity := Some(parseFloat(FirstArg(parts))))
    case Illum => m.(illum := Some(ParseInt(FirstArg(parts))))
  }

  /**
   * `Ns`, `Ni`, `d` and `illum` read only their first argument, the texture maps read
   * only the raw remainder, and the colors read every argument.
   */
  lemma ArgumentsRead(d: MtlDirective, parts: seq<string>, more: seq<string>, unparsedArgs: string,
                      parseFloat: string -> real)
    requires IsProperty(d) && |parts| > 0
    ensures d in {Ns, Ni, D, Illum} ==>
      ValueOf(d, parts + more, unparsedArgs, parseFloat) == ValueOf(d, parts[..1], unparsedArgs, parseFloat)
    ensures d in {MapKd, MapNs, MapBump} ==>
      ValueOf(d, parts, unparsedArgs, parseFloat) == ValueOf(d, more, unparsedArgs, parseFloat)
      == Path(unparsedArgs)
    ensures d in {Ka, Kd, Ks, Ke} ==>
      ValueOf(d, parts, unparsedArgs, parseFloat).Vector?
      && |ValueOf(d, parts, unparsedArgs, parseFloat).v| == |parts|
      && forall i :: 0 <= i < |parts| ==> ValueOf(d, parts, unparsedArgs, parseFloat).v[i] == parseFloat(parts[i])
  {
  }

  /** The variables of `parseMTL`: the map, and the name of the current record once there is one. */
  datatype MtlState = MtlState(materials: map<string, Material>, current: Option<string>)

  predicate Valid(st: MtlState) {
    st.current.Some? ==> st.current.value in st.materials
  }

  /**
   * The exceptions the line loop can throw: a property directive before any `newmtl`
   * writes to `undefined`, and the as-written dispatch calls a member of `Object.prototype`.
   */
  datatype MtlError = NoCurrentMaterial(directive: MtlDirective) | PrototypeMember(keyword: string)

  /** `const materials = {}; let material;`. */
  function Init(): (st: MtlState)
    ensures Valid(st) && st.materials == map[] && st.current == None
  {
    MtlState(map[], None)
  }

  /** The handler for directive `d`, given the line's `parts` and `unparsedArgs`. */
  function Apply(st: MtlState, d: MtlDirective, parts: seq<string>, unparsedArgs: string,
                 parseFloat: string -> real): (r: Result<MtlState, MtlError>)
    requires Valid(st)
    ensures r.Ok? ==> Valid(r.value)
    ensures r.Err? <==> IsProperty(d) && st.current.None?
    ensures d == Unhandled ==> r == Ok(st)
    ensures d == NewMtl ==>
      r.Ok? && r.value.current == Some(unparsedArgs) && r.value.materials[unparsedArgs] == EmptyMaterial()
    ensures r.Ok? && IsProperty(d) ==>
      r.value.current == st.current
      && r.value.materials[st.current.value]
         == SetField(st.materials[st.current.value], d, parts, unparsedArgs, parseFloat)
    ensures r.Ok? ==>
      r.value.materials.Keys == st.materials.Keys + (if r.value.current.Some? then {r.value.current.value} else {})
    ensures r.Ok? ==> forall k :: k in st.materials && Some(k) != r.value.current ==>
      k in r.value.materials && r.value.materials[k] == st.materials[k]
  {
    match d
    case NewMtl => Ok(MtlState(st.materials[unparsedArgs := EmptyMaterial()], Some(unparsedArgs)))
    case Unhandled => Ok(st)
    case _ =>
      match st.current
      case None => Err(NoCurrentMaterial(d))
      case Some(name) =>
        Ok(st.(materials := st.materials[name := SetField(st.materials[name], d, parts, unparsedArgs, parseFloat)]))
  }

  /** One iteration of the line loop of `parseMTL`. */
  function Step(st: MtlState, rawLine: string, parseFloat: string -> real): (r: Result<MtlState, MtlError>)
    requires Valid(st)
    ensures r.Ok? ==> Valid(r.value)
    ensures Skipped(Trim(rawLine)) ==> r == Ok(st)
    ensures !Skipped(Trim(rawLine)) && MtlDirectiveOf(MatchKeyword(Trim(rawLine)).keyword) == Unhandled ==> r == Ok(st)
  {
    var line := Trim(rawLine);
    if Skipped(line) then Ok(st)
    else
      var m := MatchKeyword(line);
      Apply(st, MtlDirectiveOf(m.keyword), Parts(line), m.unparsedArgs, parseFloat)
  }

  /** The line loop over `lines`, from the initial state; the first failing line aborts. */
  function Lines(lines: seq<string>, parseFloat: string -> real): (r: Result<MtlState, MtlError>)
    ensures r.Ok? ==> Valid(r.value)
  {
    if |lines| == 0 then Ok(Init())
    else match Lines(lines[..|lines| - 1], parseFloat)
      case Err(e) => Err(e)
      case Ok(st) => Step(st, lines[|lines| - 1], parseFloat)
  }

  /**
   * `parseMTL(text)`, with `parseFloat` standing for the global of that name: the names of
   * the library are exactly the names its `newmtl` lines give.
   */
  function Parse(text: string, parseFloat: string -> real): (r: Result<map<string, Material>, MtlError>)
    ensures r.Ok? ==> forall name :: name in r.value <==> DeclaredIn(Split(text, '\n'), name)
  {
    var lines := Split(text, '\n');
    match Lines(lines, parseFloat)
    case Err(e) => Err(e)
    case Ok(st) => NamesAreDeclared(lines, parseFloat); Ok(st.materials)
  }

  /** Line `line` is a `newmtl` line that binds `name`. */
  predicate DeclaresName(line: string, name: string) {
    var t := Trim(line);
    !Skipped(t) && MtlDirectiveOf(MatchKeyword(t).keyword) == NewMtl && MatchKeyword(t).unparsedArgs == name
  }

  /** Some line of `lines` is a `newmtl` line that binds `name`. */
  predicate DeclaredIn(lines: seq<string>, name: string) {
    exists i :: 0 <= i < |lines| && DeclaresName(lines[i], name)
  }

  /** One line binds a name exactly when it is a `newmtl` line for it; no line unbinds one. */
  lemma StepNames(st: MtlState, line: string, parseFloat: string -> real)
    requires Valid(st) && Step(st, line, parseFloat).Ok?
    ensures forall name :: name in Step(st, line, parseFloat).value.materials <==>
      name in st.materials || DeclaresName(line, name)
  {
  }

  /** After the line loop, the bound names are exactly those of the `newmtl` lines read. */
  lemma {:induction false} NamesAreDeclared(lines: seq<string>, parseFloat: string -> real)
    requires Lines(lines, parseFloat).Ok?
    ensures forall name :: name in Lines(lines, parseFloat).value.materials <==> DeclaredIn(lines, name)
  {
    if |lines| > 0 {
      var prefix := lines[..|lines| - 1];
      var last := lines[|lines| - 1];
      var st := Lines(prefix, parseFloat).value;
      var r := Lines(lines, parseFloat).value;
      NamesAreDeclared(prefix, parseFloat);
      StepNames(st, last, parseFloat);
      forall name
        ensures name in r.materials <==> DeclaredIn(lines, name)
      {
        if name in st.materials {
          var i :| 0 <= i < |prefix| && DeclaresName(prefix[i], name);
          assert lines[i] == prefix[i];
        }
      }
    }
  }

  // ---------------------------------------------------------------------------------
  // Properties of the line loop

  /** A property line after a `newmtl` changes only its own field of that record. */
  lemma PropertyLineWritesOneField(st: MtlState, d: MtlDirective, parts: seq<string>, unparsedArgs: string,
                                   parseFloat: string -> real)
    requires Valid(st) && st.current.Some? && IsProperty(d)
    ensures var r := Apply(st, d, parts, unparsedArgs, parseFloat);
      r.Ok? && r.value.materials.Keys == st.materials.Keys
      && var before := st.materials[st.current.value];
         var after := r.value.materials[st.current.value];
         Get(after, d) == Some(ValueOf(d, parts, unparsedArgs, parseFloat))
         && forall e :: IsProperty(e) && e != d ==> Get(after, e) == Get(before, e)
  {
  }

  /** A `newmtl` for a name already bound replaces the earlier record with an empty one. */
  lemma RepeatedNameReplaces(st: MtlState, name: string, parts: seq<string>, parseFloat: string -> real)
    requires Valid(st) && name in st.materials
    ensures var r := Apply(st, NewMtl, parts, name, parseFloat);
      r.Ok? && r.value.materials.Keys == st.materials.Keys
      && r.value.materials[name] == EmptyMaterial()
      && forall e :: IsProperty(e) ==> Get(r.value.materials[name], e) == None
  {
  }

  /** A property line before any `newmtl` throws. */
  lemma PropertyBeforeNewMtlThrows(d: MtlDirective, parts: seq<string>, unparsedArgs: string,
                                   parseFloat: string -> real)
    requires IsProperty(d)
    ensures Apply(Init(), d, parts, unparsedArgs, parseFloat) == Err(NoCurrentMaterial(d))
  {
  }

  /** Space-free words: the arguments a directive line is written with. */
  predicate Words(args: seq<string>) {
    (forall i :: 0 <= i < |args| ==> args[i] != "")
    && forall i, j :: 0 <= i < |args| && 0 <= j < |args[i]| ==> !IsSpace(args[i][j])
  }

  /**
   * A library of three lines — `newmtl` with a name, `Kd` with the diffuse color's
   * components and `d` with the opacity — binds that name to a record with that diffuse
   * color and opacity, and no other field set. The library `newmtl M`, `Kd 0.1 0.2 0.3`,
   * `d 0.5` followed by a line break is one instance.
   */
  lemma ThreeLineLibrary(name: string, diffuse: seq<string>, opacity: string, parseFloat: string -> real)
    requires Words([name]) && Words(diffuse) && Words([opacity])
    ensures var text := Join([Join(["newmtl", name], " "), Join(["Kd"] + diffuse, " "), Join(["d", opacity], " "), ""], "\n");
      Parse(text, parseFloat)
      == Ok(map[name := EmptyMaterial().(diffuse := Some(Floats(parseFloat, diffuse)),
                                         opacity := Some(parseFloat(opacity)))])
  {
    var e := EmptyMaterial();
    var m2 := e.(diffuse := Some(Floats(parseFloat, diffuse)));
    NewMtlLine(name, parseFloat);
    KdLine(diffuse, name, e, parseFloat);
    OpacityLine(opacity, name, m2, parseFloat);
    ThreeLines(Join(["newmtl", name], " "), Join(["Kd"] + diffuse, " "), Join(["d", opacity], " "),
               MtlState(map[name := e], Some(name)), MtlState(map[name := m2], Some(name)),
               MtlState(map[name := m2.(opacity := Some(parseFloat(opacity)))], Some(name)), parseFloat);
  }

  /** Three lines and a final line break, each line taking the state to the next. */
  lemma ThreeLines(l1: string, l2: string, l3: string, s1: MtlState, s2: MtlState, s3: MtlState,
                   parseFloat: string -> real)
    requires '\n' !in l1 && '\n' !in l2 && '\n' !in l3
    requires Valid(s1) && Valid(s2) && Valid(s3)
    requires Step(Init(), l1, parseFloat) == Ok(s1)
    requires Step(s1, l2, parseFloat) == Ok(s2)
    requires Step(s2, l3, parseFloat) == Ok(s3)
    ensures Parse(Join([l1, l2, l3, ""], "\n"), parseFloat) == Ok(s3.materials)
  {
    var lines := [l1, l2, l3, ""];
    assert Step(s3, "", parseFloat) == Ok(s3) by { assert Trim("") == ""; }
    assert forall i :: 0 <= i < |lines| ==> '\n' !in lines[i];
    SplitOfJoin(lines, '\n');
    assert lines[..3][..2] == lines[..2] && lines[..2][..1] == lines[..1] && lines[..1][..0] == [];
    assert Lines(lines[..1], parseFloat) == Ok(s1);
    assert Lines(lines[..2], parseFloat) == Ok(s2);
    assert Lines(lines[..3], parseFloat) == Ok(s3);
    assert lines[..4] == lines;
  }

  /** `newmtl` and a name, from the initial state: a fresh record bound to that name and made current. */
  lemma NewMtlLine(name: string, parseFloat: string -> real)
    requires Words([name])
    ensures var line := Join(["newmtl", name], " ");
      '\n' !in line && Step(Init(), line, parseFloat) == Ok(MtlState(map[name := EmptyMaterial()], Some(name)))
  {
    var keyword := "newmtl";
    assert IsKeyword(keyword) by { assert forall i :: 0 <= i < |keyword| ==> IsWordChar(keyword[i]); }
    assert [keyword] + [name] == ["newmtl", name];
    NamedLine(keyword, [name], NewMtl, Init(), parseFloat);
    NoLineBreak(keyword, [name]);
    assert map[][name := EmptyMaterial()] == map[name := EmptyMaterial()];
  }

  /** `Kd` and the components of a color, on the only record: its diffuse color is set. */
  lemma KdLine(args: seq<string>, name: string, m: Material, parseFloat: string -> real)
    requires Words(args)
    ensures var line := Join(["Kd"] + args, " ");
      '\n' !in line
      && Step(MtlState(map[name := m], Some(name)), line, parseFloat)
         == Ok(MtlState(map[name := m.(diffuse := Some(Floats(parseFloat, args)))], Some(name)))
  {
    var keyword := "Kd";
    var st := MtlState(map[name := m], Some(name));
    assert IsKeyword(keyword) by { assert forall i :: 0 <= i < |keyword| ==> IsWordChar(keyword[i]); }
    NamedLine(keyword, args, Kd, st, parseFloat);
    NoLineBreak(keyword, args);
    PropertyOnOnlyRecord(name, m, Kd, args, Join(args, " "), parseFloat);
  }

  /**
   * `map_Kd` and a file name of several words, on the only record: `parseMapArgs` passes the
   * raw remainder on, so the path keeps the spaces the words were written with.
   */
  lemma MapLineKeepsFileName(words: seq<string>, name: string, m: Material, parseFloat: string -> real)
    requires Words(words)
    ensures var line := Join(["map_Kd"] + words, " ");
      Step(MtlState(map[name := m], Some(name)), line, parseFloat)
      == Ok(MtlState(map[name := m.(diffuseMap := Some(Join(words, " ")))], Some(name)))
  {
    var keyword := "map_Kd";
    var st := MtlState(map[name := m], Some(name));
    assert IsKeyword(keyword) by { assert forall i :: 0 <= i < |keyword| ==> IsWordChar(keyword[i]); }
    NamedLine(keyword, words, MapKd, st, parseFloat);
    PropertyOnOnlyRecord(name, m, MapKd, words, Join(words, " "), parseFloat);
  }

  /** `d` and an opacity, on the only record: its opacity is set. */
  lemma OpacityLine(opacity: string, name: string, m: Material, parseFloat: string -> real)
    requires Words([opacity])
    ensures var line := Join(["d", opacity], " ");
      '\n' !in line
      && Step(MtlState(map[name := m], Some(name)), line, parseFloat)
         == Ok(MtlState(map[name := m.(opacity := Some(parseFloat(opacity)))], Some(name)))
  {
    var keyword := "d";
    var st := MtlState(map[name := m], Some(name));
    assert IsKeyword(keyword) by { assert IsWordChar(keyword[0]); }
    assert [keyword] + [opacity] == ["d", opacity];
    NamedLine(keyword, [opacity], D, st, parseFloat);
    NoLineBreak(keyword, [opacity]);
    assert FirstArg([opacity]) == opacity;
    PropertyOnOnlyRecord(name, m, D, [opacity], opacity, parseFloat);
  }

  /** A property directive when the library holds one record, the current one. */
  lemma PropertyOnOnlyRecord(name: string, m: Material, d: MtlDirective, parts: seq<string>, unparsedArgs: string,
                             parseFloat: string -> real)
    requires IsProperty(d)
    ensures Apply(MtlState(map[name := m], Some(name)), d, parts, unparsedArgs, parseFloat)
         == Ok(MtlState(map[name := SetField(m, d, parts, unparsedArgs, parseFloat)], Some(name)))
  {
    var m' := SetField(m, d, parts, unparsedArgs, parseFloat);
    assert map[name := m][name := m'] == map[name := m'];
  }

  lemma NoLineBreak(keyword: string, args: seq<string>)
    requires IsKeyword(keyword)
    requires Words(args)
    ensures '\n' !in Join([keyword] + args, " ")
  {
    WordsHaveNoSpace(keyword, args);
    JoinHasNoLineTerminator([keyword] + args);
  }

  /** A line written as `keyword` and space-separated arguments is dispatched to `d`. */
  lemma NamedLine(keyword: string, args: seq<string>, d: MtlDirective, st: MtlState, parseFloat: string -> real)
    requires IsKeyword(keyword)
    requires Words(args)
    requires MtlDirectiveOf(keyword) == d && Valid(st)
    ensures Step(st, Join([keyword] + args, " "), parseFloat) == Apply(st, d, args, Join(args, " "), parseFloat)
  {
    DirectiveLine(keyword, args);
  }

  // ---------------------------------------------------------------------------------
  // The dispatch as written

  /**
   * One iteration of the line loop as the source writes it: `keywords[keyword]` also finds
   * the members of `Object.prototype`, and calling one of the throwing ones aborts the parse.
   */
  function StepAsWritten(st: MtlState, rawLine: string, parseFloat: string -> real): (r: Result<MtlState, MtlError>)
    requires Valid(st)
    ensures var line := Trim(rawLine);
      !Skipped(line) && MtlDirectiveOf(MatchKeyword(line).keyword) == Unhandled
      && JsObject.InheritedMember(MatchKeyword(line).keyword) == JsObject.Throws
      ==> r.Err?
    ensures r.Ok? ==> Valid(r.value)
    ensures r != Step(st, rawLine, parseFloat) ==>
      r == Err(PrototypeMember(MatchKeyword(Trim(rawLine)).keyword)) && Step(st, rawLine, parseFloat) == Ok(st)
  {
    var line := Trim(rawLine);
    if Skipped(line) then Ok(st)
    else
      var m := MatchKeyword(line);
      var d := MtlDirectiveOf(m.keyword);
      if d == Unhandled && JsObject.InheritedMember(m.keyword) == JsObject.Throws then
        Err(PrototypeMember(m.keyword))
      else Apply(st, d, Parts(line), m.unparsedArgs, parseFloat)
  }

  /**
   * A line naming a throwing member of `Object.prototype` makes the step as written throw,
   * while the intended dispatch leaves the state as it was.
   */
  lemma PrototypeKeywordAborts(st: MtlState, keyword: string, parseFloat: string -> real)
    requires Valid(st)
    requires IsKeyword(keyword)
    requires MtlDirectiveOf(keyword) == Unhandled && JsObject.InheritedMember(keyword) == JsObject.Throws
    ensures StepAsWritten(st, keyword, parseFloat) == Err(PrototypeMember(keyword))
    ensures Step(st, keyword, parseFloat) == Ok(st)
  {
    BareKeywordLine(keyword);
  }

  /** The line `hasOwnProperty` is one such line. */
  lemma HasOwnPropertyLineAborts(st: MtlState, parseFloat: string -> real)
    requires Valid(st)
    ensures StepAsWritten(st, "hasOwnProperty", parseFloat) == Err(PrototypeMember("hasOwnProperty"))
    ensures Step(st, "hasOwnProperty", parseFloat) == Ok(st)
  {
    var keyword := "hasOwnProperty";
    assert IsKeyword(keyword) by { assert forall i :: 0 <= i < |keyword| ==> IsWordChar(keyword[i]); }
    assert MtlDirectiveOf(keyword) == Unhandled;
    assert JsObject.InheritedMember(keyword) == JsObject.Throws;
    PrototypeKeywordAborts(st, keyword, parseFloat);
  }

  /** The line loop of `parseMTL` as written; where it does not throw, it agrees with the intended loop. */
  function LinesAsWritten(lines: seq<string>, parseFloat: string -> real): (r: Result<MtlState, MtlError>)
    ensures r.Ok? ==> Valid(r.value) && r == Lines(lines, parseFloat)
  {
    if |lines| == 0 then Ok(Init())
    else match LinesAsWritten(lines[..|lines| - 1], parseFloat)
      case Err(e) => Err(e)
      case Ok(st) => StepAsWritten(st, lines[|lines| - 1], parseFloat)
  }

  /** `parseMTL(text)` as written; where it does not throw, it returns what the intended parse does. */
  function ParseAsWritten(text: string, parseFloat: string -> real): (r: Result<map<string, Material>, MtlError>)
    ensures r.Ok? ==> r == Parse(text, parseFloat)
  {
    match LinesAsWritten(Split(text, '\n'), parseFloat)
    case Err(e) => Err(e)
    case Ok(st) => Ok(st.materials)
  }

  /** Lines holding a throwing `Object.prototype` keyword make the loop as written throw, wherever that line is. */
  lemma {:induction false} PrototypeLineAbortsLines(lines: seq<string>, k: nat, parseFloat: string -> real)
    requires k < |lines| && IsKeyword(lines[k])
    requires MtlDirectiveOf(lines[k]) == Unhandled && JsObject.InheritedMember(lines[k]) == JsObject.Throws
    ensures LinesAsWritten(lines, parseFloat).Err?
  {
    var prefix := lines[..|lines| - 1];
    if k == |lines| - 1 {
      if LinesAsWritten(prefix, parseFloat).Ok? {
        PrototypeKeywordAborts(LinesAsWritten(prefix, parseFloat).value, lines[k], parseFloat);
      }
    } else {
      assert prefix[k] == lines[k];
      PrototypeLineAbortsLines(prefix, k, parseFloat);
    }
  }

  /** A text one of whose lines is a throwing `Object.prototype` keyword makes `parseMTL` throw as written. */
  lemma PrototypeLineAbortsParse(lines: seq<string>, k: nat, parseFloat: string -> real)
    requires k < |lines| && forall i :: 0 <= i < |lines| ==> '\n' !in lines[i]
    requires IsKeyword(lines[k])
    requires MtlDirectiveOf(lines[k]) == Unhandled && JsObject.InheritedMember(lines[k]) == JsObject.Throws
    ensures ParseAsWritten(Join(lines, "\n"), parseFloat).Err?
  {
    SplitOfJoin(lines, '\n');
    PrototypeLineAbortsLines(lines, k, parseFloat);
  }

  /** The text `hasOwnProperty` makes `parseMTL` throw as written, and parses to an empty library as intended. */
  lemma HasOwnPropertyTextAborts(parseFloat: string -> real)
    ensures ParseAsWritten("hasOwnProperty", parseFloat) == Err(PrototypeMember("hasOwnProperty"))
    ensures Parse("hasOwnProperty", parseFloat) == Ok(map[])
  {
    SplitOfNoSeparator("hasOwnProperty", '\n');
    HasOwnPropertyLineAborts(Init(), parseFloat);
    assert LinesAsWritten(["hasOwnProperty"], parseFloat) == StepAsWritten(Init(), "hasOwnProperty", parseFloat) by {
      assert ["hasOwnProperty"][..0] == [];
    }
    assert Lines(["hasOwnProperty"], parseFloat) == Step(Init(), "hasOwnProperty", parseFloat) by {
      assert ["hasOwnProperty"][..0] == [];
    }
  }
}
