/**
 * The PLY reader (FileFormat.cpp). A file arrives as a list of lines, each a
 * list of tokens. The reader checks the "ply" magic line and the
 * "format ascii 1.0" line, skips the comment lines, and finds the first body
 * line after "end_header". A vertex is assembled from one body line, token
 * by token, as the header's property lines name the components. A face body
 * line becomes a fan of triangles around its first corner.
 *
 * An exception in the source becomes a `false` success result. Reading past
 * the last line or past the last token of a line is undefined in the
 * source, so each method requires the input to keep its reads in bounds.
 * `atof` and `atoi` are parameters.
 */
module PlyFormat {
  import opened Wrappers
  import opened Geometry
  import opened IndexTriangles
  import opened TriangleMeshes

  type Line = seq<string>
  type Lines = seq<Line>

  /** The only format line accepted. */
  const FormatLine: Line := ["format", "ascii", "1.0"]

  /** Line `k`, or the empty line past the end. */
  function LineAt(lines: Lines, k: int): (r: Line)
    ensures 0 <= k < |lines| ==> r == lines[k]
    ensures !(0 <= k < |lines|) ==> r == []
  {
    if 0 <= k < |lines| then lines[k] else []
  }

  /** The line's first token is `token`. */
  predicate StartsWith(line: Line, token: string)
  {
    |line| > 0 && line[0] == token
  }

  /**
   * Where the comment skip stops when it starts at line `from`: the first
   * line that does not begin with "comment". None when an empty line or the
   * end of the list comes first; the source's reads are then undefined.
   */
  function FirstNonComment(lines: Lines, from: nat): (r: Option<nat>)
    ensures r.Some? ==> from <= r.value < |lines| && |lines[r.value]| > 0 && lines[r.value][0] != "comment"
    ensures r.Some? ==> forall k :: from <= k < r.value ==> |lines[k]| > 0 && lines[k][0] == "comment"
    decreases |lines| - from
  {
    if from >= |lines| || |lines[from]| == 0 then None
    else if lines[from][0] != "comment" then Some(from)
    else FirstNonComment(lines, from + 1)
  }

  /**
   * Where the scan for "end_header" stops when it starts at line `from`.
   * None when an empty line or the end of the list comes first.
   */
  function FindEndHeader(lines: Lines, from: nat): (r: Option<nat>)
    ensures r.Some? ==> from <= r.value < |lines| && |lines[r.value]| > 0 && lines[r.value][0] == "end_header"
    ensures r.Some? ==> forall k :: from <= k < r.value ==> |lines[k]| > 0 && lines[k][0] != "end_header"
    decreases |lines| - from
  {
    if from >= |lines| || |lines[from]| == 0 then None
    else if lines[from][0] == "end_header" then Some(from)
    else FindEndHeader(lines, from + 1)
  }

  /** The magic line and the format line are as required. */
  predicate Recognized(lineList: Option<Lines>)
  {
    lineList.Some? && |lineList.value| >= 2 &&
    |lineList.value[0]| > 0 && lineList.value[0][0] == "ply" &&
    lineList.value[1] == FormatLine
  }

  /**
   * The header reads of LoadTriangleMesh stay in bounds: a second line
   * follows the magic line, and, once the format line is accepted, the
   * comment skip, the "end_header" scan and the step to the first body line
   * stay inside the list.
   */
  predicate HeaderDefined(lineList: Option<Lines>)
  {
    match lineList
    case None => true
    case Some(lines) =>
      |lines| == 0 || |lines[0]| == 0 || lines[0][0] != "ply" ||
      (|lines| >= 2 &&
       (lines[1] != FormatLine ||
        (FirstNonComment(lines, 2).Some? &&
         FindEndHeader(lines, FirstNonComment(lines, 2).value + 1).Some? &&
         FindEndHeader(lines, FirstNonComment(lines, 2).value + 1).value + 1 < |lines|)))
  }

  /**
   * The header part of LoadTriangleMesh. The mesh is cleared first, so it is
   * empty whether or not the load succeeds. Success means the magic line and
   * the format line were accepted; then `headerIndex` is the first line after
   * the comments and `bodyIndex` the line after the first later
   * "end_header".
   */
  method LoadTriangleMeshHeader(mesh: TriangleMesh, lineList: Option<Lines>)
    returns (success: bool, headerIndex: nat, bodyIndex: nat)
    requires HeaderDefined(lineList)
    modifies mesh
    ensures mesh.vertexArray == [] && mesh.triangleList == []
    ensures success <==> Recognized(lineList)
    ensures success ==> 2 <= headerIndex < bodyIndex < |lineList.value|
    ensures success ==> forall k :: 2 <= k < headerIndex ==> StartsWith(LineAt(lineList.value, k), "comment")
    ensures success ==> |LineAt(lineList.value, headerIndex)| > 0 && !StartsWith(LineAt(lineList.value, headerIndex), "comment")
    ensures success ==> StartsWith(LineAt(lineList.value, bodyIndex - 1), "end_header")
    ensures success ==> forall k :: headerIndex < k < bodyIndex - 1 ==>
      |LineAt(lineList.value, k)| > 0 && !StartsWith(LineAt(lineList.value, k), "end_header")
  {
    mesh.Clear();
    headerIndex, bodyIndex := 0, 0;
    if lineList.None? || |lineList.value| == 0 {
      return false, headerIndex, bodyIndex;
    }
    var lines := lineList.value;
    if |lines[0]| == 0 || lines[0][0] != "ply" {
      return false, headerIndex, bodyIndex;
    }
    var headerArray := lines[1];
    if |headerArray| != 3 {
      return false, headerIndex, bodyIndex;
    }
    if headerArray[0] != "format" || headerArray[1] != "ascii" || headerArray[2] != "1.0" {
      return false, headerIndex, bodyIndex;
    }
    assert headerArray == FormatLine;

    ghost var firstHeader := FirstNonComment(lines, 2).value;
    headerIndex := 2;
    while lines[headerIndex][0] == "comment"
      invariant 2 <= headerIndex <= firstHeader
      invariant FirstNonComment(lines, headerIndex) == Some(firstHeader)
      decreases firstHeader - headerIndex
    {
      headerIndex := headerIndex + 1;
    }

    ghost var endHeader := FindEndHeader(lines, headerIndex + 1).value;
    var b := headerIndex + 1;
    while lines[b][0] != "end_header"
      invariant headerIndex + 1 <= b <= endHeader
      invariant FindEndHeader(lines, b) == Some(endHeader)
      decreases endHeader - b
    {
      b := b + 1;
    }
    bodyIndex := b + 1;
    return true, headerIndex, bodyIndex;
  }

  // Vertices

  /** The vertex components a property line may name. */
  const Components: set<string> := {"x", "y", "z", "red", "green", "blue", "nx", "ny", "nz", "s", "t"}

  /** The component `name` of a vertex; zero for a name that is not one. */
  function ComponentOf(vertex: Vertex, name: string): real
  {
    if name == "x" then vertex.position.x
    else if name == "y" then vertex.position.y
    else if name == "z" then vertex.position.z
    else if name == "red" then vertex.color.x
    else if name == "green" then vertex.color.y
    else if name == "blue" then vertex.color.z
    else if name == "nx" then vertex.normal.x
    else if name == "ny" then vertex.normal.y
    else if name == "nz" then vertex.normal.z
    else if name == "s" then vertex.u
    else if name == "t" then vertex.v
    else 0.0
  }

  /**
   * Writes the component `name`: afterwards it reads back as `value` and
   * every other component is as it was. A name that is not a component
   * changes nothing.
   */
  function WithComponent(vertex: Vertex, name: string, value: real): (r: Vertex)
    ensures name in Components ==> ComponentOf(r, name) == value
    ensures forall other :: other != name ==> ComponentOf(r, other) == ComponentOf(vertex, other)
    ensures name !in Components ==> r == vertex
  {
    if name == "x" then vertex.(position := vertex.position.(x := value))
    else if name == "y" then vertex.(position := vertex.position.(y := value))
    else if name == "z" then vertex.(position := vertex.position.(z := value))
    else if name == "red" then vertex.(color := vertex.color.(x := value))
    else if name == "green" then vertex.(color := vertex.color.(y := value))
    else if name == "blue" then vertex.(color := vertex.color.(z := value))
    else if name == "nx" then vertex.(normal := vertex.normal.(x := value))
    else if name == "ny" then vertex.(normal := vertex.normal.(y := value))
    else if name == "nz" then vertex.(normal := vertex.normal.(z := value))
    else if name == "s" then vertex.(u := value)
    else if name == "t" then vertex.(v := value)
    else vertex
  }

  /** The vertex built by writing each named component in turn into a default vertex. */
  function Assemble(names: seq<string>, values: seq<real>): Vertex
    requires |names| == |values|
    decreases |names|
  {
    if |names| == 0 then DefaultVertex
    else
      var n := |names| - 1;
      WithComponent(Assemble(names[..n], values[..n]), names[n], values[n])
  }

  /**
   * A component of the assembled vertex is the value written last under
   * its name, or zero when no value names it.
   */
  lemma {:induction false} AssembleLastWins(names: seq<string>, values: seq<real>, name: string)
    requires |names| == |values| && name in Components
    ensures forall i :: 0 <= i < |names| && names[i] == name && (forall j :: i < j < |names| ==> names[j] != name) ==>
      ComponentOf(Assemble(names, values), name) == values[i]
    ensures name !in names ==> ComponentOf(Assemble(names, values), name) == 0.0
    decreases |names|
  {
    if |names| > 0 {
      var n := |names| - 1;
      AssembleLastWins(names[..n], values[..n], name);
      forall i | 0 <= i < |names| && names[i] == name && (forall j :: i < j < |names| ==> names[j] != name)
        ensures ComponentOf(Assemble(names, values), name) == values[i]
      {
        if i < n {
          assert names[..n][i] == name;
          assert forall j :: i < j < n ==> names[..n][j] != name;
        }
      }
      if name !in names {
        assert name !in names[..n];
      }
    }
  }

  /** Property line `i` after the element line at `headerIndex`. */
  function PropertyLine(lines: Lines, headerIndex: nat, i: nat): Line
  {
    LineAt(lines, headerIndex + 1 + i)
  }

  /** A property line that AddVertex accepts: "property", a type, a component name. */
  predicate PropertyLineAccepted(line: Line)
  {
    |line| >= 3 && line[0] == "property" && line[2] in Components
  }

  /**
   * AddVertex's reads stay in bounds: each property line it reaches (all
   * earlier ones accepted) exists, and has a third token when it begins with
   * "property".
   */
  predicate VertexLinesDefined(lines: Lines, headerIndex: nat, count: nat)
  {
    forall i :: 0 <= i < count && (forall j :: 0 <= j < i ==> PropertyLineAccepted(PropertyLine(lines, headerIndex, j))) ==>
      headerIndex + 1 + i < |lines| && |PropertyLine(lines, headerIndex, i)| >= 1 &&
      (PropertyLine(lines, headerIndex, i)[0] == "property" ==> |PropertyLine(lines, headerIndex, i)| >= 3)
  }

  /** The component names of the first `count` property lines. */
  function PropertyNames(lines: Lines, headerIndex: nat, count: nat): (r: seq<string>)
    requires forall i :: 0 <= i < count ==> PropertyLineAccepted(PropertyLine(lines, headerIndex, i))
    ensures |r| == count
    ensures forall i :: 0 <= i < count ==>
      PropertyLineAccepted(PropertyLine(lines, headerIndex, i)) && r[i] == PropertyLine(lines, headerIndex, i)[2]
  {
    seq(count, i requires 0 <= i < count && PropertyLineAccepted(PropertyLine(lines, headerIndex, i)) =>
      PropertyLine(lines, headerIndex, i)[2])
  }

  /** The values of a body line's tokens. */
  function Values(body: Line, atof: string -> real): (r: seq<real>)
    ensures |r| == |body|
    ensures forall i :: 0 <= i < |body| ==> r[i] == atof(body[i])
  {
    seq(|body|, i requires 0 <= i < |body| => atof(body[i]))
  }

  /** The bounds VertexLinesDefined promises for property line `i`, once the lines before it were accepted. */
  lemma VertexLineAt(lines: Lines, headerIndex: nat, count: nat, i: nat)
    requires VertexLinesDefined(lines, headerIndex, count) && i < count
    requires forall j :: 0 <= j < i ==> PropertyLineAccepted(PropertyLine(lines, headerIndex, j))
    ensures headerIndex + 1 + i < |lines| && |PropertyLine(lines, headerIndex, i)| >= 1
    ensures PropertyLine(lines, headerIndex, i)[0] == "property" ==> |PropertyLine(lines, headerIndex, i)| >= 3
    ensures PropertyLine(lines, headerIndex, i) == lines[headerIndex + 1 + i]
  {
  }

  /** One more accepted property line extends the names and the values by one each. */
  lemma PrefixesGrow(lines: Lines, headerIndex: nat, body: Line, atof: string -> real, i: nat)
    requires i < |body|
    requires forall j :: 0 <= j < i + 1 ==> PropertyLineAccepted(PropertyLine(lines, headerIndex, j))
    ensures PropertyNames(lines, headerIndex, i + 1)[..i] == PropertyNames(lines, headerIndex, i)
    ensures PropertyNames(lines, headerIndex, i + 1)[i] == PropertyLine(lines, headerIndex, i)[2]
    ensures Values(body[..i + 1], atof)[..i] == Values(body[..i], atof)
    ensures Values(body[..i + 1], atof)[i] == atof(body[i])
  {
  }

  /**
   * Reads one vertex body line. Token `i` is the value of the component
   * named by property line `i`. Fails when a property line does not begin
   * with "property" or names no component; otherwise yields the assembled
   * vertex.
   */
  method ReadVertex(lines: Lines, headerIndex: nat, body: Line, atof: string -> real)
    returns (success: bool, vertex: Vertex)
    requires VertexLinesDefined(lines, headerIndex, |body|)
    ensures success <==> forall i :: 0 <= i < |body| ==> PropertyLineAccepted(PropertyLine(lines, headerIndex, i))
    ensures success ==> vertex == Assemble(PropertyNames(lines, headerIndex, |body|), Values(body, atof))
  {
    vertex := DefaultVertex;
    for i := 0 to |body|
      invariant forall j :: 0 <= j < i ==> PropertyLineAccepted(PropertyLine(lines, headerIndex, j))
      invariant vertex == Assemble(PropertyNames(lines, headerIndex, i), Values(body[..i], atof))
    {
      VertexLineAt(lines, headerIndex, |body|, i);
      var propertyArray := lines[headerIndex + 1 + i];
      if propertyArray[0] != "property" {
        assert !PropertyLineAccepted(PropertyLine(lines, headerIndex, i));
        return false, vertex;
      }
      var value := atof(body[i]);
      var name := propertyArray[2];
      if name !in Components {
        assert !PropertyLineAccepted(PropertyLine(lines, headerIndex, i));
        return false, vertex;
      }
      PrefixesGrow(lines, headerIndex, body, atof, i);
      ghost var names, values := PropertyNames(lines, headerIndex, i + 1), Values(body[..i + 1], atof);
      assert Assemble(names, values) == WithComponent(Assemble(names[..i], values[..i]), name, value);
      vertex := WithComponent(vertex, name, value);
    }
    assert body[..|body|] == body;
    success := true;
  }

  /** AddVertex: appends the vertex the body line describes, or adds nothing when it cannot be read. */
  method AddVertex(mesh: TriangleMesh, lines: Lines, headerIndex: nat, body: Line, atof: string -> real)
    returns (success: bool)
    requires VertexLinesDefined(lines, headerIndex, |body|)
    modifies mesh
    ensures success <==> forall i :: 0 <= i < |body| ==> PropertyLineAccepted(PropertyLine(lines, headerIndex, i))
    ensures success ==>
      mesh.vertexArray == old(mesh.vertexArray) + [Assemble(PropertyNames(lines, headerIndex, |body|), Values(body, atof))]
    ensures !success ==> mesh.vertexArray == old(mesh.vertexArray)
    ensures mesh.triangleList == old(mesh.triangleList)
  {
    var vertex;
    success, vertex := ReadVertex(lines, headerIndex, body, atof);
    if success {
      mesh.vertexArray := mesh.vertexArray + [vertex];
    }
  }

  // Faces

  /** The face property line as the PLY format writes it. */
  const FaceFormat: Line := ["property", "list", "uchar", "int", "vertex_index"]

  /** The face property line FileFormat.cpp compares against, with "proprety" misspelt. */
  const FaceFormatAsWritten: Line := ["proprety", "list", "uchar", "int", "vertex_index"]

  /** The line begins with the tokens of `format`. */
  predicate Matches(line: Line, format: Line)
  {
    |line| >= |format| && line[..|format|] == format
  }

  /**
   * The face check's reads stay in bounds: it compares the tokens in order
   * and stops at the first mismatch, so each token it reaches exists.
   */
  predicate FaceLineReadable(line: Line)
  {
    |line| >= 1 && (line[0] == FaceFormat[0] ==>
    |line| >= 2 && (line[1] == FaceFormat[1] ==>
    |line| >= 3 && (line[2] == FaceFormat[2] ==>
    |line| >= 4 && (line[3] == FaceFormat[3] ==>
    |line| >= 5))))
  }

  /** The face check of FileFormat.cpp as written: it accepts only the misspelt keyword. */
  predicate FaceLineAcceptedAsWritten(line: Line)
  {
    Matches(line, FaceFormatAsWritten)
  }

  /** The evidently intended face check: the PLY format's own keyword. */
  predicate FaceLineAccepted(line: Line)
  {
    Matches(line, FaceFormat)
  }

  /** The standard face property line is refused as written and accepted as intended. */
  lemma StandardFaceLineRejectedAsWritten()
    ensures !FaceLineAcceptedAsWritten(FaceFormat)
    ensures FaceLineAccepted(FaceFormat)
  {
    assert FaceFormat[0] != FaceFormatAsWritten[0];
    assert FaceFormat[..|FaceFormat|] == FaceFormat;
  }

  /** A face body line: a corner count, then that many corner indices. */
  predicate FanDefined(body: Line, atoi: string -> int)
  {
    |body| >= 1 && (atoi(body[0]) >= 3 ==> |body| > atoi(body[0]))
  }

  /** The number of triangles a polygon of `count` corners is cut into. */
  function FanSize(count: int): nat
  {
    if count >= 3 then count - 2 else 0
  }

  /** The polygon's corner indices. */
  function Corners(body: Line, atoi: string -> int): (r: seq<int>)
    requires FanDefined(body, atoi)
    ensures |r| == (if atoi(body[0]) >= 3 then atoi(body[0]) else 0)
    ensures forall k :: 0 <= k < |r| ==> r[k] == atoi(body[k + 1])
  {
    var n := if atoi(body[0]) >= 3 then atoi(body[0]) else 0;
    seq(n, k requires 0 <= k < n => atoi(body[k + 1]))
  }

  /** The triangle fan of a face body line, triangle `i` being (first, i + 1, i + 2). */
  function Fan(body: Line, atoi: string -> int): (r: seq<IndexTriangle>)
    requires FanDefined(body, atoi)
    ensures |r| == FanSize(atoi(body[0]))
  {
    var n := FanSize(atoi(body[0]));
    seq(n, i requires 0 <= i < n => IndexTriangle(atoi(body[1]), atoi(body[i + 2]), atoi(body[i + 3])))
  }

  /**
   * The fan tessellates the polygon: every triangle has the first corner,
   * triangle i spans corners i + 1 and i + 2 so neighbours share an edge,
   * and the first and last triangles close the boundary at corner 0.
   */
  lemma FanTessellatesPolygon(body: Line, atoi: string -> int)
    requires FanDefined(body, atoi)
    ensures var c := Corners(body, atoi); var r := Fan(body, atoi);
      |r| == (if |c| >= 3 then |c| - 2 else 0) &&
      (forall i :: 0 <= i < |r| ==> r[i].v0 == c[0] && r[i].v1 == c[i + 1] && r[i].v2 == c[i + 2]) &&
      (forall i :: 0 <= i < |r| - 1 ==> r[i].v2 == r[i + 1].v1) &&
      (|r| > 0 ==> r[0].v1 == c[1] && r[|r| - 1].v2 == c[|c| - 1])
  {
  }

  /**
   * Reads one face body line. Fails, adding nothing, unless the property
   * line after the element line is a "list uchar int vertex_index" line;
   * otherwise appends the polygon's triangle fan.
   */
  method AddTriangles(mesh: TriangleMesh, lines: Lines, headerIndex: nat, body: Line, atoi: string -> int)
    returns (success: bool)
    requires headerIndex + 1 < |lines| && FaceLineReadable(lines[headerIndex + 1])
    requires FaceLineAccepted(lines[headerIndex + 1]) ==> FanDefined(body, atoi)
    modifies mesh
    ensures success <==> FaceLineAccepted(lines[headerIndex + 1])
    ensures success ==> mesh.triangleList == old(mesh.triangleList) + Fan(body, atoi)
    ensures !success ==> mesh.triangleList == old(mesh.triangleList)
    ensures mesh.vertexArray == old(mesh.vertexArray)
  {
    var propertyArray := lines[headerIndex + 1];
    if propertyArray[0] != "property" || propertyArray[1] != "list" || propertyArray[2] != "uchar" ||
       propertyArray[3] != "int" || propertyArray[4] != "vertex_index"
    {
      return false;
    }
    assert propertyArray[..5] == FaceFormat;
    var count := atoi(body[0]);
    var i := 0;
    while i < count - 2
      invariant 0 <= i <= FanSize(count)
      invariant mesh.vertexArray == old(mesh.vertexArray)
      invariant mesh.triangleList == old(mesh.triangleList) + Fan(body, atoi)[..i]
    {
      var triangle := IndexTriangle(atoi(body[1]), atoi(body[1 + i + 1]), atoi(body[1 + i + 2]));
      assert Fan(body, atoi)[..i + 1] == Fan(body, atoi)[..i] + [triangle];
      mesh.triangleList := mesh.triangleList + [triangle];
      i := i + 1;
    }
    assert Fan(body, atoi)[..i] == Fan(body, atoi);
    return true;
  }
}
