/** read_off: the OFF mesh reader of main.py.

    The file is a stream of text lines read one readline() at a time:
    a header line that must strip to "OFF", a count line of exactly
    three integers (vertices, faces, edges; the edge count is read and
    dropped), then one line per vertex and one line per face. A face
    line starts with an index count that is dropped without being
    checked. Text-to-float conversion of the vertex coordinates is
    the parameter parseCoord. */
module OffReader {
  import opened Wrappers
  import opened PyStr

  datatype OffError =
    | BadHeader                 // the first line does not strip to "OFF"
    | BadCountLine              // the second line is not exactly three integers
    | BadVertexLine(index: nat) // the index-th vertex line does not parse
    | BadFaceLine(index: nat)   // the index-th face line does not parse

  /** What read_off returns: the vertex rows and the face rows. */
  datatype Mesh<C> = Mesh(verts: seq<seq<C>>, faces: seq<seq<int>>)

  /** The line that the (i+1)-th readline() returns: past the end of
      the file readline() returns the empty string. */
  function LineAt(lines: seq<string>, i: nat): string {
    if i < |lines| then lines[i] else ""
  }

  /** line.strip().split(' ') */
  function Fields(line: string): seq<string> {
    Split(Strip(line), ' ')
  }

  /** [parse(s) for s in tokens]: every token must convert. */
  function ParseAll<T>(tokens: seq<string>, parse: string -> Option<T>): (r: Option<seq<T>>)
    ensures r.Some? <==> forall i :: 0 <= i < |tokens| ==> parse(tokens[i]).Some?
    ensures r.Some? ==> |r.value| == |tokens|
    ensures r.Some? ==> forall i :: 0 <= i < |tokens| ==> parse(tokens[i]) == Some(r.value[i])
  {
    if tokens == [] then Some([])
    else
      match parse(tokens[0])
      case None => None
      case Some(x) =>
        match ParseAll(tokens[1..], parse)
        case None => None
        case Some(xs) => Some([x] + xs)
  }

  /** The count line: exactly three integer fields, of which the first
      two (vertex and face counts) are kept. */
  function ParseCounts(line: string): Option<(int, int)> {
    match ParseAll(Fields(line), ParseInt)
    case Some(ns) => if |ns| == 3 then Some((ns[0], ns[1])) else None
    case None => None
  }

  /** A vertex line: every field converts to a coordinate. */
  function VertexRow<C>(line: string, parseCoord: string -> Option<C>): Option<seq<C>> {
    ParseAll(Fields(line), parseCoord)
  }

  /** A face line: every field converts to an integer, then the first
      one (the index count) is dropped. */
  function FaceRow(line: string): Option<seq<int>> {
    match ParseAll(Fields(line), ParseInt)
    case Some(ns) => Some(ns[1..])
    case None => None
  }

  /** The lines from line k on; past the end of the file, none. */
  function Drop(lines: seq<string>, k: nat): seq<string> {
    if k <= |lines| then lines[k..] else []
  }

  lemma LineAtDrop(lines: seq<string>, k: nat, i: nat)
    ensures LineAt(Drop(lines, k), i) == LineAt(lines, k + i)
  {
  }

  /** A block of n lines, each converted by row; the error is the
      position in the block of the first line that does not convert.
      What it computes is stated by the lemmas below it rather than in
      its contract, so that a proof about one line does not pull in the
      whole block. */
  function ReadBlock<R>(block: seq<string>, n: nat, row: string -> Option<R>): (r: Result<seq<R>, nat>)
    ensures r.Success? ==> |r.value| == n
    ensures r.Failure? ==> r.error < n
  {
    if n == 0 then Success([])
    else
      match ReadBlock(block, n - 1, row)
      case Failure(k) => Failure(k)
      case Success(rows) =>
        match row(LineAt(block, n - 1))
        case None => Failure(n - 1)
        case Some(x) => Success(rows + [x])
  }

  /** A block reads when every one of its lines converts, and then row
      k of the result is line k converted; otherwise the error names a
      line that does not convert, and every line before it converts. */
  lemma {:induction false} ReadBlockSpec<R>(block: seq<string>, n: nat, row: string -> Option<R>)
    ensures var r := ReadBlock(block, n, row);
      (r.Success? <==> forall i :: 0 <= i < n ==> row(LineAt(block, i)).Some?) &&
      (r.Success? ==> forall i :: 0 <= i < n ==> row(LineAt(block, i)) == Some(r.value[i])) &&
      (r.Failure? ==>
         row(LineAt(block, r.error)).None? &&
         forall i :: 0 <= i < r.error ==> row(LineAt(block, i)).Some?)
  {
    if n > 0 {
      ReadBlockSpec(block, n - 1, row);
    }
  }

  /** Lines that all convert, to vals, read as vals. */
  lemma ReadBlockConverts<R>(block: seq<string>, n: nat, row: string -> Option<R>, vals: seq<R>)
    requires |vals| == n
    requires forall i :: 0 <= i < n ==> row(LineAt(block, i)) == Some(vals[i])
    ensures ReadBlock(block, n, row) == Success(vals)
  {
    ReadBlockSpec(block, n, row);
    var r := ReadBlock(block, n, row);
    assert r.Success?;
    assert forall i :: 0 <= i < n ==> r.value[i] == vals[i];
    assert r.value == vals;
  }

  /** The first line of a block that does not convert is the error. */
  lemma ReadBlockStops<R>(block: seq<string>, n: nat, row: string -> Option<R>, k: nat)
    requires k < n
    requires forall i :: 0 <= i < k ==> row(LineAt(block, i)).Some?
    requires row(LineAt(block, k)).None?
    ensures ReadBlock(block, n, row) == Failure(k)
  {
    ReadBlockSpec(block, n, row);
  }

  predicate HeaderOk(lines: seq<string>) {
    Strip(LineAt(lines, 0)) == "OFF"
  }

  function Counts(lines: seq<string>): Option<(int, int)> {
    ParseCounts(LineAt(lines, 1))
  }

  /** The vertex block then the face block, nv and nf lines long, read
      from body, the lines after the header and the count line. */
  function ReadRows<C>(body: seq<string>, parseCoord: string -> Option<C>, nv: nat, nf: nat): (r: Result<Mesh<C>, OffError>)
    ensures r.Success? ==> |r.value.verts| == nv && |r.value.faces| == nf
    ensures r.Failure? ==> r.error.BadVertexLine? || r.error.BadFaceLine?
  {
    var vb := ReadBlock(body, nv, VertexRowOf(parseCoord));
    if vb.Failure? then Failure(BadVertexLine(vb.error))
    else
      var fb := ReadBlock(Drop(body, nv), nf, FaceRow);
      if fb.Failure? then Failure(BadFaceLine(fb.error))
      else Success(Mesh(vb.value, fb.value))
  }

  /** VertexRow with its coordinate parser fixed. */
  function VertexRowOf<C>(parseCoord: string -> Option<C>): string -> Option<seq<C>> {
    line => VertexRow(line, parseCoord)
  }

  /** Each row of the mesh is its line converted; a failing vertex line
      is the first one that does not convert; a failing face line is
      the first face line that does not convert, after every vertex
      line converted. Lines are counted from the first vertex line
      and from the first face line. */
  lemma ReadRowsSpec<C>(body: seq<string>, parseCoord: string -> Option<C>, nv: nat, nf: nat)
    ensures var r := ReadRows(body, parseCoord, nv, nf);
      var vlines, flines := body, Drop(body, nv);
      (r.Success? ==> forall i :: 0 <= i < nv ==>
         VertexRow(LineAt(vlines, i), parseCoord) == Some(r.value.verts[i])) &&
      (r.Success? ==> forall j :: 0 <= j < nf ==>
         FaceRow(LineAt(flines, j)) == Some(r.value.faces[j])) &&
      (r.Failure? && r.error.BadVertexLine? ==>
         r.error.index < nv && VertexRow(LineAt(vlines, r.error.index), parseCoord).None? &&
         forall i :: 0 <= i < r.error.index ==> VertexRow(LineAt(vlines, i), parseCoord).Some?) &&
      (r.Failure? && r.error.BadFaceLine? ==>
         r.error.index < nf && FaceRow(LineAt(flines, r.error.index)).None? &&
         (forall j :: 0 <= j < r.error.index ==> FaceRow(LineAt(flines, j)).Some?) &&
         forall i :: 0 <= i < nv ==> VertexRow(LineAt(vlines, i), parseCoord).Some?)
  {
    ReadBlockSpec(body, nv, VertexRowOf(parseCoord));
    ReadBlockSpec(Drop(body, nv), nf, FaceRow);
  }

  /** read_off over the lines of a file. range(n) is empty for a
      negative n, so a negative count reads no lines. */
  function ReadOff<C>(lines: seq<string>, parseCoord: string -> Option<C>): (r: Result<Mesh<C>, OffError>)
    // a header that does not strip to "OFF" is rejected before anything else
    ensures r == Failure(BadHeader) <==> !HeaderOk(lines)
    ensures r == Failure(BadCountLine) <==> HeaderOk(lines) && Counts(lines).None?
    // otherwise the two announced blocks are read
    ensures HeaderOk(lines) && Counts(lines).Some? ==>
      r == ReadRows(Drop(lines, 2), parseCoord, Max0(Counts(lines).value.0), Max0(Counts(lines).value.1))
  {
    if !HeaderOk(lines) then Failure(BadHeader)
    else if Counts(lines).None? then Failure(BadCountLine)
    else ReadRows(Drop(lines, 2), parseCoord, Max0(Counts(lines).value.0), Max0(Counts(lines).value.1))
  }

  /** A count line whose first field ends in an information separator
      is rejected, as int() rejects that field, although strip() would
      remove the separator. */
  lemma CountLineSeparator<C>(parseCoord: string -> Option<C>)
    ensures ReadOff(["OFF", "0\U{1c} 0 0"], parseCoord) == Failure(BadCountLine)
  {
    var line := "0\U{1c} 0 0";
    assert Strip("OFF") == "OFF";
    assert Strip(line) == line;
    assert Split(" 0 0", ' ')[0] == "";
    assert Split("\U{1c} 0 0", ' ')[0] == "\U{1c}";
    assert Fields(line)[0] == "0" + ['\U{1c}'];
    ParseIntRejectsSeparator("0", '\U{1c}');
  }

  /** How many lines the two blocks take: up to and including the
      first line that does not convert, or all of them. */
  function RowsRead<C>(body: seq<string>, parseCoord: string -> Option<C>, nv: nat, nf: nat): nat {
    match ReadRows(body, parseCoord, nv, nf)
    case Failure(BadVertexLine(i)) => i + 1
    case Failure(BadFaceLine(j)) => nv + j + 1
    case Failure(_) => 0
    case Success(_) => nv + nf
  }

  /** How many readline() calls read_off makes before it returns or
      raises. */
  function LinesRead<C>(lines: seq<string>, parseCoord: string -> Option<C>): nat {
    if !HeaderOk(lines) then 1
    else if Counts(lines).None? then 2
    else 2 + RowsRead(Drop(lines, 2), parseCoord, Max0(Counts(lines).value.0), Max0(Counts(lines).value.1))
  }

  function MinNat(a: nat, b: nat): nat {
    if a < b then a else b
  }

  /** An open text file: its lines and the read position. */
  class LineReader {
    const lines: seq<string>
    var pos: nat

    ghost predicate Valid()
      reads this
    {
      pos <= |lines|
    }

    /** The lines not read yet. */
    ghost function Remaining(): seq<string>
      reads this
      requires Valid()
    {
      lines[pos..]
    }

    constructor (lines: seq<string>)
      ensures Valid() && this.lines == lines && pos == 0
    {
      this.lines := lines;
      pos := 0;
    }

    /** file.readline(): the next line, or "" at the end of the file,
        where the position stays. */
    method ReadLine() returns (line: string)
      requires Valid()
      modifies this
      ensures Valid()
      ensures line == LineAt(lines, old(pos))
      ensures pos == MinNat(old(pos) + 1, |lines|)
    {
      if pos < |lines| {
        line := lines[pos];
        pos := pos + 1;
      } else {
        line := "";
      }
    }
  }

  /** After k more readline() calls the unread lines are the old ones
      from line k on. */
  lemma CursorDrop(lines: seq<string>, p0: nat, k: nat)
    requires p0 <= |lines|
    ensures lines[MinNat(p0 + k, |lines|)..] == Drop(lines[p0..], k)
  {
  }

  /** [row(file.readline()) for _ in range(n)], stopping at the first
      line that does not convert: returns what ReadBlock says of the
      unread lines, and leaves the file after the last line read. */
  method ReadBlockFrom<R>(f: LineReader, n: nat, row: string -> Option<R>) returns (r: Result<seq<R>, nat>)
    requires f.Valid()
    modifies f
    ensures f.Valid()
    ensures r == ReadBlock(old(f.Remaining()), n, row)
    ensures f.pos == MinNat(old(f.pos) + (if r.Success? then n else r.error + 1), |f.lines|)
  {
    ghost var block := f.Remaining();
    ghost var p0 := f.pos;
    var rows := [];
    var i := 0;
    while i < n
      invariant 0 <= i <= n && f.Valid()
      invariant f.pos == MinNat(p0 + i, |f.lines|)
      invariant |rows| == i
      invariant forall k :: 0 <= k < i ==> row(LineAt(block, k)) == Some(rows[k])
    {
      assert LineAt(f.lines, f.pos) == LineAt(block, i);
      var line := f.ReadLine();
      var x := row(line);
      if x.None? {
        ReadBlockStops(block, n, row, i);
        return Failure(i);
      }
      rows := rows + [x.value];
      i := i + 1;
    }
    ReadBlockConverts(block, n, row, rows);
    return Success(rows);
  }

  /** The two list comprehensions of read_off on an open file: returns
      what ReadRows says of the unread lines, and leaves the file after
      the last line read. */
  method ReadRowsFrom<C>(f: LineReader, parseCoord: string -> Option<C>, nv: nat, nf: nat)
    returns (r: Result<Mesh<C>, OffError>)
    requires f.Valid()
    modifies f
    ensures f.Valid()
    ensures r == ReadRows(old(f.Remaining()), parseCoord, nv, nf)
    ensures f.pos == MinNat(old(f.pos) + RowsRead(old(f.Remaining()), parseCoord, nv, nf), |f.lines|)
  {
    ghost var body := f.Remaining();
    ghost var p0 := f.pos;
    var vb := ReadBlockFrom(f, nv, VertexRowOf(parseCoord));
    if vb.Failure? {
      return Failure(BadVertexLine(vb.error));
    }
    CursorDrop(f.lines, p0, nv);
    assert f.Remaining() == Drop(body, nv);
    ghost var p1 := f.pos;
    var fb := ReadBlockFrom(f, nf, FaceRow);
    assert f.pos == MinNat(p1 + (if fb.Success? then nf else fb.error + 1), |f.lines|);
    if fb.Failure? {
      return Failure(BadFaceLine(fb.error));
    }
    return Success(Mesh(vb.value, fb.value));
  }

  /** read_off(file) on an open file: the header, the count line, then
      the two list comprehensions. Returns what ReadOff says of the
      unread lines, and leaves the file just after the last line it
      read. */
  method ReadOffFile<C>(f: LineReader, parseCoord: string -> Option<C>) returns (r: Result<Mesh<C>, OffError>)
    requires f.Valid()
    modifies f
    ensures f.Valid()
    ensures r == ReadOff(old(f.Remaining()), parseCoord)
    ensures f.pos == MinNat(old(f.pos) + LinesRead(old(f.Remaining()), parseCoord), |f.lines|)
  {
    ghost var rest := f.Remaining();
    ghost var p0 := f.pos;

    assert LineAt(f.lines, p0) == LineAt(rest, 0);
    var header := f.ReadLine();
    if Strip(header) != "OFF" {
      return Failure(BadHeader);
    }
    assert LineAt(f.lines, f.pos) == LineAt(rest, 1);
    var countLine := f.ReadLine();
    var counts := ParseCounts(countLine);
    if counts.None? {
      return Failure(BadCountLine);
    }
    var nv, nf := Max0(counts.value.0), Max0(counts.value.1);
    assert HeaderOk(rest) && Counts(rest) == counts;
    CursorDrop(f.lines, p0, 2);
    r := ReadRowsFrom(f, parseCoord, nv, nf);
  }

  // ---------------------------------------------------------------
  // Writing a mesh in the OFF format, and reading it back.

  /** A line of fields separated by single spaces. */
  function Line(fields: seq<string>): string
    requires |fields| >= 1
  {
    Join(fields, ' ')
  }

  function Shown<T>(xs: seq<T>, show: T -> string): (r: seq<string>)
    ensures |r| == |xs|
  {
    seq(|xs|, i requires 0 <= i < |xs| => show(xs[i]))
  }

  function VertexLine<C>(v: seq<C>, showCoord: C -> string): string {
    if v == [] then "" else Line(Shown(v, showCoord))
  }

  /** A face line: the index count, then the indices. */
  function FaceLine(face: seq<int>): string {
    Line([IntToString(|face|)] + Shown(face, IntToString))
  }

  /** The OFF text of a mesh, one string per line. */
  function WriteOff<C>(m: Mesh<C>, showCoord: C -> string, edges: int): (lines: seq<string>)
    ensures |lines| == 2 + |m.verts| + |m.faces|
  {
    ["OFF", Line([IntToString(|m.verts|), IntToString(|m.faces|), IntToString(edges)])]
    + seq(|m.verts|, i requires 0 <= i < |m.verts| => VertexLine(m.verts[i], showCoord))
    + seq(|m.faces|, j requires 0 <= j < |m.faces| => FaceLine(m.faces[j]))
  }

  /** The fields of a line built from non-empty fields without
      whitespace are those fields. */
  lemma FieldsOfLine(fields: seq<string>)
    requires |fields| >= 1
    requires forall i :: 0 <= i < |fields| ==> fields[i] != [] && NoSpace(fields[i])
    ensures Fields(Line(fields)) == fields
  {
    var l := Line(fields);
    JoinLast(fields, ' ');
    assert l[0] == fields[0][0] by {
      if |fields| > 1 {
        assert l == fields[0] + [' '] + Join(fields[1..], ' ');
      }
    }
    assert Strip(l) == l;
    forall i | 0 <= i < |fields| ensures ' ' !in fields[i] {
      assert IsSpace(' ');
    }
    SplitJoin(fields, ' ');
  }

  /** Converting values that were shown with a matching printer gives
      the values back. */
  lemma ParseAllShown<T>(xs: seq<T>, show: T -> string, parse: string -> Option<T>)
    requires forall i :: 0 <= i < |xs| ==> parse(show(xs[i])) == Some(xs[i])
    ensures ParseAll(Shown(xs, show), parse) == Some(xs)
  {
    var r := ParseAll(Shown(xs, show), parse);
    assert r.Some?;
    assert r.value == xs;
  }

  lemma ParseAllInts(xs: seq<int>)
    ensures ParseAll(Shown(xs, IntToString), ParseInt) == Some(xs)
  {
    forall i | 0 <= i < |xs| ensures ParseInt(IntToString(xs[i])) == Some(xs[i]) {
      ParseIntToString(xs[i]);
    }
    ParseAllShown(xs, IntToString, ParseInt);
  }

  lemma ShownIntsFields(xs: seq<int>)
    requires |xs| >= 1
    ensures Fields(Line(Shown(xs, IntToString))) == Shown(xs, IntToString)
  {
    var fields := Shown(xs, IntToString);
    assert forall i :: 0 <= i < |fields| ==> fields[i] == IntToString(xs[i]);
    FieldsOfLine(fields);
  }

  /** The count at the head of a face line is dropped whatever its
      value: it is never compared with the number of indices. */
  lemma FaceRowDropsCount(count: int, indices: seq<int>)
    ensures FaceRow(Line([IntToString(count)] + Shown(indices, IntToString))) == Some(indices)
  {
    var xs := [count] + indices;
    assert [IntToString(count)] + Shown(indices, IntToString) == Shown(xs, IntToString);
    ShownIntsFields(xs);
    ParseAllInts(xs);
    assert xs[1..] == indices;
  }

  /** The first two lines of a written mesh are a valid header and the
      true counts. */
  lemma WrittenHeader<C>(m: Mesh<C>, showCoord: C -> string, edges: int)
    ensures var lines := WriteOff(m, showCoord, edges);
      HeaderOk(lines) && Counts(lines) == Some((|m.verts|, |m.faces|))
  {
    var lines := WriteOff(m, showCoord, edges);
    var nv, nf := |m.verts|, |m.faces|;
    assert LineAt(lines, 0) == "OFF";
    assert Strip("OFF") == "OFF" by {
      assert !IsSpace('O') && !IsSpace('F');
    }
    var counts := [nv, nf, edges];
    var shown := Shown(counts, IntToString);
    assert [IntToString(nv), IntToString(nf), IntToString(edges)] == shown;
    assert LineAt(lines, 1) == Line(shown);
    ShownIntsFields(counts);
    ParseAllInts(counts);
    assert ParseAll(Fields(LineAt(lines, 1)), ParseInt) == Some(counts);
  }

  /** The vertex lines of a written mesh read back as its vertices. */
  lemma WrittenVertices<C>(m: Mesh<C>, showCoord: C -> string, parseCoord: string -> Option<C>, edges: int)
    requires forall c :: parseCoord(showCoord(c)) == Some(c)
    requires forall c :: showCoord(c) != [] && NoSpace(showCoord(c))
    requires forall i :: 0 <= i < |m.verts| ==> m.verts[i] != []
    ensures ReadBlock(Drop(WriteOff(m, showCoord, edges), 2), |m.verts|, VertexRowOf(parseCoord)) == Success(m.verts)
  {
    var lines := WriteOff(m, showCoord, edges);
    var vlines := Drop(lines, 2);
    forall i | 0 <= i < |m.verts| ensures VertexRowOf(parseCoord)(LineAt(vlines, i)) == Some(m.verts[i]) {
      var v := m.verts[i];
      LineAtDrop(lines, 2, i);
      assert LineAt(lines, 2 + i) == Line(Shown(v, showCoord));
      FieldsOfLine(Shown(v, showCoord));
      ParseAllShown(v, showCoord, parseCoord);
    }
    ReadBlockConverts(vlines, |m.verts|, VertexRowOf(parseCoord), m.verts);
  }

  /** The face lines of a written mesh read back as its faces. */
  lemma WrittenFaces<C>(m: Mesh<C>, showCoord: C -> string, edges: int)
    ensures var body := Drop(WriteOff(m, showCoord, edges), 2);
      ReadBlock(Drop(body, |m.verts|), |m.faces|, FaceRow) == Success(m.faces)
  {
    var lines := WriteOff(m, showCoord, edges);
    var nv := |m.verts|;
    var flines := Drop(Drop(lines, 2), nv);
    forall j | 0 <= j < |m.faces| ensures FaceRow(LineAt(flines, j)) == Some(m.faces[j]) {
      var face := m.faces[j];
      LineAtDrop(Drop(lines, 2), nv, j);
      LineAtDrop(lines, 2, nv + j);
      assert LineAt(lines, 2 + nv + j) == FaceLine(face);
      FaceRowDropsCount(|face|, face);
    }
    ReadBlockConverts(flines, |m.faces|, FaceRow, m.faces);
  }

  /** Writing a mesh in the OFF format and reading it back gives the
      same mesh, when the coordinate printer and parser match, printed
      coordinates are non-empty and hold no whitespace, and every
      vertex has at least one coordinate. */
  lemma ReadWriteRoundTrip<C>(m: Mesh<C>, showCoord: C -> string, parseCoord: string -> Option<C>, edges: int)
    requires forall c :: parseCoord(showCoord(c)) == Some(c)
    requires forall c :: showCoord(c) != [] && NoSpace(showCoord(c))
    requires forall i :: 0 <= i < |m.verts| ==> m.verts[i] != []
    ensures ReadOff(WriteOff(m, showCoord, edges), parseCoord) == Success(m)
  {
    WrittenHeader(m, showCoord, edges);
    WrittenVertices(m, showCoord, parseCoord, edges);
    WrittenFaces(m, showCoord, edges);
  }
}
