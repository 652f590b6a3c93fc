/** The PostgreSQL destination's embeddings: one request for many inputs, and the rows written for each base row. */
module PgEmbeddings {
  import opened Basics

  type Vector = seq<real>

  type Id = nat

  datatype Value = Null | Uuid(id: Id) | Text(text: string) | Literal(vector: Vector) | Other(bytes: Bytes)

  type Row = seq<Value>

  datatype Embedding = Embedding(chunk: string, vector: Vector)

  datatype Error = SplitFailed | RequestFailed | CountMismatch(got: nat, want: nat) | ColumnNotFound(name: string)

  /** The text splitter and the endpoint; None is an error. */
  datatype Model = Model(split: string -> Option<seq<string>>, request: seq<string> -> Option<seq<Vector>>)

  // ---------------------------------------------------------------- one request for all inputs

  /** The chunks of every input, unless one cannot be split. */
  function SplitAll(model: Model, inputs: seq<string>): (r: Option<seq<seq<string>>>)
    ensures r.Some? ==> |r.value| == |inputs|
  {
    if inputs == [] then Some([])
    else
      match (SplitAll(model, inputs[..|inputs| - 1]), model.split(inputs[|inputs| - 1]))
      case (Some(front), Some(chunks)) => Some(front + [chunks])
      case _ => None
  }

  /** The chunks with their vectors. */
  function Paired(chunks: seq<string>, vectors: seq<Vector>): seq<Embedding>
    requires |chunks| == |vectors|
  {
    seq(|chunks|, i requires 0 <= i < |chunks| => Embedding(chunks[i], vectors[i]))
  }

  /** doEmbeddingsRequest: as many vectors as inputs, or an error. */
  function Requested(model: Model, chunks: seq<string>): (r: Result<seq<Embedding>, Error>)
    ensures r.Ok? ==> |r.value| == |chunks|
  {
    match model.request(chunks)
    case None => Err(RequestFailed)
    case Some(vectors) =>
      if |vectors| != |chunks| then Err(CountMismatch(|vectors|, |chunks|)) else Ok(Paired(chunks, vectors))
  }

  function Total(counts: seq<nat>): nat {
    if counts == [] then 0 else Total(counts[..|counts| - 1]) + counts[|counts| - 1]
  }

  lemma {:induction false} TotalGrows(counts: seq<nat>, i: nat)
    requires i < |counts|
    ensures Total(counts[..i]) + counts[i] <= Total(counts)
  {
    var n := |counts| - 1;
    if i < n {
      TotalGrows(counts[..n], i);
      assert counts[..n][..i] == counts[..i];
    }
  }

  /** Consecutive stretches of xs, of these lengths. */
  function Regrouped<T>(xs: seq<T>, counts: seq<nat>): (groups: seq<seq<T>>)
    requires Total(counts) <= |xs|
    ensures |groups| == |counts| && forall i :: 0 <= i < |groups| ==> |groups[i]| == counts[i]
  {
    if counts == [] then []
    else
      var front := counts[..|counts| - 1];
      Regrouped(xs, front) + [xs[Total(front)..Total(counts)]]
  }

  function Counts<T>(xss: seq<seq<T>>): seq<nat> {
    MapSeq((xs: seq<T>) => |xs|, xss)
  }

  lemma {:induction false} TotalIsLength<T>(xss: seq<seq<T>>)
    ensures Total(Counts(xss)) == |Flatten(xss)|
  {
    if xss != [] {
      var n := |xss| - 1;
      TotalIsLength(xss[..n]);
      assert Counts(xss)[..n] == Counts(xss[..n]);
      FlattenSnoc(xss[..n], xss[n]);
      assert xss == xss[..n] + [xss[n]];
    }
  }

  /** The stretches partition what they are cut from. */
  lemma {:induction false} RegroupedIsPartition<T>(xs: seq<T>, counts: seq<nat>)
    requires Total(counts) <= |xs|
    ensures Flatten(Regrouped(xs, counts)) == xs[..Total(counts)]
  {
    if counts != [] {
      var front := counts[..|counts| - 1];
      RegroupedIsPartition(xs, front);
      FlattenSnoc(Regrouped(xs, front), xs[Total(front)..Total(counts)]);
    }
  }

  lemma RegroupedSnoc<T>(xs: seq<T>, all: seq<nat>, counts: seq<nat>, count: nat)
    requires all == counts + [count] && Total(all) == Total(counts) + count <= |xs|
    ensures Regrouped(xs, all) == Regrouped(xs, counts) + [xs[Total(counts)..Total(counts) + count]]
  {
    assert all[..|all| - 1] == counts;
  }

  lemma StretchAt<T>(before: seq<T>, last: seq<T>, more: seq<T>)
    ensures (before + (last + more))[|before|..|before| + |last|] == last
  {
  }

  lemma CountsSnoc<T>(front: seq<seq<T>>, last: seq<T>)
    ensures Counts(front + [last]) == Counts(front) + [|last|]
    ensures Total(Counts(front + [last])) == Total(Counts(front)) + |last|
  {
    assert Counts(front + [last]) == Counts(front) + [|last|];
  }

  /** Cutting what was laid end to end gives the pieces back. */
  lemma {:induction false} RegroupedFlatten<T>(xss: seq<seq<T>>, more: seq<T>)
    requires Total(Counts(xss)) == |Flatten(xss)|
    ensures Regrouped(Flatten(xss) + more, Counts(xss)) == xss
  {
    if xss != [] {
      var front, last := xss[..|xss| - 1], xss[|xss| - 1];
      var before := Flatten(front);
      TotalIsLength(front);
      assert xss == front + [last];
      CountsSnoc(front, last);
      var flat := before + (last + more);
      assert Flatten(xss) + more == flat by {
        FlattenSnoc(front, last);
      }
      RegroupedFlatten(front, last + more);
      StretchAt(before, last, more);
      RegroupedSnoc(flat, Counts(xss), Counts(front), |last|);
    }
  }

  /** What CreateEmbeddings returns. */
  function Created(model: Model, inputs: seq<string>): Result<seq<seq<Embedding>>, Error> {
    if inputs == [] then Ok([])
    else
      match SplitAll(model, inputs)
      case None => Err(SplitFailed)
      case Some(chunks) =>
        match Requested(model, Flatten(chunks))
        case Err(e) => Err(e)
        case Ok(flat) =>
          TotalIsLength(chunks);
          Ok(Regrouped(flat, Counts(chunks)))
  }

  /** The endpoint embeds every chunk by itself. */
  ghost predicate PositionWise(model: Model, vector: string -> Vector) {
    forall chunks :: model.request(chunks) == Some(MapSeq(vector, chunks))
  }

  /** The embeddings of one input by itself. */
  function Own(model: Model, vector: string -> Vector, input: string): Option<seq<Embedding>> {
    match model.split(input)
    case None => None
    case Some(chunks) => Some(MapSeq((chunk: string) => Embedding(chunk, vector(chunk)), chunks))
  }

  lemma {:induction false} SplitAllIs(model: Model, inputs: seq<string>)
    ensures SplitAll(model, inputs).Some? <==> forall i :: 0 <= i < |inputs| ==> model.split(inputs[i]).Some?
    ensures SplitAll(model, inputs).Some? ==>
              forall i :: 0 <= i < |inputs| ==> model.split(inputs[i]) == Some(SplitAll(model, inputs).value[i])
  {
    if inputs != [] {
      var n := |inputs| - 1;
      SplitAllIs(model, inputs[..n]);
      assert forall i :: 0 <= i < n ==> inputs[..n][i] == inputs[i];
      assert inputs[n] == inputs[|inputs| - 1];
    }
  }

  lemma {:induction false} FlattenMaps<A, B>(f: A -> B, xss: seq<seq<A>>)
    ensures MapSeq(f, Flatten(xss)) == Flatten(MapSeq((xs: seq<A>) => MapSeq(f, xs), xss))
  {
    var g := (xs: seq<A>) => MapSeq(f, xs);
    if xss != [] {
      FlattenMaps(f, xss[1..]);
      assert MapSeq(g, xss)[1..] == MapSeq(g, xss[1..]);
      assert MapSeq(f, Flatten(xss)) == MapSeq(f, xss[0]) + MapSeq(f, Flatten(xss[1..]));
    }
  }

  /** One request for all inputs gives every input the embeddings it gets by itself, in its place. */
  lemma BatchIsSeparate(model: Model, vector: string -> Vector, inputs: seq<string>)
    requires PositionWise(model, vector)
    ensures Created(model, inputs).Ok? <==> forall i :: 0 <= i < |inputs| ==> model.split(inputs[i]).Some?
    ensures Created(model, inputs).Ok? ==>
              && |Created(model, inputs).value| == |inputs|
              && forall i :: 0 <= i < |inputs| ==>
                  Own(model, vector, inputs[i]) == Some(Created(model, inputs).value[i])
  {
    SplitAllIs(model, inputs);
    if inputs != [] && SplitAll(model, inputs).Some? {
      var chunks := SplitAll(model, inputs).value;
      var pair := (chunk: string) => Embedding(chunk, vector(chunk));
      var own := MapSeq((cs: seq<string>) => MapSeq(pair, cs), chunks);
      assert Paired(Flatten(chunks), MapSeq(vector, Flatten(chunks))) == MapSeq(pair, Flatten(chunks));
      FlattenMaps(pair, chunks);
      assert Counts(own) == Counts(chunks);
      TotalIsLength(own);
      RegroupedFlatten(own, []);
      assert Flatten(own) + [] == Flatten(own);
      forall i | 0 <= i < |inputs| ensures Own(model, vector, inputs[i]) == Some(own[i]) {
        assert own[i] == MapSeq(pair, chunks[i]);
      }
    }
  }

  /**
   Whatever the endpoint answers, the results laid end to end are its answer, one stretch for the chunks of each input.
   */
  lemma CreatedIsPartition(model: Model, inputs: seq<string>)
    requires inputs != [] && Created(model, inputs).Ok?
    ensures SplitAll(model, inputs).Some?
    ensures var chunks := SplitAll(model, inputs).value;
      && Requested(model, Flatten(chunks)) == Ok(Flatten(Created(model, inputs).value))
      && Counts(Created(model, inputs).value) == Counts(chunks)
  {
    var chunks := SplitAll(model, inputs).value;
    TotalIsLength(chunks);
    var flat := Requested(model, Flatten(chunks)).value;
    RegroupedIsPartition(flat, Counts(chunks));
    assert flat[..|flat|] == flat;
  }

  lemma {:induction false} RegroupedMap<S, T>(f: S -> T, xs: seq<S>, counts: seq<nat>, i: nat)
    requires Total(counts) <= |xs| && i < |counts|
    ensures Regrouped(MapSeq(f, xs), counts)[i] == MapSeq(f, Regrouped(xs, counts)[i])
  {
    var front := counts[..|counts| - 1];
    if i < |front| {
      RegroupedMap(f, xs, front, i);
    }
  }

  lemma {:induction false} SplitAllAt(model: Model, inputs: seq<string>, i: nat)
    requires SplitAll(model, inputs).Some? && i < |inputs|
    ensures model.split(inputs[i]) == Some(SplitAll(model, inputs).value[i])
  {
    if i < |inputs| - 1 {
      SplitAllAt(model, inputs[..|inputs| - 1], i);
    }
  }

  function ChunkTexts(embeddings: seq<Embedding>): seq<string> {
    MapSeq((e: Embedding) => e.chunk, embeddings)
  }

  /** Whatever vectors the endpoint answers, every input gets back exactly its own chunks, in order. */
  lemma ChunksAreTheInputs(model: Model, inputs: seq<string>, i: nat)
    requires Created(model, inputs).Ok? && i < |inputs|
    ensures i < |Created(model, inputs).value|
    ensures model.split(inputs[i]) == Some(ChunkTexts(Created(model, inputs).value[i]))
  {
    var chunks := SplitAll(model, inputs).value;
    var flat := Requested(model, Flatten(chunks)).value;
    TotalIsLength(chunks);
    RegroupedMap((e: Embedding) => e.chunk, flat, Counts(chunks), i);
    assert ChunkTexts(flat) == Flatten(chunks);
    assert Flatten(chunks) + [] == Flatten(chunks);
    RegroupedFlatten(chunks, []);
    SplitAllAt(model, inputs, i);
  }

  /** Split each input and flatten into a single batch while tracking boundaries; None when an input cannot be split. */
  method SplitInputs(model: Model, inputs: seq<string>)
    returns (r: Option<(seq<string>, seq<(nat, nat)>)>, ghost chunked: seq<seq<string>>)
    ensures r.None? ==> SplitAll(model, inputs) == None
    ensures r.Some? ==>
              && SplitAll(model, inputs) == Some(chunked) && r.value.0 == Flatten(chunked)
              && Bounds(r.value.1, Counts(chunked))
  {
    var flatInputs: seq<string> := [];
    var boundaries: seq<(nat, nat)> := [];
    chunked := [];
    for i := 0 to |inputs|
      invariant SplitAll(model, inputs[..i]) == Some(chunked) && flatInputs == Flatten(chunked)
      invariant Bounds(boundaries, Counts(chunked))
    {
      assert inputs[..i + 1][..i] == inputs[..i];
      var chunks := model.split(inputs[i]);
      if chunks.None? {
        SplitAllIs(model, inputs);
        return None, chunked;
      }
      BoundsFollow(boundaries, chunked, chunks.value);
      boundaries := boundaries + [(|flatInputs|, |chunks.value|)];
      flatInputs := flatInputs + chunks.value;
      chunked := chunked + [chunks.value];
    }
    assert inputs[..|inputs|] == inputs;
    return Some((flatInputs, boundaries)), chunked;
  }

  /** Each boundary is where its stretch starts, and how long it is. */
  ghost predicate Bounds(boundaries: seq<(nat, nat)>, counts: seq<nat>) {
    |boundaries| == |counts| && forall j :: 0 <= j < |boundaries| ==> boundaries[j] == (Total(counts[..j]), counts[j])
  }

  lemma BoundsGrow(boundaries: seq<(nat, nat)>, counts: seq<nat>, count: nat)
    requires boundaries != [] && Bounds(boundaries[..|boundaries| - 1], counts)
    requires boundaries[|boundaries| - 1] == (Total(counts), count)
    ensures Bounds(boundaries, counts + [count])
  {
    forall j | 0 <= j < |boundaries| ensures boundaries[j] == (Total((counts + [count])[..j]), (counts + [count])[j]) {
      assert (counts + [count])[..j] == counts[..j];
      assert counts[..|counts|] == counts;
    }
  }

  /** The next input's chunks start where the chunks before them end. */
  lemma BoundsFollow(boundaries: seq<(nat, nat)>, chunked: seq<seq<string>>, chunks: seq<string>)
    requires Bounds(boundaries, Counts(chunked))
    ensures Bounds(boundaries + [(|Flatten(chunked)|, |chunks|)], Counts(chunked + [chunks]))
    ensures Flatten(chunked + [chunks]) == Flatten(chunked) + chunks
  {
    var more := boundaries + [(|Flatten(chunked)|, |chunks|)];
    TotalIsLength(chunked);
    FlattenSnoc(chunked, chunks);
    assert more[..|more| - 1] == boundaries;
    BoundsGrow(more, Counts(chunked), |chunks|);
    assert Counts(chunked + [chunks]) == Counts(chunked) + [|chunks|];
  }

  method CreateEmbeddings(model: Model, inputs: seq<string>) returns (r: Result<seq<seq<Embedding>>, Error>)
    ensures r == Created(model, inputs)
  {
    if |inputs| == 0 {
      return Ok([]);
    }
    ghost var chunked;
    var split;
    split, chunked := SplitInputs(model, inputs);
    if split.None? {
      return Err(SplitFailed);
    }
    var (flatInputs, boundaries) := split.value;
    var flatEmbeddings := Requested(model, flatInputs);
    if flatEmbeddings.Err? {
      return Err(flatEmbeddings.error);
    }
    TotalIsLength(chunked);
    var all := Regroup(flatEmbeddings.value, boundaries, Counts(chunked));
    return Ok(all);
  }

  /** Map back to the results of each input. */
  method Regroup(flat: seq<Embedding>, boundaries: seq<(nat, nat)>, ghost counts: seq<nat>)
    returns (all: seq<seq<Embedding>>)
    requires Total(counts) <= |flat| && Bounds(boundaries, counts)
    ensures all == Regrouped(flat, counts)
  {
    all := [];
    for i := 0 to |boundaries|
      invariant Total(counts[..i]) <= |flat| && all == Regrouped(flat, counts[..i])
    {
      var (start, count) := boundaries[i];
      TotalGrows(counts, i);
      assert counts[..i + 1][..i] == counts[..i];
      all := all + [flat[start..start + count]];
    }
    assert counts[..|counts|] == counts;
  }

  // ---------------------------------------------------------------- the rows of the embeddings table

  const CQ_ID := "_cq_id"

  /** One configured table, as validated: the metadata columns hold _cq_id. */
  datatype TableConfig = TableConfig(source: string, target: string, embedColumns: seq<string>,
      metadataColumns: seq<string>)

  /** What has been accumulated for one table. */
  datatype EmbeddingBatch = EmbeddingBatch(columns: seq<string>, rows: seq<Row>, ids: seq<Id>)

  /** The position of a column: a map from names to positions keeps the last one. */
  function PositionOf(columns: seq<string>, name: string): (r: Option<nat>)
    ensures r.None? <==> name !in columns
    ensures r.Some? ==> r.value < |columns| && columns[r.value] == name && name !in columns[r.value + 1..]
  {
    if columns == [] then None
    else if columns[|columns| - 1] == name then Some(|columns| - 1)
    else PositionOf(columns[..|columns| - 1], name)
  }

  method PositionsByName(columns: seq<string>) returns (idxByName: map<string, nat>)
    ensures forall name :: name in idxByName <==> name in columns
    ensures forall name :: name in idxByName ==> PositionOf(columns, name) == Some(idxByName[name])
  {
    idxByName := map[];
    for i := 0 to |columns|
      invariant forall name :: name in idxByName <==> name in columns[..i]
      invariant forall name :: name in idxByName ==> PositionOf(columns[..i], name) == Some(idxByName[name])
    {
      assert columns[..i + 1] == columns[..i] + [columns[i]];
      assert columns[..i + 1][..i] == columns[..i];
      idxByName := idxByName[columns[i] := i];
    }
    assert columns[..|columns|] == columns;
  }

  /** The positions of the named columns; the first name that is not a column is the error. */
  method ColumnIndexes(columns: seq<string>, names: seq<string>) returns (r: Result<seq<nat>, Error>)
    ensures r.Ok? <==> forall n :: n in names ==> n in columns
    ensures r.Ok? ==> r.value == Positions(columns, names)
    ensures r.Err? ==> r.error.ColumnNotFound? && r.error.name in names && r.error.name !in columns
  {
    var idxByName := PositionsByName(columns);
    var out: seq<nat> := [];
    for i := 0 to |names|
      invariant forall n :: n in names[..i] ==> n in columns
      invariant out == Positions(columns, names[..i])
    {
      if names[i] !in idxByName {
        return Err(ColumnNotFound(names[i]));
      }
      assert names[..i + 1] == names[..i] + [names[i]];
      out := out + [idxByName[names[i]]];
    }
    assert names[..|names|] == names;
    return Ok(out);
  }

  /** The position of every name, and 0 for a name that is not a column. */
  function Positions(columns: seq<string>, names: seq<string>): seq<nat> {
    MapSeq(name => if PositionOf(columns, name).Some? then PositionOf(columns, name).value else 0, names)
  }

  /** The cell of a row, null when the row is too short. */
  function Cell(row: Row, position: nat): Value {
    if position < |row| then row[position] else Null
  }

  /** The texts of the cells that are not null. */
  function Parts(row: Row, positions: seq<nat>, show: Value -> string): seq<string> {
    if positions == [] then []
    else
      var n := |positions| - 1;
      Parts(row, positions[..n], show) +
      if Cell(row, positions[n]).Null? then [] else [show(row[positions[n]])]
  }

  function JoinLines(parts: seq<string>): string {
    if parts == [] then [] else if |parts| == 1 then parts[0] else parts[0] + "\n" + JoinLines(parts[1..])
  }

  function Input(row: Row, positions: seq<nat>, show: Value -> string): string {
    JoinLines(Parts(row, positions, show))
  }

  /** The named cell is there, is not null, and shows as this part. */
  predicate IsPart(row: Row, position: nat, show: Value -> string, part: string) {
    position < |row| && row[position] != Null && part == show(row[position])
  }

  ghost predicate ArePartsAt(row: Row, positions: seq<nat>, show: Value -> string, at: seq<nat>, parts: seq<string>) {
    && Increasing(at, |positions|) && |at| == |parts|
    && forall q :: 0 <= q < |at| ==> IsPart(row, positions[at[q]], show, parts[q])
  }

  lemma OneMorePosition(row: Row, positions: seq<nat>, show: Value -> string, at: seq<nat>, parts: seq<string>, p: nat)
    requires ArePartsAt(row, positions, show, at, parts)
    ensures ArePartsAt(row, positions + [p], show, at, parts)
    ensures p < |row| && row[p] != Null ==>
              ArePartsAt(row, positions + [p], show, at + [|positions|], parts + [show(row[p])])
    ensures forall j: nat :: j in at + [|positions|] <==> j in at || j == |positions|
  {
    OnePosition(at, |positions|);
  }

  /** The parts are the texts of the cells that are there and not null, one each and in order of the columns. */
  lemma {:induction false} PartsAt(row: Row, positions: seq<nat>, show: Value -> string) returns (at: seq<nat>)
    ensures ArePartsAt(row, positions, show, at, Parts(row, positions, show))
    ensures forall j: nat :: j in at <==> j < |positions| && positions[j] < |row| && row[positions[j]] != Null
  {
    at := [];
    if positions != [] {
      var n := |positions| - 1;
      var front := PartsAt(row, positions[..n], show);
      assert positions == positions[..n] + [positions[n]];
      OneMorePosition(row, positions[..n], show, front, Parts(row, positions[..n], show), positions[n]);
      at := if positions[n] < |row| && row[positions[n]] != Null then front + [n] else front;
    }
  }

  /** One more part is a line of its own. */
  lemma {:induction false} OneMoreLine(parts: seq<string>, part: string)
    ensures JoinLines([]) == []
    ensures JoinLines(parts + [part]) == if parts == [] then part else JoinLines(parts) + "\n" + part
    decreases parts
  {
    var all := parts + [part];
    if |parts| > 0 {
      assert all[0] == parts[0] && all[1..] == parts[1..] + [part];
      OneMoreLine(parts[1..], part);
      if |parts| == 1 {
        assert parts[1..] == [] && all[1..] == [part];
      } else {
        assert JoinLines(all) == parts[0] + "\n" + (JoinLines(parts[1..]) + "\n" + part);
        assert JoinLines(parts) == parts[0] + "\n" + JoinLines(parts[1..]);
      }
    }
  }

  function Inputs(rows: seq<Row>, positions: seq<nat>, show: Value -> string): seq<string> {
    MapSeq((row: Row) => Input(row, positions, show), rows)
  }

  method BuildInputs(rows: seq<Row>, positions: seq<nat>, show: Value -> string) returns (inputs: seq<string>)
    ensures inputs == Inputs(rows, positions, show)
    ensures |inputs| == |rows|
    ensures forall i :: 0 <= i < |rows| ==> inputs[i] == JoinLines(Parts(rows[i], positions, show))
  {
    inputs := [];
    for i := 0 to |rows|
      invariant inputs == Inputs(rows, positions, show)[..i]
    {
      var parts: seq<string> := [];
      for j := 0 to |positions|
        invariant parts == Parts(rows[i], positions[..j], show)
      {
        assert positions[..j + 1][..j] == positions[..j];
        if positions[j] < |rows[i]| && rows[i][positions[j]] != Null {
          parts := parts + [show(rows[i][positions[j]])];
        }
      }
      assert positions[..|positions|] == positions;
      inputs := inputs + [JoinLines(parts)];
    }
  }

  /** The metadata of a row: a name that is not a column takes the first cell, as a missing key gives position 0. */
  function Metadata(row: Row, columns: seq<string>, names: seq<string>): seq<Value> {
    MapSeq((position: nat) => Cell(row, position), Positions(columns, names))
  }

  /** The rows of the embeddings table for one base row. */
  function RowValues(row: Row, columns: seq<string>, config: TableConfig, embeddings: seq<Embedding>): seq<Row> {
    var meta := Metadata(row, columns, config.metadataColumns);
    MapSeq((e: Embedding) => meta + [Text(e.chunk), Literal(e.vector)], embeddings)
  }

  /**
   Cell j of every row made is the base row's cell at position p, null when the row is too short: the last column named
   by metadata column j, or the first column for a name that is none. The chunk and its vector come last.
   */
  lemma RowValuesAre(row: Row, columns: seq<string>, config: TableConfig, embeddings: seq<Embedding>, k: nat, j: nat)
    returns (p: nat)
    requires k < |embeddings| && j < |config.metadataColumns|
    ensures if config.metadataColumns[j] in columns
            then p < |columns| && columns[p] == config.metadataColumns[j] && columns[p] !in columns[p + 1..]
            else p == 0
    ensures |RowValues(row, columns, config, embeddings)| == |embeddings|
    ensures var v := RowValues(row, columns, config, embeddings)[k];
      && |v| == |config.metadataColumns| + 2 && v[j] == (if p < |row| then row[p] else Null)
      && v[|v| - 2] == Text(embeddings[k].chunk) && v[|v| - 1] == Literal(embeddings[k].vector)
  {
    p := Positions(columns, config.metadataColumns)[j];
    var meta := Metadata(row, columns, config.metadataColumns);
    assert meta[j] == Cell(row, p);
  }

  /** The metadata cells of a row. */
  method BuildMetadata(row: Row, columns: seq<string>, names: seq<string>) returns (metaVals: seq<Value>)
    ensures metaVals == Metadata(row, columns, names)
  {
    var idxByName := PositionsByName(columns);
    metaVals := [];
    for i := 0 to |names|
      invariant |metaVals| == i && forall j :: 0 <= j < i ==> metaVals[j] == Metadata(row, columns, names)[j]
    {
      var idx := if names[i] in idxByName then idxByName[names[i]] else 0;
      assert idx == Positions(columns, names)[i];
      var val := Null;
      if idx < |row| {
        val := row[idx];
      }
      metaVals := metaVals + [val];
    }
  }

  method BuildRowValues(row: Row, columns: seq<string>, config: TableConfig, embeddings: seq<Embedding>)
    returns (out: seq<Row>)
    ensures out == RowValues(row, columns, config, embeddings)
  {
    var metaVals := BuildMetadata(row, columns, config.metadataColumns);
    out := [];
    for i := 0 to |embeddings|
      invariant |out| == i && forall j :: 0 <= j < i ==> out[j] == RowValues(row, columns, config, embeddings)[j]
    {
      out := out + [metaVals + [Text(embeddings[i].chunk), Literal(embeddings[i].vector)]];
    }
  }

  /** The rows of the embeddings table for all base rows. */
  function AllValues(rows: seq<Row>, columns: seq<string>, config: TableConfig,
                     embeddings: seq<seq<Embedding>>): seq<Row>
    requires |embeddings| == |rows|
  {
    if rows == [] then []
    else
      var n := |rows| - 1;
      AllValues(rows[..n], columns, config, embeddings[..n]) + RowValues(rows[n], columns, config, embeddings[n])
  }

  /** The rows made for the base rows stand one stretch after the other. */
  lemma {:induction false} AllValuesAre(rows: seq<Row>, columns: seq<string>, config: TableConfig,
                                        embeddings: seq<seq<Embedding>>, values: seq<seq<Row>>)
    requires |embeddings| == |rows| == |values|
    requires forall i :: 0 <= i < |rows| ==> values[i] == RowValues(rows[i], columns, config, embeddings[i])
    ensures AllValues(rows, columns, config, embeddings) == Flatten(values)
  {
    if rows != [] {
      var n := |rows| - 1;
      AllValuesAre(rows[..n], columns, config, embeddings[..n], values[..n]);
      FlattenSnoc(values[..n], values[n]);
      assert values == values[..n] + [values[n]];
    }
  }

  lemma AllValuesUnfolds(b: EmbeddingBatch, config: TableConfig, embeddings: seq<seq<Embedding>>, i: nat)
    requires |embeddings| == |b.rows| && i < |b.rows|
    ensures AllValues(b.rows[..i + 1], b.columns, config, embeddings[..i + 1]) ==
            AllValues(b.rows[..i], b.columns, config, embeddings[..i]) +
                RowValues(b.rows[i], b.columns, config, embeddings[i])
  {
    assert b.rows[..i + 1][..i] == b.rows[..i] && embeddings[..i + 1][..i] == embeddings[..i];
  }

  /** The _cq_id a row of the embeddings table carries. */
  function IdOf(config: TableConfig, row: Row): Value {
    match PositionOf(config.metadataColumns, CQ_ID)
    case None => Null
    case Some(position) => Cell(row, position)
  }

  /** The tokens of the list behind `where _cq_id in`. */
  datatype Token = OpenParen | CloseParen | Separator | IdToken(id: Id)

  function Joined(ids: seq<Id>): seq<Token> {
    if ids == [] then []
    else if |ids| == 1 then [IdToken(ids[0])]
    else [IdToken(ids[0]), Separator] + Joined(ids[1..])
  }

  function InList(ids: seq<Id>): seq<Token> {
    [OpenParen] + Joined(ids) + [CloseParen]
  }

  /** SQL's rule for the rest of such a list: one or more expressions, separated by commas, and the closing bracket. */
  function ParseIds(ts: seq<Token>): Option<seq<Id>> {
    if |ts| < 2 || !ts[0].IdToken? then None
    else if ts[1] == CloseParen && |ts| == 2 then Some([ts[0].id])
    else if ts[1] == Separator then
      match ParseIds(ts[2..])
      case None => None
      case Some(more) => Some([ts[0].id] + more)
    else None
  }

  function ParseInList(ts: seq<Token>): Option<seq<Id>> {
    if |ts| > 0 && ts[0] == OpenParen then ParseIds(ts[1..]) else None
  }

  lemma {:induction false} JoinedParses(ids: seq<Id>)
    requires ids != []
    ensures ParseIds(Joined(ids) + [CloseParen]) == Some(ids)
  {
    if |ids| == 1 {
      assert [ids[0]] == ids;
    } else {
      JoinedParses(ids[1..]);
      assert Joined(ids) + [CloseParen] == [IdToken(ids[0]), Separator] + (Joined(ids[1..]) + [CloseParen]);
      assert [ids[0]] + ids[1..] == ids;
    }
  }

  /** The list is SQL exactly when it is not empty: `in ()` is a syntax error. */
  lemma InListParsesIff(ids: seq<Id>)
    ensures ParseInList(InList(ids)) == if ids == [] then None else Some(ids)
  {
    assert InList(ids)[1..] == Joined(ids) + [CloseParen];
    if ids == [] {
      assert InList(ids)[1..] == [CloseParen];
    } else {
      JoinedParses(ids);
    }
  }

  /** strings.Join with a comma. */
  method JoinTokens(parts: seq<Token>, ghost ids: seq<Id>) returns (ts: seq<Token>)
    requires |parts| == |ids| && forall i :: 0 <= i < |ids| ==> parts[i] == IdToken(ids[i])
    ensures ts == Joined(ids)
  {
    ts := [];
    for i := 0 to |parts|
      invariant ts + (if 0 < i < |parts| then [Separator] else []) + Joined(ids[i..]) == Joined(ids)
    {
      assert ids[i..][0] == ids[i] && ids[i..][1..] == ids[i + 1..];
      if i > 0 {
        ts := ts + [Separator];
      }
      ts := ts + [parts[i]];
    }
  }

  /** buildDeleteCQIDsSQL: the list, which is never the empty text that its caller looks for. */
  method BuildDeleteIds(ids: seq<Id>) returns (ts: seq<Token>)
    ensures ts == InList(ids)
  {
    var parts: seq<Token> := [];
    for i := 0 to |ids|
      invariant |parts| == i && forall j :: 0 <= j < i ==> parts[j] == IdToken(ids[j])
    {
      parts := parts + [IdToken(ids[i])];
    }
    var list := JoinTokens(parts, ids);
    ts := [OpenParen] + list + [CloseParen];
  }

  /** `delete ... where _cq_id in (ids)`. */
  function Without(config: TableConfig, rows: seq<Row>, ids: seq<Id>): seq<Row> {
    if rows == [] then []
    else
      var last := rows[|rows| - 1];
      var id := IdOf(config, last);
      Without(config, rows[..|rows| - 1], ids) + if id.Uuid? && id.id in ids then [] else [last]
  }

  /** The rows with this _cq_id. */
  function Having(config: TableConfig, rows: seq<Row>, id: Id): seq<Row> {
    if rows == [] then []
    else
      var last := rows[|rows| - 1];
      Having(config, rows[..|rows| - 1], id) + if IdOf(config, last) == Uuid(id) then [last] else []
  }

  /** The embeddings table after a batch: its ids deleted, its rows inserted. */
  function Replaced(config: TableConfig, target: seq<Row>, b: EmbeddingBatch, embeddings: seq<seq<Embedding>>): seq<Row>
    requires |embeddings| == |b.rows|
  {
    Without(config, target, b.ids) + AllValues(b.rows, b.columns, config, embeddings)
  }

  lemma {:induction false} HavingConcat(config: TableConfig, a: seq<Row>, b: seq<Row>, id: Id)
    ensures Having(config, a + b, id) == Having(config, a, id) + Having(config, b, id)
  {
    if b == [] {
      assert a + b == a;
    } else {
      assert (a + b)[..|a + b| - 1] == a + b[..|b| - 1];
      HavingConcat(config, a, b[..|b| - 1], id);
    }
  }

  lemma {:induction false} HavingWithout(config: TableConfig, rows: seq<Row>, ids: seq<Id>, id: Id)
    ensures Having(config, Without(config, rows, ids), id) == if id in ids then [] else Having(config, rows, id)
  {
    if rows != [] {
      var front, last := rows[..|rows| - 1], rows[|rows| - 1];
      HavingWithout(config, front, ids, id);
      HavingConcat(config, Without(config, front, ids), [last], id);
      assert [last][..0] == [];
      assert Without(config, front, ids) + [] == Without(config, front, ids);
    }
  }

  /** Every base row carries its id, and the metadata columns hold _cq_id. */
  ghost predicate Carries(config: TableConfig, b: EmbeddingBatch) {
    && CQ_ID in config.metadataColumns && CQ_ID in b.columns && |b.ids| == |b.rows|
    && forall i :: 0 <= i < |b.rows| ==> Cell(b.rows[i], PositionOf(b.columns, CQ_ID).value) == Uuid(b.ids[i])
  }

  ghost predicate AllCarry(config: TableConfig, rows: seq<Row>, id: Id) {
    forall k :: 0 <= k < |rows| ==> IdOf(config, rows[k]) == Uuid(id)
  }

  lemma {:induction false} HavingAll(config: TableConfig, rows: seq<Row>, id: Id, other: Id)
    requires AllCarry(config, rows, id)
    ensures Having(config, rows, other) == if other == id then rows else []
  {
    if rows != [] {
      var front, last := rows[..|rows| - 1], rows[|rows| - 1];
      assert IdOf(config, last) == Uuid(id);
      HavingAll(config, front, id, other);
      if other == id {
        assert Having(config, rows, other) == front + [last] == rows;
      } else {
        assert Having(config, rows, other) == Having(config, front, other) + [] == [];
      }
    }
  }

  /** The rows this batch makes for one id: those of the base rows with it, in order. */
  function Chunks(config: TableConfig, b: EmbeddingBatch, embeddings: seq<seq<Embedding>>, id: Id, n: nat): seq<Row>
    requires n <= |b.rows| == |b.ids| == |embeddings|
  {
    if n == 0 then []
    else
      Chunks(config, b, embeddings, id, n - 1) +
      if b.ids[n - 1] == id then RowValues(b.rows[n - 1], b.columns, config, embeddings[n - 1]) else []
  }

  lemma HavingMore(config: TableConfig, rows: seq<Row>, more: seq<Row>, own: Id, id: Id)
    requires AllCarry(config, more, own)
    ensures Having(config, rows + more, id) == Having(config, rows, id) + if own == id then more else []
  {
    HavingConcat(config, rows, more, id);
    HavingAll(config, more, own, id);
  }

  /** Every row made from base row i carries its id. */
  lemma ValuesCarryId(config: TableConfig, b: EmbeddingBatch, embeddings: seq<Embedding>, i: nat)
    requires Carries(config, b) && i < |b.rows|
    ensures AllCarry(config, RowValues(b.rows[i], b.columns, config, embeddings), b.ids[i])
  {
    var values := RowValues(b.rows[i], b.columns, config, embeddings);
    forall k | 0 <= k < |values| ensures IdOf(config, values[k]) == Uuid(b.ids[i]) {
      var position := PositionOf(config.metadataColumns, CQ_ID).value;
      assert values[k][position] == Metadata(b.rows[i], b.columns, config.metadataColumns)[position];
    }
  }

  /** One base row more. */
  lemma HavingRow(config: TableConfig, b: EmbeddingBatch, embeddings: seq<seq<Embedding>>, id: Id, i: nat)
    requires Carries(config, b) && |embeddings| == |b.rows| && i < |b.rows|
    ensures Having(config, AllValues(b.rows[..i + 1], b.columns, config, embeddings[..i + 1]), id) ==
            Having(config, AllValues(b.rows[..i], b.columns, config, embeddings[..i]), id) +
            if b.ids[i] == id then RowValues(b.rows[i], b.columns, config, embeddings[i]) else []
  {
    AllValuesUnfolds(b, config, embeddings, i);
    ValuesCarryId(config, b, embeddings[i], i);
    HavingMore(config, AllValues(b.rows[..i], b.columns, config, embeddings[..i]),
               RowValues(b.rows[i], b.columns, config, embeddings[i]), b.ids[i], id);
  }

  lemma {:induction false} HavingValues(config: TableConfig, b: EmbeddingBatch, embeddings: seq<seq<Embedding>>, id: Id,
                                        n: nat)
    requires Carries(config, b) && |embeddings| == |b.rows| && n <= |b.rows|
    ensures Having(config, AllValues(b.rows[..n], b.columns, config, embeddings[..n]), id) ==
            Chunks(config, b, embeddings, id, n)
  {
    if n > 0 {
      HavingValues(config, b, embeddings, id, n - 1);
      HavingRow(config, b, embeddings, id, n - 1);
    }
  }

  lemma HavingInserted(config: TableConfig, b: EmbeddingBatch, embeddings: seq<seq<Embedding>>, id: Id)
    requires Carries(config, b) && |embeddings| == |b.rows|
    ensures Having(config, AllValues(b.rows, b.columns, config, embeddings), id) ==
            if id in b.ids then Chunks(config, b, embeddings, id, |b.rows|) else []
  {
    HavingValues(config, b, embeddings, id, |b.rows|);
    assert b.rows[..|b.rows|] == b.rows && embeddings[..|b.rows|] == embeddings;
    if id !in b.ids {
      NoChunks(config, b, embeddings, id, |b.rows|);
    }
  }

  lemma HavingReplaced(config: TableConfig, target: seq<Row>, ids: seq<Id>, values: seq<Row>, id: Id)
    ensures Having(config, Without(config, target, ids) + values, id) ==
            (if id in ids then [] else Having(config, target, id)) + Having(config, values, id)
  {
    HavingConcat(config, Without(config, target, ids), values, id);
    HavingWithout(config, target, ids, id);
  }

  /**
   After a batch, the rows of each of its ids are exactly this batch's chunks, and the rows of other ids are untouched.
   */
  lemma ReplacedExactly(config: TableConfig, target: seq<Row>, b: EmbeddingBatch, embeddings: seq<seq<Embedding>>,
                        id: Id)
    requires Carries(config, b) && |embeddings| == |b.rows|
    ensures Having(config, Replaced(config, target, b, embeddings), id) ==
            if id in b.ids then Chunks(config, b, embeddings, id, |b.rows|) else Having(config, target, id)
  {
    HavingReplaced(config, target, b.ids, AllValues(b.rows, b.columns, config, embeddings), id);
    HavingInserted(config, b, embeddings, id);
  }

  lemma {:induction false} NoChunks(config: TableConfig, b: EmbeddingBatch, embeddings: seq<seq<Embedding>>, id: Id,
                                    n: nat)
    requires n <= |b.rows| == |b.ids| == |embeddings| && id !in b.ids
    ensures Chunks(config, b, embeddings, id, n) == []
  {
    if n > 0 {
      NoChunks(config, b, embeddings, id, n - 1);
    }
  }
}
