/**
 The CLI's record transformer: the internal columns added to every table, and the constraints a write mode removes.
 */
module RecordTransformer {
  import opened Basics

  const SYNC_TIME := "_cq_sync_time"
  const SOURCE_NAME := "_cq_source_name"
  const CQ_ID := "_cq_id"
  const SYNC_GROUP_ID := "_cq_sync_group_id"
  const PRIMARY_KEY := "cq:extension:primary_key"
  const UNIQUE := "cq:extension:unique"
  const MICROSECOND := 2

  datatype Type = Timestamp(unit: nat, zone: string) | Utf8 | Unlisted(id: nat)

  type Metadata = map<string, string>

  datatype Field = Field(name: string, ty: Type, nullable: bool, metadata: Metadata)

  datatype Schema = Schema(fields: seq<Field>, metadata: Metadata)

  datatype Cell = Time(at: int) | Text(text: string) | Data(bytes: Bytes)

  datatype Column = Column(ty: Type, cells: seq<Cell>)

  datatype Record = Record(schema: Schema, columns: seq<Column>, rows: nat)

  datatype Setting =
    | WithSourceName(name: string) | WithSyncTime(time: int) | WithSyncGroupId(id: string)
    | WithRemovePks | WithRemoveUniqueConstraints | WithCqIdPrimaryKey | WithCqColumnsNotNull

  /** The settings given; a value set twice is the last one. */
  datatype Settings = Settings(sourceName: Option<string>, syncTime: Option<int>, syncGroupId: Option<string>,
                               removePks: bool, removeUnique: bool, cqIdPrimaryKey: bool, cqColumnsNotNull: bool)

  function Set(s: Settings, o: Setting): Settings {
    match o
    case WithSourceName(name) => s.(sourceName := Some(name))
    case WithSyncTime(time) => s.(syncTime := Some(time))
    case WithSyncGroupId(id) => s.(syncGroupId := Some(id))
    case WithRemovePks => s.(removePks := true)
    case WithRemoveUniqueConstraints => s.(removeUnique := true)
    case WithCqIdPrimaryKey => s.(cqIdPrimaryKey := true)
    case WithCqColumnsNotNull => s.(cqColumnsNotNull := true)
  }

  function Configured(opts: seq<Setting>): Settings {
    if opts == [] then Settings(None, None, None, false, false, false, false)
    else Set(Configured(opts[..|opts| - 1]), opts[|opts| - 1])
  }

  /** Whatever options are given: a flag is set when it is among them. */
  lemma {:induction false} FlagsAre(opts: seq<Setting>)
    ensures var s := Configured(opts);
      && (s.removePks <==> WithRemovePks in opts)
      && (s.removeUnique <==> WithRemoveUniqueConstraints in opts)
      && (s.cqIdPrimaryKey <==> WithCqIdPrimaryKey in opts)
      && (s.cqColumnsNotNull <==> WithCqColumnsNotNull in opts)
  {
    if opts != [] {
      var n := |opts| - 1;
      FlagsAre(opts[..n]);
      assert opts == opts[..n] + [opts[n]];
    }
  }

  /** And a value is that of its last option. */
  lemma {:induction false} ValuesAreLast(opts: seq<Setting>, i: nat)
    requires i < |opts| && IsLast(opts, i)
    ensures match opts[i]
            case WithSourceName(name) => Configured(opts).sourceName == Some(name)
            case WithSyncTime(time) => Configured(opts).syncTime == Some(time)
            case WithSyncGroupId(id) => Configured(opts).syncGroupId == Some(id)
            case _ => true
  {
    var n := |opts| - 1;
    if i < n {
      assert IsLast(opts[..n], i);
      ValuesAreLast(opts[..n], i);
    }
  }

  /** Without an option there is no value. */
  lemma {:induction false} NoValueWithoutOption(opts: seq<Setting>)
    ensures (forall o :: o in opts ==> !o.WithSourceName?) ==> Configured(opts).sourceName.None?
    ensures (forall o :: o in opts ==> !o.WithSyncTime?) ==> Configured(opts).syncTime.None?
    ensures (forall o :: o in opts ==> !o.WithSyncGroupId?) ==> Configured(opts).syncGroupId.None?
  {
    if opts != [] {
      var front, last := opts[..|opts| - 1], opts[|opts| - 1];
      NoValueWithoutOption(front);
      assert last in opts && forall o :: o in front ==> o in opts;
    }
  }

  /** No later option is of the same kind. */
  predicate IsLast(opts: seq<Setting>, i: nat)
    requires i < |opts|
  {
    forall j :: i < j < |opts| ==> match opts[i]
      case WithSourceName(_) => !opts[j].WithSourceName?
      case WithSyncTime(_) => !opts[j].WithSyncTime?
      case WithSyncGroupId(_) => !opts[j].WithSyncGroupId?
      case _ => true
  }

  datatype WriteMode = Append | Overwrite | OverwriteDeleteStale

  /** The settings of a destination: its write mode, whether it asks for _cq_id keys only, and its sync group. */
  function SettingsFor(mode: WriteMode, cqIdOnly: bool, group: Option<string>, notNull: bool, source: string,
                       time: int): seq<Setting> {
    [WithSourceName(source), WithSyncTime(time)] +
    (if notNull then [WithCqColumnsNotNull] else []) +
    (if group.Some? then [WithSyncGroupId(group.value)] else []) +
    if mode == Append then [WithRemovePks, WithRemoveUniqueConstraints]
    else if cqIdOnly then [WithRemovePks, WithCqIdPrimaryKey]
    else []
  }

  lemma {:induction false} Last(opts: seq<Setting>, more: seq<Setting>)
    ensures more == [] ==> Configured(opts + more) == Configured(opts)
    ensures |more| == 1 ==> Configured(opts + more) == Set(Configured(opts), more[0])
    ensures |more| == 2 ==> Configured(opts + more) == Set(Set(Configured(opts), more[0]), more[1])
  {
    if more == [] {
      assert opts + more == opts;
    } else if |more| == 1 {
      assert (opts + more)[..|opts|] == opts;
    } else if |more| == 2 {
      assert (opts + more)[..|opts| + 1] == opts + [more[0]];
      assert (opts + [more[0]])[..|opts|] == opts;
    }
  }

  /** What the CLI's settings come to. */
  lemma ConfiguredFor(mode: WriteMode, cqIdOnly: bool, group: Option<string>, notNull: bool, source: string, time: int)
    ensures Configured(SettingsFor(mode, cqIdOnly, group, notNull, source, time)) ==
            Settings(Some(source), Some(time), group, mode == Append || cqIdOnly, mode == Append,
                     mode != Append && cqIdOnly, notNull)
  {
    var a := [WithSourceName(source), WithSyncTime(time)];
    var b := if notNull then [WithCqColumnsNotNull] else [];
    var c := if group.Some? then [WithSyncGroupId(group.value)] else [];
    var d := if mode == Append then [WithRemovePks, WithRemoveUniqueConstraints]
             else if cqIdOnly then [WithRemovePks, WithCqIdPrimaryKey] else [];
    Last([], a);
    Last(a, b);
    Last(a + b, c);
    Last(a + b + c, d);
    assert [] + a == a;
  }

  // ---------------------------------------------------------------- schemas

  predicate HasField(fields: seq<Field>, name: string) {
    exists i :: 0 <= i < |fields| && fields[i].name == name
  }

  /** The internal columns the schema lacks, in their order. */
  function Added(s: Settings, sc: Schema): seq<Field> {
    (if s.syncTime.Some? && !HasField(sc.fields, SYNC_TIME)
     then [Field(SYNC_TIME, Timestamp(MICROSECOND, "UTC"), !s.cqColumnsNotNull, map[])] else []) +
    (if s.sourceName.Some? && !HasField(sc.fields, SOURCE_NAME)
     then [Field(SOURCE_NAME, Utf8, !s.cqColumnsNotNull, map[])] else []) +
    (if s.syncGroupId.Some? && !HasField(sc.fields, SYNC_GROUP_ID)
     then [Field(SYNC_GROUP_ID, Utf8, false, map[PRIMARY_KEY := "true"])] else [])
  }

  function Rewritten(s: Settings, f: Field): Field {
    var unique := if s.removeUnique then f.metadata - {UNIQUE} else f.metadata;
    var keys := if s.removePks then unique - {PRIMARY_KEY} else unique;
    f.(metadata := if f.name == CQ_ID && s.cqIdPrimaryKey then keys[PRIMARY_KEY := "true"] else keys)
  }

  function Transformed(s: Settings, sc: Schema): Schema {
    Schema(MapSeq(f => Rewritten(s, f), Added(s, sc) + sc.fields), sc.metadata)
  }

  lemma RewrittenIsStable(s: Settings, f: Field)
    ensures Rewritten(s, Rewritten(s, f)) == Rewritten(s, f)
  {
    assert Rewritten(s, Rewritten(s, f)).metadata == Rewritten(s, f).metadata;
  }

  lemma TransformedNames(s: Settings, sc: Schema, name: string)
    ensures HasField(Transformed(s, sc).fields, name) <==> HasField(Added(s, sc), name) || HasField(sc.fields, name)
  {
    var before, after := Added(s, sc) + sc.fields, Transformed(s, sc).fields;
    assert forall i :: 0 <= i < |after| ==> after[i].name == before[i].name;
    if HasField(Added(s, sc), name) {
      var i :| 0 <= i < |Added(s, sc)| && Added(s, sc)[i].name == name;
      assert after[i].name == name;
    }
    if HasField(sc.fields, name) {
      var i :| 0 <= i < |sc.fields| && sc.fields[i].name == name;
      assert after[|Added(s, sc)| + i].name == name;
    }
    if HasField(after, name) {
      var i :| 0 <= i < |after| && after[i].name == name;
      assert before[i].name == name;
    }
  }

  /**
   The fields of the source follow the added ones in order, and so do its metadata: names, types and nullability stay,
   and of a field's metadata only the key and unique marks change, exactly as the settings say.
   */
  lemma SourceFieldsStay(s: Settings, sc: Schema, i: nat)
    requires i < |sc.fields|
    ensures var t, n := Transformed(s, sc), |Added(s, sc)|;
      && t.metadata == sc.metadata && |t.fields| == n + |sc.fields|
      && var f, f' := sc.fields[i], t.fields[n + i];
         && f'.name == f.name && f'.ty == f.ty && f'.nullable == f.nullable
         && ("cq:extension:unique" in f'.metadata <==> "cq:extension:unique" in f.metadata && !s.removeUnique)
         && ("cq:extension:primary_key" in f'.metadata <==>
               ("cq:extension:primary_key" in f.metadata && !s.removePks) || (f.name == "_cq_id" && s.cqIdPrimaryKey))
         && (f.name == "_cq_id" && s.cqIdPrimaryKey ==> f'.metadata["cq:extension:primary_key"] == "true")
         && (forall k :: k in f.metadata && k != "cq:extension:primary_key" && k != "cq:extension:unique" ==>
               k in f'.metadata)
         && forall k :: k in f'.metadata && !(k == "cq:extension:primary_key" && f.name == "_cq_id" && s.cqIdPrimaryKey)
              ==> k in f.metadata && f'.metadata[k] == f.metadata[k]
  {
    var before := Added(s, sc) + sc.fields;
    assert before[|Added(s, sc)| + i] == sc.fields[i];
  }

  /** The column is asked for and the schema lacks it. */
  ghost predicate Missing(asked: bool, sc: Schema, name: string) {
    asked && forall i :: 0 <= i < |sc.fields| ==> sc.fields[i].name != name
  }

  /** The internal columns put in front are those that are asked for and missing, in this order. */
  lemma AddedAre(s: Settings, sc: Schema)
    ensures var time, source, group := Missing(s.syncTime.Some?, sc, "_cq_sync_time"),
            Missing(s.sourceName.Some?, sc, "_cq_source_name"), Missing(s.syncGroupId.Some?, sc, "_cq_sync_group_id");
      var second := if time then 1 else 0;
      var third := second + if source then 1 else 0;
      && |Added(s, sc)| == third + (if group then 1 else 0)
      && (time ==> Added(s, sc)[0] == Field("_cq_sync_time", Timestamp(2, "UTC"), !s.cqColumnsNotNull, map[]))
      && (source ==> Added(s, sc)[second] == Field("_cq_source_name", Utf8, !s.cqColumnsNotNull, map[]))
      && (group ==> Added(s, sc)[third] ==
                    Field("_cq_sync_group_id", Utf8, false, map["cq:extension:primary_key" := "true"]))
  {
    assert Missing(s.syncTime.Some?, sc, "_cq_sync_time") <==> s.syncTime.Some? && !HasField(sc.fields, SYNC_TIME);
    assert Missing(s.sourceName.Some?, sc, "_cq_source_name") <==>
        s.sourceName.Some? && !HasField(sc.fields, SOURCE_NAME);
    assert Missing(s.syncGroupId.Some?, sc, "_cq_sync_group_id") <==>
        s.syncGroupId.Some? && !HasField(sc.fields, SYNC_GROUP_ID);
  }

  /**
   They come out as the sync time in microseconds UTC, the source name, and the sync group, which is never null and a
   key unless keys are removed.
   */
  lemma AddedFieldsAre(s: Settings, sc: Schema)
    ensures var t := Transformed(s, sc).fields;
      var time, source, group := Missing(s.syncTime.Some?, sc, "_cq_sync_time"),
            Missing(s.sourceName.Some?, sc, "_cq_source_name"), Missing(s.syncGroupId.Some?, sc, "_cq_sync_group_id");
      var second := if time then 1 else 0;
      var third := second + if source then 1 else 0;
      && |t| - |sc.fields| == third + (if group then 1 else 0)
      && (time ==> t[0] == Field("_cq_sync_time", Timestamp(2, "UTC"), !s.cqColumnsNotNull, map[]))
      && (source ==> t[second] == Field("_cq_source_name", Utf8, !s.cqColumnsNotNull, map[]))
      && (group ==> t[third] == Field("_cq_sync_group_id", Utf8, false,
                                      if s.removePks then map[] else map["cq:extension:primary_key" := "true"]))
  {
    AddedAre(s, sc);
    var before := Added(s, sc) + sc.fields;
    forall i | 0 <= i < |Added(s, sc)| && Added(s, sc)[i].name != CQ_ID
      ensures Transformed(s, sc).fields[i] == Rewritten(s, Added(s, sc)[i])
      ensures Added(s, sc)[i].metadata == map[] ==> Rewritten(s, Added(s, sc)[i]) == Added(s, sc)[i]
    {
      assert before[i] == Added(s, sc)[i];
      RewrittenOther(s, Added(s, sc)[i]);
    }
    RewrittenOther(s, Field(SYNC_GROUP_ID, Utf8, false, map[PRIMARY_KEY := "true"]));
  }

  lemma RewrittenOther(s: Settings, f: Field)
    requires f.name != CQ_ID
    ensures f.metadata == map[] ==> Rewritten(s, f) == f
    ensures f.metadata == map[PRIMARY_KEY := "true"] ==>
              Rewritten(s, f) == f.(metadata := if s.removePks then map[] else map[PRIMARY_KEY := "true"])
  {
    var unique := if s.removeUnique then f.metadata - {UNIQUE} else f.metadata;
    assert UNIQUE !in f.metadata ==> unique == f.metadata;
    if f.metadata == map[PRIMARY_KEY := "true"] {
      assert f.metadata - {PRIMARY_KEY} == map[];
    } else if f.metadata == map[] {
      assert f.metadata - {PRIMARY_KEY} == map[];
    }
  }

  /** Nothing is added to a transformed schema. */
  lemma NothingMoreAdded(s: Settings, sc: Schema)
    ensures Added(s, Transformed(s, sc)) == []
  {
    TransformedNames(s, sc, SYNC_TIME);
    TransformedNames(s, sc, SOURCE_NAME);
    TransformedNames(s, sc, SYNC_GROUP_ID);
    var added := Added(s, sc);
    if s.syncTime.Some? && !HasField(sc.fields, SYNC_TIME) {
      assert added[0].name == SYNC_TIME;
    }
    if s.sourceName.Some? && !HasField(sc.fields, SOURCE_NAME) {
      assert added[if s.syncTime.Some? && !HasField(sc.fields, SYNC_TIME) then 1 else 0].name == SOURCE_NAME;
    }
    if s.syncGroupId.Some? && !HasField(sc.fields, SYNC_GROUP_ID) {
      assert added[|added| - 1].name == SYNC_GROUP_ID;
    }
  }

  /** TransformSchema is idempotent. */
  lemma TransformedIsStable(s: Settings, sc: Schema)
    ensures Transformed(s, Transformed(s, sc)) == Transformed(s, sc)
  {
    var once := Transformed(s, sc);
    NothingMoreAdded(s, sc);
    assert [] + once.fields == once.fields;
    forall i | 0 <= i < |once.fields| ensures Rewritten(s, once.fields[i]) == once.fields[i] {
      RewrittenIsStable(s, (Added(s, sc) + sc.fields)[i]);
    }
  }

  predicate IsKey(f: Field) {
    PRIMARY_KEY in f.metadata
  }

  /**
   With a sync time and a source name, every transformed schema has these columns, and the group's when there is one.
   */
  lemma InternalColumnsPresent(s: Settings, sc: Schema)
    ensures s.syncTime.Some? ==> HasField(Transformed(s, sc).fields, SYNC_TIME)
    ensures s.sourceName.Some? ==> HasField(Transformed(s, sc).fields, SOURCE_NAME)
    ensures s.syncGroupId.Some? ==> HasField(Transformed(s, sc).fields, SYNC_GROUP_ID)
  {
    NothingMoreAdded(s, sc);
  }

  /** An append destination gets no primary or unique key, not even on the sync group it adds. */
  lemma AppendHasNoKeys(cqIdOnly: bool, group: Option<string>, notNull: bool, source: string, time: int, sc: Schema,
                        f: Field)
    requires f in Transformed(Configured(SettingsFor(Append, cqIdOnly, group, notNull, source, time)), sc).fields
    ensures !IsKey(f) && UNIQUE !in f.metadata
  {
    ConfiguredFor(Append, cqIdOnly, group, notNull, source, time);
  }

  /** With _cq_id keys only, the key is _cq_id and nothing else. */
  lemma CqIdIsTheOnlyKey(mode: WriteMode, group: Option<string>, notNull: bool, source: string, time: int, sc: Schema,
                         f: Field)
    requires mode != Append
    requires f in Transformed(Configured(SettingsFor(mode, true, group, notNull, source, time)), sc).fields
    ensures IsKey(f) <==> f.name == CQ_ID
  {
    ConfiguredFor(mode, true, group, notNull, source, time);
  }

  /** Otherwise the source's fields stay as they are, keys included, and an added sync group is a key. */
  lemma DefaultKeepsFields(mode: WriteMode, group: Option<string>, notNull: bool, source: string, time: int, sc: Schema)
    requires mode != Append
    ensures var s := Configured(SettingsFor(mode, false, group, notNull, source, time));
      && Transformed(s, sc).fields == Added(s, sc) + sc.fields
      && forall f :: f in Added(s, sc) ==> (IsKey(f) <==> f.name == SYNC_GROUP_ID)
  {
    ConfiguredFor(mode, false, group, notNull, source, time);
    var s := Configured(SettingsFor(mode, false, group, notNull, source, time));
    assert forall f :: Rewritten(s, f) == f;
  }

  // ---------------------------------------------------------------- records

  /** TimestampArrayFromTime, for a time, unit and zone, and ReplaceFieldInRecord; None is an error. */
  datatype Library = Library(
    stamp: (int, nat, string) -> Option<Cell>, replace: (seq<Column>, string, Column) -> Option<seq<Column>>)

  /** The sync time can be written in microseconds UTC; the code ignores the error. */
  predicate Stamps(s: Settings, lib: Library) {
    s.syncTime.Some? ==> lib.stamp(s.syncTime.value, MICROSECOND, "UTC").Some?
  }

  function Repeat(cell: Cell, rows: nat): seq<Cell> {
    seq(rows, _ => cell)
  }

  /** A field is only ever replaced by a column of its own type and length. */
  ghost predicate KeepsShape(lib: Library) {
    forall cs, name, c :: lib.replace(cs, name, c).Some? ==> SameShape(cs, lib.replace(cs, name, c).value)
  }

  ghost predicate SameShape(a: seq<Column>, b: seq<Column>) {
    |a| == |b| && forall i :: 0 <= i < |a| ==> a[i].ty == b[i].ty && |a[i].cells| == |b[i].cells|
  }

  /** One column per field, of its type, with one cell per row. */
  ghost predicate Aligned(r: Record) {
    && |r.columns| == |r.schema.fields|
    && forall i :: 0 <= i < |r.columns| ==> r.columns[i].ty == r.schema.fields[i].ty && |r.columns[i].cells| == r.rows
  }

  function FirstNamed(fields: seq<Field>, name: string): (i: nat)
    requires HasField(fields, name)
    ensures i < |fields| && fields[i].name == name
  {
    if fields[0].name == name then 0
    else
      assert HasField(fields[1..], name) by {
        var i :| 0 <= i < |fields| && fields[i].name == name;
        assert fields[1..][i - 1].name == name;
      }
      1 + FirstNamed(fields[1..], name)
  }

  function Replace(lib: Library, cs: seq<Column>, name: string, c: Column): seq<Column> {
    var r := lib.replace(cs, name, c);
    if r.Some? then r.value else cs
  }

  /** replaceTimestampField: only a timestamp is replaced, in its own unit and zone. */
  function ReplaceTime(lib: Library, time: int, sc: Schema, cs: seq<Column>, rows: nat): seq<Column>
    requires HasField(sc.fields, SYNC_TIME)
  {
    match sc.fields[FirstNamed(sc.fields, SYNC_TIME)].ty
    case Timestamp(unit, zone) =>
      var cell := lib.stamp(time, unit, zone);
      if cell.None? then cs else Replace(lib, cs, SYNC_TIME, Column(Timestamp(unit, zone), Repeat(cell.value, rows)))
    case _ => cs
  }

  /** The columns for the added fields, in their order. */
  function AddedColumns(s: Settings, lib: Library, sc: Schema, rows: nat): seq<Column>
    requires Stamps(s, lib)
  {
    (if s.syncTime.Some? && !HasField(sc.fields, SYNC_TIME)
     then [Column(Timestamp(MICROSECOND, "UTC"),
         Repeat(lib.stamp(s.syncTime.value, MICROSECOND, "UTC").value, rows))] else []) +
    (if s.sourceName.Some? && !HasField(sc.fields, SOURCE_NAME)
     then [Column(Utf8, Repeat(Text(s.sourceName.value), rows))] else []) +
    (if s.syncGroupId.Some? && !HasField(sc.fields, SYNC_GROUP_ID)
     then [Column(Utf8, Repeat(Text(s.syncGroupId.value), rows))] else [])
  }

  /** The record's own columns: in the cloud, the internal ones it already has are overwritten. */
  function KeptColumns(s: Settings, lib: Library, cloud: bool, r: Record): seq<Column> {
    var fields := r.schema.fields;
    var timed := if s.syncTime.Some? && cloud && HasField(fields, SYNC_TIME)
      then ReplaceTime(lib, s.syncTime.value, r.schema, r.columns, r.rows) else r.columns;
    var named := if s.sourceName.Some? && cloud && HasField(fields, SOURCE_NAME)
                 then Replace(lib, timed, SOURCE_NAME, Column(Utf8, Repeat(Text(s.sourceName.value), r.rows)))
                   else timed;
    if s.syncGroupId.Some? && cloud && HasField(fields, SYNC_GROUP_ID)
    then Replace(lib, named, SYNC_GROUP_ID, Column(Utf8, Repeat(Text(s.syncGroupId.value), r.rows))) else named
  }

  function TransformedRecord(s: Settings, lib: Library, cloud: bool, r: Record): Record
    requires Stamps(s, lib)
  {
    Record(Transformed(s, r.schema), AddedColumns(s, lib, r.schema, r.rows) + KeptColumns(s, lib, cloud, r), r.rows)
  }

  lemma KeptKeepShape(s: Settings, lib: Library, cloud: bool, r: Record)
    requires KeepsShape(lib)
    ensures SameShape(r.columns, KeptColumns(s, lib, cloud, r))
  {
    var fields := r.schema.fields;
    var timed := if s.syncTime.Some? && cloud && HasField(fields, SYNC_TIME)
      then ReplaceTime(lib, s.syncTime.value, r.schema, r.columns, r.rows) else r.columns;
    assert SameShape(r.columns, timed);
    var named := if s.sourceName.Some? && cloud && HasField(fields, SOURCE_NAME)
                 then Replace(lib, timed, SOURCE_NAME, Column(Utf8, Repeat(Text(s.sourceName.value), r.rows)))
                   else timed;
    assert SameShape(timed, named);
  }

  /** The transformed columns match the transformed schema one by one, whatever the settings and the record. */
  lemma TransformIsAligned(s: Settings, lib: Library, cloud: bool, r: Record)
    requires Stamps(s, lib) && KeepsShape(lib) && Aligned(r)
    ensures Aligned(TransformedRecord(s, lib, cloud, r))
  {
    KeptKeepShape(s, lib, cloud, r);
    AddedAlign(s, lib, r);
    var t := TransformedRecord(s, lib, cloud, r);
    var n, before := |Added(s, r.schema)|, Added(s, r.schema) + r.schema.fields;
    forall i | 0 <= i < |t.columns|
      ensures t.columns[i].ty == t.schema.fields[i].ty && |t.columns[i].cells| == r.rows
    {
      assert t.schema.fields[i].ty == before[i].ty;
      if i >= n {
        assert r.columns[i - n].ty == r.schema.fields[i - n].ty;
      }
    }
  }

  lemma AddedAlign(s: Settings, lib: Library, r: Record)
    requires Stamps(s, lib)
    ensures |AddedColumns(s, lib, r.schema, r.rows)| == |Added(s, r.schema)|
    ensures forall i :: 0 <= i < |Added(s, r.schema)| ==>
              var c := AddedColumns(s, lib, r.schema, r.rows)[i];
              c.ty == Added(s, r.schema)[i].ty && |c.cells| == r.rows
  {
  }

  /** This run's value for an internal column. */
  function OwnCell(s: Settings, lib: Library, name: string): Option<Cell> {
    if name == SYNC_TIME then (if s.syncTime.Some? then lib.stamp(s.syncTime.value, MICROSECOND, "UTC") else None)
    else if name == SOURCE_NAME then (if s.sourceName.Some? then Some(Text(s.sourceName.value)) else None)
    else if s.syncGroupId.Some? then Some(Text(s.syncGroupId.value)) else None
  }

  /**
   An added column holds this run's value in every row; outside the cloud the record's own columns follow unchanged.
   */
  lemma AddedColumnsAreOwn(s: Settings, lib: Library, cloud: bool, r: Record, i: nat)
    requires Stamps(s, lib) && i < |Added(s, r.schema)|
    ensures var t := TransformedRecord(s, lib, cloud, r);
      && i < |t.columns| && OwnCell(s, lib, t.schema.fields[i].name).Some?
      && t.columns[i].cells == Repeat(OwnCell(s, lib, t.schema.fields[i].name).value, r.rows)
      && (t.schema.fields[i].name == "_cq_source_name" ==>
            s.sourceName.Some? && forall k :: 0 <= k < r.rows ==> t.columns[i].cells[k] == Text(s.sourceName.value))
      && (t.schema.fields[i].name == "_cq_sync_group_id" ==>
            s.syncGroupId.Some? && forall k :: 0 <= k < r.rows ==> t.columns[i].cells[k] == Text(s.syncGroupId.value))
      && |t.columns[i].cells| == r.rows == t.rows
      && (!cloud ==> t.columns[|Added(s, r.schema)|..] == r.columns)
  {
    var t := TransformedRecord(s, lib, cloud, r);
    assert t.schema.fields[i].name == Added(s, r.schema)[i].name;
  }

  /**
   A replacement is refused when a column of the name has another type, and otherwise changes the columns of the name.
   */
  ghost predicate ReplacesByName(lib: Library, fields: seq<Field>) {
    forall cs, name, c :: |cs| == |fields| ==>
      lib.replace(cs, name, c) == if Fits(fields, name, c.ty) then Some(ByName(fields, cs, name, c)) else None
  }

  predicate Fits(fields: seq<Field>, name: string, ty: Type) {
    forall i :: 0 <= i < |fields| && fields[i].name == name ==> fields[i].ty == ty
  }

  function ByName(fields: seq<Field>, cs: seq<Column>, name: string, c: Column): seq<Column>
    requires |cs| == |fields|
  {
    seq(|cs|, i requires 0 <= i < |cs| => if fields[i].name == name then c else cs[i])
  }

  /**
   The cell this run writes over an internal column that is there already: text over text only, a time in its own unit.
   */
  function OwnOver(s: Settings, lib: Library, fields: seq<Field>, f: Field): Option<Cell> {
    if f.name == SYNC_TIME && s.syncTime.Some? && HasField(fields, SYNC_TIME) then
      match fields[FirstNamed(fields, SYNC_TIME)].ty
      case Timestamp(unit, zone) => if Fits(fields, SYNC_TIME, Timestamp(unit, zone))
        then lib.stamp(s.syncTime.value, unit, zone) else None
      case _ => None
    else if f.name == SOURCE_NAME && s.sourceName.Some? && Fits(fields, SOURCE_NAME, Utf8)
      then Some(Text(s.sourceName.value))
    else if f.name == SYNC_GROUP_ID && s.syncGroupId.Some? && Fits(fields, SYNC_GROUP_ID, Utf8)
      then Some(Text(s.syncGroupId.value))
    else None
  }

  /**
   In the cloud, an internal column the record has already is overwritten with this run's value, and no other column
   is.
   */
  lemma CloudOverwritesInternal(s: Settings, lib: Library, r: Record, i: nat)
    requires ReplacesByName(lib, r.schema.fields) && |r.columns| == |r.schema.fields| && i < |r.columns|
    ensures |KeptColumns(s, lib, true, r)| == |r.columns|
    ensures var own := OwnOver(s, lib, r.schema.fields, r.schema.fields[i]);
      var kept := KeptColumns(s, lib, true, r)[i];
      if own.None? then kept == r.columns[i] else kept.cells == Repeat(own.value, r.rows)
  {
    var fields := r.schema.fields;
    assert HasField(fields, fields[i].name);
    var timed := if s.syncTime.Some? && HasField(fields, SYNC_TIME)
      then ReplaceTime(lib, s.syncTime.value, r.schema, r.columns, r.rows) else r.columns;
    assert |timed| == |r.columns| && (fields[i].name != SYNC_TIME ==> timed[i] == r.columns[i]);
    var named := if s.sourceName.Some? && HasField(fields, SOURCE_NAME)
                 then Replace(lib, timed, SOURCE_NAME, Column(Utf8, Repeat(Text(s.sourceName.value), r.rows)))
                   else timed;
    assert |named| == |timed| && (fields[i].name != SOURCE_NAME ==> named[i] == timed[i]);
  }

  /** Outside the cloud, transforming a transformed record changes nothing. */
  lemma TransformIsStable(s: Settings, lib: Library, r: Record)
    requires Stamps(s, lib)
    ensures var once := TransformedRecord(s, lib, false, r); TransformedRecord(s, lib, false, once) == once
  {
    var once := TransformedRecord(s, lib, false, r);
    TransformedIsStable(s, r.schema);
    NothingMoreAdded(s, r.schema);
    InternalColumnsPresent(s, r.schema);
    assert AddedColumns(s, lib, once.schema, r.rows) == [];
    assert [] + once.columns == once.columns;
  }

  // ---------------------------------------------------------------- the transformer

  class Transformer {
    var sourceName: string
    var withSourceName: bool
    var syncTime: int
    var withSyncTime: bool
    var internalColumns: nat
    var removePks: bool
    var removeUniqueConstraints: bool
    var cqIdPrimaryKey: bool
    var withSyncGroupId: bool
    var syncGroupId: string
    var cqColumnsNotNull: bool

    function Current(): Settings
      reads this
    {
      Settings(if withSourceName then Some(sourceName) else None, if withSyncTime then Some(syncTime) else None,
               if withSyncGroupId then Some(syncGroupId) else None,
               removePks, removeUniqueConstraints, cqIdPrimaryKey, cqColumnsNotNull)
    }

    constructor (opts: seq<Setting>)
      ensures Current() == Configured(opts)
    {
      sourceName, syncTime, syncGroupId := "", 0, "";
      withSourceName, withSyncTime, withSyncGroupId := false, false, false;
      removePks, removeUniqueConstraints, cqIdPrimaryKey, cqColumnsNotNull := false, false, false, false;
      internalColumns := 0;
      new;
      for i := 0 to |opts|
        invariant Current() == Configured(opts[..i])
      {
        assert opts[..i + 1][..i] == opts[..i];
        Apply(opts[i]);
      }
      assert opts[..|opts|] == opts;
    }

    method Apply(o: Setting)
      modifies this
      ensures Current() == Set(old(Current()), o)
    {
      match o {
        case WithSourceName(name) =>
          sourceName, withSourceName, internalColumns := name, true, internalColumns + 1;
        case WithSyncTime(time) =>
          syncTime, withSyncTime, internalColumns := time, true, internalColumns + 1;
        case WithSyncGroupId(id) =>
          withSyncGroupId, syncGroupId, internalColumns := true, id, internalColumns + 1;
        case WithRemovePks => removePks := true;
        case WithRemoveUniqueConstraints => removeUniqueConstraints := true;
        case WithCqIdPrimaryKey => cqIdPrimaryKey := true;
        case WithCqColumnsNotNull => cqColumnsNotNull := true;
      }
    }

    /** The internal columns the schema lacks. */
    method MissingFields(sc: Schema) returns (fields: seq<Field>)
      ensures fields == Added(Current(), sc)
    {
      fields := [];
      if withSyncTime && !HasField(sc.fields, SYNC_TIME) {
        fields := fields + [Field(SYNC_TIME, Timestamp(MICROSECOND, "UTC"), !cqColumnsNotNull, map[])];
      }
      if withSourceName && !HasField(sc.fields, SOURCE_NAME) {
        fields := fields + [Field(SOURCE_NAME, Utf8, !cqColumnsNotNull, map[])];
      }
      if withSyncGroupId && !HasField(sc.fields, SYNC_GROUP_ID) {
        fields := fields + [Field(SYNC_GROUP_ID, Utf8, false, map[PRIMARY_KEY := "true"])];
      }
    }

    method TransformSchema(sc: Schema) returns (r: Schema)
      ensures r == Transformed(Current(), sc)
    {
      var fields := MissingFields(sc);
      fields := fields + sc.fields;
      var transformed := RewriteFields(fields);
      r := Schema(transformed, sc.metadata);
    }

    method RewriteFields(fields: seq<Field>) returns (r: seq<Field>)
      ensures r == MapSeq(f => Rewritten(old(Current()), f), fields)
    {
      ghost var s := Current();
      var transformed := new Field[|fields|](i requires 0 <= i < |fields| => fields[i]);
      for i := 0 to |fields|
        invariant forall j :: 0 <= j < i ==> transformed[j] == Rewritten(s, fields[j])
      {
        transformed[i] := RewriteField(fields[i]);
      }
      r := transformed[..];
    }

    /** The body of its loop: the metadata map is edited key by key. */
    method RewriteField(field: Field) returns (r: Field)
      ensures r == Rewritten(Current(), field)
    {
      var mdMap := field.metadata;
      if UNIQUE in mdMap && removeUniqueConstraints {
        mdMap := mdMap - {UNIQUE};
      }
      if PRIMARY_KEY in mdMap && removePks {
        mdMap := mdMap - {PRIMARY_KEY};
      }
      if field.name == CQ_ID && cqIdPrimaryKey {
        mdMap := mdMap[PRIMARY_KEY := "true"];
      }
      r := field.(metadata := mdMap);
      assert r.metadata == Rewritten(Current(), field).metadata;
    }

    method Transform(lib: Library, cloud: bool, record: Record) returns (r: Record)
      requires Stamps(Current(), lib)
      ensures r == TransformedRecord(Current(), lib, cloud, record)
    {
      var sc, nRows := record.schema, record.rows;
      var newSchema := TransformSchema(sc);
      var cols: seq<Column> := [];
      var columns := record.columns;
      if withSyncTime && (!HasField(sc.fields, SYNC_TIME) || cloud) {
        if !HasField(sc.fields, SYNC_TIME) {
          cols := cols + [Column(Timestamp(MICROSECOND, "UTC"),
              Repeat(lib.stamp(syncTime, MICROSECOND, "UTC").value, nRows))];
        } else {
          columns := ReplaceTime(lib, syncTime, sc, columns, nRows);
        }
      }
      if withSourceName && (!HasField(sc.fields, SOURCE_NAME) || cloud) {
        var sourceNameArray := Column(Utf8, Repeat(Text(sourceName), nRows));
        if !HasField(sc.fields, SOURCE_NAME) {
          cols := cols + [sourceNameArray];
        } else {
          columns := Replace(lib, columns, SOURCE_NAME, sourceNameArray);
        }
      }
      if withSyncGroupId && (!HasField(sc.fields, SYNC_GROUP_ID) || cloud) {
        var syncGroupIdArray := Column(Utf8, Repeat(Text(syncGroupId), nRows));
        if !HasField(sc.fields, SYNC_GROUP_ID) {
          cols := cols + [syncGroupIdArray];
        } else {
          columns := Replace(lib, columns, SYNC_GROUP_ID, syncGroupIdArray);
        }
      }
      assert cols == AddedColumns(Current(), lib, sc, nRows);
      assert columns == KeptColumns(Current(), lib, cloud, record);
      r := Record(newSchema, cols + columns, nRows);
    }
  }
}
