/** The DuckDB destination: types written as SQL text, read back from it, and normalised through both. */
module DuckDbTypes {
  import opened Basics

  datatype TimeUnit = Second | Millisecond | Microsecond | Nanosecond

  datatype Leaf =
    | Boolean | Int8 | Int16 | Int32 | Int64 | Uint8 | Uint16 | Uint32 | Uint64 | Float32 | Float64
    | Binary | LargeBinary | Date32 | Date64 | Timestamp(unit: TimeUnit, zone: string) | Uuid | Json | String | Unlisted

  const TIMESTAMP_US := Timestamp(Microsecond, "UTC")

  datatype ListKind = List | LargeList | FixedSizeList | ListView | LargeListView

  datatype Field = Field(name: string, ty: Type)

  datatype Type =
    | Prim(leaf: Leaf) | ListLike(kind: ListKind, elem: Type)
    | Struct(fields: seq<Field>) | MapOf(key: Type, item: Type)

  /** The panics of the parser. */
  datatype ParseError = UnsupportedStruct(spec: string) | UnsupportedField(spec: string) | UnsupportedMap(spec: string)

  // ---------------------------------------------------------------- strings

  /** unicode.IsSpace. */
  predicate IsSpace(c: char) {
    || c in "\t\n\r " || c as int in {0x0b, 0x0c, 0x85, 0xa0, 0x1680, 0x2028, 0x2029, 0x202f, 0x205f, 0x3000}
    || 0x2000 <= c as int <= 0x200a
  }

  predicate HasPrefix(s: string, prefix: string) {
    prefix <= s
  }

  predicate HasSuffix(s: string, suffix: string) {
    |suffix| <= |s| && s[|s| - |suffix|..] == suffix
  }

  function TrimPrefix(s: string, prefix: string): (r: string)
    ensures |r| <= |s|
  {
    if HasPrefix(s, prefix) then s[|prefix|..] else s
  }

  function TrimSuffix(s: string, suffix: string): (r: string)
    ensures |r| <= |s|
  {
    if HasSuffix(s, suffix) then s[..|s| - |suffix|] else s
  }

  /** A prefix or suffix is cut off when it is there, and otherwise nothing is. */
  lemma CutsAre(s: string, cut: string)
    ensures if |cut| <= |s| && s[..|cut|] == cut then cut + TrimPrefix(s, cut) == s else TrimPrefix(s, cut) == s
    ensures if |cut| <= |s| && s[|s| - |cut|..] == cut then TrimSuffix(s, cut) + cut == s else TrimSuffix(s, cut) == s
  {
    assert cut <= s <==> |cut| <= |s| && s[..|cut|] == cut;
    if HasSuffix(s, cut) {
      assert s == s[..|s| - |cut|] + s[|s| - |cut|..];
    }
  }

  function TrimLeft(s: string, cut: char -> bool): (r: string)
    ensures |r| <= |s|
  {
    if s != [] && cut(s[0]) then TrimLeft(s[1..], cut) else s
  }

  function TrimRight(s: string, cut: char -> bool): (r: string)
    ensures |r| <= |s|
  {
    if s != [] && cut(s[|s| - 1]) then TrimRight(s[..|s| - 1], cut) else s
  }

  function TrimSpace(s: string): (r: string)
    ensures |r| <= |s|
  {
    TrimRight(TrimLeft(s, IsSpace), IsSpace)
  }

  predicate IsQuote(c: char) {
    c == '"'
  }

  function TrimQuotes(s: string): string {
    TrimRight(TrimLeft(s, IsQuote), IsQuote)
  }

  /** strings.SplitN(s, " ", 2), when it gives two parts. */
  function CutAtSpace(s: string): (r: Option<(string, string)>)
    ensures r.Some? ==> |r.value.0| + 1 + |r.value.1| == |s|
  {
    if s == [] then None
    else if s[0] == ' ' then Some(("", s[1..]))
    else
      match CutAtSpace(s[1..])
      case None => None
      case Some((before, after)) => Some(([s[0]] + before, after))
  }

  /** Nothing to trim at either end. */
  predicate Trimmed(s: string) {
    s != [] && !IsSpace(s[0]) && !IsSpace(s[|s| - 1])
  }

  /** The code points of the White_Space property, as unicode.IsSpace has them. */
  lemma SpacesAre(c: char)
    ensures IsSpace(c) <==>
            || 9 <= c as int <= 13 || c as int == 32 || c as int == 133 || c as int == 160 || c as int == 5760
            || 8192 <= c as int <= 8202 || c as int in {8232, 8233, 8239, 8287, 12288}
  {
  }

  /** Trimming takes away exactly the longest stretches of such characters at both ends. */
  lemma {:induction false} TrimLeftIs(s: string, cut: char -> bool) returns (k: nat)
    ensures k <= |s| && TrimLeft(s, cut) == s[k..]
    ensures (forall i :: 0 <= i < k ==> cut(s[i])) && (k < |s| ==> !cut(s[k]))
  {
    k := 0;
    if s != [] && cut(s[0]) {
      k := TrimLeftIs(s[1..], cut);
      assert s[1..][k..] == s[k + 1..] && forall i :: 0 < i <= k ==> s[i] == s[1..][i - 1];
      k := k + 1;
    }
  }

  lemma {:induction false} TrimRightIs(s: string, cut: char -> bool) returns (k: nat)
    ensures k <= |s| && TrimRight(s, cut) == s[..k]
    ensures (forall i :: k <= i < |s| ==> cut(s[i])) && (k > 0 ==> !cut(s[k - 1]))
  {
    k := |s|;
    if s != [] && cut(s[|s| - 1]) {
      k := TrimRightIs(s[..|s| - 1], cut);
      assert s[..|s| - 1][..k] == s[..k];
    } else {
      assert s[..k] == s;
    }
  }

  lemma TrimmedStays(s: string)
    requires Trimmed(s)
    ensures TrimSpace(s) == s && TrimSpace(" " + s) == s
  {
    assert (" " + s)[1..] == s;
  }

  // ---------------------------------------------------------------- parsing

  function Turn(c: char): int {
    if c == '(' then 1 else if c == ')' then -1 else 0
  }

  /** The parts of s, when `elem` has been collected and `brackets` are open. */
  function Pieces(s: string, brackets: int, elem: string): (parts: seq<string>)
    ensures |parts| >= 1
    ensures forall i :: 0 <= i < |parts| ==> |parts[i]| <= |elem| + |s|
    decreases s
  {
    if s == [] then [TrimSpace(elem)]
    else if s[0] == ',' && brackets == 0 then [TrimSpace(elem)] + Pieces(s[1..], 0, [])
    else Pieces(s[1..], brackets + Turn(s[0]), elem + [s[0]])
  }

  function SplitParams(params: string): (parts: seq<string>)
    ensures |parts| >= 1
    ensures forall i :: 0 <= i < |parts| ==> |parts[i]| <= |params|
  {
    Pieces(TrimSpace(params), 0, [])
  }

  /** What stands between the brackets of a struct or map text. */
  function Params(spec: string, keyword: string): (params: string)
    ensures HasPrefix(spec, keyword) ==> |params| <= |spec| - |keyword|
  {
    TrimSuffix(TrimPrefix(TrimSpace(TrimPrefix(spec, keyword)), "("), ")")
  }

  /** The switch on the plain names; a name that is not listed is a string. */
  function LeafNamed(t: string): Leaf {
    if t in ["tinyint", "int1"] then Int8
    else if t in ["smallint", "int2", "short"] then Int16
    else if t in ["integer", "int4", "signed", "int"] then Int32
    else if t in ["bigint", "int8", "long"] then Int64
    else if t == "utinyint" then Uint8
    else if t == "usmallint" then Uint16
    else if t in ["uinteger", "uint4"] then Uint32
    else if t == "ubigint" then Uint64
    else if t in ["boolean", "bool", "logical"] then Boolean
    else if t in ["double", "float8", "numeric", "decimal"] then Float64
    else if t in ["float", "float4", "real"] then Float32
    else if t in ["blob", "bytea", "binary", "varbinary"] then Binary
    else if t in ["timestamp", "datetime", "timestamp with time zone", "timestamptz"] then TIMESTAMP_US
    else if t == "json" then Json
    else if t == "uuid" then Uuid
    else String
  }

  function ToArrow(t: string): Result<Type, ParseError>
    decreases |t|, 1
  {
    if HasSuffix(t, "[]") then ListOf(ToArrow(TrimSuffix(t, "[]")))
    else if HasPrefix(t, "struct") then StructToArrow(t)
    else if HasPrefix(t, "map") then MapToArrow(t)
    else Ok(Prim(LeafNamed(t)))
  }

  function StructToArrow(spec: string): Result<Type, ParseError>
    requires HasPrefix(spec, "struct")
    decreases |spec|, 0
  {
    match ToFields(SplitParams(Params(spec, "struct")), |spec| - 1)
    case Err(e) => Err(e)
    case Ok(fields) => Ok(Struct(fields))
  }

  function MapToArrow(spec: string): Result<Type, ParseError>
    requires HasPrefix(spec, "map")
    decreases |spec|, 0
  {
    var kv := SplitParams(Params(spec, "map"));
    if |kv| != 2 then Err(UnsupportedMap(spec)) else MapFrom(ToArrow(kv[0]), ToArrow(kv[1]))
  }

  function ListOf(elem: Result<Type, ParseError>): Result<Type, ParseError> {
    if elem.Ok? then Ok(ListLike(List, elem.value)) else elem
  }

  /** The key is parsed first, so its panic comes first. */
  function MapFrom(key: Result<Type, ParseError>, item: Result<Type, ParseError>): Result<Type, ParseError> {
    if key.Err? then key else if item.Err? then item else Ok(MapOf(key.value, item.value))
  }

  /** The fields of a struct, up to the first that cannot be read. */
  function ToFields(specs: seq<string>, bound: nat): Result<seq<Field>, ParseError>
    requires forall i :: 0 <= i < |specs| ==> |specs[i]| <= bound
    decreases bound, |specs| + 1
  {
    if specs == [] then Ok([])
    else
      match ToField(specs[0])
      case Err(e) => Err(e)
      case Ok(field) =>
        Before([field], ToFields(specs[1..], bound))
  }

  function Before(fields: seq<Field>, more: Result<seq<Field>, ParseError>): Result<seq<Field>, ParseError> {
    if more.Ok? then Ok(fields + more.value) else more
  }

  function ToField(spec: string): Result<Field, ParseError>
    decreases |spec|, 1
  {
    match CutAtSpace(spec)
    case None => Err(UnsupportedField(spec))
    case Some((name, ty)) =>
      match ToArrow(TrimSpace(ty))
      case Err(e) => Err(e)
      case Ok(t) => Ok(Field(TrimQuotes(name), t))
  }

  lemma PrimIsNamed(t: string)
    requires ToArrow(t).Ok? && ToArrow(t).value.Prim?
    ensures ToArrow(t).value.leaf == LeafNamed(t)
  {
    if HasSuffix(t, "[]") {
      assert t == t[..|t| - 2] + "[]";
      ListText(t[..|t| - 2]);
    } else if HasPrefix(t, "struct") {
      StructIsRead(t);
      StructIsNoLeaf(t);
    } else if HasPrefix(t, "map") {
      MapIsReadAsOne(t);
      MapIsNoLeaf(t);
    } else {
      LeafIsRead(t);
    }
  }

  lemma StructIsNoLeaf(spec: string)
    requires HasPrefix(spec, "struct")
    ensures StructToArrow(spec).Ok? ==> StructToArrow(spec).value.Struct?
  {
  }

  lemma MapIsNoLeaf(spec: string)
    requires HasPrefix(spec, "map")
    ensures MapToArrow(spec).Ok? ==> MapToArrow(spec).value.MapOf?
  {
  }

  /** The names of every leaf; anything that is no list, struct or map and none of these names is a string. */
  lemma NamesOfLeaves(t: string)
    ensures match LeafNamed(t)
            case Int8 => t in {"tinyint", "int1"}
            case Int16 => t in {"smallint", "int2", "short"}
            case Int32 => t in {"integer", "int4", "int", "signed"}
            case Int64 => t in {"bigint", "int8", "long"}
            case Uint8 => t == "utinyint"
            case Uint16 => t == "usmallint"
            case Uint32 => t in {"uinteger", "uint4"}
            case Uint64 => t == "ubigint"
            case Boolean => t in {"boolean", "bool", "logical"}
            case Float32 => t in {"float", "float4", "real"}
            case Float64 => t in {"double", "float8", "numeric", "decimal"}
            case Binary => t in {"blob", "bytea", "binary", "varbinary"}
            case Timestamp(unit, zone) =>
              unit == Microsecond && zone == "UTC" &&
              t in {"timestamp", "datetime", "timestamptz", "timestamp with time zone"}
            case Json => t == "json"
            case Uuid => t == "uuid"
            case String => t !in {"tinyint", "int1", "smallint", "int2", "short", "integer", "int4", "int", "signed",
              "bigint", "int8", "long", "utinyint", "usmallint", "uinteger", "uint4", "ubigint", "boolean", "bool",
              "logical", "float", "float4", "real", "double", "float8", "numeric", "decimal", "blob", "bytea",
              "binary", "varbinary", "timestamp", "datetime", "timestamptz", "timestamp with time zone", "json", "uuid"}
            case _ => false
  {
  }

  lemma ListText(text: string)
    ensures ToArrow(text + "[]") == ListOf(ToArrow(text))
  {
    assert (text + "[]")[..|text|] == text && (text + "[]")[|text|..] == "[]";
  }

  lemma StructIsRead(t: string)
    requires !HasSuffix(t, "[]") && HasPrefix(t, "struct")
    ensures ToArrow(t) == StructToArrow(t)
  {
  }

  lemma MapIsReadAsOne(t: string)
    requires !HasSuffix(t, "[]") && !HasPrefix(t, "struct") && HasPrefix(t, "map")
    ensures ToArrow(t) == MapToArrow(t)
  {
  }

  lemma LeafIsRead(t: string)
    requires !HasSuffix(t, "[]") && !HasPrefix(t, "struct") && !HasPrefix(t, "map")
    ensures ToArrow(t) == Ok(Prim(LeafNamed(t)))
  {
  }

  /** The panic of a struct is that of its first field that cannot be read: one without a space, or its type's. */
  lemma {:induction false} FirstPanic(specs: seq<string>, bound: nat, i: nat)
    requires i < |specs| && forall j :: 0 <= j < |specs| ==> |specs[j]| <= bound
    requires (forall j :: 0 <= j < i ==> ToField(specs[j]).Ok?) && ToField(specs[i]).Err?
    ensures ToFields(specs, bound) == Err(ToField(specs[i]).error)
    ensures ' ' !in specs[i] ==> ToFields(specs, bound) == Err(UnsupportedField(specs[i]))
    decreases specs
  {
    if i > 0 {
      assert forall j :: 0 <= j < i - 1 ==> specs[1..][j] == specs[j + 1];
      FirstPanic(specs[1..], bound, i - 1);
    }
    NoSpaceNoCut(specs[i]);
  }

  lemma {:induction false} NoSpaceNoCut(s: string)
    ensures CutAtSpace(s).None? <==> ' ' !in s
  {
    if s != [] {
      NoSpaceNoCut(s[1..]);
      assert s == [s[0]] + s[1..];
    }
  }

  /** A struct is read exactly when all its fields are, one by one: the name up to the first space, without quotes. */
  lemma {:induction false} FieldsAreRead(specs: seq<string>, bound: nat, i: nat)
    requires (forall j :: 0 <= j < |specs| ==> |specs[j]| <= bound) && ToFields(specs, bound).Ok? && i < |specs|
    ensures |ToFields(specs, bound).value| == |specs|
    ensures ToField(specs[i]) == Ok(ToFields(specs, bound).value[i])
    ensures var cut := CutAtSpace(specs[i]);
      cut.Some? && ToFields(specs, bound).value[i].name == TrimQuotes(cut.value.0) &&
      ToArrow(TrimSpace(cut.value.1)) == Ok(ToFields(specs, bound).value[i].ty)
    decreases specs
  {
    if i > 0 {
      FieldsAreRead(specs[1..], bound, i - 1);
    } else if |specs| > 1 {
      FieldsAreRead(specs[1..], bound, 0);
    }
  }

  /** One step of the loop over the fields. */
  lemma FieldStep(fields: seq<Field>, specs: seq<string>, i: nat, bound: nat)
    requires i < |specs| && forall j :: 0 <= j < |specs| ==> |specs[j]| <= bound
    ensures Before(fields, ToFields(specs[i..], bound)) ==
            match ToField(specs[i])
            case Err(e) => Err(e)
            case Ok(field) => Before(fields + [field], ToFields(specs[i + 1..], bound))
  {
    assert specs[i..][0] == specs[i] && specs[i..][1..] == specs[i + 1..];
    var field, more := ToField(specs[i]), ToFields(specs[i + 1..], bound);
    if field.Ok? && more.Ok? {
      assert fields + ([field.value] + more.value) == fields + [field.value] + more.value;
    }
  }

  lemma BeforeNothing(specs: seq<string>, bound: nat)
    requires forall j :: 0 <= j < |specs| ==> |specs[j]| <= bound
    ensures Before([], ToFields(specs[0..], bound)) == ToFields(specs, bound)
  {
    assert specs[0..] == specs;
    var more := ToFields(specs, bound);
    assert more.Ok? ==> [] + more.value == more.value;
  }

  // ---------------------------------------------------------------- the parser's loops

  method SplitParamsLoop(spec: string) returns (parts: seq<string>)
    ensures parts == SplitParams(spec)
  {
    var params := TrimSpace(spec);
    var brackets: int := 0;
    parts := [];
    var elem: string := [];
    for i := 0 to |params|
      invariant parts + Pieces(params[i..], brackets, elem) == Pieces(params, 0, [])
    {
      ghost var before := parts + Pieces(params[i..], brackets, elem);
      assert params[i..][0] == params[i] && params[i..][1..] == params[i + 1..];
      var r := params[i];
      if r == ',' && brackets == 0 {
        parts, elem := parts + [TrimSpace(elem)], [];
      } else {
        brackets, elem := brackets + Turn(r), elem + [r];
      }
      assert parts + Pieces(params[i + 1..], brackets, elem) == before;
    }
    parts := parts + [TrimSpace(elem)];
  }

  method DuckDbToArrow(t: string) returns (r: Result<Type, ParseError>)
    ensures r == ToArrow(t)
    decreases |t|, 1
  {
    if HasSuffix(t, "[]") {
      var elem := DuckDbToArrow(TrimSuffix(t, "[]"));
      return ListOf(elem);
    }
    if HasPrefix(t, "struct") {
      r := DuckDbStructToArrow(t);
    } else if HasPrefix(t, "map") {
      r := DuckDbMapToArrow(t);
    } else {
      r := Ok(Prim(LeafNamed(t)));
    }
  }

  method DuckDbMapToArrow(spec: string) returns (r: Result<Type, ParseError>)
    requires HasPrefix(spec, "map")
    ensures r == MapToArrow(spec)
    decreases |spec|, 0
  {
    var kv := SplitParamsLoop(Params(spec, "map"));
    if |kv| != 2 {
      return Err(UnsupportedMap(spec));
    }
    var key := DuckDbToArrow(kv[0]);
    if key.Err? {
      return key;
    }
    var item := DuckDbToArrow(kv[1]);
    r := MapFrom(key, item);
  }

  /** The body of the loop over the fields. */
  method FieldToArrow(spec: string) returns (r: Result<Field, ParseError>)
    ensures r == ToField(spec)
    decreases |spec|, 2
  {
    var parts := CutAtSpace(spec);
    if parts.None? {
      return Err(UnsupportedField(spec));
    }
    var ty := DuckDbToArrow(TrimSpace(parts.value.1));
    if ty.Err? {
      return Err(ty.error);
    }
    r := Ok(Field(TrimQuotes(parts.value.0), ty.value));
  }

  /** The loop over the fields. */
  method FieldsToArrow(fieldsSpec: seq<string>, ghost bound: nat) returns (r: Result<seq<Field>, ParseError>)
    requires forall i :: 0 <= i < |fieldsSpec| ==> |fieldsSpec[i]| <= bound
    ensures r == ToFields(fieldsSpec, bound)
    decreases bound, 3
  {
    var fields := [];
    BeforeNothing(fieldsSpec, bound);
    for i := 0 to |fieldsSpec|
      invariant Before(fields, ToFields(fieldsSpec[i..], bound)) == ToFields(fieldsSpec, bound)
    {
      FieldStep(fields, fieldsSpec, i, bound);
      var field := FieldToArrow(fieldsSpec[i]);
      if field.Err? {
        return Err(field.error);
      }
      fields := fields + [field.value];
    }
    assert fields + [] == fields;
    r := Ok(fields);
  }

  /** The text never splits into no parts, so the first panic is never reached: "struct()" panics on its field. */
  method DuckDbStructToArrow(spec: string) returns (r: Result<Type, ParseError>)
    requires HasPrefix(spec, "struct")
    ensures r == StructToArrow(spec)
    decreases |spec|, 0
  {
    var fieldsSpec := SplitParamsLoop(Params(spec, "struct"));
    if |fieldsSpec| == 0 {
      assert false;
    }
    var fields := FieldsToArrow(fieldsSpec, |spec| - 1);
    r := if fields.Ok? then Ok(Struct(fields.value)) else Err(fields.error);
  }

  // ---------------------------------------------------------------- splitting joined parts

  /** The depth that scanning s from depth d ends at, unless it meets a comma at depth 0. */
  function Scan(s: string, d: int): Option<int> {
    if s == [] then Some(d)
    else if s[0] == ',' && d == 0 then None
    else Scan(s[1..], d + Turn(s[0]))
  }

  /** Scanning s from depth d meets no comma at depth 0 and ends at depth e. */
  predicate Skims(s: string, d: int, e: int) {
    Scan(s, d) == Some(e)
  }

  /** Brackets match and commas are inside them, at whatever depth the text stands. */
  ghost predicate Nested(s: string) {
    forall d: nat :: Skims(s, d, d)
  }

  lemma {:induction false} SkimsConcat(a: string, b: string, d: int, m: int, e: int)
    requires Skims(a, d, m) && Skims(b, m, e)
    ensures Skims(a + b, d, e)
  {
    if a == [] {
      assert a + b == b;
    } else {
      SkimsConcat(a[1..], b, d + Turn(a[0]), m, e);
      assert (a + b)[1..] == a[1..] + b;
    }
  }

  /** A text without brackets and commas. */
  lemma {:induction false} FlatIsNested(s: string, d: int)
    requires forall c :: c in s ==> c != ',' && c != '(' && c != ')'
    ensures Skims(s, d, d)
  {
    if s != [] {
      assert s[0] in s && forall c :: c in s[1..] ==> c in s;
      FlatIsNested(s[1..], d);
    }
  }

  lemma {:induction false} PiecesSkim(s: string, rest: string, d: int, e: int, elem: string)
    requires Skims(s, d, e)
    ensures Pieces(s + rest, d, elem) == Pieces(rest, e, elem + s)
  {
    if s == [] {
      assert s + rest == rest && elem + s == elem;
    } else {
      assert (s + rest)[1..] == s[1..] + rest && elem + [s[0]] + s[1..] == elem + s;
      PiecesSkim(s[1..], rest, d + Turn(s[0]), e, elem + [s[0]]);
    }
  }

  function Join(parts: seq<string>): string
    requires parts != []
  {
    if |parts| == 1 then parts[0] else parts[0] + ", " + Join(parts[1..])
  }

  ghost predicate AllParts(parts: seq<string>) {
    forall i :: 0 <= i < |parts| ==> Nested(parts[i]) && Trimmed(parts[i])
  }

  lemma AtComma(elem: string, rest: string)
    ensures Pieces(", " + rest, 0, elem) == [TrimSpace(elem)] + Pieces(rest, 0, " ")
  {
    assert (", " + rest)[1..] == " " + rest && (" " + rest)[1..] == rest && [] + [' '] == " ";
  }

  /** The first part ends at the first comma at depth 0. */
  lemma FirstPiece(p: string, rest: string, lead: string)
    requires Skims(p, 0, 0) && Trimmed(p) && (lead == [] || lead == " ")
    ensures Pieces(p + ", " + rest, 0, lead) == [p] + Pieces(rest, 0, " ")
  {
    PiecesSkim(p, ", " + rest, 0, 0, lead);
    AtComma(lead + p, rest);
    TrimmedStays(p);
    assert p + ", " + rest == p + (", " + rest) && [] + p == p;
  }

  lemma LastPiece(p: string, lead: string)
    requires Scan(p, 0).Some? && Trimmed(p) && (lead == [] || lead == " ")
    ensures Pieces(p, 0, lead) == [p]
  {
    PiecesSkim(p, [], 0, Scan(p, 0).value, lead);
    TrimmedStays(p);
    assert p + [] == p && [] + p == p;
  }

  /** Scanning a part meets no comma at depth 0, and it ends there unless it is the last. */
  predicate Separable(parts: seq<string>) {
    forall i :: 0 <= i < |parts| ==>
      Trimmed(parts[i]) && Scan(parts[i], 0).Some? && (i + 1 < |parts| ==> Scan(parts[i], 0) == Some(0))
  }

  lemma {:induction false} PiecesOfJoin(parts: seq<string>, lead: string)
    requires parts != [] && Separable(parts) && (lead == [] || lead == " ")
    ensures Pieces(Join(parts), 0, lead) == parts
    decreases parts
  {
    if |parts| == 1 {
      LastPiece(parts[0], lead);
    } else {
      FirstPiece(parts[0], Join(parts[1..]), lead);
      PiecesOfJoin(parts[1..], " ");
    }
  }

  lemma {:induction false} JoinIsTrimmed(parts: seq<string>)
    requires parts != [] && forall i :: 0 <= i < |parts| ==> Trimmed(parts[i])
    ensures Trimmed(Join(parts))
    decreases parts
  {
    assert Trimmed(parts[0]);
    if |parts| > 1 {
      JoinIsTrimmed(parts[1..]);
    }
  }

  /** splitParams undoes joining with ", ", whatever is nested in the parts. */
  lemma SplitOfJoin(parts: seq<string>)
    requires parts != [] && Separable(parts)
    ensures SplitParams(Join(parts)) == parts
  {
    JoinIsTrimmed(parts);
    TrimmedStays(Join(parts));
    PiecesOfJoin(parts, []);
  }

  lemma PartsAreSeparable(parts: seq<string>)
    requires AllParts(parts)
    ensures Separable(parts)
  {
    forall i | 0 <= i < |parts| ensures Trimmed(parts[i]) && Scan(parts[i], 0) == Some(0) {
      assert Skims(parts[i], 0, 0);
    }
  }

  lemma {:induction false} JoinNests(parts: seq<string>, d: nat)
    requires parts != [] && AllParts(parts) && d > 0
    ensures Skims(Join(parts), d, d)
    decreases parts
  {
    assert Skims(parts[0], d, d);
    if |parts| > 1 {
      JoinNests(parts[1..], d);
      assert Skims(", ", d, d) by {
        assert ", "[1..] == " " && " "[1..] == "";
        assert Scan(", ", d) == Scan(" ", d) == Scan("", d);
      }
      SkimsConcat(parts[0], ", ", d, d, d);
      SkimsConcat(parts[0] + ", ", Join(parts[1..]), d, d, d);
    }
  }

  lemma InBrackets(inner: string)
    ensures TrimSuffix(TrimPrefix("(" + inner + ")", "("), ")") == inner
    ensures Trimmed("(" + inner + ")")
  {
    assert ("(" + inner + ")")[1..] == inner + ")";
    assert (inner + ")")[..|inner|] == inner && (inner + ")")[|inner|..] == ")";
  }

  lemma ParamsOf(keyword: string, inner: string)
    ensures Params(keyword + "(" + inner + ")", keyword) == inner
  {
    var bracketed := "(" + inner + ")";
    assert keyword + "(" + inner + ")" == keyword + bracketed;
    assert TrimPrefix(keyword + bracketed, keyword) == bracketed;
    InBrackets(inner);
    TrimmedStays(bracketed);
  }

  lemma {:induction false} CutAfter(name: string, text: string)
    requires ' ' !in name
    ensures CutAtSpace(name + " " + text) == Some((name, text))
  {
    if name == [] {
      assert name + " " + text == " " + text && (" " + text)[1..] == text;
    } else {
      assert (name + " " + text)[1..] == name[1..] + " " + text;
      CutAfter(name[1..], text);
      assert [name[0]] + name[1..] == name;
    }
  }

  // ---------------------------------------------------------------- DuckDB's type text

  /** How DuckDB writes types: a spelling for every leaf, and which names it puts in quotes. */
  datatype Printer = Printer(spell: Leaf -> string, quotes: string -> bool)

  /** Inside quotes a quote is written twice. */
  function Doubled(name: string): string {
    if name == [] then [] else (if name[0] == '"' then "\"\"" else [name[0]]) + Doubled(name[1..])
  }

  function Quoted(name: string): string {
    "\"" + Doubled(name) + "\""
  }

  function NameText(p: Printer, name: string): string {
    if p.quotes(name) then Quoted(name) else name
  }

  function Text(p: Printer, t: Type): string
    decreases t
  {
    match t
    case Prim(leaf) => p.spell(leaf)
    case ListLike(_, elem) => Text(p, elem) + "[]"
    case Struct(fields) => "struct(" + (if fields == [] then [] else Join(FieldTexts(p, fields))) + ")"
    case MapOf(key, item) => "map(" + Join([Text(p, key), Text(p, item)]) + ")"
  }

  function FieldText(p: Printer, field: Field): string
    decreases field
  {
    NameText(p, field.name) + " " + Text(p, field.ty)
  }

  function FieldTexts(p: Printer, fields: seq<Field>): (parts: seq<string>)
    ensures |parts| == |fields|
    decreases fields
  {
    if fields == [] then []
    else [FieldText(p, fields[0])] + FieldTexts(p, fields[1..])
  }

  /**
   No space and no quote, its brackets match and its commas are inside them; quoted, unless it starts with a letter or
   the like.
   */
  ghost predicate Safe(p: Printer, name: string) {
    && ' ' !in name && '"' !in name && Nested(name)
    && (p.quotes(name) || (name != [] && !IsSpace(name[0])))
  }

  /** A spelling the parser can know: one of its names, or any other text that is not a list, struct or map. */
  ghost predicate Spells(text: string, leaf: Leaf) {
    && LeafNamed(text) == leaf && Trimmed(text) && Nested(text)
    && !HasSuffix(text, "[]") && !HasPrefix(text, "struct") && !HasPrefix(text, "map")
  }

  /** A type of DuckDB: lists, structs and maps of spelled leaves over safe field names, nested at will. */
  ghost predicate Readable(p: Printer, t: Type)
    decreases t
  {
    match t
    case Prim(leaf) => Spells(p.spell(leaf), leaf)
    case ListLike(kind, elem) => kind == List && Readable(p, elem)
    case Struct(fields) => fields != [] && AllReadable(p, fields)
    case MapOf(key, item) => Readable(p, key) && Readable(p, item)
  }

  ghost predicate AllReadable(p: Printer, fields: seq<Field>)
    decreases fields
  {
    fields == [] || (Safe(p, fields[0].name) && Readable(p, fields[0].ty) && AllReadable(p, fields[1..]))
  }

  lemma Bracketed(keyword: string, inner: string, d: int)
    requires (keyword == "struct(" || keyword == "map(") && Skims(inner, d + 1, d + 1)
    ensures Skims(keyword + inner + ")", d, d)
  {
    var word := keyword[..|keyword| - 1];
    assert word == "struct" || word == "map";
    FlatIsNested(word, d);
    assert Skims("(", d, d + 1) by {
      assert "("[1..] == "";
    }
    assert Skims(")", d + 1, d) by {
      assert ")"[1..] == "";
    }
    SkimsConcat(word, "(", d, d, d + 1);
    assert word + "(" == keyword;
    SkimsConcat(keyword, inner, d, d + 1, d + 1);
    SkimsConcat(keyword + inner, ")", d, d + 1, d);
  }

  lemma {:induction false} NothingDoubled(name: string)
    requires '"' !in name
    ensures Doubled(name) == name
  {
    if name != [] {
      assert name[0] in name && forall c :: c in name[1..] ==> c in name;
      NothingDoubled(name[1..]);
      assert [name[0]] + name[1..] == name;
    }
  }

  lemma NothingToTrim(name: string)
    requires '"' !in name
    ensures TrimRight(name, IsQuote) == name && TrimLeft(name + "\"", IsQuote) == if name == [] then [] else name + "\""
    ensures TrimQuotes(name) == name
  {
    if name != [] {
      assert name[0] in name && name[|name| - 1] in name;
    }
  }

  lemma Unquoted(name: string)
    requires '"' !in name
    ensures TrimQuotes("\"" + name + "\"") == name
  {
    assert ("\"" + name + "\"")[1..] == name + "\"";
    NothingToTrim(name);
    assert (name + "\"")[..|name|] == name;
  }

  /** A name without spaces and quotes is read back from its text. */
  lemma NameReads(p: Printer, name: string)
    requires ' ' !in name && '"' !in name
    ensures ' ' !in NameText(p, name) && TrimQuotes(NameText(p, name)) == name
  {
    if p.quotes(name) {
      NothingDoubled(name);
      Unquoted(name);
    } else {
      NothingToTrim(name);
    }
  }

  lemma NameNests(p: Printer, name: string, d: nat)
    requires Safe(p, name)
    ensures Skims(NameText(p, name), d, d)
  {
    assert Skims(name, d, d);
    if p.quotes(name) {
      NothingDoubled(name);
      FlatIsNested("\"", d);
      SkimsConcat("\"", name, d, d, d);
      SkimsConcat("\"" + name, "\"", d, d, d);
    }
  }

  lemma FieldTextIsPart(p: Printer, field: Field)
    requires Safe(p, field.name) && Nested(Text(p, field.ty)) && Trimmed(Text(p, field.ty))
    ensures Nested(FieldText(p, field)) && Trimmed(FieldText(p, field))
  {
    var name, text := NameText(p, field.name), Text(p, field.ty);
    forall d: nat ensures Skims(name + " " + text, d, d) {
      NameNests(p, field.name, d);
      FlatIsNested(" ", d);
      SkimsConcat(name, " ", d, d, d);
      assert Skims(text, d, d);
      SkimsConcat(name + " ", text, d, d, d);
    }
    assert name != [] && !IsSpace(name[0]);
  }

  lemma BracketedIsPart(keyword: string, parts: seq<string>)
    requires (keyword == "struct(" || keyword == "map(") && parts != [] && AllParts(parts)
    ensures Nested(keyword + Join(parts) + ")") && Trimmed(keyword + Join(parts) + ")")
  {
    forall d: nat ensures Skims(keyword + Join(parts) + ")", d, d) {
      JoinNests(parts, d + 1);
      Bracketed(keyword, Join(parts), d);
    }
  }

  lemma ListIsPart(text: string)
    requires Nested(text) && Trimmed(text)
    ensures Nested(text + "[]") && Trimmed(text + "[]")
  {
    forall d: nat ensures Skims(text + "[]", d, d) {
      FlatIsNested("[]", d);
      assert Skims(text, d, d);
      SkimsConcat(text, "[]", d, d, d);
    }
  }

  /** The text of a type is a part that splitting leaves alone. */
  lemma {:induction false} TextIsPart(p: Printer, t: Type)
    requires Readable(p, t)
    ensures Nested(Text(p, t)) && Trimmed(Text(p, t))
    decreases t
  {
    match t {
      case Prim(leaf) =>
      case ListLike(_, elem) =>
        TextIsPart(p, elem);
        ListIsPart(Text(p, elem));
      case Struct(fields) =>
        FieldTextsAreParts(p, fields);
        BracketedIsPart("struct(", FieldTexts(p, fields));
      case MapOf(key, item) =>
        TextIsPart(p, key);
        TextIsPart(p, item);
        BracketedIsPart("map(", [Text(p, key), Text(p, item)]);
    }
  }

  lemma {:induction false} FieldTextsAreParts(p: Printer, fields: seq<Field>)
    requires AllReadable(p, fields)
    ensures AllParts(FieldTexts(p, fields))
    decreases fields
  {
    if fields != [] {
      TextIsPart(p, fields[0].ty);
      FieldTextIsPart(p, fields[0]);
      FieldTextsAreParts(p, fields[1..]);
    }
  }

  lemma KeywordText(keyword: string, inner: string)
    requires keyword == "struct" || keyword == "map"
    ensures var text := keyword + "(" + inner + ")";
      && HasPrefix(text, keyword) && !HasSuffix(text, "[]")
      && (keyword == "map" ==> !HasPrefix(text, "struct"))
  {
    var text := keyword + "(" + inner + ")";
    assert text[|text| - 1] == ')';
    assert text[|text| - 2..][1] == text[|text| - 1];
    assert text[0] == keyword[0];
  }

  /** A struct's text is read field by field, as it is split. */
  lemma StructParams(inner: string)
    ensures var text := "struct(" + inner + ")";
      && |inner| <= |text| - 1
      && ToArrow(text) == match ToFields(SplitParams(inner), |text| - 1)
                          case Err(e) => Err(e)
                          case Ok(fields) => Ok(Struct(fields))
  {
    ParamsOf("struct", inner);
    KeywordText("struct", inner);
    assert "struct" + "(" == "struct(";
  }

  lemma StructText(parts: seq<string>)
    requires parts != [] && Separable(parts)
    ensures var text := "struct(" + Join(parts) + ")";
      && (forall i :: 0 <= i < |parts| ==> |parts[i]| <= |text| - 1)
      && ToArrow(text) == match ToFields(parts, |text| - 1)
                          case Err(e) => Err(e)
                          case Ok(fields) => Ok(Struct(fields))
  {
    SplitOfJoin(parts);
    StructParams(Join(parts));
  }

  lemma FieldReads(p: Printer, field: Field)
    requires ' ' !in field.name && '"' !in field.name && Trimmed(Text(p, field.ty))
    ensures ToField(FieldText(p, field)) ==
            match ToArrow(Text(p, field.ty)) { case Err(e) => Err(e) case Ok(t) => Ok(Field(field.name, t)) }
  {
    NameReads(p, field.name);
    CutAfter(NameText(p, field.name), Text(p, field.ty));
    TrimmedStays(Text(p, field.ty));
  }

  lemma ToFieldsCons(part: string, parts: seq<string>, fields: seq<Field>, bound: nat)
    requires |part| <= bound && (forall i :: 0 <= i < |parts| ==> |parts[i]| <= bound)
    requires fields != [] && ToField(part) == Ok(fields[0]) && ToFields(parts, bound) == Ok(fields[1..])
    ensures ToFields([part] + parts, bound) == Ok(fields)
  {
    assert ([part] + parts)[1..] == parts && [fields[0]] + fields[1..] == fields;
  }

  // ---------------------------------------------------------------- normalising

  /** arrowToDuckDB on types without elements. */
  function LeafSql(leaf: Leaf): string {
    match leaf
    case Boolean => "boolean"
    case Int8 => "tinyint"
    case Int16 => "smallint"
    case Int32 => "integer"
    case Int64 => "bigint"
    case Uint8 => "uinteger"
    case Uint16 => "uinteger"
    case Uint32 => "uinteger"
    case Uint64 => "ubigint"
    case Float32 => "float"
    case Float64 => "double"
    case Binary => "blob"
    case LargeBinary => "blob"
    case Uuid => "uuid"
    case Json => "json"
    case Date32 => "timestamp"
    case Date64 => "timestamp"
    case Timestamp(_, _) => "timestamp"
    case String => "varchar"
    case Unlisted => "varchar"
  }

  function ToDuckDb(t: Type): string {
    match t
    case Struct(_) => "json"
    case MapOf(_, _) => "json"
    case ListLike(_, elem) => ToDuckDb(elem) + "[]"
    case Prim(leaf) => LeafSql(leaf)
  }

  /** What a type becomes in DuckDB: lists of every kind are lists, structs and maps are JSON, small unsigned
      integers are widened, dates and timestamps of any unit and zone are microseconds UTC, and the rest is kept or is
      a string. */
  function Normal(t: Type): Type {
    match t
    case Struct(_) => Prim(Json)
    case MapOf(_, _) => Prim(Json)
    case ListLike(_, elem) => ListLike(List, Normal(elem))
    case Prim(leaf) =>
      Prim(if leaf in {Uint8, Uint16} then Uint32
           else if leaf == LargeBinary then Binary
           else if leaf in {Date32, Date64} || leaf.Timestamp? then TIMESTAMP_US
           else if leaf == Unlisted then String
           else leaf)
  }

  /** The SQL type a column of each leaf is created with. */
  lemma SqlTypesAre(leaf: Leaf)
    ensures LeafSql(leaf) == "uinteger" <==> leaf in {Uint8, Uint16, Uint32}
    ensures LeafSql(leaf) == "timestamp" <==> leaf.Timestamp? || leaf in {Date32, Date64}
    ensures LeafSql(leaf) == "blob" <==> leaf in {Binary, LargeBinary}
    ensures LeafSql(leaf) == "varchar" <==> leaf in {String, Unlisted}
    ensures LeafSql(leaf) == "json" <==> leaf == Json
  {
  }

  lemma IntegerIsNamed(leaf: Leaf)
    requires leaf in {Int8, Int16, Int32, Int64, Uint8, Uint16, Uint32, Uint64}
    ensures Prim(LeafNamed(LeafSql(leaf))) == Normal(Prim(leaf))
  {
  }

  lemma NumberIsNamed(leaf: Leaf)
    requires leaf in {Boolean, Float32, Float64, Binary, LargeBinary}
    ensures Prim(LeafNamed(LeafSql(leaf))) == Normal(Prim(leaf))
  {
  }

  lemma OtherIsNamed(leaf: Leaf)
    requires leaf.Timestamp? || leaf in {Date32, Date64, Uuid, Json, String, Unlisted}
    ensures Prim(LeafNamed(LeafSql(leaf))) == Normal(Prim(leaf))
  {
  }

  lemma LeafIsNamed(leaf: Leaf)
    ensures Prim(LeafNamed(LeafSql(leaf))) == Normal(Prim(leaf))
  {
    if leaf in {Int8, Int16, Int32, Int64, Uint8, Uint16, Uint32, Uint64} {
      IntegerIsNamed(leaf);
    } else if leaf in {Boolean, Float32, Float64, Binary, LargeBinary} {
      NumberIsNamed(leaf);
    } else {
      OtherIsNamed(leaf);
    }
  }

  lemma NoKeyword(text: string)
    requires |text| >= 3 && text[|text| - 1] != ']' && text[0] != 'm' && (text[0] != 's' || text[1] != 't')
    ensures !HasSuffix(text, "[]") && !HasPrefix(text, "struct") && !HasPrefix(text, "map")
  {
    assert text[|text| - 2..][1] != ']';
  }

  lemma LeafIsNormal(leaf: Leaf)
    ensures ToArrow(LeafSql(leaf)) == Ok(Normal(Prim(leaf)))
  {
    NoKeyword(LeafSql(leaf));
    LeafIsNamed(leaf);
  }

  /** Writing a type and reading it back never fails, and normalises it at every list depth. */
  lemma {:induction false} ReadBackIsNormal(t: Type)
    ensures ToArrow(ToDuckDb(t)) == Ok(Normal(t))
  {
    if t.ListLike? {
      ReadBackIsNormal(t.elem);
      ListText(ToDuckDb(t.elem));
    } else {
      LeafIsNormal(if t.Prim? then t.leaf else Json);
    }
  }

  /** A normalised type has the same SQL type, and normalising again changes nothing. */
  lemma {:induction false} NormalIsStable(t: Type)
    ensures ToDuckDb(Normal(t)) == ToDuckDb(t) && Normal(Normal(t)) == Normal(t)
  {
    if t.ListLike? {
      NormalIsStable(t.elem);
    }
  }

  /** duckDBToArrow after arrowToDuckDB is idempotent. */
  lemma ReadBackIsStable(t: Type)
    ensures ToArrow(ToDuckDb(t)).Ok?
    ensures var normal := ToArrow(ToDuckDb(t)).value; ToArrow(ToDuckDb(normal)) == Ok(normal)
  {
    ReadBackIsNormal(t);
    NormalIsStable(t);
    ReadBackIsNormal(Normal(t));
  }

  // ---------------------------------------------------------------- the type rows are written with

  function TypeForWriting(t: Type): Result<Type, ParseError> {
    match t
    case Struct(_) => Ok(Prim(String))
    case MapOf(_, _) => Ok(Prim(String))
    case ListLike(_, elem) => ListOf(TypeForWriting(elem))
    case Prim(leaf) => if leaf in {Uuid, Json} then Ok(Prim(String)) else ToArrow(ToDuckDb(t))
  }

  /** UUIDs and JSON written as strings, at every list depth. */
  function Stringified(t: Type): Type {
    match t
    case ListLike(kind, elem) => ListLike(kind, Stringified(elem))
    case Prim(leaf) => if leaf in {Uuid, Json} then Prim(String) else t
    case _ => t
  }

  /**
   Rows are written with the type of the normalised column, where UUIDs and JSON are strings; writing never panics.
   */
  lemma {:induction false} WritingIsStringifiedNormal(t: Type)
    ensures TypeForWriting(t) == Ok(Stringified(Normal(t)))
  {
    match t {
      case ListLike(_, elem) => WritingIsStringifiedNormal(elem);
      case Prim(leaf) => LeafIsNormal(leaf);
      case _ =>
    }
  }

  lemma {:induction false} StringifiedIsStable(t: Type)
    ensures Stringified(Normal(Stringified(Normal(t)))) == Stringified(Normal(t))
  {
    if t.ListLike? {
      StringifiedIsStable(t.elem);
    }
  }

  /** What is written has its own type for writing. */
  lemma WritingIsStable(t: Type)
    ensures TypeForWriting(t).Ok?
    ensures var written := TypeForWriting(t).value; TypeForWriting(written) == Ok(written)
  {
    WritingIsStringifiedNormal(t);
    WritingIsStringifiedNormal(Stringified(Normal(t)));
    StringifiedIsStable(t);
  }

  /** transformFieldsForWriting overwrites the types in place. */
  method TransformFieldsForWriting(fields: array<Field>)
    modifies fields
    ensures forall i :: 0 <= i < fields.Length ==>
              fields[i] == Field(old(fields[i]).name, Stringified(Normal(old(fields[i]).ty)))
  {
    for i := 0 to fields.Length
      invariant forall j :: i <= j < fields.Length ==> fields[j] == old(fields[j])
      invariant forall j :: 0 <= j < i ==>
          fields[j] == Field(old(fields[j]).name, Stringified(Normal(old(fields[j]).ty)))
    {
      WritingIsStringifiedNormal(fields[i].ty);
      var t := TypeForWriting(fields[i].ty);
      fields[i] := fields[i].(ty := t.value);
    }
  }

  // ---------------------------------------------------------------- columns

  datatype Column = Column(name: string, ty: Type, notNull: bool, primaryKey: bool, unique: bool)

  datatype Table = Table(name: string, columns: seq<Column>)

  /** In DuckDB a primary key column is NOT NULL. */
  function NormalColumn(c: Column): Column {
    c.(notNull := c.notNull || c.primaryKey, ty := Normal(c.ty))
  }

  function NormalTable(t: Table): Table {
    t.(columns := MapSeq(NormalColumn, t.columns))
  }

  /** The type as it reads back, NOT NULL for a primary key, and name and marks as they were. */
  predicate NormalisedFrom(c': Column, c: Column) {
    && c'.name == c.name && c'.primaryKey == c.primaryKey && c'.unique == c.unique
    && (c'.notNull <==> c.notNull || c.primaryKey) && ToArrow(ToDuckDb(c.ty)) == Ok(c'.ty)
  }

  lemma ColumnIsNormalised(c: Column)
    ensures NormalisedFrom(NormalColumn(c), c)
  {
    ReadBackIsNormal(c.ty);
  }

  lemma TableIsNormalised(table: Table)
    ensures |NormalTable(table).columns| == |table.columns|
    ensures forall i :: 0 <= i < |table.columns| ==>
              NormalisedFrom(NormalTable(table).columns[i], table.columns[i])
  {
    forall i | 0 <= i < |table.columns| ensures NormalisedFrom(NormalColumn(table.columns[i]), table.columns[i]) {
      ColumnIsNormalised(table.columns[i]);
    }
  }

  /** The body of the inner loop of normalizeColumns. */
  method NormalizeColumn(column: Column) returns (normalized: Column)
    ensures normalized == NormalColumn(column)
    ensures NormalisedFrom(normalized, column)
  {
    normalized := column;
    if normalized.primaryKey {
      normalized := normalized.(notNull := true);
    }
    ReadBackIsNormal(column.ty);
    var ty := DuckDbToArrow(ToDuckDb(normalized.ty));
    normalized := normalized.(ty := ty.value);
  }

  method NormalizeTable(table: Table) returns (normalized: Table)
    ensures normalized == NormalTable(table)
    ensures normalized.name == table.name && |normalized.columns| == |table.columns|
    ensures forall i :: 0 <= i < |table.columns| ==> NormalisedFrom(normalized.columns[i], table.columns[i])
  {
    var columns := new Column[|table.columns|](i requires 0 <= i < |table.columns| => table.columns[i]);
    for i := 0 to |table.columns|
      invariant forall j :: 0 <= j < i ==> columns[j] == NormalColumn(table.columns[j])
    {
      columns[i] := NormalizeColumn(table.columns[i]);
    }
    assert columns[..] == MapSeq(NormalColumn, table.columns);
    normalized := table.(columns := columns[..]);
    TableIsNormalised(table);
  }

  method NormalizeColumns(tables: seq<Table>) returns (normalized: seq<Table>)
    ensures normalized == MapSeq(NormalTable, tables)
    ensures |normalized| == |tables|
    ensures forall i :: 0 <= i < |tables| ==>
              && normalized[i].name == tables[i].name && |normalized[i].columns| == |tables[i].columns|
              && forall j :: 0 <= j < |tables[i].columns| ==>
                   NormalisedFrom(normalized[i].columns[j], tables[i].columns[j])
  {
    normalized := [];
    for i := 0 to |tables|
      invariant normalized == MapSeq(NormalTable, tables[..i])
    {
      var table := NormalizeTable(tables[i]);
      normalized := normalized + [table];
      assert tables[..i + 1] == tables[..i] + [tables[i]];
    }
    assert tables[..|tables|] == tables;
    forall i, j | 0 <= i < |tables| && 0 <= j < |tables[i].columns|
      ensures NormalisedFrom(NormalTable(tables[i]).columns[j], tables[i].columns[j])
    {
      ColumnIsNormalised(tables[i].columns[j]);
    }
  }

  /** One row of the table information DuckDB reports. */
  datatype ColumnInfo = ColumnInfo(name: string, typ: string, notNull: bool, pk: bool, unique: bool)

  /** The columns read, up to the first type that cannot be parsed. */
  function ReadColumns(infos: seq<ColumnInfo>, lower: string -> string): Result<seq<Column>, ParseError> {
    if infos == [] then Ok([])
    else
      var c := infos[|infos| - 1];
      var front := ReadColumns(infos[..|infos| - 1], lower);
      if front.Err? then front
      else
        match ToArrow(lower(c.typ))
        case Err(e) => Err(e)
        case Ok(ty) => Ok(front.value + [Column(c.name, ty, c.notNull, c.pk, c.unique)])
  }

  /** The column has the reported name and marks, and the type that its reported text is read as. */
  predicate IsReadFrom(c: Column, info: ColumnInfo, lower: string -> string) {
    && c.name == info.name && ToArrow(lower(info.typ)) == Ok(c.ty)
    && c.notNull == info.notNull && c.primaryKey == info.pk && c.unique == info.unique
  }

  /** getTableInfo: None when no column is reported, that is, when the table does not exist. */
  method GetTableInfo(name: string, infos: seq<ColumnInfo>, lower: string -> string)
    returns (r: Result<Option<Table>, ParseError>)
    ensures r == if infos == [] then Ok(None)
                 else match ReadColumns(infos, lower) { case Err(e) => Err(e) case Ok(cs) => Ok(Some(Table(name, cs))) }
    ensures r.Ok? && infos != [] ==>
              && r.value.Some? && r.value.value.name == name && |r.value.value.columns| == |infos|
              && forall i :: 0 <= i < |infos| ==> IsReadFrom(r.value.value.columns[i], infos[i], lower)
  {
    if |infos| == 0 {
      return Ok(None);
    }
    var columns := [];
    for i := 0 to |infos|
      invariant ReadColumns(infos[..i], lower) == Ok(columns)
    {
      ReadColumnsStep(infos, i, lower);
      var ty := DuckDbToArrow(lower(infos[i].typ));
      if ty.Err? {
        ReadColumnsStops(infos, i + 1, lower);
        return Err(ty.error);
      }
      columns := columns + [Column(infos[i].name, ty.value, infos[i].notNull, infos[i].pk, infos[i].unique)];
    }
    assert infos[..|infos|] == infos;
    ColumnsAreRead(infos, lower);
    return Ok(Some(Table(name, columns)));
  }

  /** Every reported column is read on its own, in order. */
  lemma {:induction false} ColumnsAreRead(infos: seq<ColumnInfo>, lower: string -> string)
    requires ReadColumns(infos, lower).Ok?
    ensures |ReadColumns(infos, lower).value| == |infos|
    ensures forall i :: 0 <= i < |infos| ==> IsReadFrom(ReadColumns(infos, lower).value[i], infos[i], lower)
  {
    if infos != [] {
      ColumnsAreRead(infos[..|infos| - 1], lower);
    }
  }

  /** The first type that cannot be read is the panic. */
  lemma {:induction false} FirstUnreadable(infos: seq<ColumnInfo>, lower: string -> string, i: nat)
    requires i < |infos| && ReadColumns(infos[..i], lower).Ok? && ToArrow(lower(infos[i].typ)).Err?
    ensures ReadColumns(infos, lower) == Err(ToArrow(lower(infos[i].typ)).error)
  {
    ReadColumnsStep(infos, i, lower);
    ReadColumnsStops(infos, i + 1, lower);
  }

  lemma ReadColumnsStep(infos: seq<ColumnInfo>, i: nat, lower: string -> string)
    requires i < |infos|
    ensures ReadColumns(infos[..i + 1], lower) ==
            var (front, c) := (ReadColumns(infos[..i], lower), infos[i]);
            if front.Err? then front
            else
              match ToArrow(lower(c.typ))
              case Err(e) => Err(e)
              case Ok(ty) => Ok(front.value + [Column(c.name, ty, c.notNull, c.pk, c.unique)])
  {
    assert infos[..i + 1][..i] == infos[..i];
  }

  lemma {:induction false} ReadColumnsStops(infos: seq<ColumnInfo>, i: nat, lower: string -> string)
    requires i <= |infos| && ReadColumns(infos[..i], lower).Err?
    ensures ReadColumns(infos, lower) == ReadColumns(infos[..i], lower)
  {
    if i == |infos| {
      assert infos[..i] == infos;
    } else {
      assert infos[..|infos| - 1][..i] == infos[..i];
      ReadColumnsStops(infos[..|infos| - 1], i, lower);
    }
  }

  /** DuckDB reports the column it was given: the type up to letter case, and NOT NULL for a primary key. */
  predicate EchoesColumn(c: Column, info: ColumnInfo, lower: string -> string) {
    && info.name == c.name && lower(info.typ) == ToDuckDb(c.ty)
    && info.notNull == (c.notNull || c.primaryKey) && info.pk == c.primaryKey && info.unique == c.unique
  }

  ghost predicate Echoes(columns: seq<Column>, infos: seq<ColumnInfo>, lower: string -> string) {
    |infos| == |columns| && forall i :: 0 <= i < |infos| ==> EchoesColumn(columns[i], infos[i], lower)
  }

  lemma ColumnReadsBack(c: Column, info: ColumnInfo, lower: string -> string)
    requires EchoesColumn(c, info, lower)
    ensures var n := NormalColumn(c);
      ToArrow(lower(info.typ)) == Ok(n.ty) && n == Column(info.name, n.ty, info.notNull, info.pk, info.unique)
  {
    ReadBackIsNormal(c.ty);
  }

  lemma OneMoreReads(infos: seq<ColumnInfo>, i: nat, lower: string -> string, cs: seq<Column>, c: Column)
    requires i < |infos| && ReadColumns(infos[..i], lower) == Ok(cs) && ToArrow(lower(infos[i].typ)) == Ok(c.ty)
    requires c == Column(infos[i].name, c.ty, infos[i].notNull, infos[i].pk, infos[i].unique)
    ensures ReadColumns(infos[..i + 1], lower) == Ok(cs + [c])
  {
    ReadColumnsStep(infos, i, lower);
  }

  lemma NormalSnoc(columns: seq<Column>)
    requires columns != []
    ensures var n := |columns| - 1;
      MapSeq(NormalColumn, columns) == MapSeq(NormalColumn, columns[..n]) + [NormalColumn(columns[n])]
  {
  }

  /** A table reads back as its normalised columns. */
  lemma {:induction false} TableReadsBack(columns: seq<Column>, infos: seq<ColumnInfo>, lower: string -> string)
    requires Echoes(columns, infos, lower)
    ensures ReadColumns(infos, lower) == Ok(MapSeq(NormalColumn, columns))
  {
    if columns != [] {
      var n := |columns| - 1;
      var front := columns[..n];
      TableReadsBack(front, infos[..n], lower);
      ColumnReadsBack(columns[n], infos[n], lower);
      OneMoreReads(infos, n, lower, MapSeq(NormalColumn, front), NormalColumn(columns[n]));
      assert infos[..n + 1] == infos;
      NormalSnoc(columns);
    }
  }

  /** A table made from normalised columns reads back unchanged. */
  lemma NormalTableReadsBack(columns: seq<Column>, infos: seq<ColumnInfo>, lower: string -> string)
    requires Echoes(MapSeq(NormalColumn, columns), infos, lower)
    ensures ReadColumns(infos, lower) == Ok(MapSeq(NormalColumn, columns))
  {
    TableReadsBack(MapSeq(NormalColumn, columns), infos, lower);
    forall i | 0 <= i < |columns| ensures NormalColumn(NormalColumn(columns[i])) == NormalColumn(columns[i]) {
      NormalIsStable(columns[i].ty);
    }
    assert MapSeq(NormalColumn, MapSeq(NormalColumn, columns)) == MapSeq(NormalColumn, columns);
  }
}
