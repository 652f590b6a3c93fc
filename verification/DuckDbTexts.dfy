/** Which types are read back from DuckDB's text, whatever the field names and the nesting. */
module DuckDbTexts {
  import opened Basics
  import opened DuckDbTypes

  /**
   A name DuckDB puts in quotes, or one that needs none: it has no quote in it and starts with a letter or the like.
   */
  ghost predicate Writable(p: Printer, name: string) {
    p.quotes(name) || (name != [] && !IsSpace(name[0]) && '"' !in name)
  }

  /** A type of DuckDB over field names of every kind, nested at will. */
  ghost predicate Written(p: Printer, t: Type)
    decreases t
  {
    match t
    case Prim(leaf) => Spells(p.spell(leaf), leaf)
    case ListLike(kind, elem) => kind == List && Written(p, elem)
    case Struct(fields) => fields != [] && AllWritten(p, fields)
    case MapOf(key, item) => Written(p, key) && Written(p, item)
  }

  ghost predicate AllWritten(p: Printer, fields: seq<Field>)
    decreases fields
  {
    fields == [] || (Writable(p, fields[0].name) && Written(p, fields[0].ty) && AllWritten(p, fields[1..]))
  }

  /** None of the leaves is spelled with a comma, as decimal(18,3) would be. */
  predicate CommaFree(p: Printer, t: Type)
    decreases t
  {
    match t
    case Prim(leaf) => ',' !in p.spell(leaf)
    case ListLike(_, elem) => CommaFree(p, elem)
    case Struct(fields) => AllCommaFree(p, fields)
    case MapOf(key, item) => CommaFree(p, key) && CommaFree(p, item)
  }

  predicate AllCommaFree(p: Printer, fields: seq<Field>)
    decreases fields
  {
    fields == [] || (CommaFree(p, fields[0].ty) && AllCommaFree(p, fields[1..]))
  }

  predicate Clean(name: string) {
    ' ' !in name && '"' !in name
  }

  /**
   The test on a type: in every struct and map, scanning a part meets no comma outside brackets and ends outside them,
   unless the part is the last; and no name has a space or a quote.
   */
  predicate Splits(p: Printer, t: Type)
    decreases t
  {
    match t
    case Prim(_) => true
    case ListLike(_, elem) => Splits(p, elem)
    case Struct(fields) => Separable(FieldTexts(p, fields)) && AllSplit(p, fields)
    case MapOf(key, item) => Separable([Text(p, key), Text(p, item)]) && Splits(p, key) && Splits(p, item)
  }

  predicate AllSplit(p: Printer, fields: seq<Field>)
    decreases fields
  {
    fields == [] || (Clean(fields[0].name) && Splits(p, fields[0].ty) && AllSplit(p, fields[1..]))
  }

  // ---------------------------------------------------------------- counting commas

  function Commas(s: string): nat {
    if s == [] then 0 else (if s[0] == ',' then 1 else 0) + Commas(s[1..])
  }

  lemma {:induction false} CommasConcat(a: string, b: string)
    ensures Commas(a + b) == Commas(a) + Commas(b)
  {
    if a == [] {
      assert a + b == b;
    } else {
      assert (a + b)[1..] == a[1..] + b;
      CommasConcat(a[1..], b);
    }
  }

  lemma {:induction false} TrimLeftKeepsCommas(s: string, cut: char -> bool)
    requires !cut(',')
    ensures Commas(TrimLeft(s, cut)) == Commas(s)
  {
    if s != [] && cut(s[0]) {
      TrimLeftKeepsCommas(s[1..], cut);
    }
  }

  lemma {:induction false} TrimRightKeepsCommas(s: string, cut: char -> bool)
    requires !cut(',')
    ensures Commas(TrimRight(s, cut)) == Commas(s)
  {
    if s != [] && cut(s[|s| - 1]) {
      var front := s[..|s| - 1];
      TrimRightKeepsCommas(front, cut);
      CommasConcat(front, [s[|s| - 1]]);
      assert s == front + [s[|s| - 1]] && [s[|s| - 1]][1..] == [];
    }
  }

  lemma TrimQuotesKeepsCommas(s: string)
    ensures Commas(TrimQuotes(s)) == Commas(s)
  {
    TrimLeftKeepsCommas(s, IsQuote);
    TrimRightKeepsCommas(TrimLeft(s, IsQuote), IsQuote);
  }

  lemma {:induction false} SomeCommas(s: string)
    ensures Commas(s) == 0 <==> ',' !in s
  {
    if s != [] {
      assert s == [s[0]] + s[1..];
      SomeCommas(s[1..]);
    }
  }

  lemma TrimSpaceKeepsCommas(s: string)
    ensures Commas(TrimSpace(s)) == Commas(s)
  {
    TrimLeftKeepsCommas(s, IsSpace);
    TrimRightKeepsCommas(TrimLeft(s, IsSpace), IsSpace);
  }

  /** All commas of the parts. */
  function CommasOf(parts: seq<string>): nat {
    if parts == [] then 0 else Commas(parts[0]) + CommasOf(parts[1..])
  }

  /** Every cut takes one comma. */
  lemma {:induction false} PiecesCommas(s: string, d: int, elem: string)
    ensures CommasOf(Pieces(s, d, elem)) + |Pieces(s, d, elem)| - 1 == Commas(elem) + Commas(s)
    decreases s
  {
    if s == [] {
      TrimSpaceKeepsCommas(elem);
      assert [TrimSpace(elem)][1..] == [];
    } else if s[0] == ',' && d == 0 {
      var later := Pieces(s[1..], 0, []);
      TrimSpaceKeepsCommas(elem);
      PiecesCommas(s[1..], 0, []);
      assert ([TrimSpace(elem)] + later)[1..] == later;
    } else {
      PiecesCommas(s[1..], d + Turn(s[0]), elem + [s[0]]);
      CommasConcat(elem, [s[0]]);
      assert [s[0]][1..] == [];
    }
  }

  lemma SplitCommas(s: string)
    ensures CommasOf(SplitParams(s)) + |SplitParams(s)| - 1 == Commas(s)
  {
    TrimSpaceKeepsCommas(s);
    PiecesCommas(TrimSpace(s), 0, []);
  }

  lemma {:induction false} JoinCommas(parts: seq<string>)
    requires parts != []
    ensures Commas(Join(parts)) == CommasOf(parts) + |parts| - 1
    decreases parts
  {
    if |parts| == 1 {
      assert parts[1..] == [];
    } else {
      JoinCommas(parts[1..]);
      CommasConcat(parts[0], ", ");
      CommasConcat(parts[0] + ", ", Join(parts[1..]));
      assert ", "[1..] == " " && " "[1..] == "";
    }
  }

  lemma PairCommas(pair: seq<string>)
    requires |pair| == 2
    ensures CommasOf(pair) == Commas(pair[0]) + Commas(pair[1])
  {
    assert CommasOf(pair[1..]) == Commas(pair[1]) + CommasOf(pair[1..][1..]) && CommasOf(pair[1..][1..]) == 0;
  }

  // ---------------------------------------------------------------- the commas a type needs

  /** No text with fewer commas is read as this type. */
  function Need(t: Type): nat
    decreases t
  {
    match t
    case Prim(_) => 0
    case ListLike(_, elem) => Need(elem)
    case Struct(fields) => if fields == [] then 0 else NeedAll(fields) + |fields| - 1
    case MapOf(key, item) => Need(key) + Need(item) + 1
  }

  function NeedAll(fields: seq<Field>): nat
    decreases fields
  {
    if fields == [] then 0 else NeedOf(fields[0]) + NeedAll(fields[1..])
  }

  function NeedOf(field: Field): nat
    decreases field
  {
    Commas(field.name) + Need(field.ty)
  }

  lemma TrimPrefixCommas(s: string, prefix: string)
    ensures Commas(TrimPrefix(s, prefix)) <= Commas(s)
  {
    if HasPrefix(s, prefix) {
      CommasConcat(prefix, s[|prefix|..]);
      assert s == prefix + s[|prefix|..];
    }
  }

  lemma TrimSuffixCommas(s: string, suffix: string)
    ensures Commas(TrimSuffix(s, suffix)) <= Commas(s)
  {
    if HasSuffix(s, suffix) {
      CommasConcat(s[..|s| - |suffix|], suffix);
      assert s == s[..|s| - |suffix|] + suffix;
    }
  }

  lemma ParamsCommas(spec: string, keyword: string)
    ensures Commas(Params(spec, keyword)) <= Commas(spec)
  {
    var trimmed := TrimSpace(TrimPrefix(spec, keyword));
    TrimPrefixCommas(spec, keyword);
    TrimSpaceKeepsCommas(TrimPrefix(spec, keyword));
    TrimPrefixCommas(trimmed, "(");
    TrimSuffixCommas(TrimPrefix(trimmed, "("), ")");
  }

  lemma {:induction false} ReadNeeds(s: string)
    ensures ToArrow(s).Ok? ==> Need(ToArrow(s).value) <= Commas(s)
    decreases |s|, 1
  {
    if HasSuffix(s, "[]") {
      ReadNeeds(TrimSuffix(s, "[]"));
      TrimSuffixCommas(s, "[]");
    } else if HasPrefix(s, "struct") {
      var inner := Params(s, "struct");
      ParamsCommas(s, "struct");
      SplitCommas(inner);
      FieldsNeed(SplitParams(inner), |s| - 1);
    } else if HasPrefix(s, "map") {
      var kv := SplitParams(Params(s, "map"));
      ParamsCommas(s, "map");
      SplitCommas(Params(s, "map"));
      if |kv| == 2 {
        ReadNeeds(kv[0]);
        ReadNeeds(kv[1]);
        PairCommas(kv);
      }
    }
  }

  lemma {:induction false} CutCommas(s: string)
    requires CutAtSpace(s).Some?
    ensures Commas(s) == Commas(CutAtSpace(s).value.0) + Commas(CutAtSpace(s).value.1)
  {
    if s[0] != ' ' {
      CutCommas(s[1..]);
      var before := CutAtSpace(s[1..]).value.0;
      assert ([s[0]] + before)[1..] == before;
    }
  }

  lemma {:induction false} FieldNeeds(spec: string)
    ensures ToField(spec).Ok? ==> NeedOf(ToField(spec).value) <= Commas(spec)
    decreases |spec|, 1
  {
    if CutAtSpace(spec).Some? {
      var (name, ty) := CutAtSpace(spec).value;
      CutCommas(spec);
      TrimQuotesKeepsCommas(name);
      TrimSpaceKeepsCommas(ty);
      ReadNeeds(TrimSpace(ty));
    }
  }

  lemma {:induction false} FieldsNeed(specs: seq<string>, bound: nat)
    requires forall i :: 0 <= i < |specs| ==> |specs[i]| <= bound
    ensures ToFields(specs, bound).Ok? ==>
              var fields := ToFields(specs, bound).value;
              && |fields| == |specs| && NeedAll(fields) <= CommasOf(specs)
              && forall i :: 0 <= i < |specs| ==> NeedOf(fields[i]) <= Commas(specs[i])
    decreases bound, |specs| + 1
  {
    if specs != [] {
      FieldNeeds(specs[0]);
      FieldsNeed(specs[1..], bound);
      var more := ToFields(specs[1..], bound);
      if ToField(specs[0]).Ok? && more.Ok? {
        assert ([ToField(specs[0]).value] + more.value)[1..] == more.value;
        assert forall i :: 1 <= i < |specs| ==> specs[i] == specs[1..][i - 1];
      }
    }
  }

  // ---------------------------------------------------------------- quoted names

  lemma {:induction false} DoubledIs(name: string)
    ensures ' ' in Doubled(name) <==> ' ' in name
    ensures Commas(Doubled(name)) == Commas(name)
    ensures |Doubled(name)| >= |name| && ('"' in name ==> |Doubled(name)| > |name|)
    ensures name != [] ==> Doubled(name)[0] == name[0]
  {
    if name != [] {
      var first, rest := if name[0] == '"' then "\"\"" else [name[0]], Doubled(name[1..]);
      DoubledIs(name[1..]);
      CommasConcat(first, rest);
      assert name == [name[0]] + name[1..];
      assert Commas(first) == if name[0] == ',' then 1 else 0 by {
        assert first[1..] == if name[0] == '"' then "\"" else "";
      }
    }
  }

  lemma {:induction false} DoubledEnds(name: string)
    requires name != []
    ensures Doubled(name) != [] && Doubled(name)[|Doubled(name)| - 1] == name[|name| - 1]
  {
    if |name| > 1 {
      DoubledEnds(name[1..]);
    } else {
      assert name[1..] == [];
    }
  }

  lemma OneScans(c: char, d: int)
    ensures Scan([c], d) == if c == ',' && d == 0 then None else Some(d + Turn(c))
    ensures Scan("\"\"", d) == Some(d)
  {
    assert "\"\""[1..] == "\"" && "\""[1..] == "";
    assert Scan("\"\"", d) == Scan("\"", d) == Scan("", d);
  }

  lemma {:induction false} DoubledScans(name: string, d: int)
    ensures Scan(Doubled(name), d) == Scan(name, d)
  {
    if name != [] {
      var first := if name[0] == '"' then "\"\"" else [name[0]];
      OneScans(name[0], d);
      ScanConcat(first, Doubled(name[1..]), d);
      DoubledScans(name[1..], d + Turn(name[0]));
    }
  }

  lemma QuotedIs(name: string, d: int)
    ensures ' ' in Quoted(name) <==> ' ' in name
    ensures Commas(Quoted(name)) == Commas(name)
    ensures Scan(Quoted(name), d) == Scan(name, d)
    ensures |Quoted(name)| >= 2 && Quoted(name)[0] == '"' && Quoted(name)[|Quoted(name)| - 1] == '"'
  {
    var inner := Doubled(name);
    DoubledIs(name);
    CommasConcat("\"" + inner, "\"");
    CommasConcat("\"", inner);
    assert "\""[1..] == "";
    DoubledScans(name, d);
    ScanConcat("\"", inner + "\"", d);
    ScanConcat(inner, "\"", d);
    assert Quoted(name) == "\"" + (inner + "\"");
  }

  lemma {:induction false} ScanConcat(a: string, b: string, d: int)
    ensures Scan(a + b, d) == if Scan(a, d).None? then None else Scan(b, Scan(a, d).value)
  {
    if a == [] {
      assert a + b == b;
    } else {
      assert (a + b)[1..] == a[1..] + b;
      if !(a[0] == ',' && d == 0) {
        ScanConcat(a[1..], b, d + Turn(a[0]));
      }
    }
  }

  lemma InnerStays(inner: string)
    requires inner != [] && inner[0] != '"' && inner[|inner| - 1] != '"'
    ensures TrimQuotes("\"" + inner + "\"") == inner
  {
    var right := inner + "\"";
    assert ("\"" + inner + "\"")[1..] == right && right[..|inner|] == inner;
    assert TrimLeft(right, IsQuote) == right;
    assert TrimRight(inner, IsQuote) == inner;
  }

  lemma {:induction false} QuotedTrims(name: string)
    requires name != [] && name[0] != '"' && name[|name| - 1] != '"'
    ensures TrimQuotes(Quoted(name)) == Doubled(name)
  {
    DoubledIs(name);
    DoubledEnds(name);
    InnerStays(Doubled(name));
  }

  /**
   A name with a quote in it is never read back: the quotes at its ends are trimmed, and those inside stay doubled.
   */
  lemma QuoteIsMisread(name: string)
    requires '"' in name
    ensures TrimQuotes(Quoted(name)) != name
  {
    TrimmedEnds(Quoted(name));
    DoubledIs(name);
    if name[0] != '"' && name[|name| - 1] != '"' {
      QuotedTrims(name);
    }
  }

  lemma {:induction false} TrimRightEnds(s: string)
    ensures var r := TrimRight(s, IsQuote); r <= s && (r == [] || r[|r| - 1] != '"')
  {
    if s != [] && IsQuote(s[|s| - 1]) {
      TrimRightEnds(s[..|s| - 1]);
    }
  }

  lemma {:induction false} TrimLeftStarts(s: string)
    ensures var r := TrimLeft(s, IsQuote); r == [] || r[0] != '"'
  {
    if s != [] && IsQuote(s[0]) {
      TrimLeftStarts(s[1..]);
    }
  }

  lemma TrimmedEnds(s: string)
    ensures var r := TrimQuotes(s); r == [] || (r[0] != '"' && r[|r| - 1] != '"')
  {
    TrimLeftStarts(s);
    TrimRightEnds(TrimLeft(s, IsQuote));
  }

  lemma NameCommas(p: Printer, name: string)
    ensures Commas(NameText(p, name)) == Commas(name)
  {
    QuotedIs(name, 0);
  }

  lemma FieldCommas(p: Printer, field: Field)
    ensures Commas(FieldText(p, field)) == Commas(field.name) + Commas(Text(p, field.ty))
  {
    NameCommas(p, field.name);
    CommasConcat(NameText(p, field.name), " ");
    CommasConcat(NameText(p, field.name) + " ", Text(p, field.ty));
    assert " "[1..] == "";
  }

  lemma BracketedCommas(keyword: string, inner: string)
    requires keyword == "struct(" || keyword == "map("
    ensures Commas(keyword + inner + ")") == Commas(inner)
  {
    SomeCommas(keyword);
    SomeCommas(")");
    CommasConcat(keyword, inner);
    CommasConcat(keyword + inner, ")");
  }

  /** The text has exactly the commas its type needs. */
  lemma {:induction false} TextCommas(p: Printer, t: Type)
    requires Written(p, t) && CommaFree(p, t)
    ensures Commas(Text(p, t)) == Need(t)
    decreases t
  {
    match t {
      case Prim(leaf) =>
        SomeCommas(p.spell(leaf));
      case ListLike(_, elem) =>
        TextCommas(p, elem);
        SomeCommas("[]");
        CommasConcat(Text(p, elem), "[]");
      case Struct(fields) =>
        FieldTextCommas(p, fields);
        JoinCommas(FieldTexts(p, fields));
        BracketedCommas("struct(", Join(FieldTexts(p, fields)));
      case MapOf(key, item) =>
        TextCommas(p, key);
        TextCommas(p, item);
        var texts := [Text(p, key), Text(p, item)];
        PairCommas(texts);
        JoinCommas(texts);
        BracketedCommas("map(", Join(texts));
    }
  }

  lemma {:induction false} FieldTextCommas(p: Printer, fields: seq<Field>)
    requires AllWritten(p, fields) && AllCommaFree(p, fields)
    ensures CommasOf(FieldTexts(p, fields)) == NeedAll(fields)
    ensures forall i :: 0 <= i < |fields| ==> Commas(FieldTexts(p, fields)[i]) == NeedOf(fields[i])
    decreases fields
  {
    if fields != [] {
      TextCommas(p, fields[0].ty);
      FieldCommas(p, fields[0]);
      FieldTextCommas(p, fields[1..]);
      assert FieldTexts(p, fields)[1..] == FieldTexts(p, fields[1..]);
    }
  }

  // ---------------------------------------------------------------- pieces with the right commas are the parts

  /** One character further. */
  lemma Further(s: string, elem: string, k: nat)
    requires s != [] && k <= |s[1..]|
    ensures s[..k + 1][1..] == s[1..][..k] && elem + [s[0]] + s[1..][..k] == elem + s[..k + 1]
    ensures s[1..][k..] == s[k + 1..]
    ensures k < |s[1..]| ==> s[1..][k] == s[k + 1] && s[1..][k + 1..] == s[k + 2..]
  {
  }

  /** The first cut is at a comma that the scan meets outside brackets. */
  lemma {:induction false} FirstCut(s: string, d: int, elem: string) returns (k: nat)
    requires |Pieces(s, d, elem)| > 1
    ensures k < |s| && s[k] == ',' && Scan(s[..k], d) == Some(0)
    ensures Pieces(s, d, elem) == [TrimSpace(elem + s[..k])] + Pieces(s[k + 1..], 0, [])
  {
    if s[0] == ',' && d == 0 {
      k := 0;
      assert elem + s[..0] == elem;
    } else {
      var l := FirstCut(s[1..], d + Turn(s[0]), elem + [s[0]]);
      Further(s, elem, l);
      k := l + 1;
      assert Scan(s[..k], d) == Scan(s[1..][..l], d + Turn(s[0]));
    }
  }

  lemma LaterHasMore(s: string, a: nat, b: nat)
    requires a < b <= |s| && s[a] == ','
    ensures Commas(s[..a]) < Commas(s[..b])
  {
    CommasConcat(s[..a], s[a..b]);
    assert s[..b] == s[..a] + s[a..b];
  }

  /** Two commas with equally many in front of them are the same. */
  lemma SameComma(s: string, k: nat, n: nat)
    requires k < |s| && n < |s| && s[k] == ',' == s[n] && Commas(s[..k]) == Commas(s[..n])
    ensures k == n
  {
    if k < n {
      LaterHasMore(s, k, n);
    } else if n < k {
      LaterHasMore(s, n, k);
    }
  }

  /** When the first piece has as many commas as the first part, it is cut off at the separator. */
  lemma CutAtSeparator(part: string, rest: string, lead: string)
    requires lead == [] || lead == " "
    requires var pieces := Pieces(part + ", " + rest, 0, lead); |pieces| > 1 && Commas(pieces[0]) == Commas(part)
    ensures Scan(part, 0) == Some(0)
    ensures exists first :: Pieces(part + ", " + rest, 0, lead) == [first] + Pieces(rest, 0, " ")
  {
    var joined := part + ", " + rest;
    var k := FirstCut(joined, 0, lead);
    TrimSpaceKeepsCommas(lead + joined[..k]);
    CommasConcat(lead, joined[..k]);
    SomeCommas(lead);
    assert joined[..|part|] == part && joined[|part|] == ',';
    SameComma(joined, k, |part|);
    assert joined[k + 1..] == " " + rest && (" " + rest)[1..] == rest && [] + [' '] == " ";
  }

  /** Pieces with as many commas as the parts are the parts. */
  lemma {:induction false} SameCommasSeparate(parts: seq<string>, lead: string)
    requires parts != [] && (lead == [] || lead == " ") && forall i :: 0 <= i < |parts| ==> Trimmed(parts[i])
    requires var pieces := Pieces(Join(parts), 0, lead);
      |pieces| == |parts| && forall i :: 0 <= i < |parts| ==> Commas(pieces[i]) == Commas(parts[i])
    ensures Separable(parts)
    decreases parts
  {
    if |parts| == 1 {
      OnePiece(parts[0], lead);
    } else {
      var pieces, later := Pieces(Join(parts), 0, lead), Pieces(Join(parts[1..]), 0, " ");
      CutAtSeparator(parts[0], Join(parts[1..]), lead);
      assert |later| == |parts| - 1 && forall i :: 0 <= i < |later| ==> later[i] == pieces[i + 1];
      SameCommasSeparate(parts[1..], " ");
      assert forall i :: 1 <= i < |parts| ==> parts[i] == parts[1..][i - 1];
    }
  }

  lemma OnePiece(part: string, lead: string)
    requires |Pieces(part, 0, lead)| == 1
    ensures Scan(part, 0).Some?
  {
    assert part + [] == part;
    var cut := ScanName(part, [], 0, lead);
  }

  lemma {:induction false} EachIsLeast(pieces: seq<string>, parts: seq<string>)
    requires |pieces| == |parts| && forall i :: 0 <= i < |parts| ==> Commas(pieces[i]) >= Commas(parts[i])
    ensures CommasOf(pieces) >= CommasOf(parts)
    ensures CommasOf(pieces) == CommasOf(parts) ==> forall i :: 0 <= i < |parts| ==>
              Commas(pieces[i]) == Commas(parts[i])
  {
    if parts != [] {
      EachIsLeast(pieces[1..], parts[1..]);
      if CommasOf(pieces) == CommasOf(parts) {
        forall i | 0 <= i < |parts| ensures Commas(pieces[i]) == Commas(parts[i]) {
          assert i > 0 ==> pieces[i] == pieces[1..][i - 1] && parts[i] == parts[1..][i - 1];
        }
      }
    }
  }

  /** When every piece has at least the commas of its part, the parts are separated where they were joined. */
  lemma EnoughCommasSeparate(parts: seq<string>)
    requires parts != [] && forall i :: 0 <= i < |parts| ==> Trimmed(parts[i])
    requires var pieces := SplitParams(Join(parts));
      |pieces| == |parts| && forall i :: 0 <= i < |parts| ==> Commas(pieces[i]) >= Commas(parts[i])
    ensures Separable(parts)
  {
    JoinCommas(parts);
    SplitCommas(Join(parts));
    EachIsLeast(SplitParams(Join(parts)), parts);
    JoinIsTrimmed(parts);
    TrimmedStays(Join(parts));
    SameCommasSeparate(parts, []);
  }

  /** The first comma at depth 0 in x cuts the piece there; without one, x goes into the piece as a whole. */
  lemma {:induction false} ScanName(x: string, rest: string, d: int, elem: string) returns (cut: nat)
    ensures Scan(x, d).Some? ==> Pieces(x + rest, d, elem) == Pieces(rest, Scan(x, d).value, elem + x)
    ensures Scan(x, d).None? ==>
              && cut < |x| && x[cut] == ','
              && Pieces(x + rest, d, elem) == [TrimSpace(elem + x[..cut])] + Pieces(x[cut + 1..] + rest, 0, [])
  {
    cut := 0;
    if Scan(x, d).Some? {
      PiecesSkim(x, rest, d, Scan(x, d).value, elem);
    } else if x[0] == ',' && d == 0 {
      assert (x + rest)[1..] == x[1..] + rest && elem + x[..0] == elem;
    } else {
      var k := ScanName(x[1..], rest, d + Turn(x[0]), elem + [x[0]]);
      Further(x, elem, k);
      cut := k + 1;
      assert (x + rest)[1..] == x[1..] + rest;
    }
  }

  // ---------------------------------------------------------------- what is read as a name

  lemma {:induction false} CutHasNoSpace(s: string)
    requires CutAtSpace(s).Some?
    ensures ' ' !in CutAtSpace(s).value.0
  {
    if s[0] != ' ' {
      CutHasNoSpace(s[1..]);
    }
  }

  lemma {:induction false} TrimsAreWithin(s: string, cut: char -> bool)
    ensures forall c :: c in TrimLeft(s, cut) ==> c in s
    ensures forall c :: c in TrimRight(s, cut) ==> c in s
  {
    if s != [] {
      TrimsAreWithin(s[1..], cut);
      TrimsAreWithin(s[..|s| - 1], cut);
      assert forall c :: c in s[1..] ==> c in s;
      assert forall c :: c in s[..|s| - 1] ==> c in s;
    }
  }

  /** A field that is read back from its text has a clean name and a type that is read back. */
  lemma FieldMeansClean(p: Printer, field: Field)
    requires Writable(p, field.name) && Trimmed(Text(p, field.ty)) && ToField(FieldText(p, field)) == Ok(field)
    ensures Clean(field.name) && ToArrow(Text(p, field.ty)) == Ok(field.ty)
  {
    var name := CutAtSpace(FieldText(p, field)).value.0;
    CutHasNoSpace(FieldText(p, field));
    TrimsAreWithin(name, IsQuote);
    TrimsAreWithin(TrimLeft(name, IsQuote), IsQuote);
    QuotedIs(field.name, 0);
    CutAfter(NameText(p, field.name), Text(p, field.ty));
    TrimmedStays(Text(p, field.ty));
    if '"' in field.name {
      QuoteIsMisread(field.name);
    }
  }

  lemma ToFieldsUncons(part: string, parts: seq<string>, fields: seq<Field>, bound: nat)
    requires |part| <= bound && (forall i :: 0 <= i < |parts| ==> |parts[i]| <= bound)
    requires ToFields([part] + parts, bound) == Ok(fields)
    ensures fields != [] && ToField(part) == Ok(fields[0]) && ToFields(parts, bound) == Ok(fields[1..])
  {
    assert ([part] + parts)[1..] == parts;
    var more := ToFields(parts, bound);
    assert more.Ok? ==> ([fields[0]] + more.value)[1..] == more.value;
  }

  lemma {:induction false} FieldsMeanClean(p: Printer, fields: seq<Field>, bound: nat)
    requires AllWritten(p, fields) && forall i :: 0 <= i < |fields| ==> |FieldTexts(p, fields)[i]| <= bound
    requires ToFields(FieldTexts(p, fields), bound) == Ok(fields)
    ensures forall i :: 0 <= i < |fields| ==>
              Clean(fields[i].name) && ToArrow(Text(p, fields[i].ty)) == Ok(fields[i].ty)
    decreases fields
  {
    if fields != [] {
      var later := FieldTexts(p, fields[1..]);
      assert forall i :: 0 <= i < |later| ==> later[i] == FieldTexts(p, fields)[i + 1];
      ToFieldsUncons(FieldText(p, fields[0]), later, fields, bound);
      TextIsTrimmed(p, fields[0].ty);
      FieldMeansClean(p, fields[0]);
      FieldsMeanClean(p, fields[1..], bound);
      assert forall i :: 1 <= i < |fields| ==> fields[i] == fields[1..][i - 1];
    }
  }

  lemma {:induction false} TextIsTrimmed(p: Printer, t: Type)
    requires Written(p, t)
    ensures Trimmed(Text(p, t))
    decreases t
  {
    if t.ListLike? {
      TextIsTrimmed(p, t.elem);
    }
  }

  lemma {:induction false} FieldsAreTrimmed(p: Printer, fields: seq<Field>)
    requires AllWritten(p, fields)
    ensures forall i :: 0 <= i < |fields| ==> Trimmed(FieldTexts(p, fields)[i])
    decreases fields
  {
    if fields != [] {
      TextIsTrimmed(p, fields[0].ty);
      FieldsAreTrimmed(p, fields[1..]);
    }
  }

  // ---------------------------------------------------------------- which types are read back

  /** The fields are read from the parts that the joined texts split into. */
  ghost predicate FieldsRead(p: Printer, fields: seq<Field>, bound: nat)
    requires fields != []
  {
    var parts := SplitParams(Join(FieldTexts(p, fields)));
    (forall i :: 0 <= i < |parts| ==> |parts[i]| <= bound) && ToFields(parts, bound) == Ok(fields)
  }

  lemma StructReads(p: Printer, fields: seq<Field>)
    requires fields != []
    ensures |Text(p, Struct(fields))| > 0
    ensures ToArrow(Text(p, Struct(fields))) == Ok(Struct(fields)) <==>
            FieldsRead(p, fields, |Text(p, Struct(fields))| - 1)
  {
    StructParams(Join(FieldTexts(p, fields)));
  }

  /** They were split into as many parts, with the commas the fields need. */
  lemma StructPieces(p: Printer, fields: seq<Field>, bound: nat)
    requires fields != [] && FieldsRead(p, fields, bound)
    ensures var pieces := SplitParams(Join(FieldTexts(p, fields)));
      |pieces| == |fields| && forall i :: 0 <= i < |fields| ==> NeedOf(fields[i]) <= Commas(pieces[i])
  {
    FieldsNeed(SplitParams(Join(FieldTexts(p, fields))), bound);
  }

  /** They were split where they had been joined. */
  lemma StructMeansSplit(p: Printer, fields: seq<Field>, bound: nat)
    requires fields != [] && AllWritten(p, fields) && AllCommaFree(p, fields) && FieldsRead(p, fields, bound)
    ensures Separable(FieldTexts(p, fields))
  {
    StructPieces(p, fields, bound);
    FieldTextCommas(p, fields);
    FieldsAreTrimmed(p, fields);
    EnoughCommasSeparate(FieldTexts(p, fields));
  }

  /** And then each of the fields is read back. */
  lemma StructMeansClean(p: Printer, fields: seq<Field>, bound: nat)
    requires fields != [] && AllWritten(p, fields) && Separable(FieldTexts(p, fields)) && FieldsRead(p, fields, bound)
    ensures forall i :: 0 <= i < |fields| ==>
              Clean(fields[i].name) && ToArrow(Text(p, fields[i].ty)) == Ok(fields[i].ty)
  {
    SplitOfJoin(FieldTexts(p, fields));
    FieldsMeanClean(p, fields, bound);
  }

  lemma MapParams(key: string, item: string)
    ensures ToArrow("map(" + Join([key, item]) + ")") ==
            var kv := SplitParams(Join([key, item]));
            if |kv| != 2 then Err(UnsupportedMap("map(" + Join([key, item]) + ")"))
              else MapFrom(ToArrow(kv[0]), ToArrow(kv[1]))
  {
    ParamsOf("map", Join([key, item]));
    KeywordText("map", Join([key, item]));
    assert "map" + "(" == "map(";
  }

  lemma StructMeans(p: Printer, fields: seq<Field>)
    requires fields != [] && AllWritten(p, fields) && AllCommaFree(p, fields)
    requires ToArrow(Text(p, Struct(fields))) == Ok(Struct(fields))
    ensures Separable(FieldTexts(p, fields))
    ensures forall i :: 0 <= i < |fields| ==>
              Clean(fields[i].name) && ToArrow(Text(p, fields[i].ty)) == Ok(fields[i].ty)
  {
    StructReads(p, fields);
    StructMeansSplit(p, fields, |Text(p, Struct(fields))| - 1);
    StructMeansClean(p, fields, |Text(p, Struct(fields))| - 1);
  }

  /** Key and item are read from the two parts that their joined texts split into. */
  ghost predicate PairRead(p: Printer, key: Type, item: Type) {
    var kv := SplitParams(Join([Text(p, key), Text(p, item)]));
    |kv| == 2 && ToArrow(kv[0]) == Ok(key) && ToArrow(kv[1]) == Ok(item)
  }

  lemma MapReads(p: Printer, key: Type, item: Type)
    ensures ToArrow(Text(p, MapOf(key, item))) == Ok(MapOf(key, item)) <==> PairRead(p, key, item)
  {
    var kv := SplitParams(Join([Text(p, key), Text(p, item)]));
    MapParams(Text(p, key), Text(p, item));
    if |kv| == 2 {
      BothRead(ToArrow(kv[0]), ToArrow(kv[1]), key, item);
    }
  }

  lemma BothRead(a: Result<Type, ParseError>, b: Result<Type, ParseError>, key: Type, item: Type)
    ensures MapFrom(a, b) == Ok(MapOf(key, item)) <==> a == Ok(key) && b == Ok(item)
  {
  }

  lemma MapMeansSplit(p: Printer, key: Type, item: Type)
    requires Written(p, key) && Written(p, item) && CommaFree(p, key) && CommaFree(p, item) && PairRead(p, key, item)
    ensures Separable([Text(p, key), Text(p, item)])
    ensures ToArrow(Text(p, key)) == Ok(key) && ToArrow(Text(p, item)) == Ok(item)
  {
    var texts := [Text(p, key), Text(p, item)];
    var kv := SplitParams(Join(texts));
    PairNeeds(kv, key, item);
    TextCommas(p, key);
    TextCommas(p, item);
    TextIsTrimmed(p, key);
    TextIsTrimmed(p, item);
    EnoughCommasSeparate(texts);
    SplitOfJoin(texts);
  }

  lemma PairNeeds(kv: seq<string>, key: Type, item: Type)
    requires |kv| == 2 && ToArrow(kv[0]) == Ok(key) && ToArrow(kv[1]) == Ok(item)
    ensures Need(key) <= Commas(kv[0]) && Need(item) <= Commas(kv[1])
  {
    ReadNeeds(kv[0]);
    ReadNeeds(kv[1]);
  }

  lemma {:induction false} ReadMeansSplit(p: Printer, t: Type)
    requires Written(p, t) && CommaFree(p, t) && ToArrow(Text(p, t)) == Ok(t)
    ensures Splits(p, t)
    decreases t
  {
    match t {
      case Prim(_) =>
      case ListLike(_, elem) =>
        ListText(Text(p, elem));
        ReadMeansSplit(p, elem);
      case Struct(fields) =>
        StructMeans(p, fields);
        FieldsMeanSplit(p, fields);
      case MapOf(key, item) =>
        MapReads(p, key, item);
        MapMeansSplit(p, key, item);
        ReadMeansSplit(p, key);
        ReadMeansSplit(p, item);
    }
  }

  lemma {:induction false} FieldsMeanSplit(p: Printer, fields: seq<Field>)
    requires AllWritten(p, fields) && AllCommaFree(p, fields)
    requires forall i :: 0 <= i < |fields| ==>
              Clean(fields[i].name) && ToArrow(Text(p, fields[i].ty)) == Ok(fields[i].ty)
    ensures AllSplit(p, fields)
    decreases fields
  {
    if fields != [] {
      ReadMeansSplit(p, fields[0].ty);
      assert forall i :: 0 <= i < |fields[1..]| ==> fields[1..][i] == fields[i + 1];
      FieldsMeanSplit(p, fields[1..]);
    }
  }

  /** A type that passes the test is read back, whatever commas its leaves are spelled with. */
  lemma {:induction false} SplitIsRead(p: Printer, t: Type)
    requires Written(p, t) && Splits(p, t)
    ensures ToArrow(Text(p, t)) == Ok(t)
    decreases t
  {
    match t {
      case Prim(_) =>
      case ListLike(_, elem) =>
        SplitIsRead(p, elem);
        ListText(Text(p, elem));
      case Struct(fields) =>
        StructText(FieldTexts(p, fields));
        SplitFieldsAreRead(p, fields, |Text(p, t)| - 1);
      case MapOf(key, item) =>
        MapReads(p, key, item);
        SplitOfJoin([Text(p, key), Text(p, item)]);
        SplitIsRead(p, key);
        SplitIsRead(p, item);
    }
  }

  lemma {:induction false} SplitFieldsAreRead(p: Printer, fields: seq<Field>, bound: nat)
    requires AllWritten(p, fields) && AllSplit(p, fields)
    requires forall i :: 0 <= i < |fields| ==> |FieldTexts(p, fields)[i]| <= bound
    ensures ToFields(FieldTexts(p, fields), bound) == Ok(fields)
    decreases fields
  {
    if fields != [] {
      var texts, later := FieldTexts(p, fields), FieldTexts(p, fields[1..]);
      assert texts[1..] == later;
      forall i | 0 <= i < |later| ensures |later[i]| <= bound {
        assert later[i] == texts[i + 1];
      }
      SplitIsRead(p, fields[0].ty);
      TextIsTrimmed(p, fields[0].ty);
      FieldReads(p, fields[0]);
      SplitFieldsAreRead(p, fields[1..], bound);
      ToFieldsCons(texts[0], later, fields, bound);
    }
  }

  /** A type whose leaves are spelled without commas is read back from its text if and only if it passes the test. */
  lemma TypeIsReadIff(p: Printer, t: Type)
    requires Written(p, t) && CommaFree(p, t)
    ensures ToArrow(Text(p, t)) == Ok(t) <==> Splits(p, t)
  {
    if ToArrow(Text(p, t)) == Ok(t) {
      ReadMeansSplit(p, t);
    }
    if Splits(p, t) {
      SplitIsRead(p, t);
    }
  }
}
