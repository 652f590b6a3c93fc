/** Which field names are read back: a test on each name of a struct, and what the names that fail it do. */
module DuckDbNames {
  import opened Basics
  import opened DuckDbTexts
  import opened DuckDbTypes

  // ---------------------------------------------------------------- the test on the names of one struct

  /**
   The test on one name: no space, no quote, and scanning it meets no comma outside brackets and ends outside them.
   The last name may leave brackets open, and may close too many when its type's text has no comma that is then cut.
   */
  predicate Kept(p: Printer, field: Field, last: bool) {
    Clean(field.name) &&
    match Scan(field.name, 0)
    case None => false
    case Some(e) => e == 0 || (last && Scan(Text(p, field.ty), e).Some?)
  }

  predicate AllKept(p: Printer, fields: seq<Field>) {
    forall i :: 0 <= i < |fields| ==> Kept(p, fields[i], i + 1 == |fields|)
  }

  ghost predicate TypesReadable(p: Printer, fields: seq<Field>) {
    forall i :: 0 <= i < |fields| ==> Readable(p, fields[i].ty)
  }

  lemma {:induction false} EachWritten(p: Printer, fields: seq<Field>)
    requires forall i :: 0 <= i < |fields| ==> Writable(p, fields[i].name) && Written(p, fields[i].ty)
    ensures AllWritten(p, fields)
    ensures (forall i :: 0 <= i < |fields| ==> CommaFree(p, fields[i].ty)) ==> AllCommaFree(p, fields)
    decreases fields
  {
    if fields != [] {
      EachWritten(p, fields[1..]);
    }
  }

  lemma {:induction false} ReadableSplits(p: Printer, t: Type)
    requires Readable(p, t)
    ensures Written(p, t) && Splits(p, t)
    decreases t
  {
    match t {
      case Prim(_) =>
      case ListLike(_, elem) =>
        ReadableSplits(p, elem);
      case Struct(fields) =>
        FieldTextsAreParts(p, fields);
        PartsAreSeparable(FieldTexts(p, fields));
        ReadableFieldsSplit(p, fields);
      case MapOf(key, item) =>
        TextIsPart(p, key);
        TextIsPart(p, item);
        PartsAreSeparable([Text(p, key), Text(p, item)]);
        ReadableSplits(p, key);
        ReadableSplits(p, item);
    }
  }

  lemma {:induction false} ReadableFieldsSplit(p: Printer, fields: seq<Field>)
    requires AllReadable(p, fields)
    ensures AllWritten(p, fields) && AllSplit(p, fields)
    decreases fields
  {
    if fields != [] {
      ReadableSplits(p, fields[0].ty);
      ReadableFieldsSplit(p, fields[1..]);
    }
  }

  /** A type over safe names is read back from its text, whatever the nesting and the spelling of the leaves. */
  lemma TextRoundTrip(p: Printer, t: Type)
    requires Readable(p, t)
    ensures ToArrow(Text(p, t)) == Ok(t)
  {
    ReadableSplits(p, t);
    SplitIsRead(p, t);
  }

  lemma {:induction false} CleanIffAllSplit(p: Printer, fields: seq<Field>)
    requires TypesReadable(p, fields)
    ensures AllSplit(p, fields) <==> forall i :: 0 <= i < |fields| ==> Clean(fields[i].name)
    decreases fields
  {
    if fields != [] {
      ReadableSplits(p, fields[0].ty);
      assert forall i :: 0 <= i < |fields[1..]| ==> fields[1..][i] == fields[i + 1];
      CleanIffAllSplit(p, fields[1..]);
      assert (forall i :: 0 <= i < |fields[1..]| ==> Clean(fields[1..][i].name)) <==>
             (forall i :: 1 <= i < |fields| ==> Clean(fields[i].name)) by {
        assert forall i :: 1 <= i < |fields| ==> fields[i] == fields[1..][i - 1];
      }
    }
  }

  lemma {:induction false} SameTurns(s: string, a: int, b: int)
    requires Scan(s, a).Some? && Scan(s, b).Some?
    ensures Scan(s, a).value - a == Scan(s, b).value - b
  {
    if s != [] {
      SameTurns(s[1..], a + Turn(s[0]), b + Turn(s[0]));
    }
  }

  lemma ScanSpaced(x: string, text: string)
    requires Skims(text, 0, 0)
    ensures Scan(x + " " + text, 0) ==
            match Scan(x, 0)
            case None => None
            case Some(e) => if Scan(text, e).Some? then Some(e) else None
  {
    assert x + " " + text == x + (" " + text) && (" " + text)[1..] == text;
    ScanConcat(x, " " + text, 0);
    if Scan(x, 0).Some? && Scan(text, Scan(x, 0).value).Some? {
      SameTurns(text, 0, Scan(x, 0).value);
    }
  }

  /** A field's text is scanned like its name, unless the type has a comma at the depth the name ends at. */
  lemma FieldScan(p: Printer, field: Field)
    requires Readable(p, field.ty)
    ensures Scan(FieldText(p, field), 0) ==
            match Scan(field.name, 0)
            case None => None
            case Some(e) => if Scan(Text(p, field.ty), e).Some? then Some(e) else None
    ensures Skims(Text(p, field.ty), 0, 0)
  {
    QuotedIs(field.name, 0);
    TextIsPart(p, field.ty);
    assert Skims(Text(p, field.ty), 0, 0);
    ScanSpaced(NameText(p, field.name), Text(p, field.ty));
  }

  lemma {:induction false} TextAt(p: Printer, fields: seq<Field>, i: nat)
    requires i < |fields|
    ensures FieldTexts(p, fields)[i] == FieldText(p, fields[i])
    decreases fields
  {
    if i > 0 {
      TextAt(p, fields[1..], i - 1);
    }
  }

  lemma SeparableIff(p: Printer, fields: seq<Field>)
    requires AllWritten(p, fields) && TypesReadable(p, fields) && forall i :: 0 <= i < |fields| ==>
              Clean(fields[i].name)
    ensures Separable(FieldTexts(p, fields)) <==> AllKept(p, fields)
  {
    var texts := FieldTexts(p, fields);
    FieldsAreTrimmed(p, fields);
    forall i | 0 <= i < |fields|
      ensures Kept(p, fields[i], i + 1 == |fields|) <==>
              Scan(texts[i], 0).Some? && (i + 1 < |fields| ==> Scan(texts[i], 0) == Some(0))
    {
      TextAt(p, fields, i);
      FieldScan(p, fields[i]);
    }
  }

  /**
   A struct over readable types, whose leaves are spelled without commas, is read back if and only if every name
   passes its test, be it quoted or not.
   */
  lemma NamesAreReadIff(p: Printer, fields: seq<Field>)
    requires Written(p, Struct(fields)) && CommaFree(p, Struct(fields)) && TypesReadable(p, fields)
    ensures ToArrow(Text(p, Struct(fields))) == Ok(Struct(fields)) <==> AllKept(p, fields)
  {
    TypeIsReadIff(p, Struct(fields));
    CleanIffAllSplit(p, fields);
    if AllKept(p, fields) {
      forall i | 0 <= i < |fields| ensures Clean(fields[i].name) {
        assert Kept(p, fields[i], i + 1 == |fields|);
      }
      SeparableIff(p, fields);
    }
    if AllSplit(p, fields) {
      SeparableIff(p, fields);
    }
  }

  // ---------------------------------------------------------------- leaves spelled with commas

  /** How often splitting cuts. */
  function Cuts(s: string, d: int): nat {
    if s == [] then 0 else if s[0] == ',' && d == 0 then 1 + Cuts(s[1..], 0) else Cuts(s[1..], d + Turn(s[0]))
  }

  function Depth(s: string, d: int): int {
    if s == [] then d else Depth(s[1..], d + Turn(s[0]))
  }

  lemma {:induction false} PiecesAreCuts(s: string, d: int, elem: string)
    ensures |Pieces(s, d, elem)| == Cuts(s, d) + 1
    decreases s
  {
    if s != [] {
      if s[0] == ',' && d == 0 {
        PiecesAreCuts(s[1..], 0, []);
      } else {
        PiecesAreCuts(s[1..], d + Turn(s[0]), elem + [s[0]]);
      }
    }
  }

  lemma {:induction false} CutsConcat(a: string, b: string, d: int)
    ensures Cuts(a + b, d) == Cuts(a, d) + Cuts(b, Depth(a, d)) && Depth(a + b, d) == Depth(b, Depth(a, d))
  {
    if a == [] {
      assert a + b == b;
    } else {
      assert (a + b)[1..] == a[1..] + b;
      CutsConcat(a[1..], b, d + Turn(a[0]));
    }
  }

  lemma {:induction false} ScanHasNoCuts(s: string, d: int)
    requires Scan(s, d).Some?
    ensures Cuts(s, d) == 0 && Depth(s, d) == Scan(s, d).value
  {
    if s != [] {
      ScanHasNoCuts(s[1..], d + Turn(s[0]));
    }
  }

  predicate BracketFree(s: string) {
    '(' !in s && ')' !in s
  }

  lemma {:induction false} BracketFreeCuts(s: string)
    requires BracketFree(s)
    ensures Cuts(s, 0) == Commas(s) && Depth(s, 0) == 0
  {
    if s != [] {
      assert s == [s[0]] + s[1..];
      BracketFreeCuts(s[1..]);
    }
  }

  lemma {:induction false} DoubledIsWithin(name: string)
    ensures forall c :: c in Doubled(name) ==> c in name
  {
    if name != [] {
      DoubledIsWithin(name[1..]);
      assert name == [name[0]] + name[1..];
    }
  }

  lemma FieldCuts(p: Printer, field: Field)
    requires BracketFree(field.name) && Readable(p, field.ty)
    ensures Cuts(FieldText(p, field), 0) == Commas(field.name) && Depth(FieldText(p, field), 0) == 0
  {
    var x, text := NameText(p, field.name), Text(p, field.ty);
    DoubledIsWithin(field.name);
    BracketFreeCuts(x);
    NameCommas(p, field.name);
    TextIsPart(p, field.ty);
    assert Skims(text, 0, 0);
    ScanHasNoCuts(text, 0);
    CutsConcat(x, " ", 0);
    CutsConcat(x + " ", text, 0);
    assert " "[1..] == "";
  }

  /** Splitting cuts at every separator and at every comma in a name. */
  lemma {:induction false} JoinedCuts(p: Printer, fields: seq<Field>)
    requires fields != [] && TypesReadable(p, fields) && forall i :: 0 <= i < |fields| ==> BracketFree(fields[i].name)
    ensures Cuts(Join(FieldTexts(p, fields)), 0) >= |fields| - 1
    ensures Cuts(Join(FieldTexts(p, fields)), 0) == |fields| - 1 ==> forall i :: 0 <= i < |fields| ==>
              ',' !in fields[i].name
    decreases fields
  {
    FieldCuts(p, fields[0]);
    SomeCommas(fields[0].name);
    if |fields| > 1 {
      var first, rest := FieldText(p, fields[0]), FieldTexts(p, fields[1..]);
      assert forall i :: 1 <= i < |fields| ==> fields[i] == fields[1..][i - 1];
      JoinedCuts(p, fields[1..]);
      assert FieldTexts(p, fields)[1..] == rest;
      CutsConcat(first, ", ", 0);
      CutsConcat(first + ", ", Join(rest), 0);
      assert ", "[1..] == " " && " "[1..] == "";
    }
  }

  lemma CommaFreeKept(p: Printer, fields: seq<Field>)
    requires forall i :: 0 <= i < |fields| ==>
               Clean(fields[i].name) && ',' !in fields[i].name && BracketFree(fields[i].name)
    ensures AllKept(p, fields)
  {
    forall i | 0 <= i < |fields| ensures Kept(p, fields[i], i + 1 == |fields|) {
      FlatIsNested(fields[i].name, 0);
    }
  }

  /**
   However the leaves are spelled: a struct over readable types and names without brackets is read back if and only if
   no name has a space, a quote or a comma.
   */
  lemma BracketFreeNamesAreReadIff(p: Printer, fields: seq<Field>)
    requires Written(p, Struct(fields)) && TypesReadable(p, fields)
    requires forall i :: 0 <= i < |fields| ==> BracketFree(fields[i].name)
    ensures ToArrow(Text(p, Struct(fields))) == Ok(Struct(fields)) <==>
            forall i :: 0 <= i < |fields| ==> Clean(fields[i].name) && ',' !in fields[i].name
  {
    var texts := FieldTexts(p, fields);
    if ToArrow(Text(p, Struct(fields))) == Ok(Struct(fields)) {
      BracketFreeNamesAreClean(p, fields);
    }
    if forall i :: 0 <= i < |fields| ==> Clean(fields[i].name) && ',' !in fields[i].name {
      CommaFreeKept(p, fields);
      SeparableIff(p, fields);
      CleanIffAllSplit(p, fields);
      SplitIsRead(p, Struct(fields));
    }
  }

  lemma BracketFreeNamesAreClean(p: Printer, fields: seq<Field>)
    requires Written(p, Struct(fields)) && TypesReadable(p, fields)
    requires forall i :: 0 <= i < |fields| ==> BracketFree(fields[i].name)
    requires ToArrow(Text(p, Struct(fields))) == Ok(Struct(fields))
    ensures forall i :: 0 <= i < |fields| ==> Clean(fields[i].name) && ',' !in fields[i].name
  {
    var bound := |Text(p, Struct(fields))| - 1;
    StructReads(p, fields);
    StructPieces(p, fields, bound);
    SplitCuts(p, fields);
    JoinedCuts(p, fields);
    CommaFreeTextsSeparate(p, fields);
    StructMeansClean(p, fields, bound);
  }

  lemma SplitCuts(p: Printer, fields: seq<Field>)
    requires fields != [] && AllWritten(p, fields)
    ensures var inner := Join(FieldTexts(p, fields));
      |SplitParams(inner)| == Cuts(inner, 0) + 1 && SplitParams(inner) == Pieces(inner, 0, [])
  {
    FieldsAreTrimmed(p, fields);
    JoinIsTrimmed(FieldTexts(p, fields));
    TrimmedStays(Join(FieldTexts(p, fields)));
    PiecesAreCuts(Join(FieldTexts(p, fields)), 0, []);
  }

  lemma CommaFreeTextsSeparate(p: Printer, fields: seq<Field>)
    requires AllWritten(p, fields) && TypesReadable(p, fields)
    requires forall i :: 0 <= i < |fields| ==> ',' !in fields[i].name && BracketFree(fields[i].name)
    ensures Separable(FieldTexts(p, fields))
  {
    FieldsAreTrimmed(p, fields);
    forall i | 0 <= i < |fields| ensures Scan(FieldTexts(p, fields)[i], 0) == Some(0) {
      TextAt(p, fields, i);
      FlatIsNested(fields[i].name, 0);
      FieldScan(p, fields[i]);
    }
  }

  // ---------------------------------------------------------------- names that make the parser panic

  lemma {:induction false} NothingToCut(s: string)
    requires ' ' !in s
    ensures CutAtSpace(s).None?
  {
    if s != [] {
      assert s[0] in s && forall c :: c in s[1..] ==> c in s;
      NothingToCut(s[1..]);
    }
  }

  /** A part that has no space, or none but the one left by a separator, has no name. */
  lemma PartWithoutSpace(lead: string, a: string)
    requires ' ' !in a && (lead == [] || (lead == " " && a != [] && !IsSpace(a[0])))
    ensures CutAtSpace(TrimSpace(lead + a)).None?
  {
    if lead == " " {
      assert (lead + a)[1..] == a;
      assert TrimLeft(lead + a, IsSpace) == TrimLeft(a, IsSpace) == a;
    } else {
      assert lead + a == a;
    }
    TrimsAreWithin(a, IsSpace);
    TrimsAreWithin(TrimLeft(a, IsSpace), IsSpace);
    NothingToCut(TrimSpace(lead + a));
  }

  lemma CutNameHasNone(x: string, cut: nat, lead: string)
    requires ' ' !in x && cut < |x| && x[cut] == ',' && !IsSpace(x[0]) && (lead == [] || lead == " ")
    ensures lead == [] || cut > 0 ==> CutAtSpace(TrimSpace(lead + x[..cut])).None?
    ensures lead == " " && cut == 0 ==> CutAtSpace(TrimSpace(lead + x[..cut])).None?
  {
    assert forall c :: c in x[..cut] ==> c in x;
    if lead == " " && cut == 0 {
      assert lead + x[..cut] == " " && " "[1..] == "";
      assert TrimSpace(" ") == "";
    } else {
      PartWithoutSpace(lead, x[..cut]);
    }
  }

  lemma NameFirst(p: Printer, fields: seq<Field>) returns (tail: string)
    requires fields != []
    ensures Join(FieldTexts(p, fields)) == NameText(p, fields[0].name) + tail
  {
    var x, rest := NameText(p, fields[0].name), FieldTexts(p, fields[1..]);
    var later := if rest == [] then [] else ", " + Join(rest);
    tail := " " + Text(p, fields[0].ty) + later;
    assert FieldTexts(p, fields)[1..] == rest;
    assert FieldText(p, fields[0]) + later == x + tail;
    assert rest != [] ==> FieldText(p, fields[0]) + ", " + Join(rest) == FieldText(p, fields[0]) + later;
  }

  lemma FirstCutHasNoSpace(p: Printer, fields: seq<Field>, lead: string)
    requires fields != [] && Writable(p, fields[0].name) && (lead == [] || lead == " ")
    requires ' ' !in fields[0].name && Scan(fields[0].name, 0).None?
    ensures CutAtSpace(Pieces(Join(FieldTexts(p, fields)), 0, lead)[0]).None?
  {
    var x := NameText(p, fields[0].name);
    var tail := NameFirst(p, fields);
    QuotedIs(fields[0].name, 0);
    var cut := ScanName(x, tail, 0, lead);
    CutNameHasNone(x, cut, lead);
  }

  lemma FirstFieldIsSplitOff(p: Printer, fields: seq<Field>, lead: string)
    requires |fields| > 1 && AllWritten(p, fields) && Readable(p, fields[0].ty) && (lead == [] || lead == " ")
    requires Scan(fields[0].name, 0) == Some(0)
    ensures Pieces(Join(FieldTexts(p, fields)), 0, lead) ==
            [FieldText(p, fields[0])] + Pieces(Join(FieldTexts(p, fields[1..])), 0, " ")
  {
    FieldsAreTrimmed(p, fields);
    FieldScan(p, fields[0]);
    FirstPiece(FieldText(p, fields[0]), Join(FieldTexts(p, fields[1..])), lead);
    assert FieldTexts(p, fields)[1..] == FieldTexts(p, fields[1..]);
  }

  /** Splitting gives a part without a space: the front of the name that is cut. */
  lemma {:induction false} CutNameHasNoSpace(p: Printer, fields: seq<Field>, i: nat, lead: string) returns (k: nat)
    requires i < |fields| && AllWritten(p, fields) && TypesReadable(p, fields) && (lead == [] || lead == " ")
    requires forall j :: 0 <= j < i ==> Scan(fields[j].name, 0) == Some(0)
    requires ' ' !in fields[i].name && Scan(fields[i].name, 0).None?
    ensures var parts := Pieces(Join(FieldTexts(p, fields)), 0, lead); k < |parts| && CutAtSpace(parts[k]).None?
    decreases fields
  {
    if i == 0 {
      FirstCutHasNoSpace(p, fields, lead);
      k := 0;
    } else {
      FirstFieldIsSplitOff(p, fields, lead);
      assert forall j :: 0 <= j < |fields[1..]| ==> fields[1..][j] == fields[j + 1];
      var l := CutNameHasNoSpace(p, fields[1..], i - 1, " ");
      k := l + 1;
      assert Pieces(Join(FieldTexts(p, fields)), 0, lead)[k] == Pieces(Join(FieldTexts(p, fields[1..])), 0, " ")[l];
    }
  }

  lemma {:induction false} PartWithoutSpacePanics(specs: seq<string>, bound: nat, k: nat)
    requires (forall i :: 0 <= i < |specs| ==> |specs[i]| <= bound) && k < |specs| && CutAtSpace(specs[k]).None?
    ensures ToFields(specs, bound).Err?
  {
    if k > 0 {
      PartWithoutSpacePanics(specs[1..], bound, k - 1);
    }
  }

  lemma StructTextPanics(inner: string, k: nat)
    requires k < |SplitParams(inner)| && CutAtSpace(SplitParams(inner)[k]).None?
    ensures ToArrow("struct(" + inner + ")").Err?
  {
    StructParams(inner);
    PartWithoutSpacePanics(SplitParams(inner), |"struct(" + inner + ")"| - 1, k);
  }

  /**
   A name without a space that has a comma outside brackets makes the parser panic, behind names with balanced
   brackets.
   */
  lemma CommaInNamePanics(p: Printer, fields: seq<Field>, i: nat)
    requires AllWritten(p, fields) && TypesReadable(p, fields) && i < |fields|
    requires forall j :: 0 <= j < i ==> Scan(fields[j].name, 0) == Some(0)
    requires ' ' !in fields[i].name && Scan(fields[i].name, 0).None?
    ensures ToArrow(Text(p, Struct(fields))).Err?
  {
    SplitCuts(p, fields);
    var k := CutNameHasNoSpace(p, fields, i, []);
    StructTextPanics(Join(FieldTexts(p, fields)), k);
  }

  lemma CommaScan()
    ensures Scan("a,b", 0) == None && Scan("id", 0) == Some(0)
  {
    assert "a,b"[1..] == ",b";
    FlatIsNested("id", 0);
  }

  /** A comma in a quoted name panics, also behind a plain name. */
  lemma CommaIsMisread(p: Printer, t: Type)
    requires p.quotes("a,b") && Readable(p, t)
    ensures ToArrow(Text(p, Struct([Field("id", t), Field("a,b", t)]))).Err?
  {
    var fields := [Field("id", t), Field("a,b", t)];
    ReadableSplits(p, t);
    EachWritten(p, fields);
    CommaScan();
    CommaInNamePanics(p, fields, 1);
  }

  lemma OpenIsKept(p: Printer, t: Type, last: bool)
    requires Readable(p, t)
    ensures Kept(p, Field("a(", t), last) <==> last
  {
    assert Scan("a(", 0) == Scan("(", 0) == Scan("", 1) == Some(1) by {
      assert "a("[1..] == "(" && "("[1..] == "";
    }
    TextIsPart(p, t);
    assert Skims(Text(p, t), 1, 1);
  }

  lemma PlainIsKept(p: Printer, t: Type, last: bool)
    ensures Kept(p, Field("b", t), last)
  {
    FlatIsNested("b", 0);
  }

  /** An open bracket in a name is read back if and only if the name is the last. */
  lemma BracketIsMisread(p: Printer, t: Type)
    requires p.quotes("a(") && Readable(p, t) && CommaFree(p, t)
    ensures ToArrow(Text(p, Struct([Field("a(", t), Field("b", t)]))) != Ok(Struct([Field("a(", t), Field("b", t)]))
    ensures ToArrow(Text(p, Struct([Field("b", t), Field("a(", t)]))) == Ok(Struct([Field("b", t), Field("a(", t)]))
  {
    ReadableSplits(p, t);
    OpenIsKept(p, t, false);
    OpenIsKept(p, t, true);
    PlainIsKept(p, t, false);
    TwoFields(p, Field("a(", t), Field("b", t));
    TwoFields(p, Field("b", t), Field("a(", t));
  }

  lemma TwoFields(p: Printer, a: Field, b: Field)
    requires Writable(p, a.name) && Writable(p, b.name) && Readable(p, a.ty) && Readable(p, b.ty)
    requires CommaFree(p, a.ty) && CommaFree(p, b.ty)
    ensures ToArrow(Text(p, Struct([a, b]))) == Ok(Struct([a, b])) <==> Kept(p, a, false) && Kept(p, b, true)
  {
    var fields := [a, b];
    ReadableSplits(p, a.ty);
    ReadableSplits(p, b.ty);
    EachWritten(p, fields);
    NamesAreReadIff(p, fields);
    assert AllKept(p, fields) <==> Kept(p, fields[0], false) && Kept(p, fields[1], true);
  }

  // ---------------------------------------------------------------- a comma in a spelling can hide a cut

  lemma {:induction false} InsideIsFlat(s: string, d: int)
    requires d != 0 && BracketFree(s)
    ensures Skims(s, d, d)
  {
    if s != [] {
      assert s == [s[0]] + s[1..];
      InsideIsFlat(s[1..], d);
    }
  }

  lemma Turns(d: int)
    ensures Skims("(", d, d + 1) && Skims(")", d, d - 1)
  {
    assert "("[1..] == "" && ")"[1..] == "";
  }

  /** A spelling w,y) with one bracket opened in w, as decimal(18 and 3, and two names that fit around its comma. */
  ghost predicate Hides(p: Printer, w: string, y: string, name: string) {
    && p.spell(String) == w + "," + y + ")" && LeafNamed(w) == String && Trimmed(w) && ' ' !in w
    && !HasSuffix(w, "[]") && !HasPrefix(w, "struct") && !HasPrefix(w, "map")
    && Skims(w, -1, 0) && Skims(w, -2, -1)
    && ToArrow(Quoted(y + "),") + " " + p.spell(String)) == Ok(Prim(String))
    && Clean(y) && ',' !in y && BracketFree(y) && y != [] && !IsSpace(y[0])
    && Clean(name) && Skims(name, 0, -1) && p.quotes(name) && p.quotes(y + "),")
  }

  function Hiding(y: string, name: string): seq<Field> {
    [Field(name, Prim(String)), Field(y + "),", Prim(String))]
  }

  function Front(w: string, name: string): string {
    Quoted(name) + " " + w
  }

  function Rest(w: string, y: string): string {
    y + ")" + (", " + Quoted(y + "),") + " " + w) + ("," + y + ")")
  }

  lemma FrontIsPiece(p: Printer, w: string, y: string, name: string)
    requires Hides(p, w, y, name)
    ensures Skims(Front(w, name), 0, 0) && Trimmed(Front(w, name))
    ensures ToField(Front(w, name)) == Ok(Field(name, Prim(String)))
  {
    QuotedIs(name, 0);
    assert Skims(w, -1, 0);
    assert Scan(" ", -1) == Some(-1) by {
      assert " "[1..] == "";
    }
    SkimsConcat(Quoted(name), " ", 0, -1, -1);
    SkimsConcat(Quoted(name) + " ", w, 0, -1, 0);
    CutAfter(Quoted(name), w);
    NothingDoubled(name);
    Unquoted(name);
    TrimmedStays(w);
  }

  lemma RestSkims(p: Printer, w: string, y: string, name: string)
    requires Hides(p, w, y, name)
    ensures Skims(Rest(w, y), 0, -2)
  {
    var other := Quoted(y + "),");
    FlatIsNested(y, 0);
    FlatIsNested(y, -1);
    Turns(0);
    Turns(-1);
    SkimsConcat(y, ")", 0, 0, -1);
    InsideIsFlat(", ", -1);
    InsideIsFlat(",", -2);
    SkimsConcat(y, ")", -1, -1, -2);
    SkimsConcat(y + ")", ",", -1, -2, -2);
    assert y + ")" + "," == y + "),";
    QuotedIs(y + "),", -1);
    SkimsConcat(", ", other, -1, -1, -2);
    InsideIsFlat(" ", -2);
    SkimsConcat(", " + other, " ", -1, -2, -2);
    assert Skims(w, -2, -1);
    SkimsConcat(", " + other + " ", w, -1, -2, -1);
    SkimsConcat(y + ")", ", " + other + " " + w, 0, -1, -1);
    InsideIsFlat(",", -1);
    SkimsConcat(",", y, -1, -1, -1);
    SkimsConcat("," + y, ")", -1, -1, -2);
    SkimsConcat(y + ")" + (", " + other + " " + w), "," + y + ")", 0, -1, -2);
  }

  lemma PartReads(name: string, text: string, ty: Type)
    requires Clean(name) && Trimmed(text) && ToArrow(text) == Ok(ty)
    ensures ToField(name + " " + text) == Ok(Field(name, ty))
  {
    CutAfter(name, text);
    NothingToTrim(name);
    TrimmedStays(text);
  }

  lemma RestReads(p: Printer, w: string, y: string, name: string)
    requires Hides(p, w, y, name)
    ensures Trimmed(Rest(w, y)) && ToField(Rest(w, y)) == Ok(Field(y + "),", Prim(String)))
  {
    RestIs(w, y);
    QuotedIs(y + "),", 0);
    PartReads(y + "),", Quoted(y + "),") + " " + (w + "," + y + ")"), Prim(String));
  }

  lemma RestIs(w: string, y: string)
    ensures Rest(w, y) == y + ")," + " " + (Quoted(y + "),") + " " + (w + "," + y + ")"))
  {
  }

  lemma TwoTexts(p: Printer, a: Field, b: Field)
    ensures FieldTexts(p, [a, b]) == [FieldText(p, a), FieldText(p, b)]
    ensures Join([FieldText(p, a), FieldText(p, b)]) == FieldText(p, a) + ", " + FieldText(p, b)
  {
    assert [a, b][1..] == [b] && [b][1..] == [];
    assert FieldTexts(p, [b]) == [FieldText(p, b)];
    assert [FieldText(p, a), FieldText(p, b)][1..] == [FieldText(p, b)];
  }

  lemma HidingJoined(p: Printer, w: string, y: string, name: string)
    requires Hides(p, w, y, name)
    ensures Join(FieldTexts(p, Hiding(y, name))) == Front(w, name) + "," + Rest(w, y)
  {
    var spelled := w + "," + y + ")";
    TwoTexts(p, Field(name, Prim(String)), Field(y + "),", Prim(String)));
    HidingTexts(Quoted(name), Quoted(y + "),"), w, y);
  }

  lemma HidingTexts(a: string, b: string, w: string, y: string)
    ensures a + " " + (w + "," + y + ")") + ", " + (b + " " + (w + "," + y + ")")) ==
            a + " " + w + "," + (y + ")" + (", " + b + " " + w) + ("," + y + ")"))
  {
  }

  lemma HidingSplits(p: Printer, w: string, y: string, name: string)
    requires Hides(p, w, y, name)
    ensures SplitParams(Join(FieldTexts(p, Hiding(y, name)))) == [Front(w, name), Rest(w, y)]
    ensures |Front(w, name)| <= |Text(p, Struct(Hiding(y, name)))| - 1
    ensures |Rest(w, y)| <= |Text(p, Struct(Hiding(y, name)))| - 1
  {
    HidingJoined(p, w, y, name);
    FrontIsPiece(p, w, y, name);
    RestSkims(p, w, y, name);
    RestReads(p, w, y, name);
    TwoPieces(Front(w, name), Rest(w, y));
  }

  lemma TwoAreRead(front: string, rest: string, a: Field, b: Field, bound: nat)
    requires |front| <= bound && |rest| <= bound && ToField(front) == Ok(a) && ToField(rest) == Ok(b)
    ensures ToFields([front, rest], bound) == Ok([a, b])
  {
    assert [b][1..] == [] && [a, b][1..] == [b];
    ToFieldsCons(rest, [], [b], bound);
    assert [rest] + [] == [rest] && [front] + [rest] == [front, rest];
    ToFieldsCons(front, [rest], [a, b], bound);
  }

  /**
   When a leaf is spelled with a comma the test is not necessary: after a name that closes too many brackets the comma
   is cut, and the next name makes up for it.
   */
  lemma SpelledCommaHidesACut(p: Printer, w: string, y: string, name: string)
    requires Hides(p, w, y, name)
    ensures ToArrow(Text(p, Struct(Hiding(y, name)))) == Ok(Struct(Hiding(y, name)))
    ensures !AllKept(p, Hiding(y, name))
  {
    HidingIsRead(p, w, y, name, |Text(p, Struct(Hiding(y, name)))| - 1);
    StructReads(p, Hiding(y, name));
    assert !Kept(p, Hiding(y, name)[0], false);
  }

  lemma HidingIsRead(p: Printer, w: string, y: string, name: string, bound: nat)
    requires Hides(p, w, y, name) && bound == |Text(p, Struct(Hiding(y, name)))| - 1
    ensures FieldsRead(p, Hiding(y, name), bound)
  {
    HidingSplits(p, w, y, name);
    FrontIsPiece(p, w, y, name);
    RestReads(p, w, y, name);
    TwoAreRead(Front(w, name), Rest(w, y), Field(name, Prim(String)), Field(y + "),", Prim(String)), bound);
  }

  lemma TwoPieces(front: string, rest: string)
    requires Trimmed(front) && Trimmed(rest) && Skims(front, 0, 0) && Scan(rest, 0).Some?
    ensures SplitParams(front + "," + rest) == [front, rest]
  {
    assert SplitParams(front + "," + rest) == Pieces(front + "," + rest, 0, []) by {
      TrimmedStays(front + "," + rest);
    }
    assert Pieces(front + "," + rest, 0, []) == [TrimSpace(front)] + Pieces(rest, 0, []) by {
      FrontAndComma(front, rest);
    }
    LastPiece(rest, []);
    TrimmedStays(front);
  }

  lemma FrontAndComma(front: string, rest: string)
    requires Skims(front, 0, 0)
    ensures Pieces(front + "," + rest, 0, []) == [TrimSpace(front)] + Pieces(rest, 0, [])
  {
    PiecesSkim(front, "," + rest, 0, 0, []);
    assert ("," + rest)[1..] == rest && [] + front == front && front + "," + rest == front + ("," + rest);
  }
}
