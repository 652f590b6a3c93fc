/** The BigQuery destination: the schema a table has merged with the schema it should have. */
module SchemaMerge {
  import opened Basics

  datatype Field = Field(name: string, ty: string, required: bool)

  datatype Error = TypeChanged(name: string, from: string, to: string) | RequiredMissing(name: string)

  /** The field a map from names holds: the last one with the name. */
  function Lookup(fields: seq<Field>, name: string): (r: Option<Field>)
    ensures r.Some? ==> r.value in fields && r.value.name == name
    ensures r.None? <==> forall f :: f in fields ==> f.name != name
  {
    if fields == [] then None
    else if fields[|fields| - 1].name == name then Some(fields[|fields| - 1])
    else Lookup(fields[..|fields| - 1], name)
  }

  method MapOf(fields: seq<Field>) returns (m: map<string, Field>)
    ensures forall name :: name in m <==> Lookup(fields, name).Some?
    ensures forall name :: name in m ==> Lookup(fields, name) == Some(m[name])
  {
    m := map[];
    for i := 0 to |fields|
      invariant forall name :: name in m <==> Lookup(fields[..i], name).Some?
      invariant forall name :: name in m ==> Lookup(fields[..i], name) == Some(m[name])
    {
      assert fields[..i + 1][..i] == fields[..i];
      m := m[fields[i].name := fields[i]];
    }
    assert fields[..|fields|] == fields;
  }

  /** Everything wanted is there with its type; extra fields do not matter. */
  ghost predicate Match(have: seq<Field>, want: seq<Field>) {
    forall w :: w in want ==> Lookup(have, w.name).Some? && Lookup(have, w.name).value.ty == w.ty
  }

  method SchemasMatch(have: seq<Field>, want: seq<Field>) returns (ok: bool)
    ensures ok <==> Match(have, want)
  {
    var haveMap := MapOf(have);
    for i := 0 to |want|
      invariant forall j :: 0 <= j < i ==> want[j].name in haveMap && haveMap[want[j].name].ty == want[j].ty
    {
      if want[i].name !in haveMap || haveMap[want[i].name].ty != want[i].ty {
        assert want[i] in want;
        return false;
      }
    }
    return true;
  }

  /** A column that is there may stay: its type is wanted, or it is not wanted and not required. */
  predicate MayStay(f: Field, want: seq<Field>) {
    match Lookup(want, f.name)
    case Some(w) => w.ty == f.ty
    case None => !f.required
  }

  /** The fields of want whose names are not in have, in order. */
  function New(have: seq<Field>, want: seq<Field>): seq<Field> {
    if want == [] then []
    else New(have, want[..|want| - 1]) + if Lookup(have, want[|want| - 1].name).None? then [want[|want| - 1]] else []
  }

  /** Field i is the first that may not stay, and this is why. */
  ghost predicate StopsAt(have: seq<Field>, want: seq<Field>, i: nat, error: Error) {
    && i < |have| && !MayStay(have[i], want) && (forall j :: 0 <= j < i ==> MayStay(have[j], want))
    && error == match Lookup(want, have[i].name)
                case Some(w) => TypeChanged(have[i].name, have[i].ty, w.ty)
                case None => RequiredMissing(have[i].name)
  }

  /** Field k is the last one with this name. */
  predicate IsLast(fields: seq<Field>, k: nat, name: string) {
    k < |fields| && fields[k].name == name && forall j :: k < j < |fields| ==> fields[j].name != name
  }

  lemma {:induction false} LookupIsLast(fields: seq<Field>, name: string) returns (k: nat)
    ensures Lookup(fields, name).Some? ==> IsLast(fields, k, name) && Lookup(fields, name).value == fields[k]
    ensures Lookup(fields, name).None? ==> forall j :: 0 <= j < |fields| ==> fields[j].name != name
  {
    k := 0;
    if fields != [] {
      if fields[|fields| - 1].name == name {
        k := |fields| - 1;
      } else {
        k := LookupIsLast(fields[..|fields| - 1], name);
      }
    }
  }

  /** A column may stay unless its name is wanted last with another type, or not at all while it is required. */
  lemma MayStayIff(f: Field, want: seq<Field>)
    ensures MayStay(f, want) <==>
              && (forall k: nat :: IsLast(want, k, f.name) ==> want[k].ty == f.ty)
              && ((forall j :: 0 <= j < |want| ==> want[j].name != f.name) ==> !f.required)
  {
    var k := LookupIsLast(want, f.name);
    if Lookup(want, f.name).Some? {
      forall k': nat | IsLast(want, k', f.name) ensures k' == k {
      }
    }
  }

  /** The reason names the column, the type it has and the type that is wanted. */
  lemma StopsBecause(have: seq<Field>, want: seq<Field>, i: nat, error: Error)
    requires StopsAt(have, want, i, error)
    ensures error.name == have[i].name
    ensures error.RequiredMissing? ==> have[i].required && forall j :: 0 <= j < |want| ==> want[j].name != have[i].name
    ensures error.TypeChanged? ==>
              && error.from == have[i].ty && error.to != have[i].ty
              && exists k: nat :: IsLast(want, k, have[i].name) && want[k].ty == error.to
  {
    var k := LookupIsLast(want, have[i].name);
  }

  /** Everything wanted is there with its type: the last column with the name has it. */
  lemma MatchIff(have: seq<Field>, want: seq<Field>)
    ensures Match(have, want) <==>
            forall w :: w in want ==> exists k: nat :: IsLast(have, k, w.name) && have[k].ty == w.ty
  {
    forall w | w in want
      ensures (Lookup(have, w.name).Some? && Lookup(have, w.name).value.ty == w.ty) <==>
              exists k: nat :: IsLast(have, k, w.name) && have[k].ty == w.ty
    {
      var k := LookupIsLast(have, w.name);
      forall k': nat | Lookup(have, w.name).Some? && IsLast(have, k', w.name) ensures k' == k {
      }
    }
  }

  /** The new columns are those of want whose name is in no column that is there, one each and in order. */
  lemma {:induction false} NewAt(have: seq<Field>, want: seq<Field>) returns (at: seq<nat>)
    ensures Picks(want, at, New(have, want))
    ensures forall j: nat :: j in at <==> j < |want| && forall f :: f in have ==> f.name != want[j].name
  {
    at := [];
    if want != [] {
      var n := |want| - 1;
      var front := NewAt(have, want[..n]);
      assert want == want[..n] + [want[n]];
      PicksMore(want[..n], front, New(have, want[..n]), want[n]);
      at := if Lookup(have, want[n].name).None? then front + [n] else front;
    }
  }

  lemma NotAllStay(have: seq<Field>, want: seq<Field>, i: nat)
    requires i < |have| && !MayStay(have[i], want)
    ensures !forall f :: f in have ==> MayStay(f, want)
  {
    assert have[i] in have;
  }

  lemma NewStep(have: seq<Field>, want: seq<Field>, i: nat)
    requires i < |want|
    ensures have + New(have, want[..i + 1]) ==
            have + New(have, want[..i]) + if Lookup(have, want[i].name).None? then [want[i]] else []
  {
    assert want[..i + 1][..i] == want[..i];
  }

  method MergeSchemas(have: seq<Field>, want: seq<Field>) returns (r: Result<seq<Field>, Error>)
    ensures r.Ok? <==> forall f :: f in have ==> MayStay(f, want)
    ensures r.Ok? ==> r.value == have + New(have, want)
    ensures r.Err? ==> exists i :: StopsAt(have, want, i, r.error)
  {
    var haveMap := MapOf(have);
    var wantMap := MapOf(want);
    var merged: seq<Field> := [];
    for i := 0 to |have|
      invariant forall j :: 0 <= j < i ==> MayStay(have[j], want)
      invariant merged == have[..i]
    {
      var f := have[i];
      if f.name in wantMap {
        if wantMap[f.name].ty != f.ty {
          NotAllStay(have, want, i);
          assert StopsAt(have, want, i, TypeChanged(f.name, f.ty, wantMap[f.name].ty));
          return Err(TypeChanged(f.name, f.ty, wantMap[f.name].ty));
        }
      } else if f.required {
        NotAllStay(have, want, i);
        assert StopsAt(have, want, i, RequiredMissing(f.name));
        return Err(RequiredMissing(f.name));
      }
      merged := merged + [f];
    }
    for i := 0 to |want|
      invariant merged == have + New(have, want[..i])
    {
      NewStep(have, want, i);
      if want[i].name !in haveMap {
        merged := merged + [want[i]];
      }
    }
    assert want[..|want|] == want;
    return Ok(merged);
  }

  // ---------------------------------------------------------------- what merging promises

  /** No name is wanted with two types. */
  ghost predicate Consistent(want: seq<Field>) {
    forall a, b :: a in want && b in want && a.name == b.name ==> a.ty == b.ty
  }

  lemma {:induction false} LookupConcat(a: seq<Field>, b: seq<Field>, name: string)
    ensures Lookup(a + b, name) == if Lookup(b, name).Some? then Lookup(b, name) else Lookup(a, name)
  {
    if b == [] {
      assert a + b == a;
    } else {
      assert (a + b)[..|a + b| - 1] == a + b[..|b| - 1];
      LookupConcat(a, b[..|b| - 1], name);
    }
  }

  lemma {:induction false} LookupNew(have: seq<Field>, want: seq<Field>, name: string)
    ensures Lookup(New(have, want), name) == if Lookup(have, name).Some? then None else Lookup(want, name)
  {
    if want != [] {
      var front, last := want[..|want| - 1], want[|want| - 1];
      LookupNew(have, front, name);
      LookupConcat(New(have, front), [last], name);
      assert New(have, front) + [] == New(have, front);
      assert [last][..0] == [];
    }
  }

  /** A merged schema knows a name as the old schema did, and otherwise as the new one does. */
  lemma LookupMerged(have: seq<Field>, want: seq<Field>, name: string)
    ensures Lookup(have + New(have, want), name) ==
            if Lookup(have, name).Some? then Lookup(have, name) else Lookup(want, name)
  {
    LookupConcat(have, New(have, want), name);
    LookupNew(have, want, name);
  }

  lemma {:induction false} LookupIn(fields: seq<Field>, f: Field)
    requires f in fields
    ensures Lookup(fields, f.name).Some?
  {
  }

  /**
   When merging succeeds, the old schema is kept as a prefix, and what the wait for the new schema looks for is there
   exactly when no name is wanted with two types.
   */
  lemma {:induction false} MergedMatchesIff(have: seq<Field>, want: seq<Field>)
    requires forall f :: f in have ==> MayStay(f, want)
    ensures have <= have + New(have, want)
    ensures Match(have + New(have, want), want) <==> Consistent(want)
  {
    var merged := have + New(have, want);
    forall w | w in want
      ensures Lookup(merged, w.name).Some? && Lookup(merged, w.name).value.ty == Lookup(want, w.name).value.ty
    {
      LookupIn(want, w);
      LookupMerged(have, want, w.name);
      if Lookup(have, w.name).Some? {
        assert MayStay(Lookup(have, w.name).value, want);
      }
    }
    if Match(merged, want) {
      forall a, b | a in want && b in want && a.name == b.name ensures a.ty == b.ty {
        assert Lookup(merged, a.name).value.ty == a.ty;
        assert Lookup(merged, b.name).value.ty == b.ty;
      }
    }
    if Consistent(want) {
      forall w | w in want ensures Lookup(merged, w.name).value.ty == w.ty {
        LookupIn(want, w);
      }
    }
  }

  /** A schema with one name under two types merges, and then never matches. */
  lemma TwoTypesNeverMatch()
    ensures var want := [Field("a", "STRING", false), Field("a", "INTEGER", false)];
      && (forall f :: f in [] ==> MayStay(f, want))
      && !Match([] + New([], want), want)
  {
    var want := [Field("a", "STRING", false), Field("a", "INTEGER", false)];
    MergedMatchesIff([], want);
    assert want[0] in want && want[1] in want;
  }

  lemma {:induction false} NothingNew(merged: seq<Field>, want: seq<Field>)
    requires forall w :: w in want ==> Lookup(merged, w.name).Some?
    ensures New(merged, want) == []
  {
    if want != [] {
      NothingNew(merged, want[..|want| - 1]);
      assert want[|want| - 1] in want;
    }
  }

  lemma {:induction false} NewIsWanted(have: seq<Field>, want: seq<Field>, f: Field)
    requires f in New(have, want)
    ensures f in want && Lookup(have, f.name).None?
  {
    if f in New(have, want[..|want| - 1]) {
      NewIsWanted(have, want[..|want| - 1], f);
    }
  }

  lemma {:induction false} WantedIsNew(have: seq<Field>, want: seq<Field>, f: Field)
    requires f in want && Lookup(have, f.name).None?
    ensures f in New(have, want)
  {
    if f in want[..|want| - 1] {
      WantedIsNew(have, want[..|want| - 1], f);
    } else {
      assert f == want[|want| - 1];
    }
  }

  /** No name that the old schema lacks is wanted with two types. */
  ghost predicate NewConsistent(have: seq<Field>, want: seq<Field>) {
    forall a, b :: a in want && b in want && a.name == b.name && Lookup(have, a.name).None? ==> a.ty == b.ty
  }

  /** Merging again succeeds exactly when no new name is wanted with two types, and then it changes nothing. */
  lemma {:induction false} MergingAgainChangesNothing(have: seq<Field>, want: seq<Field>)
    requires forall f :: f in have ==> MayStay(f, want)
    ensures (forall f :: f in have + New(have, want) ==> MayStay(f, want)) <==> NewConsistent(have, want)
    ensures New(have + New(have, want), want) == []
  {
    var merged := have + New(have, want);
    if NewConsistent(have, want) {
      forall f | f in merged ensures MayStay(f, want) {
        if f !in have {
          NewIsWanted(have, want, f);
          LookupIn(want, f);
        }
      }
    }
    if forall f :: f in merged ==> MayStay(f, want) {
      forall a, b | a in want && b in want && a.name == b.name && Lookup(have, a.name).None? ensures a.ty == b.ty {
        WantedIsNew(have, want, a);
        WantedIsNew(have, want, b);
        LookupIn(want, a);
        assert a in merged && b in merged && MayStay(a, want) && MayStay(b, want);
      }
    }
    forall w | w in want ensures Lookup(merged, w.name).Some? {
      LookupIn(want, w);
      LookupMerged(have, want, w.name);
    }
    NothingNew(merged, want);
  }
}
