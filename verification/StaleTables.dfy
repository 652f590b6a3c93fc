/** Which tables the post-join phase may clean of stale rows: the bookkeeping on MigrateTable messages. */
module StaleTables {
  import opened Basics

  datatype TableDef = TableDef(name: string, incremental: bool, parent: Option<string>)

  /** The two maps of the source loop; their values are only ever true. */
  datatype Tracking = Tracking(skipped: set<string>, stale: set<string>)

  function TrackOne(stateBackend: bool, t: Tracking, def: TableDef): Tracking {
    if stateBackend && (def.incremental || (def.parent.Some? && def.parent.value in t.skipped)) then
      t.(skipped := t.skipped + {def.name})
    else t.(stale := t.stale + {def.name})
  }

  function Track(stateBackend: bool, defs: seq<TableDef>): Tracking {
    if defs == [] then Tracking({}, {})
    else TrackOne(stateBackend, Track(stateBackend, defs[..|defs| - 1]), defs[|defs| - 1])
  }

  /** The MigrateTable branch of the source loop. */
  method TrackTables(stateBackend: bool, defs: seq<TableDef>) returns (skipped: set<string>, stale: set<string>)
    ensures Tracking(skipped, stale) == Track(stateBackend, defs)
  {
    skipped, stale := {}, {};
    for k := 0 to |defs|
      invariant Tracking(skipped, stale) == Track(stateBackend, defs[..k])
    {
      assert defs[..k + 1][..k] == defs[..k];
      var table := defs[k];
      if stateBackend && (table.incremental || (table.parent.Some? && table.parent.value in skipped)) {
        skipped := skipped + {table.name};
      } else {
        stale := stale + {table.name};
      }
    }
    assert defs[..|defs|] == defs;
  }

  function Seen(defs: seq<TableDef>): set<string> {
    if defs == [] then {} else Seen(defs[..|defs| - 1]) + {defs[|defs| - 1].name}
  }

  /** Every message about a table defines it in the same way. */
  ghost predicate Consistent(defs: seq<TableDef>) {
    forall j, k :: 0 <= j < |defs| && 0 <= k < |defs| && defs[j].name == defs[k].name ==>
      defs[j] == defs[k]
  }

  /** Migrate messages are sent for parents before children. */
  ghost predicate ParentsFirst(defs: seq<TableDef>) {
    forall k :: 0 <= k < |defs| && defs[k].parent.Some? ==> defs[k].parent.value in Seen(defs[..k])
  }

  ghost predicate HasParent(defs: seq<TableDef>, name: string, parent: string) {
    exists def :: def in defs && def.name == name && def.parent == Some(parent)
  }

  ghost predicate IsIncremental(defs: seq<TableDef>, name: string) {
    exists def :: def in defs && def.name == name && def.incremental
  }

  /** path climbs from a table over parents to an incremental table. */
  ghost predicate IncrementalPath(defs: seq<TableDef>, path: seq<string>) {
    && path != []
    && (forall i :: 0 <= i < |path| - 1 ==> HasParent(defs, path[i], path[i + 1]))
    && IsIncremental(defs, path[|path| - 1])
  }

  /** The table is incremental or has an incremental ancestor. */
  ghost predicate UnderIncremental(defs: seq<TableDef>, name: string) {
    exists path :: IncrementalPath(defs, path) && path[0] == name
  }

  lemma UnderIncrementalUnfolds(defs: seq<TableDef>, def: TableDef)
    requires Consistent(defs) && def in defs
    ensures UnderIncremental(defs, def.name) <==>
            def.incremental || (def.parent.Some? && UnderIncremental(defs, def.parent.value))
  {
    if UnderIncremental(defs, def.name) {
      var path :| IncrementalPath(defs, path) && path[0] == def.name;
      if |path| > 1 {
        assert HasParent(defs, path[0], path[1]);
        assert IncrementalPath(defs, path[1..]);
      }
    }
    if def.incremental {
      assert IncrementalPath(defs, [def.name]);
    } else if def.parent.Some? && UnderIncremental(defs, def.parent.value) {
      var path :| IncrementalPath(defs, path) && path[0] == def.parent.value;
      assert IncrementalPath(defs, [def.name] + path);
    }
  }

  /**
   After any prefix of the messages, the skipped set is exactly the seen tables under an incremental
   one, the stale-delete set is exactly the others, and the two are disjoint.
   */
  lemma {:induction false} TrackingIsExact(defs: seq<TableDef>, k: nat)
    requires Consistent(defs) && ParentsFirst(defs) && k <= |defs|
    ensures var t := Track(true, defs[..k]);
      && t.skipped == (set n | n in Seen(defs[..k]) && UnderIncremental(defs, n))
      && t.stale == Seen(defs[..k]) - t.skipped
      && t.skipped !! t.stale
  {
    if k > 0 {
      TrackingIsExact(defs, k - 1);
      UnderIncrementalUnfolds(defs, defs[k - 1]);
      assert defs[..k][..k - 1] == defs[..k - 1];
    }
  }

  /** After these messages the two sets are exactly what they should be. */
  ghost predicate ExactAfter(defs: seq<TableDef>, k: nat)
    requires k <= |defs|
  {
    var t := Track(true, defs[..k]);
    && t.skipped == (set n | n in Seen(defs[..k]) && UnderIncremental(defs, n))
    && t.stale == Seen(defs[..k]) - t.skipped
    && t.skipped !! t.stale
  }

  /**
   A parent that is under an incremental table has been announced before message i, unless the table itself is
   incremental.
   */
  ghost predicate ParentKnown(defs: seq<TableDef>, i: nat)
    requires i < |defs|
  {
    !defs[i].incremental && defs[i].parent.Some? && UnderIncremental(defs, defs[i].parent.value) ==>
      defs[i].parent.value in Seen(defs[..i])
  }

  lemma TrackUnfolds(defs: seq<TableDef>, i: nat)
    requires i < |defs|
    ensures Track(true, defs[..i + 1]) == TrackOne(true, Track(true, defs[..i]), defs[i])
    ensures Seen(defs[..i + 1]) == Seen(defs[..i]) + {defs[i].name}
  {
    assert defs[..i + 1][..i] == defs[..i];
  }

  /** One message keeps the sets exact exactly when its parent is known in time. */
  lemma ExactStep(defs: seq<TableDef>, i: nat)
    requires Consistent(defs) && i < |defs| && ExactAfter(defs, i)
    ensures ExactAfter(defs, i + 1) <==> ParentKnown(defs, i)
  {
    var def := defs[i];
    var before, after := Track(true, defs[..i]), Track(true, defs[..i + 1]);
    TrackUnfolds(defs, i);
    UnderIncrementalUnfolds(defs, def);
    if !ParentKnown(defs, i) {
      assert def.name in after.stale;
    }
  }

  ghost predicate AlwaysExact(defs: seq<TableDef>, k: nat)
    requires k <= |defs|
  {
    forall j: nat :: j <= k ==> ExactAfter(defs, j)
  }

  ghost predicate ParentsKnown(defs: seq<TableDef>, k: nat)
    requires k <= |defs|
  {
    forall i: nat :: i < k ==> ParentKnown(defs, i)
  }

  /**
   The tracking is exact after every prefix if and only if every parent under an incremental table is announced in
   time.
   */
  lemma {:induction false} TrackingIsExactIff(defs: seq<TableDef>, k: nat)
    requires Consistent(defs) && k <= |defs|
    ensures AlwaysExact(defs, k) <==> ParentsKnown(defs, k)
  {
    if k == 0 {
      assert defs[..0] == [];
      assert ExactAfter(defs, 0);
    } else {
      TrackingIsExactIff(defs, k - 1);
      if AlwaysExact(defs, k - 1) {
        assert ExactAfter(defs, k - 1);
        ExactStep(defs, k - 1);
      }
    }
  }

  /** Without a state backend nothing is skipped. */
  lemma {:induction false} NothingSkippedWithoutBackend(defs: seq<TableDef>)
    ensures Track(false, defs) == Tracking({}, Seen(defs))
  {
    if defs != [] {
      NothingSkippedWithoutBackend(defs[..|defs| - 1]);
    }
  }

  /** The message order matters: a child announced before its incremental parent is cleaned of stale rows. */
  lemma ChildBeforeParent()
    ensures var defs := [TableDef("child", false, Some("parent")), TableDef("parent", true, None)];
      Consistent(defs) && UnderIncremental(defs, "child") && "child" in Track(true, defs).stale
  {
    var defs := [TableDef("child", false, Some("parent")), TableDef("parent", true, None)];
    assert defs[..1][..0] == [];
    assert defs[..1] == [defs[0]];
    assert Track(true, defs[..1]) == Tracking({}, {"child"});
    var path := ["child", "parent"];
    assert defs[0] in defs && defs[1] in defs;
    assert HasParent(defs, path[0], path[1]);
    assert IncrementalPath(defs, path);
  }
}
