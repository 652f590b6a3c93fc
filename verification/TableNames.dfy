/**
 Table renames learned per destination, and the stale deletes sent with them after the join.
 Go maps are references, so the set of tables every destination's stale deletes start from is an
 object here: UpdateTableNames removes names from its caller's map.
 */
module TableNames {
  import opened Basics

  /** Learned renames: destination name to old table name to new table name. */
  type Changes = map<string, map<string, string>>

  /** A table name read back from a transformed schema. */
  datatype Decoded = BadBytes | NoName | Named(name: string)

  predicate HasLearned(c: Changes, dest: string, table: string) {
    dest in c && table in c[dest]
  }

  function LearnedNames(c: Changes, dest: string): set<string> {
    if dest in c then c[dest].Keys else {}
  }

  function Rename(c: Changes, dest: string, table: string): string {
    if HasLearned(c, dest, table) then c[dest][table] else table
  }

  function Image(c: Changes, dest: string, tables: set<string>): set<string> {
    set t | t in tables :: Rename(c, dest, t)
  }

  /** The learned name, unless there is one already; an empty name counts as none. */
  function Learn(c: Changes, dest: string, table: string, d: Decoded): Changes
    requires dest in c
  {
    if (HasLearned(c, dest, table) && c[dest][table] != "") || !d.Named? then c
    else c[dest := c[dest][table := d.name]]
  }

  class TableSet {
    var names: set<string>

    constructor (names: set<string>)
      ensures this.names == names
    {
      this.names := names;
    }
  }

  class TableNameChanger {
    var changes: Changes

    constructor (destinations: seq<string>)
      ensures changes == map d | d in destinations :: map[]
    {
      changes := map[];
      new;
      for i := 0 to |destinations|
        invariant changes == map d | d in destinations[..i] :: map[]
      {
        changes := changes[destinations[i] := map[]];
      }
      assert destinations[..|destinations|] == destinations;
    }

    method UpdateTableName(dest: string, table: string) returns (name: string)
      ensures name == Rename(changes, dest, table)
      ensures name == if dest in changes && table in changes[dest] then changes[dest][table] else table
    {
      if dest in changes && table in changes[dest] {
        return changes[dest][table];
      }
      return table;
    }

    method UpdateTableNamesSlice(dest: string, tables: seq<string>) returns (names: seq<string>)
      ensures |names| == |tables|
      ensures forall i :: 0 <= i < |tables| ==> names[i] == Rename(changes, dest, tables[i])
      ensures forall i :: 0 <= i < |tables| ==>
                names[i] ==
                if dest in changes && tables[i] in changes[dest] then changes[dest][tables[i]] else tables[i]
    {
      names := [];
      for i := 0 to |tables|
        invariant |names| == i
        invariant forall j :: 0 <= j < i ==> names[j] == Rename(changes, dest, tables[j])
      {
        var name := UpdateTableName(dest, tables[i]);
        names := names + [name];
      }
    }

    /** The renamed set; every name it renamed is deleted from the caller's map on the way. */
    method UpdateTableNames(dest: string, tables: TableSet) returns (newTables: set<string>)
      modifies tables
      ensures newTables == Image(changes, dest, old(tables.names))
      ensures tables.names == old(tables.names) - LearnedNames(changes, dest)
      ensures forall t :: t in old(tables.names) ==>
                (if dest in changes && t in changes[dest] then changes[dest][t] else t) in newTables
      ensures forall n :: n in newTables ==>
                exists t :: t in old(tables.names) &&
                    n == if dest in changes && t in changes[dest] then changes[dest][t] else t
      ensures forall t :: t in tables.names <==> t in old(tables.names) && !(dest in changes && t in changes[dest])
    {
      var todo := tables.names;
      ghost var all := todo;
      newTables := {};
      while todo != {}
        invariant todo <= all
        invariant newTables == Image(changes, dest, all - todo)
        invariant tables.names == all - (LearnedNames(changes, dest) * (all - todo))
        decreases todo
      {
        var t :| t in todo;
        ghost var before := todo;
        todo := todo - {t};
        if dest in changes && t in changes[dest] {
          tables.names := tables.names - {t};
          newTables := newTables + {changes[dest][t]};
        } else {
          newTables := newTables + {t};
        }
        assert all - todo == (all - before) + {t};
        assert newTables == Image(changes, dest, all - todo);
      }
      assert all - todo == all;
    }

    method LearnTableNameChange(dest: string, table: string, schema: Decoded) returns (r: Result<(), ()>)
      requires dest in changes
      modifies this
      ensures changes == Learn(old(changes), dest, table, schema)
      ensures changes.Keys == old(changes).Keys
      ensures forall d, t :: d in changes && (d != dest || t != table) ==>
                (t in changes[d] <==> t in old(changes)[d]) && (t in changes[d] ==> changes[d][t] == old(changes)[d][t])
      ensures var known := table in old(changes)[dest] && old(changes)[dest][table] != "";
        if known || !schema.Named? then changes == old(changes)
        else table in changes[dest] && changes[dest][table] == schema.name
      ensures r.Err? <==>
              schema.BadBytes? && !(HasLearned(old(changes), dest, table) && old(changes)[dest][table] != "")
    {
      if table in changes[dest] && changes[dest][table] != "" {
        return Ok(());
      }
      match schema {
        case BadBytes => return Err(());
        case NoName => return Ok(());
        case Named(name) =>
          changes := changes[dest := changes[dest][table := name]];
          return Ok(());
      }
    }
  }

  // ---------------------------------------------------------------- learning

  datatype Event = Event(dest: string, table: string, schema: Decoded)

  function LearnAll(c: Changes, events: seq<Event>): Changes
    requires forall e :: e in events ==> e.dest in c
  {
    if events == [] then c
    else
      var e := events[0];
      LearnAll(Learn(c, e.dest, e.table, e.schema), events[1..])
  }

  /** Once a destination has learned a (non-empty) name for a table, no later message changes it. */
  lemma {:induction false} FirstNamePersists(c: Changes, events: seq<Event>, dest: string, table: string)
    requires forall e :: e in events ==> e.dest in c
    requires HasLearned(c, dest, table) && c[dest][table] != ""
    ensures Rename(LearnAll(c, events), dest, table) == Rename(c, dest, table)
  {
    if events != [] {
      var e := events[0];
      FirstNamePersists(Learn(c, e.dest, e.table, e.schema), events[1..], dest, table);
    }
  }

  /**
   Starting from nothing learned, the name of a table is that of the first message that gives it one; without such a
   message it has none.
   */
  lemma {:induction false} FirstNameIsLearned(c: Changes, events: seq<Event>, dest: string, table: string, i: nat)
    requires (forall e :: e in events ==> e.dest in c) && dest in c
    requires !(HasLearned(c, dest, table) && c[dest][table] != "")
    requires i <= |events| && forall j :: 0 <= j < i ==> !Names(events[j], dest, table)
    requires i < |events| ==> Names(events[i], dest, table)
    ensures var after := LearnAll(c, events);
      && dest in after
      && (i < |events| ==> table in after[dest] && after[dest][table] == events[i].schema.name)
      && (i == |events| ==> !(table in after[dest] && after[dest][table] != ""))
    decreases events
  {
    if events != [] {
      var e := events[0];
      var next := Learn(c, e.dest, e.table, e.schema);
      if i == 0 {
        FirstNamePersists(next, events[1..], dest, table);
        LearnAllKeeps(next, events[1..], dest, table);
      } else {
        assert forall j :: 0 <= j < i - 1 ==> events[1..][j] == events[j + 1];
        FirstNameIsLearned(next, events[1..], dest, table, i - 1);
      }
    }
  }

  /** The message gives this table a name at this destination. */
  predicate Names(e: Event, dest: string, table: string) {
    e.dest == dest && e.table == table && e.schema.Named? && e.schema.name != ""
  }

  lemma {:induction false} LearnAllKeeps(c: Changes, events: seq<Event>, dest: string, table: string)
    requires (forall e :: e in events ==> e.dest in c) && HasLearned(c, dest, table)
    ensures HasLearned(LearnAll(c, events), dest, table)
    decreases events
  {
    if events != [] {
      var e := events[0];
      LearnAllKeeps(Learn(c, e.dest, e.table, e.schema), events[1..], dest, table);
    }
  }

  /** A table that was learned under some name is renamed to exactly that name from then on. */
  lemma LearnedIsUsed(c: Changes, dest: string, table: string, name: string, later: seq<Event>)
    requires dest in c && !HasLearned(c, dest, table) && name != ""
    requires forall e :: e in later ==> e.dest in c
    ensures Rename(LearnAll(Learn(c, dest, table, Named(name)), later), dest, table) == name
  {
    FirstNamePersists(Learn(c, dest, table, Named(name)), later, dest, table);
  }

  // ---------------------------------------------------------------- stale deletes after the join

  datatype Destination = Destination(name: string, overwriteDeleteStale: bool)

  /** xs names exactly the members of tables, each once. */
  ghost predicate Lists(xs: seq<string>, tables: set<string>) {
    (forall t :: t in xs <==> t in tables) && forall q, q' :: 0 <= q < q' < |xs| ==> xs[q] != xs[q']
  }

  /** deleteStale: one message per table, in the arbitrary order of a Go map. */
  method DeleteStale(tables: set<string>) returns (sent: seq<string>)
    ensures Lists(sent, tables)
  {
    sent := [];
    var todo := tables;
    while todo != {}
      invariant todo <= tables
      invariant forall u :: u in sent <==> u in tables && u !in todo
      invariant forall q, q' :: 0 <= q < q' < |sent| ==> sent[q] != sent[q']
      decreases todo
    {
      var t :| t in todo;
      todo := todo - {t};
      assert forall u :: u in sent + [t] <==> u in sent || u == t;
      sent := sent + [t];
    }
  }

  /** What is left of the shared map when the loop reaches destination i. */
  function Remaining(c: Changes, dests: seq<Destination>, tables: set<string>, i: nat): set<string>
    requires i <= |dests|
  {
    if i == 0 then tables
    else
      var r := Remaining(c, dests, tables, i - 1);
      if dests[i - 1].overwriteDeleteStale then r - LearnedNames(c, dests[i - 1].name) else r
  }

  /** The tables the stale deletes of destination i name. */
  function StaleFor(c: Changes, dests: seq<Destination>, tables: set<string>, i: nat): set<string>
    requires i < |dests|
  {
    if dests[i].overwriteDeleteStale then Image(c, dests[i].name, Remaining(c, dests, tables, i)) else {}
  }

  /** No overwrite-delete-stale destination before i has learned a name for one of the tables. */
  ghost predicate NothingLearnedBefore(c: Changes, dests: seq<Destination>, tables: set<string>, i: nat)
    requires i <= |dests|
  {
    forall j, t :: 0 <= j < i && dests[j].overwriteDeleteStale && t in tables ==> !HasLearned(c, dests[j].name, t)
  }

  lemma {:induction false} RemainingIsAll(c: Changes, dests: seq<Destination>, tables: set<string>, i: nat)
    requires i <= |dests|
    ensures Remaining(c, dests, tables, i) <= tables
    ensures Remaining(c, dests, tables, i) == tables <==> NothingLearnedBefore(c, dests, tables, i)
  {
    if i > 0 {
      RemainingIsAll(c, dests, tables, i - 1);
      if dests[i - 1].overwriteDeleteStale && !NothingLearnedBefore(c, dests, tables, i) &&
          NothingLearnedBefore(c, dests, tables, i - 1) {
        var t :| t in tables && HasLearned(c, dests[i - 1].name, t);
        assert t !in Remaining(c, dests, tables, i);
      }
    }
  }

  /** The first overwrite-delete-stale destination gets the full renamed set. */
  lemma FirstGetsAll(c: Changes, dests: seq<Destination>, tables: set<string>, i: nat)
    requires i < |dests| && dests[i].overwriteDeleteStale
    requires forall j :: 0 <= j < i ==> !dests[j].overwriteDeleteStale
    ensures StaleFor(c, dests, tables, i) == Image(c, dests[i].name, tables)
  {
    RemainingIsAll(c, dests, tables, i);
  }

  /** No overwrite-delete-stale destination before i has learned a name for this table. */
  ghost predicate NotLearnedBefore(c: Changes, dests: seq<Destination>, i: nat, table: string)
    requires i <= |dests|
  {
    forall j :: 0 <= j < i && dests[j].overwriteDeleteStale ==> !HasLearned(c, dests[j].name, table)
  }

  lemma {:induction false} RemainingAre(c: Changes, dests: seq<Destination>, tables: set<string>, i: nat, table: string)
    requires i <= |dests|
    ensures table in Remaining(c, dests, tables, i) <==> table in tables && NotLearnedBefore(c, dests, i, table)
  {
    if i > 0 {
      RemainingAre(c, dests, tables, i - 1, table);
    }
  }

  /**
   The destination is told, once each, the new names it has for the tables that no overwrite-delete-stale destination
   before it has learned, and no others.
   */
  ghost predicate ToldExactly(c: Changes, dests: seq<Destination>, tables: set<string>, i: nat, sent: seq<string>)
    requires i < |dests|
  {
    var dest := dests[i].name;
    && (forall u :: u in tables && NotLearnedBefore(c, dests, i, u) ==> Rename(c, dest, u) in sent)
    && (forall n :: n in sent ==>
          exists u :: u in tables && NotLearnedBefore(c, dests, i, u) && n == Rename(c, dest, u))
    && forall q, q' :: 0 <= q < q' < |sent| ==> sent[q] != sent[q']
  }

  lemma ListsIsTold(c: Changes, dests: seq<Destination>, tables: set<string>, i: nat, sent: seq<string>)
    requires i < |dests| && dests[i].overwriteDeleteStale && Lists(sent, StaleFor(c, dests, tables, i))
    ensures ToldExactly(c, dests, tables, i, sent)
  {
    forall u ensures u in Remaining(c, dests, tables, i) <==> u in tables && NotLearnedBefore(c, dests, i, u) {
      RemainingAre(c, dests, tables, i, u);
    }
  }

  /** The loop after the join: one shared map of tables, one stale delete per table and destination. */
  method SendStaleDeletes(changer: TableNameChanger, dests: seq<Destination>, tables: TableSet)
    returns (sent: seq<seq<string>>)
    modifies tables
    ensures |sent| == |dests|
    ensures forall i :: 0 <= i < |dests| ==>
              Lists(sent[i], StaleFor(changer.changes, dests, old(tables.names), i))
    ensures forall i :: 0 <= i < |dests| && !dests[i].overwriteDeleteStale ==> sent[i] == []
    ensures forall i :: 0 <= i < |dests| && dests[i].overwriteDeleteStale ==>
              ToldExactly(changer.changes, dests, old(tables.names), i, sent[i])
    ensures tables.names == Remaining(changer.changes, dests, old(tables.names), |dests|)
  {
    sent := [];
    ghost var all := tables.names;
    for i := 0 to |dests|
      invariant tables.names == Remaining(changer.changes, dests, all, i)
      invariant |sent| == i
      invariant forall j :: 0 <= j < i ==>
                  Lists(sent[j], StaleFor(changer.changes, dests, all, j))
      invariant forall j :: 0 <= j < i ==>
                  if dests[j].overwriteDeleteStale then ToldExactly(changer.changes, dests, all, j, sent[j])
                  else sent[j] == []
    {
      var messages := [];
      if dests[i].overwriteDeleteStale {
        var updated := changer.UpdateTableNames(dests[i].name, tables);
        messages := DeleteStale(updated);
        ListsIsTold(changer.changes, dests, all, i, messages);
      }
      sent := sent + [messages];
    }
  }

  /** Another table, or this one, with the same new name is left for the destination. */
  ghost predicate Covered(c: Changes, dests: seq<Destination>, tables: set<string>, i: nat, table: string)
    requires i < |dests|
  {
    exists u :: u in tables && NotLearnedBefore(c, dests, i, u) &&
        Rename(c, dests[i].name, u) == Rename(c, dests[i].name, table)
  }

  /**
   A destination gets the full renamed set if and only if every table has a table with the same new name, itself or
   another, that no overwrite-delete-stale destination before it has learned.
   */
  lemma GetsAllIff(c: Changes, dests: seq<Destination>, tables: set<string>, i: nat)
    requires i < |dests| && dests[i].overwriteDeleteStale
    ensures StaleFor(c, dests, tables, i) == Image(c, dests[i].name, tables) <==>
            forall t :: t in tables ==> Covered(c, dests, tables, i, t)
  {
    var r, name := Remaining(c, dests, tables, i), dests[i].name;
    forall u ensures u in r <==> u in tables && NotLearnedBefore(c, dests, i, u) {
      RemainingAre(c, dests, tables, i, u);
    }
    assert Image(c, name, r) <= Image(c, name, tables);
    forall t | t in tables ensures Covered(c, dests, tables, i, t) <==> Rename(c, name, t) in Image(c, name, r) {
      if Rename(c, name, t) in Image(c, name, r) {
        var u :| u in r && Rename(c, name, u) == Rename(c, name, t);
      }
    }
    if Image(c, name, r) == Image(c, name, tables) {
      forall t | t in tables ensures Covered(c, dests, tables, i, t) {
        assert Rename(c, name, t) in Image(c, name, tables);
      }
    }
  }

  /**
   After a first overwrite-delete-stale destination that learned every table, the others get no stale delete at all.
   */
  lemma {:induction false} LaterGetNothing(c: Changes, dests: seq<Destination>, tables: set<string>, first: nat, i: nat)
    requires first < i < |dests| && dests[first].overwriteDeleteStale
    requires forall t :: t in tables ==> HasLearned(c, dests[first].name, t)
    ensures Remaining(c, dests, tables, i) == {} && StaleFor(c, dests, tables, i) == {}
  {
    RemainingIsAll(c, dests, tables, first);
    if first + 1 < i {
      LaterGetNothing(c, dests, tables, first, i - 1);
    }
  }

  /**
   With migrations on, every destination learns every table. Then all destinations get their full set
   if and only if there is no table to clean or at most one overwrite-delete-stale destination.
   */
  lemma AllGetAllIff(c: Changes, dests: seq<Destination>, tables: set<string>)
    requires forall i, t :: 0 <= i < |dests| && t in tables ==> HasLearned(c, dests[i].name, t)
    ensures (forall i :: 0 <= i < |dests| && dests[i].overwriteDeleteStale ==>
               StaleFor(c, dests, tables, i) == Image(c, dests[i].name, tables))
            <==> tables == {} || forall i, j :: 0 <= i < j < |dests| ==>
                !(dests[i].overwriteDeleteStale && dests[j].overwriteDeleteStale)
  {
    forall i | 0 <= i < |dests| ensures Remaining(c, dests, tables, i) == tables <==>
        NothingLearnedBefore(c, dests, tables, i) {
      RemainingIsAll(c, dests, tables, i);
    }
    if tables != {} &&
       exists i, j :: 0 <= i < j < |dests| && dests[i].overwriteDeleteStale && dests[j].overwriteDeleteStale {
      var i, j :| 0 <= i < j < |dests| && dests[i].overwriteDeleteStale && dests[j].overwriteDeleteStale;
      LaterGetNothing(c, dests, tables, i, j);
      var t :| t in tables;
      assert Rename(c, dests[j].name, t) in Image(c, dests[j].name, tables);
    }
  }

  /** A concrete sync: two destinations that keep the table's name; the second is told to clean nothing. */
  lemma SecondDestinationIsSkipped()
    ensures var c := map["a" := map["users" := "users"], "b" := map["users" := "users"]];
      var dests := [Destination("a", true), Destination("b", true)];
      StaleFor(c, dests, {"users"}, 0) == {"users"} && StaleFor(c, dests, {"users"}, 1) == {}
  {
    var c := map["a" := map["users" := "users"], "b" := map["users" := "users"]];
    var dests := [Destination("a", true), Destination("b", true)];
    FirstGetsAll(c, dests, {"users"}, 0);
    assert Rename(c, "a", "users") == "users";
    LaterGetNothing(c, dests, {"users"}, 0, 1);
  }
}
