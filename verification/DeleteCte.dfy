/**
 Record deletes compiled to one PostgreSQL statement: a chain of data-modifying CTEs that follows the
 table relations from the root table down. All parts of such a statement see the same snapshot and
 learn of each other's deletes only through RETURNING (section 7.8.4 of the PostgreSQL manual).
 */
module DeleteCte {
  import opened Basics
  import opened WhereClause

  datatype TableRelation = TableRelation(table: string, parent: string)

  datatype DeleteRecord = DeleteRecord(table: string, where: seq<Group>, relations: seq<TableRelation>)

  /** A stored row; ctid tells rows with equal contents apart. Id columns may be NULL. */
  datatype Row = Row(ctid: nat, id: Option<int>, parent: Option<int>, cells: Cells)

  type Database = map<string, set<Row>>

  // ---------------------------------------------------------------- the generated statement

  datatype Body =
    | InitialDelete(table: string, where: Option<seq<Token>>)
    | RelationDelete(table: string, from: string)

  datatype Cte = Cte(name: string, body: Body)

  /** WITH ctes, then one count(*) per name in `counts`, joined by UNION ALL. */
  datatype Statement = Statement(ctes: seq<Cte>, counts: seq<string>)

  function CteName(table: string): string {
    table + "_CTE"
  }

  function RootCte(d: DeleteRecord): Cte {
    Cte(CteName(d.table), InitialDelete(d.table, if d.where == [] then None else Some(WhereTokens(d.where, 1))))
  }

  function RelationCte(r: TableRelation): Cte {
    Cte(CteName(r.table), RelationDelete(r.table, CteName(r.parent)))
  }

  /** All CTEs of the statement, the root's first. */
  function Ctes(d: DeleteRecord): seq<Cte> {
    [RootCte(d)] + MapSeq(RelationCte, d.relations)
  }

  method GenerateInitialDelete(table: string, where: seq<Group>) returns (body: Body)
    ensures body == InitialDelete(table, if where == [] then None else Some(WhereTokens(where, 1)))
  {
    if |where| > 0 {
      var tokens := GenerateGroups(where);
      return InitialDelete(table, Some(tokens));
    }
    return InitialDelete(table, None);
  }

  method GenerateDeleteCTE(d: DeleteRecord) returns (s: Statement)
    ensures s.ctes == Ctes(d)
    ensures |s.counts| == |d.relations| + 1 && s.counts[|d.relations|] == CteName(d.table)
    ensures forall i :: 0 <= i < |d.relations| ==> s.counts[i] == CteName(d.relations[i].table)
  {
    var tables: array<string> := new string[|d.relations|](_ => "");
    var initial := GenerateInitialDelete(d.table, d.where);
    var ctes := [Cte(CteName(d.table), initial)];
    for i := 0 to |d.relations|
      invariant ctes == [RootCte(d)] + MapSeq(RelationCte, d.relations[..i])
      invariant forall j :: 0 <= j < i ==> tables[j] == d.relations[j].table
    {
      var relation := d.relations[i];
      ctes := ctes + [Cte(CteName(relation.table), RelationDelete(relation.table, CteName(relation.parent)))];
      assert MapSeq(RelationCte, d.relations[..i + 1]) ==
          MapSeq(RelationCte, d.relations[..i]) + [RelationCte(relation)];
      tables[i] := relation.table;
    }
    assert d.relations[..|d.relations|] == d.relations;
    var counts := [];
    for i := 0 to tables.Length
      invariant |counts| == i && forall j :: 0 <= j < i ==> counts[j] == CteName(d.relations[j].table)
    {
      counts := counts + [CteName(tables[i])];
    }
    return Statement(ctes, counts + [CteName(d.table)]);
  }

  // ---------------------------------------------------------------- SQL: evaluating it

  /** The rows a WHERE clause selects, if it is one; without a clause, all. */
  function Selected(where: Option<seq<Token>>, rows: set<Row>, params: seq<Option<Value>>): Option<set<Row>> {
    match where
    case None => Some(rows)
    case Some(ts) =>
      match ParseWhere(ts)
      case None => None
      case Some(e) => Some(set r | r in rows && Eval(e, r.cells, params) == Yes)
  }

  /** `_cq_parent_id in (select _cq_id from ...)`: NULLs on either side match nothing. */
  function Children(rows: set<Row>, parents: set<Row>): set<Row> {
    set r | r in rows && r.parent.Some? && exists p :: p in parents && p.id == r.parent
  }

  /** What a CTE name stands for in the parts behind it: the rows its DELETE returned. */
  type Env = map<string, set<Row>>

  /** The rows a body deletes, looking up FROM names among the CTEs before it, then among the tables. */
  function Run(body: Body, env: Env, db: Database, params: seq<Option<Value>>): Option<set<Row>> {
    if body.table !in db then None
    else
      match body
      case InitialDelete(t, where) => Selected(where, db[t], params)
      case RelationDelete(t, from) =>
        if from in env then Some(Children(db[t], env[from]))
        else if from in db then Some(Children(db[t], db[from]))
        else None
  }

  /** The CTEs in order, every one on the same snapshot; a repeated CTE name is an error. */
  function RunCtes(ctes: seq<Cte>, env: Env, db: Database, params: seq<Option<Value>>): Option<Env> {
    if ctes == [] then Some(env)
    else if ctes[0].name in env then None
    else
      match Run(ctes[0].body, env, db, params)
      case None => None
      case Some(deleted) => RunCtes(ctes[1..], env[ctes[0].name := deleted], db, params)
  }

  /** The rows deleted from a table by the statement. */
  function DeletedFrom(ctes: seq<Cte>, env: Env, table: string): set<Row> {
    set c, r | c in ctes && c.body.table == table && c.name in env && r in env[c.name] :: r
  }

  /** The database after the statement. */
  function After(ctes: seq<Cte>, env: Env, db: Database): Database {
    map t | t in db :: db[t] - DeletedFrom(ctes, env, t)
  }

  // ---------------------------------------------------------------- what is meant

  /** A row of a table. */
  datatype Node = Node(table: string, row: Row)

  predicate RootMatches(d: DeleteRecord, row: Row) {
    AllGroupsHold(d.where, row.cells)
  }

  predicate ChildOf(d: DeleteRecord, child: Node, parent: Node) {
    TableRelation(child.table, parent.table) in d.relations && child.row.parent.Some? &&
        child.row.parent == parent.row.id
  }

  /** From a matching root row down over listed relations, each row the child of the one before. */
  ghost predicate Lineage(d: DeleteRecord, db: Database, path: seq<Node>) {
    && path != []
    && path[0].table == d.table && RootMatches(d, path[0].row)
    && (forall i :: 0 <= i < |path| ==> path[i].table in db && path[i].row in db[path[i].table])
    && (forall i :: 0 < i < |path| ==> ChildOf(d, path[i], path[i - 1]))
  }

  /** The row matches at the root, or descends from a row that does. */
  ghost predicate Doomed(d: DeleteRecord, db: Database, n: Node) {
    exists path: seq<Node> :: Lineage(d, db, path) && path[|path| - 1] == n
  }

  /** Every relation's parent is the root or the table of an earlier relation. */
  ghost predicate ParentsFirst(d: DeleteRecord) {
    forall i: nat :: i < |d.relations| ==> ParentBefore(d, i)
  }

  ghost predicate ParentBefore(d: DeleteRecord, i: nat)
    requires i < |d.relations|
  {
    d.relations[i].parent == d.table || exists j :: 0 <= j < i && d.relations[j].table == d.relations[i].parent
  }

  ghost predicate DistinctTables(d: DeleteRecord) {
    && (forall i :: 0 <= i < |d.relations| ==> d.relations[i].table != d.table)
    && (forall i, j :: 0 <= i < j < |d.relations| ==> d.relations[i].table != d.relations[j].table)
  }

  ghost predicate TablesExist(d: DeleteRecord, db: Database) {
    d.table in db && forall i :: 0 <= i < |d.relations| ==> d.relations[i].table in db
  }

  ghost function DoomedRows(d: DeleteRecord, db: Database, table: string): set<Row>
    requires table in db
  {
    set r | r in db[table] && Doomed(d, db, Node(table, r))
  }

  // ---------------------------------------------------------------- proof

  lemma CteNameIsInjective(a: string, b: string)
    ensures CteName(a) == CteName(b) <==> a == b
  {
    if CteName(a) == CteName(b) {
      assert CteName(a)[..|a|] == a && CteName(b)[..|b|] == b;
    }
  }

  lemma RootDoomed(d: DeleteRecord, db: Database)
    requires DistinctTables(d) && d.table in db
    ensures DoomedRows(d, db, d.table) == set r | r in db[d.table] && RootMatches(d, r)
  {
    forall r | r in db[d.table] ensures Doomed(d, db, Node(d.table, r)) <==> RootMatches(d, r) {
      var n := Node(d.table, r);
      if RootMatches(d, r) {
        assert Lineage(d, db, [n]);
      }
      if Doomed(d, db, n) {
        var path: seq<Node> :| Lineage(d, db, path) && path[|path| - 1] == n;
        if |path| > 1 {
          assert ChildOf(d, path[|path| - 1], path[|path| - 2]);
        }
      }
    }
  }

  /** A doomed row of a relation's table has a doomed parent ... */
  lemma DoomedHasParent(d: DeleteRecord, db: Database, i: nat, r: Row) returns (p: Row)
    requires DistinctTables(d) && i < |d.relations| && Doomed(d, db, Node(d.relations[i].table, r))
    ensures d.relations[i].parent in db && p in db[d.relations[i].parent]
    ensures Doomed(d, db, Node(d.relations[i].parent, p)) && r.parent.Some? && p.id == r.parent
  {
    var n := Node(d.relations[i].table, r);
    var path: seq<Node> :| Lineage(d, db, path) && path[|path| - 1] == n;
    var above := path[..|path| - 1];
    var m := path[|path| - 2];
    assert ChildOf(d, n, m);
    assert TableRelation(n.table, m.table) == d.relations[i];
    assert Lineage(d, db, above);
    assert above[|above| - 1] == m;
    p := m.row;
  }

  /** ... and a child of a doomed parent is doomed. */
  lemma ChildIsDoomed(d: DeleteRecord, db: Database, i: nat, r: Row, p: Row)
    requires i < |d.relations| && d.relations[i].table in db && r in db[d.relations[i].table]
    requires Doomed(d, db, Node(d.relations[i].parent, p)) && r.parent.Some? && p.id == r.parent
    ensures Doomed(d, db, Node(d.relations[i].table, r))
  {
    var n, m := Node(d.relations[i].table, r), Node(d.relations[i].parent, p);
    var path: seq<Node> :| Lineage(d, db, path) && path[|path| - 1] == m;
    assert ChildOf(d, n, m) by {
      assert d.relations[i] == TableRelation(n.table, m.table);
    }
    var longer := path + [n];
    assert Lineage(d, db, longer) && longer[|longer| - 1] == n;
  }

  lemma RelationDoomed(d: DeleteRecord, db: Database, i: nat)
    requires DistinctTables(d) && i < |d.relations|
    requires d.relations[i].table in db && d.relations[i].parent in db
    ensures DoomedRows(d, db, d.relations[i].table) ==
            Children(db[d.relations[i].table], DoomedRows(d, db, d.relations[i].parent))
  {
    var t, p := d.relations[i].table, d.relations[i].parent;
    forall r | r in db[t] ensures Doomed(d, db, Node(t, r)) <==> r in Children(db[t], DoomedRows(d, db, p)) {
      if Doomed(d, db, Node(t, r)) {
        var q := DoomedHasParent(d, db, i, r);
        assert q in DoomedRows(d, db, p);
      }
      if r in Children(db[t], DoomedRows(d, db, p)) {
        var q :| q in DoomedRows(d, db, p) && q.id == r.parent;
        ChildIsDoomed(d, db, i, r, q);
      }
    }
  }

  lemma RootSelected(d: DeleteRecord, db: Database)
    requires DistinctTables(d) && d.table in db && (d.where == [] || Spellable(d.where))
    ensures Run(RootCte(d).body, map[], db, Values(d.where)) == Some(DoomedRows(d, db, d.table))
  {
    RootDoomed(d, db);
    var matching := set r | r in db[d.table] && RootMatches(d, r);
    if d.where == [] {
      assert matching == db[d.table];
    } else {
      GeneratedParses(d.where, 1);
      var e := WhereExpr(d.where, 1);
      forall r | r in db[d.table] ensures Eval(e, r.cells, Values(d.where)) == Yes <==> RootMatches(d, r) {
        GeneratedWhereIsExact(d.where, r.cells);
      }
      assert matching == set r | r in db[d.table] && Eval(e, r.cells, Values(d.where)) == Yes;
    }
  }

  /** The CTE names of the root and the first k relations. */
  function Names(d: DeleteRecord, k: nat): set<string>
    requires k <= |d.relations|
  {
    if k == 0 then {CteName(d.table)} else Names(d, k - 1) + {CteName(d.relations[k - 1].table)}
  }

  ghost predicate BoundTo(d: DeleteRecord, db: Database, env: Env, t: string) {
    t in db && CteName(t) in env && env[CteName(t)] == DoomedRows(d, db, t)
  }

  /** The CTEs of the root and the first k relations are bound to exactly the doomed rows of their tables. */
  ghost predicate Bound(d: DeleteRecord, db: Database, env: Env, k: nat) {
    && k <= |d.relations|
    && env.Keys == Names(d, k)
    && BoundTo(d, db, env, d.table)
    && forall j: nat :: j < k ==> BoundTo(d, db, env, d.relations[j].table)
  }

  lemma {:induction false} NamesAre(d: DeleteRecord, k: nat, t: string)
    requires k <= |d.relations| && CteName(t) in Names(d, k)
    ensures t == d.table || exists j: nat :: j < k && d.relations[j].table == t
  {
    CteNameIsInjective(t, d.table);
    if k > 0 {
      CteNameIsInjective(t, d.relations[k - 1].table);
      if CteName(t) in Names(d, k - 1) {
        NamesAre(d, k - 1, t);
      }
    }
  }

  /** The CTEs of the relations from number k on. */
  function RelationCtes(d: DeleteRecord, k: nat): (ctes: seq<Cte>)
    requires k <= |d.relations|
    ensures k < |d.relations| ==>
              ctes != [] && ctes[0] == RelationCte(d.relations[k]) && ctes[1..] == RelationCtes(d, k + 1)
    decreases |d.relations| - k
  {
    if k == |d.relations| then [] else [RelationCte(d.relations[k])] + RelationCtes(d, k + 1)
  }

  lemma {:induction false} RelationCtesAre(d: DeleteRecord, k: nat)
    requires k <= |d.relations|
    ensures RelationCtes(d, k) == MapSeq(RelationCte, d.relations[k..])
    decreases |d.relations| - k
  {
    if k < |d.relations| {
      RelationCtesAre(d, k + 1);
      assert d.relations[k..][0] == d.relations[k] && d.relations[k..][1..] == d.relations[k + 1..];
    }
  }

  lemma BindRelation(d: DeleteRecord, db: Database, k: nat, env: Env) returns (env': Env)
    requires DistinctTables(d) && ParentsFirst(d) && k < |d.relations| && d.relations[k].table in db
    requires Bound(d, db, env, k)
    ensures Bound(d, db, env', k + 1)
    ensures RunCtes(RelationCtes(d, k), env, db, Values(d.where)) ==
            RunCtes(RelationCtes(d, k + 1), env', db, Values(d.where))
  {
    var r := d.relations[k];
    NewName(d, db, env, k);
    assert ParentBefore(d, k);
    RelationDoomed(d, db, k);
    env' := env[CteName(r.table) := DoomedRows(d, db, r.table)];
    StillBound(d, db, env, k);
  }

  lemma {:induction false} RelationsBind(d: DeleteRecord, db: Database, k: nat, env: Env) returns (env': Env)
    requires DistinctTables(d) && ParentsFirst(d) && TablesExist(d, db) && k <= |d.relations| && Bound(d, db, env, k)
    ensures RunCtes(RelationCtes(d, k), env, db, Values(d.where)) == Some(env') && Bound(d, db, env', |d.relations|)
    decreases |d.relations| - k
  {
    if k == |d.relations| {
      env' := env;
    } else {
      var next := BindRelation(d, db, k, env);
      env' := RelationsBind(d, db, k + 1, next);
    }
  }

  lemma CtesBind(d: DeleteRecord, db: Database) returns (env: Env)
    requires DistinctTables(d) && ParentsFirst(d) && TablesExist(d, db) && (d.where == [] || Spellable(d.where))
    ensures RunCtes(Ctes(d), map[], db, Values(d.where)) == Some(env)
    ensures Bound(d, db, env, |d.relations|)
  {
    RootSelected(d, db);
    var first := map[CteName(d.table) := DoomedRows(d, db, d.table)];
    env := RelationsBind(d, db, 0, first);
    RelationCtesAre(d, 0);
    assert d.relations[0..] == d.relations;
    assert Ctes(d)[1..] == RelationCtes(d, 0);
  }

  lemma NewName(d: DeleteRecord, db: Database, env: Env, k: nat)
    requires DistinctTables(d) && k < |d.relations| && Bound(d, db, env, k)
    ensures CteName(d.relations[k].table) !in env
  {
    if CteName(d.relations[k].table) in Names(d, k) {
      NamesAre(d, k, d.relations[k].table);
    }
  }

  lemma StillBound(d: DeleteRecord, db: Database, env: Env, k: nat)
    requires k < |d.relations| && Bound(d, db, env, k) && d.relations[k].table in db
    requires CteName(d.relations[k].table) !in env
    ensures Bound(d, db, env[CteName(d.relations[k].table) := DoomedRows(d, db, d.relations[k].table)], k + 1)
  {
    var name := CteName(d.relations[k].table);
    var env' := env[name := DoomedRows(d, db, d.relations[k].table)];
    forall j: nat | j < k + 1 ensures BoundTo(d, db, env', d.relations[j].table) {
      assert j < k ==> BoundTo(d, db, env, d.relations[j].table);
    }
    assert BoundTo(d, db, env, d.table);
  }

  /** The tables of the record. */
  ghost predicate Listed(d: DeleteRecord, table: string) {
    table == d.table || exists i :: 0 <= i < |d.relations| && d.relations[i].table == table
  }

  /**
   The compiled statement, for a parents-first relation list with distinct tables, deletes exactly the
   matching root rows and all their descendants, and touches no other table.
   */
  lemma CompiledDeleteIsExact(d: DeleteRecord, db: Database) returns (env: Env)
    requires DistinctTables(d) && ParentsFirst(d) && TablesExist(d, db) && (d.where == [] || Spellable(d.where))
    ensures RunCtes(Ctes(d), map[], db, Values(d.where)) == Some(env)
    ensures forall t :: t in db ==>
              After(Ctes(d), env, db)[t] == if Listed(d, t) then db[t] - DoomedRows(d, db, t) else db[t]
    ensures forall t :: Listed(d, t) ==> t in db && CteName(t) in env && env[CteName(t)] == DoomedRows(d, db, t)
  {
    env := CtesBind(d, db);
    forall t | t in db ensures DeletedFrom(Ctes(d), env, t) == if Listed(d, t) then DoomedRows(d, db, t) else {} {
      DeletedIsDoomed(d, db, env, t);
    }
    forall t | Listed(d, t) ensures t in db && CteName(t) in env && env[CteName(t)] == DoomedRows(d, db, t) {
      ListedIsBound(d, db, env, t);
    }
  }

  lemma TableCte(d: DeleteRecord, t: string) returns (c: Cte)
    requires Listed(d, t)
    ensures c in Ctes(d) && c.body.table == t && c.name == CteName(t)
  {
    if t == d.table {
      c := Ctes(d)[0];
    } else {
      var i :| 0 <= i < |d.relations| && d.relations[i].table == t;
      c := Ctes(d)[i + 1];
    }
  }

  lemma DeletedIsDoomed(d: DeleteRecord, db: Database, env: Env, t: string)
    requires Bound(d, db, env, |d.relations|) && t in db
    ensures DeletedFrom(Ctes(d), env, t) == if Listed(d, t) then DoomedRows(d, db, t) else {}
  {
    var deleted := DeletedFrom(Ctes(d), env, t);
    forall r ensures r in deleted <==> Listed(d, t) && r in DoomedRows(d, db, t) {
      if r in deleted {
        var c :| c in Ctes(d) && c.body.table == t && c.name in env && r in env[c.name];
        ListedIsBound(d, db, env, t);
      }
      if Listed(d, t) && r in DoomedRows(d, db, t) {
        var c := TableCte(d, t);
        ListedIsBound(d, db, env, t);
      }
    }
  }

  lemma ListedIsBound(d: DeleteRecord, db: Database, env: Env, t: string)
    requires Bound(d, db, env, |d.relations|) && Listed(d, t)
    ensures BoundTo(d, db, env, t)
  {
    if t != d.table {
      var i: nat :| i < |d.relations| && d.relations[i].table == t;
      assert BoundTo(d, db, env, d.relations[i].table);
    }
  }

  /** No row that survives in a listed relation's table points at a row the statement deleted from its parent. */
  lemma NoOrphans(d: DeleteRecord, db: Database, i: nat, r: Row, p: Row) returns (env: Env)
    requires DistinctTables(d) && ParentsFirst(d) && TablesExist(d, db) && (d.where == [] || Spellable(d.where))
    requires i < |d.relations| && d.relations[i].parent in db
    ensures RunCtes(Ctes(d), map[], db, Values(d.where)) == Some(env)
    ensures var left := After(Ctes(d), env, db);
      (r in left[d.relations[i].table] && p in db[d.relations[i].parent] && p !in left[d.relations[i].parent] &&
          r.parent.Some?)
      ==> r.parent != p.id
  {
    env := CompiledDeleteIsExact(d, db);
    RelationDoomed(d, db, i);
    assert Listed(d, d.relations[i].table);
  }

  /** A relation listed before its parent refers to a CTE that is not there yet: the statement fails. */
  lemma ChildBeforeParentFails(d: DeleteRecord, db: Database, i: nat, params: seq<Option<Value>>)
    requires i < |d.relations| && d.relations[i].parent != d.table
    requires forall j :: 0 <= j < i ==> d.relations[j].table != d.relations[i].parent
    requires CteName(d.relations[i].parent) !in db
    ensures RunCtes(Ctes(d), map[], db, params) == None
  {
    RelationCtesAre(d, 0);
    assert d.relations[0..] == d.relations;
    assert Ctes(d)[1..] == RelationCtes(d, 0);
    var root := Run(RootCte(d).body, map[], db, params);
    if root.Some? {
      FailsFrom(d, db, i, params, 0, map[CteName(d.table) := root.value]);
    }
  }

  lemma {:induction false} FailsFrom(d: DeleteRecord, db: Database, i: nat, params: seq<Option<Value>>, k: nat,
                                     env: Env)
    requires k <= i < |d.relations| && d.relations[i].parent != d.table
    requires forall j :: 0 <= j < i ==> d.relations[j].table != d.relations[i].parent
    requires CteName(d.relations[i].parent) !in db && env.Keys == Names(d, k)
    ensures RunCtes(RelationCtes(d, k), env, db, params) == None
    decreases i - k
  {
    var cte := RelationCte(d.relations[k]);
    if k == i {
      if CteName(d.relations[i].parent) in Names(d, k) {
        NamesAre(d, k, d.relations[i].parent);
      }
    } else if cte.name !in env {
      var deleted := Run(cte.body, env, db, params);
      if deleted.Some? {
        FailsFrom(d, db, i, params, k + 1, env[cte.name := deleted.value]);
      }
    }
  }

  /** Every relation's parent is the root, the table of an earlier relation, or has a table named like its CTE. */
  ghost predicate ParentsResolve(d: DeleteRecord, db: Database) {
    forall i :: 0 <= i < |d.relations| ==>
      || d.relations[i].parent == d.table
      || (exists j :: 0 <= j < i && d.relations[j].table == d.relations[i].parent)
      || CteName(d.relations[i].parent) in db
  }

  /** Relation i can run once the CTEs before it have names. */
  predicate RelationRuns(d: DeleteRecord, db: Database, i: nat)
    requires i < |d.relations|
  {
    var r := d.relations[i];
    && r.table in db && CteName(r.table) !in Names(d, i)
    && (CteName(r.parent) in Names(d, i) || CteName(r.parent) in db)
  }

  lemma RelationStep(d: DeleteRecord, db: Database, params: seq<Option<Value>>, k: nat, env: Env) returns (env': Env)
    requires k < |d.relations| && env.Keys == Names(d, k)
    ensures RelationRuns(d, db, k) ==> env'.Keys == Names(d, k + 1)
    ensures RunCtes(RelationCtes(d, k), env, db, params) ==
            if RelationRuns(d, db, k) then RunCtes(RelationCtes(d, k + 1), env', db, params) else None
  {
    var cte := RelationCte(d.relations[k]);
    var deleted := Run(cte.body, env, db, params);
    env' := if deleted.Some? then env[cte.name := deleted.value] else env;
  }

  lemma {:induction false} RelationsRunIff(d: DeleteRecord, db: Database, params: seq<Option<Value>>, k: nat, env: Env)
    requires k <= |d.relations| && env.Keys == Names(d, k)
    ensures RunCtes(RelationCtes(d, k), env, db, params).Some? <==>
            forall i: nat :: k <= i < |d.relations| ==> RelationRuns(d, db, i)
    decreases |d.relations| - k
  {
    if k < |d.relations| {
      assert (forall i: nat :: k <= i < |d.relations| ==> RelationRuns(d, db, i)) <==>
             RelationRuns(d, db, k) && forall i: nat :: k + 1 <= i < |d.relations| ==> RelationRuns(d, db, i);
      var env' := RelationStep(d, db, params, k, env);
      if RelationRuns(d, db, k) {
        RelationsRunIff(d, db, params, k + 1, env');
      }
    }
  }

  lemma {:induction false} NamesHold(d: DeleteRecord, k: nat, t: string)
    requires k <= |d.relations|
    ensures CteName(t) in Names(d, k) <==> t == d.table || exists j :: 0 <= j < k && d.relations[j].table == t
  {
    if CteName(t) in Names(d, k) {
      NamesAre(d, k, t);
    }
    if k > 0 {
      NamesHold(d, k - 1, t);
    }
  }

  lemma AllRunIff(d: DeleteRecord, db: Database)
    ensures (forall i: nat :: i < |d.relations| ==> RelationRuns(d, db, i)) <==>
            && (forall i :: 0 <= i < |d.relations| ==> d.relations[i].table in db)
            && DistinctTables(d) && ParentsResolve(d, db)
  {
    forall i: nat, t | i < |d.relations|
      ensures CteName(t) in Names(d, i) <==> t == d.table || exists j :: 0 <= j < i && d.relations[j].table == t
    {
      NamesHold(d, i, t);
    }
    if forall i: nat :: i < |d.relations| ==> RelationRuns(d, db, i) {
      forall i, j | 0 <= i < j < |d.relations| ensures d.relations[i].table != d.relations[j].table {
        assert RelationRuns(d, db, j);
      }
      forall i | 0 <= i < |d.relations| ensures d.relations[i].table != d.table && d.relations[i].table in db {
        assert RelationRuns(d, db, i);
      }
      forall i | 0 <= i < |d.relations|
        ensures || d.relations[i].parent == d.table
                || (exists j :: 0 <= j < i && d.relations[j].table == d.relations[i].parent)
                || CteName(d.relations[i].parent) in db
      {
        assert RelationRuns(d, db, i);
      }
    }
  }

  /**
   The statement runs if and only if its tables exist and are distinct, the clause can be spelled, and every relation's
   parent is the root or an earlier relation's table, unless a table happens to have the name of the missing CTE.
   */
  lemma StatementRunsIff(d: DeleteRecord, db: Database)
    ensures RunCtes(Ctes(d), map[], db, Values(d.where)).Some? <==>
            DistinctTables(d) && TablesExist(d, db) && (d.where == [] || Spellable(d.where)) && ParentsResolve(d, db)
  {
    RelationCtesAre(d, 0);
    assert d.relations[0..] == d.relations;
    assert Ctes(d)[1..] == RelationCtes(d, 0);
    GeneratedParses(d.where, 1);
    AllRunIff(d, db);
    var root := Run(RootCte(d).body, map[], db, Values(d.where));
    assert root.Some? <==> d.table in db && (d.where == [] || Spellable(d.where));
    if root.Some? {
      RelationsRunIff(d, db, Values(d.where), 0, map[CteName(d.table) := root.value]);
    }
  }
}
