/** The SQLite back end for units: rows with derived columns, a denormalised reference index, and a
    query assembled clause by clause with positionally bound parameters. It is compared with the
    in-memory back end, whose listing is `Listing.ListUnits` and whose edge lookup is a scan. */
module SqliteStorage {
  import opened Units
  import opened Listing

  // ---------------------------------------------------------------------------
  // Rows
  // ---------------------------------------------------------------------------

  function TypeName(t: UnitType): string {
    match t
    case Assertion => "assertion"
    case Question => "question"
    case Inference => "inference"
    case Challenge => "challenge"
    case Constraint => "constraint"
  }

  function VisibilityName(v: Visibility): string {
    match v
    case Public => "public"
    case Network => "network"
    case Limited => "limited"
  }

  datatype Row = Row(id: Id, unitType: string, author: Did, createdAt: nat, visibility: string, data: Unit)

  function RowOf(u: Unit): Row {
    Row(u.id, TypeName(u.unitType), u.author, u.createdAt, VisibilityName(u.Vis()), u)
  }

  /** The units table under its primary key, and the rows of `unit_references`. */
  datatype Db = Db(rows: map<Id, Row>, refs: set<(Id, Id)>) {
    /** Derived columns agree with the unit in the data column. */
    ghost predicate Derived() {
      forall id :: id in rows ==> rows[id] == RowOf(rows[id].data) && rows[id].id == id
    }

    function Units(): UnitMap {
      map id | id in rows :: rows[id].data
    }
  }

  // ---------------------------------------------------------------------------
  // Building and running the listing query
  // ---------------------------------------------------------------------------

  datatype SqlParam = Text(text: string) | Key(key: nat) | Integer(value: int)

  datatype Clause =
    | UnitTypeIn(marks: nat)
    | AuthorIs
    | CreatedAtLeast
    | IdAfter
    | VisibilityIn(marks: nat)
    | NotNetworkOrAuthorIn(marks: nat)
  {
    /** How many `?` the clause contains. */
    function Marks(): nat {
      match this
      case UnitTypeIn(n) => n
      case VisibilityIn(n) => n
      case NotNetworkOrAuthorIn(n) => n
      case _ => 1
    }

    predicate Holds(row: Row, args: seq<SqlParam>)
      requires |args| == Marks()
    {
      match this
      case UnitTypeIn(_) => Text(row.unitType) in args
      case AuthorIs => args[0] == Text(row.author)
      case CreatedAtLeast => args[0].Key? && args[0].key <= row.createdAt
      case IdAfter => args[0].Key? && args[0].key < row.id
      case VisibilityIn(_) => Text(row.visibility) in args
      case NotNetworkOrAuthorIn(_) => row.visibility != "network" || Text(row.author) in args
    }
  }

  function TotalMarks(where: seq<Clause>): nat {
    if where == [] then 0 else where[0].Marks() + TotalMarks(where[1..])
  }

  /** `?` marks are bound from left to right. */
  predicate Selects(where: seq<Clause>, params: seq<SqlParam>, row: Row)
    requires TotalMarks(where) <= |params|
  {
    if where == [] then true else
      var n := where[0].Marks();
      where[0].Holds(row, params[..n]) && Selects(where[1..], params[n..], row)
  }

  lemma {:induction false} SelectsAppend(where: seq<Clause>, params: seq<SqlParam>, c: Clause, args: seq<SqlParam>, row: Row)
    requires TotalMarks(where) == |params| && c.Marks() == |args|
    ensures TotalMarks(where + [c]) == |params + args|
    ensures Selects(where + [c], params + args, row) <==> Selects(where, params, row) && c.Holds(row, args)
  {
    if where == [] {
      assert where + [c] == [c] && (params + args)[..c.Marks()] == args;
    } else {
      var n := where[0].Marks();
      SelectsAppend(where[1..], params[n..], c, args, row);
      assert (where + [c])[1..] == where[1..] + [c];
      assert (params + args)[..n] == params[..n] && (params + args)[n..] == params[n..] + args;
    }
  }

  /** Trailing parameters, such as the one bound to LIMIT, do not affect the WHERE clause. */
  lemma {:induction false} SelectsIgnoresRest(where: seq<Clause>, params: seq<SqlParam>, rest: seq<SqlParam>, row: Row)
    requires TotalMarks(where) == |params|
    ensures Selects(where, params + rest, row) <==> Selects(where, params, row)
  {
    if where != [] {
      var n := where[0].Marks();
      SelectsIgnoresRest(where[1..], params[n..], rest, row);
      assert (params + rest)[..n] == params[..n] && (params + rest)[n..] == params[n..] + rest;
    }
  }

  datatype Query = Query(where: seq<Clause>, params: seq<SqlParam>)

  /** Every `?` has exactly one parameter, the last of which is the LIMIT. */
  predicate WellBound(q: Query) {
    && |q.params| == TotalMarks(q.where) + 1
    && q.params[|q.params| - 1].Integer?
    && q.params[|q.params| - 1].value >= 0
  }

  function RowRange(rows: map<Id, Row>, ids: set<Id>): seq<Row>
    requires ids <= rows.Keys
  {
    if ids == {} then [] else [rows[Least(ids)]] + RowRange(rows, ids - {Least(ids)})
  }

  /** SELECT ... WHERE ... ORDER BY id ASC LIMIT ? */
  function Execute(rows: map<Id, Row>, q: Query): seq<Row>
    requires WellBound(q)
  {
    Take(RowRange(rows, set id | id in rows && Selects(q.where, q.params, rows[id])),
         q.params[|q.params| - 1].value)
  }

  function TypeTexts(ts: seq<UnitType>): (r: seq<SqlParam>)
    ensures |r| == |ts|
  {
    seq(|ts|, i requires 0 <= i < |ts| => Text(TypeName(ts[i])))
  }

  function VisibilityTexts(vs: seq<Visibility>): (r: seq<SqlParam>)
    ensures |r| == |vs|
  {
    seq(|vs|, i requires 0 <= i < |vs| => Text(VisibilityName(vs[i])))
  }

  function AuthorTexts(authors: seq<Did>): (r: seq<SqlParam>)
    ensures |r| == |authors|
  {
    seq(|authors|, i requires 0 <= i < |authors| => Text(authors[i]))
  }

  lemma TypeTextsHold(ts: seq<UnitType>, u: Unit)
    ensures Text(TypeName(u.unitType)) in TypeTexts(ts) <==> u.unitType in ts
  {
    if u.unitType in ts {
      var i :| 0 <= i < |ts| && ts[i] == u.unitType;
      assert TypeTexts(ts)[i] == Text(TypeName(u.unitType));
    }
    if Text(TypeName(u.unitType)) in TypeTexts(ts) {
      var i :| 0 <= i < |ts| && TypeTexts(ts)[i] == Text(TypeName(u.unitType));
    }
  }

  lemma VisibilityTextsHold(vs: seq<Visibility>, u: Unit)
    ensures Text(VisibilityName(u.Vis())) in VisibilityTexts(vs) <==> u.Vis() in vs
    ensures VisibilityName(u.Vis()) == "network" <==> u.Vis() == Network
  {
    if u.Vis() in vs {
      var i :| 0 <= i < |vs| && vs[i] == u.Vis();
      assert VisibilityTexts(vs)[i] == Text(VisibilityName(u.Vis()));
    }
    if Text(VisibilityName(u.Vis())) in VisibilityTexts(vs) {
      var i :| 0 <= i < |vs| && VisibilityTexts(vs)[i] == Text(VisibilityName(u.Vis()));
    }
  }

  lemma AuthorTextsHold(authors: seq<Did>, a: Did)
    ensures Text(a) in AuthorTexts(authors) <==> a in authors
  {
    if a in authors {
      var i :| 0 <= i < |authors| && authors[i] == a;
      assert AuthorTexts(authors)[i] == Text(a);
    }
  }

  /** The conditions a filter imposes, in the order the query is assembled. */
  predicate Conjunct(f: UnitFilter, k: nat, u: Unit) {
    match k
    case 0 => f.unitTypes == [] || u.unitType in f.unitTypes
    case 1 => f.author.Some? ==> u.author == f.author.value
    case 2 => f.since.Some? ==> f.since.value <= u.createdAt
    case 3 => f.after.Some? ==> f.after.value < u.id
    case 4 => f.visibilities == [] || u.Vis() in f.visibilities
    case _ => f.visibilities == [] || f.networkForAuthors == [] || u.Vis() != Network || u.author in f.networkForAuthors
  }

  predicate Conjuncts(f: UnitFilter, n: nat, u: Unit) {
    n == 0 || (Conjuncts(f, n - 1, u) && Conjunct(f, n - 1, u))
  }

  lemma SixConjuncts(f: UnitFilter, u: Unit)
    ensures Conjuncts(f, 6, u) <==> Matches(f, u) && Beyond(f.after, u.id)
  {
    assert Conjuncts(f, 1, u) <==> Conjunct(f, 0, u);
    assert Conjuncts(f, 2, u) <==> Conjunct(f, 0, u) && Conjunct(f, 1, u);
    assert Conjuncts(f, 4, u) <==> Conjuncts(f, 2, u) && Conjunct(f, 2, u) && Conjunct(f, 3, u);
    assert Conjuncts(f, 6, u) <==> Conjuncts(f, 4, u) && Conjunct(f, 4, u) && Conjunct(f, 5, u);
  }

  /** The partial query selects exactly the rows whose unit meets the first `n` conditions. */
  ghost predicate SelectsFirst(where: seq<Clause>, params: seq<SqlParam>, f: UnitFilter, n: nat) {
    && TotalMarks(where) == |params|
    && forall u: Unit :: Selects(where, params, RowOf(u)) <==> Conjuncts(f, n, u)
  }

  lemma AppendedClause(where: seq<Clause>, params: seq<SqlParam>, f: UnitFilter, n: nat, c: Clause, args: seq<SqlParam>)
    requires SelectsFirst(where, params, f, n) && c.Marks() == |args|
    requires forall u: Unit :: c.Holds(RowOf(u), args) <==> Conjunct(f, n, u)
    ensures SelectsFirst(where + [c], params + args, f, n + 1)
  {
    forall u: Unit
      ensures TotalMarks(where + [c]) == |params + args|
      ensures Selects(where + [c], params + args, RowOf(u)) <==> Conjuncts(f, n + 1, u)
    {
      SelectsAppend(where, params, c, args, RowOf(u));
    }
    SelectsAppend(where, params, c, args, Row(0, "", "", 0, "", Unit(0, Assertion, "", 0, None, None, None, "")));
  }

  lemma SkippedClause(where: seq<Clause>, params: seq<SqlParam>, f: UnitFilter, n: nat)
    requires SelectsFirst(where, params, f, n)
    requires forall u: Unit :: Conjunct(f, n, u)
    ensures SelectsFirst(where, params, f, n + 1)
  {
  }

  /** The query-building code: one optional clause at a time, its parameters pushed as it goes, and
      the LIMIT parameter last. */
  method BuildQuery(f: UnitFilter) returns (q: Query)
    ensures WellBound(q) && q.params[|q.params| - 1].value == f.limit + 1
    ensures forall u: Unit :: Selects(q.where, q.params, RowOf(u)) <==> Matches(f, u) && Beyond(f.after, u.id)
  {
    var where: seq<Clause>, params: seq<SqlParam> := [], [];
    assert SelectsFirst(where, params, f, 0);

    if f.unitTypes != [] {
      var args := TypeTexts(f.unitTypes);
      forall u: Unit ensures UnitTypeIn(|args|).Holds(RowOf(u), args) <==> Conjunct(f, 0, u) {
        TypeTextsHold(f.unitTypes, u);
      }
      AppendedClause(where, params, f, 0, UnitTypeIn(|args|), args);
      where, params := where + [UnitTypeIn(|f.unitTypes|)], params + args;
    } else {
      SkippedClause(where, params, f, 0);
    }

    if f.author.Some? {
      AppendedClause(where, params, f, 1, AuthorIs, [Text(f.author.value)]);
      where, params := where + [AuthorIs], params + [Text(f.author.value)];
    } else {
      SkippedClause(where, params, f, 1);
    }

    if f.since.Some? {
      AppendedClause(where, params, f, 2, CreatedAtLeast, [Key(f.since.value)]);
      where, params := where + [CreatedAtLeast], params + [Key(f.since.value)];
    } else {
      SkippedClause(where, params, f, 2);
    }

    if f.after.Some? {
      AppendedClause(where, params, f, 3, IdAfter, [Key(f.after.value)]);
      where, params := where + [IdAfter], params + [Key(f.after.value)];
    } else {
      SkippedClause(where, params, f, 3);
    }

    where, params := VisibilityClauses(where, params, f);
    SelectsFirstWithLimit(where, params, f);
    q := Query(where, params + [Integer(f.limit + 1)]);
  }

  method VisibilityClauses(where: seq<Clause>, params: seq<SqlParam>, f: UnitFilter)
    returns (where': seq<Clause>, params': seq<SqlParam>)
    requires SelectsFirst(where, params, f, 4)
    ensures SelectsFirst(where', params', f, 6)
  {
    where', params' := where, params;
    if f.visibilities != [] {
      var args := VisibilityTexts(f.visibilities);
      forall u: Unit ensures VisibilityIn(|args|).Holds(RowOf(u), args) <==> Conjunct(f, 4, u) {
        VisibilityTextsHold(f.visibilities, u);
      }
      AppendedClause(where', params', f, 4, VisibilityIn(|args|), args);
      where', params' := where' + [VisibilityIn(|f.visibilities|)], params' + args;
      if f.networkForAuthors != [] {
        var authors := AuthorTexts(f.networkForAuthors);
        forall u: Unit ensures NotNetworkOrAuthorIn(|authors|).Holds(RowOf(u), authors) <==> Conjunct(f, 5, u) {
          VisibilityTextsHold([], u);
          AuthorTextsHold(f.networkForAuthors, u.author);
        }
        AppendedClause(where', params', f, 5, NotNetworkOrAuthorIn(|authors|), authors);
        where', params' := where' + [NotNetworkOrAuthorIn(|f.networkForAuthors|)], params' + authors;
      } else {
        SkippedClause(where', params', f, 5);
      }
    } else {
      SkippedClause(where', params', f, 4);
      SkippedClause(where', params', f, 5);
    }
  }

  lemma SelectsFirstWithLimit(where: seq<Clause>, params: seq<SqlParam>, f: UnitFilter)
    requires SelectsFirst(where, params, f, 6)
    ensures TotalMarks(where) == |params|
    ensures forall u: Unit :: Selects(where, params + [Integer(f.limit + 1)], RowOf(u)) <==> Matches(f, u) && Beyond(f.after, u.id)
  {
    forall u: Unit
      ensures Selects(where, params + [Integer(f.limit + 1)], RowOf(u)) <==> Matches(f, u) && Beyond(f.after, u.id)
    {
      SelectsIgnoresRest(where, params, [Integer(f.limit + 1)], RowOf(u));
      SixConjuncts(f, u);
    }
  }

  function DataOf(rows: seq<Row>): seq<Unit> {
    seq(|rows|, i requires 0 <= i < |rows| => rows[i].data)
  }

  lemma {:induction false} RowRangeData(db: Db, ids: set<Id>)
    requires ids <= db.rows.Keys
    ensures DataOf(RowRange(db.rows, ids)) == Range(db.Units(), ids)
  {
    if ids != {} {
      RowRangeData(db, ids - {Least(ids)});
      assert RowRange(db.rows, ids) == [db.rows[Least(ids)]] + RowRange(db.rows, ids - {Least(ids)});
    }
  }

  /** The in-memory chain filters a range; that is the range of the matching ids. */
  lemma KeepIsRange(units: UnitMap, f: UnitFilter)
    requires Keyed(units)
    ensures Keep(f, Range(units, set id | id in units && Beyond(f.after, id))) == Range(units, Matching(units, f))
  {
    var range := set id | id in units && Beyond(f.after, id);
    RangeLists(units, range);
    KeepLists(units, f, Range(units, range), range);
    assert Matching(units, f) == set id | id in range && id in units && Matches(f, units[id]);
    RangeLists(units, Matching(units, f));
    ListsAreUnique(units, Keep(f, Range(units, range)), Range(units, Matching(units, f)), Matching(units, f));
  }

  // ---------------------------------------------------------------------------
  // Inserting a unit and its index rows
  // ---------------------------------------------------------------------------

  datatype PutResult = Stored | Conflict | Internal

  /** The index rows of the first `n` references. */
  function IndexRows(u: Unit, n: nat): set<(Id, Id)>
    requires n <= |u.Refs()|
  {
    set i | 0 <= i < n :: (u.id, u.Refs()[i].id)
  }

  /** How many of a unit's index rows are written when statement `failAt` of the insertion fails:
      0 is the existence check, 1 the insert into `units`, and 2 + i the i-th index row. */
  function IndexRowsWritten(u: Unit, failAt: Option<nat>): (n: nat)
    ensures n <= |u.Refs()|
  {
    if failAt.Some? && 2 <= failAt.value < 2 + |u.Refs()| then failAt.value - 2 else |u.Refs()|
  }

  /** The new tables and the result of inserting `u`. The statements are not in a transaction, so a
      failing index insert leaves the unit and the rows written before it. */
  function Put(db: Db, u: Unit, failAt: Option<nat>): (Db, PutResult) {
    if failAt == Some(0) then (db, Internal)
    else if u.id in db.rows then (db, Conflict)
    else if failAt == Some(1) then (db, Internal)
    else
      var n := IndexRowsWritten(u, failAt);
      (Db(db.rows[u.id := RowOf(u)], db.refs + IndexRows(u, n)),
       if n < |u.Refs()| then Internal else Stored)
  }

  class SqliteStorage {
    var units: map<Id, Row>
    var unitReferences: set<(Id, Id)>

    function Tables(): Db
      reads this
    {
      Db(units, unitReferences)
    }

    constructor ()
      ensures Tables() == Db(map[], {})
    {
      units, unitReferences := map[], {};
    }

    method PutUnit(u: Unit, failAt: Option<nat>) returns (r: PutResult)
      modifies this
      ensures (Tables(), r) == Put(old(Tables()), u, failAt)
      ensures r == Stored <==> u.id !in old(units) && (failAt.Some? ==> failAt.value >= 2 + |u.Refs()|)
      ensures r == Conflict <==> u.id in old(units) && failAt != Some(0)
      ensures r == Conflict || failAt == Some(0) || failAt == Some(1) ==> Tables() == old(Tables())
      ensures r != Conflict && failAt != Some(0) && failAt != Some(1) ==>
                && units == old(units)[u.id := RowOf(u)]
                && (forall id, target :: (id, target) in unitReferences <==>
                      || (id, target) in old(unitReferences)
                      || (id == u.id && exists i :: 0 <= i < |u.Refs()| && u.Refs()[i].id == target
                                                 && (r == Internal ==> 2 + i < failAt.value)))
    {
      if failAt == Some(0) {
        return Internal;
      }
      if u.id in units {
        return Conflict;
      }
      if failAt == Some(1) {
        return Internal;
      }
      units := units[u.id := RowOf(u)];
      var refs := u.Refs();
      for i := 0 to |refs|
        invariant i <= IndexRowsWritten(u, failAt)
        invariant units == old(units)[u.id := RowOf(u)]
        invariant unitReferences == old(unitReferences) + IndexRows(u, i)
      {
        if failAt == Some(2 + i) {
          return Internal;
        }
        unitReferences := unitReferences + {(u.id, refs[i].id)};
        assert IndexRows(u, i + 1) == IndexRows(u, i) + {(u.id, refs[i].id)};
      }
      r := Stored;
    }

    /** SQLite serves the same page as the in-memory store, for every filter. */
    method ListUnits(f: UnitFilter) returns (p: Page)
      requires Tables().Derived()
      ensures p == Listing.ListUnits(Tables().Units(), f)
    {
      hide Selects, Matches;
      var q := BuildQuery(f);
      var rows := Execute(units, q);
      var hasMore := |rows| > f.limit;
      p := Page(DataOf(if hasMore then rows[..f.limit] else rows), hasMore);

      ghost var db := Tables();
      ghost var ids := set id | id in units && Selects(q.where, q.params, units[id]);
      assert ids == Matching(db.Units(), f) by {
        forall id | id in units ensures id in ids <==> id in Matching(db.Units(), f) {
          assert units[id] == RowOf(db.Units()[id]) && db.Units()[id].id == id;
        }
      }
      RowRangeData(db, ids);
      KeepIsRange(db.Units(), f);
      assert DataOf(rows) == Take(Range(db.Units(), ids), f.limit + 1);
    }
  }

  /** The edge lookup through the index: units joined with `unit_references`. */
  function ReferencingByIndex(db: Db, target: Id): set<Id> {
    set id | id in db.rows && (id, target) in db.refs
  }

  /** The edge lookup of the in-memory store: a scan of every unit's references. */
  function ReferencingByScan(units: UnitMap, target: Id): set<Id> {
    set id | id in units && units[id].Mentions(target)
  }

  // ---------------------------------------------------------------------------
  // Whole runs of insertions
  // ---------------------------------------------------------------------------

  datatype PutCall = PutCall(u: Unit, failAt: Option<nat>)

  function Run(db: Db, calls: seq<PutCall>): Db
    decreases |calls|
  {
    if calls == [] then db else Run(Put(db, calls[0].u, calls[0].failAt).0, calls[1..])
  }

  /** The in-memory store's side of a run. */
  function MemoryRun(units: UnitMap, calls: seq<PutCall>): UnitMap
    decreases |calls|
  {
    if calls == [] then units else MemoryRun(PutIfAbsent(units, calls[0].u), calls[1..])
  }

  /** The index lists an edge exactly when the stored unit mentions the target. */
  ghost predicate IndexSound(db: Db) {
    forall a: Id, b: Id :: (a, b) in db.refs ==> a in db.rows && db.rows[a].data.Mentions(b)
  }

  ghost predicate IndexComplete(db: Db) {
    forall a: Id, b: Id :: a in db.rows && db.rows[a].data.Mentions(b) ==> (a, b) in db.refs
  }

  /** The call stores its unit but fails before some mentioned target has got its index row. */
  ghost predicate Tears(db: Db, call: PutCall) {
    && call.u.id !in db.rows
    && call.failAt.Some? && call.failAt.value >= 2
    && exists i :: call.failAt.value - 2 <= i < |call.u.Refs()|
         && forall j :: 0 <= j < call.failAt.value - 2 ==> call.u.Refs()[j].id != call.u.Refs()[i].id
  }

  ghost predicate SomeCallTears(db: Db, calls: seq<PutCall>)
    decreases |calls|
  {
    calls != [] && (Tears(db, calls[0]) || SomeCallTears(Put(db, calls[0].u, calls[0].failAt).0, calls[1..]))
  }

  ghost predicate Invariant(db: Db) {
    db.Derived() && IndexSound(db)
  }

  lemma PutCompleteIff(db: Db, call: PutCall)
    requires Invariant(db)
    ensures IndexComplete(Put(db, call.u, call.failAt).0) <==> IndexComplete(db) && !Tears(db, call)
  {
    var u, db', n := call.u, Put(db, call.u, call.failAt).0, IndexRowsWritten(call.u, call.failAt);
    if db' != db {
      assert u.id !in db.rows && db'.rows[u.id].data == u;
      forall b: Id ensures (u.id, b) in db'.refs <==> exists i :: 0 <= i < n && u.Refs()[i].id == b {
        assert (u.id, b) !in db.refs;
      }
      if Tears(db, call) {
        var i :| n <= i < |u.Refs()| && forall j :: 0 <= j < n ==> u.Refs()[j].id != u.Refs()[i].id;
        assert u.Mentions(u.Refs()[i].id) && (u.id, u.Refs()[i].id) !in db'.refs;
      } else {
        forall b: Id | u.Mentions(b) ensures (u.id, b) in db'.refs {
          var i :| 0 <= i < |u.Refs()| && u.Refs()[i].id == b;
        }
        forall a: Id, b: Id | a in db.rows ensures (a, b) in db'.refs <==> (a, b) in db.refs {
        }
        if IndexComplete(db') {
          forall a: Id, b: Id | a in db.rows && db.rows[a].data.Mentions(b) ensures (a, b) in db.refs {
            assert db'.rows[a] == db.rows[a];
          }
        }
      }
    }
  }

  /** Over any run of insertions, successful or failing, the index stays sound; it ends complete, so
      that the join equals the scan for every target, if and only if no call failed between storing a
      unit and indexing all its targets. A later insertion of the same unit never repairs it. */
  lemma {:induction false} IndexAgreesWithScanIff(db: Db, calls: seq<PutCall>)
    requires Invariant(db) && IndexComplete(db)
    ensures Invariant(Run(db, calls))
    ensures IndexComplete(Run(db, calls)) <==> !SomeCallTears(db, calls)
    ensures forall t: Id :: ReferencingByIndex(Run(db, calls), t) <= ReferencingByScan(Run(db, calls).Units(), t)
    ensures (forall t: Id :: ReferencingByIndex(Run(db, calls), t) == ReferencingByScan(Run(db, calls).Units(), t))
       <==> !SomeCallTears(db, calls)
  {
    RunInvariant(db, calls);
    var end := Run(db, calls);
    if IndexComplete(end) {
      forall t: Id ensures ReferencingByIndex(end, t) == ReferencingByScan(end.Units(), t) {
      }
    } else {
      var a: Id, b: Id :| a in end.rows && end.rows[a].data.Mentions(b) && (a, b) !in end.refs;
      assert a in ReferencingByScan(end.Units(), b) && a !in ReferencingByIndex(end, b);
    }
  }

  /** It can happen: the index insert of a unit that refers to another one fails. The edge is missing
      from the index for good, although the unit is stored and inserted again without a failure. */
  lemma IndexCanTear(u: Unit, again: nat)
    requires u.references == Some([Reference(7, "supports")])
    ensures var calls := [PutCall(u, Some(2))] + seq(again, _ => PutCall(u, None));
            var end := Run(Db(map[], {}), calls);
            && u.id in ReferencingByScan(end.Units(), 7)
            && u.id !in ReferencingByIndex(end, 7)
  {
    var torn := Db(map[u.id := RowOf(u)], {});
    var repeats := seq(again, _ => PutCall(u, None));
    assert IndexRows(u, 0) == {} && IndexRowsWritten(u, Some(2)) == 0;
    assert Put(Db(map[], {}), u, Some(2)).0 == torn;
    assert ([PutCall(u, Some(2))] + repeats)[1..] == repeats;
    StaysTorn(torn, u, again);
    assert u.Refs()[0].id == 7;
  }

  lemma {:induction false} StaysTorn(db: Db, u: Unit, again: nat)
    requires u.id in db.rows
    ensures Run(db, seq(again, _ => PutCall(u, None))) == db
  {
    if again > 0 {
      var calls := seq(again, _ => PutCall(u, None));
      assert calls[1..] == seq(again - 1, _ => PutCall(u, None));
      StaysTorn(db, u, again - 1);
    }
  }

  lemma {:induction false} RunInvariant(db: Db, calls: seq<PutCall>)
    requires Invariant(db)
    ensures Invariant(Run(db, calls))
    ensures IndexComplete(Run(db, calls)) <==> IndexComplete(db) && !SomeCallTears(db, calls)
    decreases |calls|
  {
    if calls != [] {
      PutCompleteIff(db, calls[0]);
      RunInvariant(Put(db, calls[0].u, calls[0].failAt).0, calls[1..]);
    }
  }

  /** After any run in which no statement failed, SQLite holds the units the in-memory store holds and
      answers listings and edge lookups alike. */
  lemma {:induction false} RefinesMemory(db: Db, calls: seq<PutCall>, target: Id)
    requires Invariant(db) && IndexComplete(db)
    requires forall i :: 0 <= i < |calls| ==> calls[i].failAt == None
    ensures Run(db, calls).Units() == MemoryRun(db.Units(), calls)
    ensures ReferencingByIndex(Run(db, calls), target) == ReferencingByScan(MemoryRun(db.Units(), calls), target)
  {
    NoFailureNoTear(db, calls);
    SameUnits(db, calls);
    IndexAgreesWithScanIff(db, calls);
  }

  lemma {:induction false} NoFailureNoTear(db: Db, calls: seq<PutCall>)
    requires forall i :: 0 <= i < |calls| ==> calls[i].failAt == None
    ensures !SomeCallTears(db, calls)
    decreases |calls|
  {
    if calls != [] {
      NoFailureNoTear(Put(db, calls[0].u, calls[0].failAt).0, calls[1..]);
    }
  }

  lemma {:induction false} SameUnits(db: Db, calls: seq<PutCall>)
    requires forall i :: 0 <= i < |calls| ==> calls[i].failAt == None
    ensures Run(db, calls).Units() == MemoryRun(db.Units(), calls)
    decreases |calls|
  {
    if calls != [] {
      var db' := Put(db, calls[0].u, calls[0].failAt).0;
      assert db'.Units() == PutIfAbsent(db.Units(), calls[0].u);
      SameUnits(db', calls[1..]);
    }
  }
}
