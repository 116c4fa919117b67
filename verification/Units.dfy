/** The record types every component shares, and ascending enumeration of id sets. */
module Units {

  datatype Option<+T> = None | Some(value: T)

  datatype Result<+T, +E> = Ok(value: T) | Err(error: E)

  /** The text of a UUIDv7. The node only compares ids for equality and lexicographic order, so an
      id is represented by its position in that order. */
  type Id = nat

  /** The id of a peer node, likewise an ordered key. */
  type NodeId = nat

  type Did = string

  datatype UnitType = Assertion | Question | Inference | Challenge | Constraint

  datatype Visibility = Public | Network | Limited

  datatype Reference = Reference(id: Id, rel: string)

  /** A semantic unit. `payload` stands for the fields no modelled operation looks into. */
  datatype Unit = Unit(
    id: Id,
    unitType: UnitType,
    author: Did,
    createdAt: nat,
    references: Option<seq<Reference>>,
    visibility: Option<Visibility>,
    audience: Option<seq<string>>,
    payload: string)
  {
    /** An absent visibility means public. */
    function Vis(): Visibility {
      if visibility.Some? then visibility.value else Public
    }

    predicate IsPublic() {
      Vis() == Public
    }

    function Refs(): seq<Reference> {
      if references.Some? then references.value else []
    }

    predicate Mentions(target: Id) {
      exists i :: 0 <= i < |Refs()| && Refs()[i].id == target
    }

    function Audience(): seq<string> {
      if audience.Some? then audience.value else []
    }
  }

  type UnitMap = map<Id, Unit>

  /** Every unit is stored under its own id. */
  ghost predicate Keyed(units: UnitMap) {
    forall id :: id in units ==> units[id].id == id
  }

  /** Insert-once: a stored id keeps its unit. */
  function PutIfAbsent(units: UnitMap, u: Unit): UnitMap {
    if u.id in units then units else units[u.id := u]
  }

  ghost predicate Distinct(ids: seq<Id>) {
    forall i, j :: 0 <= i < j < |ids| ==> ids[i] != ids[j]
  }

  ghost predicate DistinctIds(us: seq<Unit>) {
    forall i, j :: 0 <= i < j < |us| ==> us[i].id != us[j].id
  }

  /** `big` holds everything `small` holds, unchanged. */
  ghost predicate Extends(small: UnitMap, big: UnitMap) {
    forall id :: id in small ==> id in big && big[id] == small[id]
  }

  function PublicIds(units: UnitMap): (ids: set<Id>) {
    set id | id in units && units[id].IsPublic()
  }

  /** The cursor position: ids strictly after it are still to come. */
  predicate Beyond(cursor: Option<Id>, id: Id) {
    cursor.Some? ==> cursor.value < id
  }

  // ---------------------------------------------------------------------------
  // Ascending enumeration, the iteration order of a BTreeMap
  // ---------------------------------------------------------------------------

  predicate StrictlyAscending(s: seq<Id>) {
    forall i, j :: 0 <= i < j < |s| ==> s[i] < s[j]
  }

  lemma {:induction false} LeastWitness(s: set<Id>) returns (least: Id)
    requires s != {}
    ensures least in s && forall x :: x in s ==> least <= x
  {
    least :| least in s;
    var rest := s - {least};
    if rest != {} {
      var r := LeastWitness(rest);
      forall x | x in s ensures x == least || r <= x {
        assert x == least || x in rest;
      }
      least := if r < least then r else least;
    } else {
      assert s == {least};
    }
  }

  lemma HasLeast(s: set<Id>)
    requires s != {}
    ensures exists m :: m in s && forall x :: x in s ==> m <= x
  {
    var least := LeastWitness(s);
  }

  function Least(s: set<Id>): (m: Id)
    requires s != {}
    ensures m in s && forall x :: x in s ==> m <= x
  {
    HasLeast(s);
    var m :| m in s && forall x :: x in s ==> m <= x;
    m
  }

  function Ascending(s: set<Id>): seq<Id> {
    if s == {} then [] else [Least(s)] + Ascending(s - {Least(s)})
  }

  /** `r` lists the members of `s` in strictly ascending order. */
  ghost predicate Enumerates(r: seq<Id>, s: set<Id>) {
    && StrictlyAscending(r)
    && (forall i :: 0 <= i < |r| ==> r[i] in s)
    && (forall x :: x in s ==> x in r)
  }

  lemma EnumeratesAppend(r: seq<Id>, s: set<Id>, r': seq<Id>, s': set<Id>)
    requires Enumerates(r, s) && Enumerates(r', s')
    requires forall x, y :: x in s && y in s' ==> x < y
    ensures Enumerates(r + r', s + s')
  {
  }

  lemma EnumeratesNone()
    ensures Enumerates([], {})
  {
  }

  lemma EnumeratesOne(x: Id)
    ensures Enumerates([x], {x})
  {
  }

  lemma EnumeratesFirst(r: seq<Id>, s: set<Id>)
    requires Enumerates(r, s) && s != {}
    ensures r != [] && Least(s) == r[0]
  {
  }

  lemma EnumeratesRest(r: seq<Id>, s: set<Id>)
    requires Enumerates(r, s) && r != []
    ensures Enumerates(r[1..], s - {r[0]})
  {
  }

  lemma {:induction false} EnumeratesLength(r: seq<Id>, s: set<Id>)
    requires Enumerates(r, s)
    ensures |r| == |s|
    decreases |r|
  {
    if r == [] {
      assert s == {};
    } else {
      EnumeratesRest(r, s);
      EnumeratesLength(r[1..], s - {r[0]});
    }
  }

  lemma {:induction false} AscendingEnumerates(s: set<Id>)
    ensures Enumerates(Ascending(s), s)
    ensures |Ascending(s)| == |s|
  {
    hide Enumerates;
    if s == {} {
      EnumeratesNone();
    } else {
      var m := Least(s);
      AscendingEnumerates(s - {m});
      EnumeratesOne(m);
      EnumeratesAppend([m], {m}, Ascending(s - {m}), s - {m});
      assert {m} + (s - {m}) == s;
    }
    EnumeratesLength(Ascending(s), s);
  }

  lemma {:induction false} AscendingIsUnique(r: seq<Id>, s: set<Id>)
    requires Enumerates(r, s)
    ensures r == Ascending(s)
    decreases |r|
  {
    hide Enumerates;
    EnumeratesLength(r, s);
    if s != {} {
      EnumeratesFirst(r, s);
      EnumeratesRest(r, s);
      AscendingIsUnique(r[1..], s - {r[0]});
      assert r == [r[0]] + r[1..];
    }
  }
}
