/** The tables behind the policy service: bindings with their constraints, and the one-time bootstrap mark. */
module PolicyTable {
  import opened Wrappers

  datatype BindingRow = BindingRow(
    id: string,
    subjectType: string,
    subjectValue: string,
    targetType: string,
    roomId: string,
    powerLevel: Option<int>,
    allowRemove: bool,
    createdAt: string,
    updatedAt: string)

  /** The uniqueness key, which is also the sort key. */
  datatype Key = Key(subjectType: string, subjectValue: string, roomId: string)

  function KeyOf(r: BindingRow): Key {
    Key(r.subjectType, r.subjectValue, r.roomId)
  }

  /** The CHECK constraints. */
  predicate TypesOk(r: BindingRow) {
    r.subjectType in {"group", "role"} && r.targetType in {"room", "space"}
  }

  predicate Holds(rows: seq<BindingRow>, k: Key) {
    exists r :: r in rows && KeyOf(r) == k
  }

  predicate HoldsId(rows: seq<BindingRow>, id: string) {
    exists r :: r in rows && r.id == id
  }

  /** The constraints of the table: checked types, unique ids, unique keys. */
  ghost predicate ValidTable(rows: seq<BindingRow>) {
    && (forall r | r in rows :: TypesOk(r))
    && (forall i, j | 0 <= i < j < |rows| :: rows[i].id != rows[j].id && KeyOf(rows[i]) != KeyOf(rows[j]))
  }

  // ----- Single statements -----

  function Insert(rows: seq<BindingRow>, r: BindingRow): Option<seq<BindingRow>> {
    if TypesOk(r) && !Holds(rows, KeyOf(r)) && !HoldsId(rows, r.id) then Some(rows + [r]) else None
  }

  function UpdateRow(r: BindingRow, id: string, powerLevel: Option<int>, allowRemove: bool, now: string): BindingRow {
    if r.id == id then r.(powerLevel := powerLevel, allowRemove := allowRemove, updatedAt := now) else r
  }

  function Update(rows: seq<BindingRow>, id: string, powerLevel: Option<int>, allowRemove: bool, now: string): seq<BindingRow> {
    seq(|rows|, i requires 0 <= i < |rows| => UpdateRow(rows[i], id, powerLevel, allowRemove, now))
  }

  function Delete(rows: seq<BindingRow>, id: string): seq<BindingRow> {
    if rows == [] then [] else (if rows[0].id == id then [] else [rows[0]]) + Delete(rows[1..], id)
  }

  // ----- Bootstrap -----

  datatype GroupMapping = GroupMapping(keycloakGroup: string, matrixRoomId: string)

  function MappingRow(g: GroupMapping, id: string, now: string): BindingRow {
    BindingRow(id, "group", g.keycloakGroup, "room", g.matrixRoomId, None, false, now, now)
  }

  function MappingKey(g: GroupMapping): Key {
    Key("group", g.keycloakGroup, g.matrixRoomId)
  }

  datatype Import = Import(rows: seq<BindingRow>, count: nat)

  /** What one mapping needs besides its own content: the generated UUID, and whether the database takes the insert. */
  datatype InsertAttempt = InsertAttempt(id: string, up: bool)

  function TryInsert(rows: seq<BindingRow>, g: GroupMapping, a: InsertAttempt, now: string): Option<seq<BindingRow>> {
    if a.up then Insert(rows, MappingRow(g, a.id, now)) else None
  }

  /** A mapping whose insert fails, for whatever reason, is skipped. */
  function ImportAll(rows: seq<BindingRow>, mappings: seq<GroupMapping>, attempts: seq<InsertAttempt>, now: string): Import
    requires |attempts| == |mappings|
    decreases |mappings|
  {
    if mappings == [] then Import(rows, 0)
    else
      var added := TryInsert(rows, mappings[0], attempts[0], now);
      var rest := ImportAll(if added.Some? then added.value else rows, mappings[1..], attempts[1..], now);
      Import(rest.rows, rest.count + if added.Some? then 1 else 0)
  }

  /** The database file, as two tables. */
  class PolicyDb {
    var rows: seq<BindingRow>
    var bootstrapped: Option<(string, string)>

    ghost predicate Valid()
      reads this
    {
      ValidTable(rows)
    }

    constructor ()
      ensures Valid() && rows == [] && bootstrapped == None
    {
      rows, bootstrapped := [], None;
    }

    method CreateBinding(r: BindingRow) returns (ok: bool)
      requires Valid()
      modifies this`rows
      ensures Valid()
      ensures ok <==> TypesOk(r) && !Holds(old(rows), KeyOf(r)) && !HoldsId(old(rows), r.id)
      ensures rows == if ok then old(rows) + [r] else old(rows)
    {
      var added := Insert(rows, r);
      if added.None? {
        return false;
      }
      InsertKeepsTable(rows, r);
      rows := added.value;
      return true;
    }

    method UpdateBinding(id: string, powerLevel: Option<int>, allowRemove: bool, now: string) returns (found: bool)
      requires Valid()
      modifies this`rows
      ensures Valid()
      ensures found <==> HoldsId(old(rows), id)
      ensures rows == Update(old(rows), id, powerLevel, allowRemove, now)
    {
      UpdateKeepsTable(rows, id, powerLevel, allowRemove, now);
      found := HoldsId(rows, id);
      rows := Update(rows, id, powerLevel, allowRemove, now);
    }

    method DeleteBinding(id: string) returns (found: bool)
      requires Valid()
      modifies this`rows
      ensures Valid()
      ensures found <==> HoldsId(old(rows), id)
      ensures rows == Delete(old(rows), id) && !HoldsId(rows, id)
    {
      DeleteKeepsTable(rows, id);
      found := HoldsId(rows, id);
      rows := Delete(rows, id);
      forall r | r in rows ensures r.id != id { DeletedRows(old(rows), id, r); }
    }

    /**
     Import the legacy mappings once. `readable` says whether reading the mark goes through, without which
     nothing happens; `marked` says whether writing it does, without which the import is an error,
     although its rows stay.
     */
    method BootstrapFromEnv(mappings: seq<GroupMapping>, attempts: seq<InsertAttempt>, source: string, now: string,
                            readable: bool, marked: bool)
      returns (count: Option<nat>)
      requires Valid() && |attempts| == |mappings|
      modifies this
      ensures Valid()
      ensures !readable ==> count == None && rows == old(rows) && bootstrapped == old(bootstrapped)
      ensures readable && old(bootstrapped).Some? ==> count == Some(0) && rows == old(rows) && bootstrapped == old(bootstrapped)
      ensures readable && old(bootstrapped).None? ==>
        var import_ := ImportAll(old(rows), mappings, attempts, now);
        && rows == import_.rows
        && count == (if marked then Some(import_.count) else None)
        && bootstrapped == (if marked then Some((source, now)) else None)
    {
      if !readable {
        return None;
      }
      if bootstrapped.Some? {
        return Some(0);
      }
      var n := 0;
      ghost var whole := ImportAll(rows, mappings, attempts, now);
      for i := 0 to |mappings|
        invariant Valid() && bootstrapped.None?
        invariant var rest := ImportAll(rows, mappings[i..], attempts[i..], now);
                  whole == Import(rest.rows, n + rest.count)
      {
        assert mappings[i..][1..] == mappings[i + 1..] && attempts[i..][1..] == attempts[i + 1..];
        if attempts[i].up {
          var ok := CreateBinding(MappingRow(mappings[i], attempts[i].id, now));
          n := n + if ok then 1 else 0;
        }
      }
      if !marked {
        return None;
      }
      bootstrapped := Some((source, now));
      return Some(n);
    }
  }

  // ----- What the statements say, column by column -----

  /** An insert is refused exactly for a bad type, a taken id, or a taken combination of the three columns. */
  lemma InsertIsRefusedIff(rows: seq<BindingRow>, r: BindingRow)
    ensures Insert(rows, r).None?
       <==> || !(r.subjectType in {"group", "role"} && r.targetType in {"room", "space"})
            || exists x :: x in rows && (x.id == r.id || (x.subjectType == r.subjectType
                                                           && x.subjectValue == r.subjectValue && x.roomId == r.roomId))
  {
    if x :| x in rows && (x.id == r.id || KeyOf(x) == KeyOf(r)) {
      assert Holds(rows, KeyOf(r)) || HoldsId(rows, r.id);
    }
  }

  /** An update sets level, removal flag and time of the row with the id, and leaves all else, and all others, alone. */
  lemma UpdateSetsThree(rows: seq<BindingRow>, id: string, powerLevel: Option<int>, allowRemove: bool, now: string, i: nat)
    requires i < |rows|
    ensures var rows' := Update(rows, id, powerLevel, allowRemove, now);
            && |rows'| == |rows|
            && (rows[i].id != id ==> rows'[i] == rows[i])
            && (rows[i].id == id ==>
                 rows'[i] == BindingRow(id, rows[i].subjectType, rows[i].subjectValue, rows[i].targetType, rows[i].roomId,
                                        powerLevel, allowRemove, rows[i].createdAt, now))
  {
  }

  /** Every row that an import adds gives the group of some mapping the room of that mapping, without level or removal. */
  lemma {:induction false} ImportedRows(rows: seq<BindingRow>, mappings: seq<GroupMapping>, attempts: seq<InsertAttempt>,
                                        now: string, r: BindingRow)
    requires |attempts| == |mappings| && r in ImportAll(rows, mappings, attempts, now).rows && r !in rows
    ensures exists i :: 0 <= i < |mappings| && attempts[i].up && r == BindingRow(
              attempts[i].id, "group", mappings[i].keycloakGroup, "room", mappings[i].matrixRoomId, None, false, now, now)
    decreases |mappings|
  {
    if mappings == [] {
    } else {
      var added := TryInsert(rows, mappings[0], attempts[0], now);
      var rows1 := if added.Some? then added.value else rows;
      if r in rows1 {
        assert attempts[0].up;
      } else {
        ImportedRows(rows1, mappings[1..], attempts[1..], now, r);
        var i :| 0 <= i < |mappings[1..]| && attempts[1..][i].up && r == BindingRow(
          attempts[1..][i].id, "group", mappings[1..][i].keycloakGroup, "room", mappings[1..][i].matrixRoomId, None, false, now, now);
        assert attempts[i + 1] == attempts[1..][i] && mappings[i + 1] == mappings[1..][i];
      }
    }
  }

  // ----- Constraints are kept -----

  lemma InsertKeepsTable(rows: seq<BindingRow>, r: BindingRow)
    requires ValidTable(rows) && Insert(rows, r).Some?
    ensures ValidTable(rows + [r])
  {
    forall i | 0 <= i < |rows| ensures rows[i].id != r.id && KeyOf(rows[i]) != KeyOf(r) {
      assert rows[i] in rows;
    }
  }

  lemma UpdateKeepsTable(rows: seq<BindingRow>, id: string, powerLevel: Option<int>, allowRemove: bool, now: string)
    requires ValidTable(rows)
    ensures ValidTable(Update(rows, id, powerLevel, allowRemove, now))
  {
    var rows' := Update(rows, id, powerLevel, allowRemove, now);
    assert forall i | 0 <= i < |rows| :: rows'[i].id == rows[i].id && KeyOf(rows'[i]) == KeyOf(rows[i]);
    assert forall i | 0 <= i < |rows| :: TypesOk(rows[i]);
  }

  lemma {:induction false} DeletedRows(rows: seq<BindingRow>, id: string, r: BindingRow)
    ensures r in Delete(rows, id) <==> r in rows && r.id != id
  {
    if rows == [] {
    } else {
      DeletedRows(rows[1..], id, r);
    }
  }

  /** A row that a deletion leaves further down is not the first one. */
  lemma LaterRowDiffers(rows: seq<BindingRow>, id: string, r: BindingRow)
    requires ValidTable(rows) && rows != [] && r in Delete(rows[1..], id)
    ensures TypesOk(r) && r.id != rows[0].id && KeyOf(r) != KeyOf(rows[0])
  {
    DeletedRows(rows[1..], id, r);
    var j :| 0 <= j < |rows[1..]| && rows[1..][j] == r;
    assert rows[j + 1] == r;
  }

  lemma TailIsValid(rows: seq<BindingRow>)
    requires ValidTable(rows) && rows != []
    ensures ValidTable(rows[1..])
  {
    forall i, j | 0 <= i < j < |rows[1..]|
      ensures rows[1..][i].id != rows[1..][j].id && KeyOf(rows[1..][i]) != KeyOf(rows[1..][j])
    {
      assert rows[i + 1] == rows[1..][i] && rows[j + 1] == rows[1..][j];
    }
  }

  lemma {:induction false} DeleteKeepsTable(rows: seq<BindingRow>, id: string)
    requires ValidTable(rows)
    ensures ValidTable(Delete(rows, id))
  {
    if rows == [] {
    } else {
      var rest := Delete(rows[1..], id);
      TailIsValid(rows);
      DeleteKeepsTable(rows[1..], id);
      forall r | r in rest ensures TypesOk(r) && r.id != rows[0].id && KeyOf(r) != KeyOf(rows[0]) {
        LaterRowDiffers(rows, id, r);
      }
      assert forall i | 0 <= i < |rest| :: rest[i] in rest;
    }
  }

  // ----- What a bootstrap adds -----

  /** The distinct mapping keys that the table does not hold yet. */
  function NewKeys(rows: seq<BindingRow>, mappings: seq<GroupMapping>): set<Key> {
    set g | g in mappings && !Holds(rows, MappingKey(g)) :: MappingKey(g)
  }

  /** The mappings the database was up for. */
  function Reached(mappings: seq<GroupMapping>, attempts: seq<InsertAttempt>): seq<GroupMapping>
    requires |attempts| == |mappings|
    decreases |mappings|
  {
    if mappings == [] then []
    else (if attempts[0].up then [mappings[0]] else []) + Reached(mappings[1..], attempts[1..])
  }

  ghost predicate FreshIds(rows: seq<BindingRow>, attempts: seq<InsertAttempt>) {
    && (forall i | 0 <= i < |attempts| :: !HoldsId(rows, attempts[i].id))
    && (forall i, j | 0 <= i < j < |attempts| :: attempts[i].id != attempts[j].id)
  }

  lemma HoldsAfterInsert(rows: seq<BindingRow>, r: BindingRow, k: Key, id: string)
    ensures Holds(rows + [r], k) <==> Holds(rows, k) || KeyOf(r) == k
    ensures HoldsId(rows + [r], id) <==> HoldsId(rows, id) || r.id == id
  {
    assert r in rows + [r];
    assert forall x :: x in rows ==> x in rows + [r];
  }

  /** Taking one mapping adds its key, unless the table holds it already. */
  lemma NewKeysStep(rows: seq<BindingRow>, g: GroupMapping, rest: seq<GroupMapping>, r: BindingRow)
    requires KeyOf(r) == MappingKey(g)
    ensures Holds(rows, MappingKey(g)) ==> NewKeys(rows, [g] + rest) == NewKeys(rows, rest)
    ensures !Holds(rows, MappingKey(g)) ==>
      && NewKeys(rows, [g] + rest) == NewKeys(rows + [r], rest) + {MappingKey(g)}
      && MappingKey(g) !in NewKeys(rows + [r], rest)
  {
    forall k ensures Holds(rows + [r], k) <==> Holds(rows, k) || KeyOf(r) == k { HoldsAfterInsert(rows, r, k, ""); }
  }

  lemma FreshAfterInsert(rows: seq<BindingRow>, r: BindingRow, attempts: seq<InsertAttempt>)
    requires attempts != [] && r.id == attempts[0].id && FreshIds(rows, attempts)
    ensures FreshIds(rows + [r], attempts[1..]) && FreshIds(rows, attempts[1..])
  {
    forall i | 0 <= i < |attempts[1..]| ensures !HoldsId(rows + [r], attempts[1..][i].id) {
      HoldsAfterInsert(rows, r, KeyOf(r), attempts[i + 1].id);
    }
  }

  /**
   An import keeps every old row, appends one row for each distinct new key among the mappings the
   database was up for, and reports exactly that number: of those, duplicates, within the mappings
   or with the table, are the only ones skipped.
   */
  lemma {:induction false} ImportAddsNewKeysOnce(
    rows: seq<BindingRow>, mappings: seq<GroupMapping>, attempts: seq<InsertAttempt>, now: string)
    requires |attempts| == |mappings| && FreshIds(rows, attempts)
    ensures var o, added := ImportAll(rows, mappings, attempts, now), NewKeys(rows, Reached(mappings, attempts));
            && rows <= o.rows
            && o.count == |o.rows| - |rows| == |added|
            && forall k :: Holds(o.rows, k) <==> Holds(rows, k) || k in added
    decreases |mappings|
  {
    if mappings == [] {
      assert NewKeys(rows, mappings) == {};
    } else {
      var g, rest := mappings[0], Reached(mappings[1..], attempts[1..]);
      var r := MappingRow(g, attempts[0].id, now);
      FreshAfterInsert(rows, r, attempts);
      if attempts[0].up { NewKeysStep(rows, g, rest, r); }
      if !attempts[0].up || Holds(rows, MappingKey(g)) {
        assert Reached(mappings, attempts) == (if attempts[0].up then [g] else []) + rest;
        assert !attempts[0].up ==> Reached(mappings, attempts) == rest;
        ImportAddsNewKeysOnce(rows, mappings[1..], attempts[1..], now);
      } else {
        assert Insert(rows, r) == Some(rows + [r]);
        forall k ensures Holds(rows + [r], k) <==> Holds(rows, k) || KeyOf(r) == k { HoldsAfterInsert(rows, r, k, ""); }
        ImportAddsNewKeysOnce(rows + [r], mappings[1..], attempts[1..], now);
      }
    }
  }
}
