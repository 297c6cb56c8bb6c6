/** Migration 041: renumbering duplicate tracklist versions before the uniqueness constraint. */
module VersionDedupe {
  import opened Options

  type Id = int

  datatype Version = Version(owner: Id, number: int)

  /** The two tables involved: versions by id, and each tracklist's latest version, if set. */
  datatype Tables = Tables(versions: map<Id, Version>, latest: map<Id, Option<Id>>)

  /** The largest value of an `integer` column. */
  const MAX_INTEGER := 0x7fff_ffff

  // ----- the window functions -----

  /** The join with tracklists drops rows whose tracklist is missing. */
  predicate Joined(db: Tables, id: Id) {
    id in db.versions && db.versions[id].owner in db.latest
  }

  predicate SameGroup(db: Tables, a: Id, b: Id)
    requires a in db.versions && b in db.versions
  {
    db.versions[a] == db.versions[b]
  }

  predicate IsLatest(db: Tables, id: Id)
    requires Joined(db, id)
  {
    db.latest[db.versions[id].owner] == Some(id)
  }

  /** Sorts earlier: the latest version first, then by id. */
  predicate Precedes(db: Tables, a: Id, b: Id)
    requires Joined(db, a) && Joined(db, b)
  {
    (IsLatest(db, a) && !IsLatest(db, b)) || (IsLatest(db, a) == IsLatest(db, b) && a < b)
  }

  /** ROW_NUMBER over the duplicate group. */
  function DupRank(db: Tables, id: Id): nat
    requires Joined(db, id)
  {
    1 + |set j | j in db.versions && Joined(db, j) && SameGroup(db, j, id) && Precedes(db, j, id)|
  }

  predicate IsLoser(db: Tables, id: Id) {
    Joined(db, id) && DupRank(db, id) > 1
  }

  /** The losers of a tracklist with ids below `id`. */
  function LosersBelow(db: Tables, owner: Id, id: Id): set<Id> {
    set j | j in db.versions && IsLoser(db, j) && db.versions[j].owner == owner && j < id
  }

  /** ROW_NUMBER over the losers of the tracklist. */
  function LoserRank(db: Tables, id: Id): nat
    requires IsLoser(db, id)
  {
    1 + |LosersBelow(db, db.versions[id].owner, id)|
  }

  function Numbers(db: Tables, owner: Id): set<int> {
    set j | j in db.versions && db.versions[j].owner == owner :: db.versions[j].number
  }

  ghost function Greatest(s: set<int>): (m: int)
    requires s != {}
    ensures m in s && forall x :: x in s ==> x <= m
  {
    var x := AnyOf(s);
    if s == {x} then x
    else
      var rest := Greatest(s - {x});
      assert forall y :: y in s ==> y == x || y in s - {x};
      if x < rest then rest else x
  }

  ghost function MaxNumber(db: Tables, owner: Id): (m: int)
    requires exists j :: j in db.versions && db.versions[j].owner == owner
    ensures forall j :: j in db.versions && db.versions[j].owner == owner ==> db.versions[j].number <= m
    ensures exists j :: j in db.versions && db.versions[j] == Version(owner, m)
  {
    var j :| j in db.versions && db.versions[j].owner == owner;
    assert db.versions[j].number in Numbers(db, owner);
    assert forall k :: k in db.versions && db.versions[k].owner == owner ==>
             db.versions[k].number in Numbers(db, owner);
    Greatest(Numbers(db, owner))
  }

  ghost function NewNumber(db: Tables, id: Id): int
    requires IsLoser(db, id)
  {
    MaxNumber(db, db.versions[id].owner) + LoserRank(db, id)
  }

  /** The table after the UPDATE. */
  ghost function Renumbered(db: Tables): (t: Tables)
    ensures t.versions.Keys == db.versions.Keys && t.latest == db.latest
    ensures forall id :: id in db.versions ==>
              t.versions[id] == if IsLoser(db, id) then Version(db.versions[id].owner, NewNumber(db, id))
                                else db.versions[id]
  {
    Tables(map id | id in db.versions ::
             if IsLoser(db, id) then Version(db.versions[id].owner, NewNumber(db, id)) else db.versions[id],
           db.latest)
  }

  /** The statement, which the database aborts when a number no longer fits its column. */
  ghost function Dedupe(db: Tables): Option<Tables> {
    if exists id :: id in db.versions && IsLoser(db, id) && NewNumber(db, id) > MAX_INTEGER then None
    else Some(Renumbered(db))
  }

  /** The table the statement leaves: an aborted one is rolled back. */
  ghost function After(db: Tables): Tables {
    if Dedupe(db).Some? then Dedupe(db).value else db
  }

  // ----- ranks -----

  lemma {:induction false} SmallerSet(a: set<Id>, b: set<Id>, x: Id)
    requires a <= b && x in b && x !in a
    ensures |a| < |b|
    decreases |b|
  {
    if a == {} {
      assert x in b;
    } else {
      var y := AnyOf(a);
      SmallerSet(a - {y}, b - {y}, x);
    }
  }

  /** Within a group the order is total, so exactly one row wins. */
  lemma {:induction false} LoserIff(db: Tables, id: Id)
    requires Joined(db, id)
    ensures IsLoser(db, id) <==> exists j :: Joined(db, j) && SameGroup(db, j, id) && Precedes(db, j, id)
  {
    var before := set j | j in db.versions && Joined(db, j) && SameGroup(db, j, id) && Precedes(db, j, id);
    if before == {} {
      forall j | Joined(db, j) && SameGroup(db, j, id)
        ensures !Precedes(db, j, id)
      {
        assert j !in before;
      }
    } else {
      var j := AnyOf(before);
      assert |before| > 0;
    }
  }

  /** Two rows of one group are never both winners. */
  lemma {:induction false} OneWinner(db: Tables, a: Id, b: Id)
    requires Joined(db, a) && Joined(db, b) && a != b && SameGroup(db, a, b)
    ensures IsLoser(db, a) || IsLoser(db, b)
  {
    LoserIff(db, a);
    LoserIff(db, b);
    assert Precedes(db, a, b) || Precedes(db, b, a);
  }

  /** Two losers of one tracklist get different numbers. */
  lemma {:induction false} LoserRanksDiffer(db: Tables, a: Id, b: Id)
    requires IsLoser(db, a) && IsLoser(db, b) && a < b && db.versions[a].owner == db.versions[b].owner
    ensures LoserRank(db, a) < LoserRank(db, b)
  {
    var owner := db.versions[a].owner;
    SmallerSet(LosersBelow(db, owner, a), LosersBelow(db, owner, b), a);
  }

  /** A new number is above every number its tracklist had. */
  lemma {:induction false} NewNumberIsFresh(db: Tables, id: Id, other: Id)
    requires IsLoser(db, id) && other in db.versions && db.versions[other].owner == db.versions[id].owner
    ensures db.versions[other].number < NewNumber(db, id)
  {
  }

  // ----- when the statement aborts -----

  function LosersOf(db: Tables, owner: Id): set<Id> {
    set j | j in db.versions && IsLoser(db, j) && db.versions[j].owner == owner
  }

  /** Some tracklist has more rows to renumber than there are numbers left above its greatest. */
  ghost predicate Overflows(db: Tables) {
    exists id :: IsLoser(db, id)
                 && MaxNumber(db, db.versions[id].owner) + |LosersOf(db, db.versions[id].owner)| > 2_147_483_647
  }

  lemma {:induction false} RankAtMost(db: Tables, id: Id)
    requires IsLoser(db, id)
    ensures LoserRank(db, id) <= |LosersOf(db, db.versions[id].owner)|
  {
    var owner := db.versions[id].owner;
    SmallerSet(LosersBelow(db, owner, id), LosersOf(db, owner), id);
  }

  /** The last loser of a tracklist has the number of losers as its rank. */
  lemma {:induction false} TopRank(db: Tables, owner: Id) returns (id: Id)
    requires LosersOf(db, owner) != {}
    ensures id in LosersOf(db, owner) && LoserRank(db, id) == |LosersOf(db, owner)|
  {
    id := Greatest(LosersOf(db, owner));
    assert LosersOf(db, owner) == LosersBelow(db, owner, id) + {id};
  }

  /** The statement aborts exactly when some tracklist runs out of numbers. */
  lemma {:induction false} AbortsIff(db: Tables)
    ensures Dedupe(db).None? <==> Overflows(db)
  {
    if Dedupe(db).None? {
      var id :| id in db.versions && IsLoser(db, id) && NewNumber(db, id) > MAX_INTEGER;
      RankAtMost(db, id);
    }
    if Overflows(db) {
      var id :| IsLoser(db, id)
                && MaxNumber(db, db.versions[id].owner) + |LosersOf(db, db.versions[id].owner)| > MAX_INTEGER;
      assert id in LosersOf(db, db.versions[id].owner);
      var top := TopRank(db, db.versions[id].owner);
      assert NewNumber(db, top) > MAX_INTEGER;
    }
  }

  // ----- what the migration promises -----

  /** No two rows of one tracklist share a number. */
  ghost predicate Unique(db: Tables, a: Id, b: Id)
    requires a in db.versions && b in db.versions
  {
    a != b ==> db.versions[a] != db.versions[b]
  }

  /** Every version's tracklist exists, as the foreign key demands. */
  ghost predicate OwnersExist(db: Tables) {
    forall id :: id in db.versions ==> Joined(db, id)
  }

  lemma {:induction false} PairUnique(db: Tables, a: Id, b: Id)
    requires Joined(db, a) && b in db.versions && a != b
    ensures Unique(Renumbered(db), a, b)
  {
    if db.versions[a].owner == db.versions[b].owner {
      if IsLoser(db, a) && IsLoser(db, b) {
        if a < b {
          LoserRanksDiffer(db, a, b);
        } else {
          LoserRanksDiffer(db, b, a);
        }
      } else if IsLoser(db, a) {
        NewNumberIsFresh(db, a, b);
      } else if IsLoser(db, b) {
        NewNumberIsFresh(db, b, a);
      } else if SameGroup(db, a, b) {
        OneWinner(db, a, b);
      }
    }
  }

  /** No two rows share a tracklist and a number, so the constraint can be created. */
  ghost predicate AllUnique(db: Tables) {
    forall a, b :: a in db.versions && b in db.versions ==> Unique(db, a, b)
  }

  /** The rows without a tracklist, which the join skips, hold no duplicates. */
  ghost predicate OrphansUnique(db: Tables) {
    forall a, b :: a in db.versions && b in db.versions && !Joined(db, a) && !Joined(db, b) ==> Unique(db, a, b)
  }

  lemma {:induction false} RenumberedUnique(db: Tables)
    ensures AllUnique(Renumbered(db)) <==> OrphansUnique(db)
  {
    forall a, b | a in db.versions && b in db.versions && (Joined(db, a) || Joined(db, b))
      ensures Unique(Renumbered(db), a, b)
    {
      if a != b {
        if Joined(db, a) {
          PairUnique(db, a, b);
        } else {
          PairUnique(db, b, a);
        }
      }
    }
    forall a, b | a in db.versions && b in db.versions && !Joined(db, a) && !Joined(db, b)
      ensures Unique(Renumbered(db), a, b) <==> Unique(db, a, b)
    {
    }
  }

  /** For any table, the statement succeeds and the constraint can be created after it exactly when
      no tracklist runs out of numbers and the orphans held no duplicates; with the foreign key there
      are no orphans. */
  lemma {:induction false} UniqueAfterwards(db: Tables)
    ensures Dedupe(db).Some? && AllUnique(Dedupe(db).value) <==> !Overflows(db) && OrphansUnique(db)
    ensures OwnersExist(db) ==> (Dedupe(db).Some? && AllUnique(Dedupe(db).value) <==> !Overflows(db))
  {
    AbortsIff(db);
    RenumberedUnique(db);
  }

  /** Two versions of tracklist 7, both at the greatest number there is. */
  const FULL: Tables := Tables(map[1 := Version(7, MAX_INTEGER), 2 := Version(7, MAX_INTEGER)], map[7 := None])

  /** The foreign key alone does not save the migration: here it aborts and leaves the duplicates. */
  lemma {:induction false} FullTracklistAborts()
    ensures OwnersExist(FULL) && Overflows(FULL) && Dedupe(FULL) == None
    ensures After(FULL) == FULL && !AllUnique(After(FULL))
  {
    assert Joined(FULL, 1) && Joined(FULL, 2) && SameGroup(FULL, 1, 2) && Precedes(FULL, 1, 2);
    LoserIff(FULL, 2);
    assert NewNumber(FULL, 2) > FULL.versions[1].number;
    AbortsIff(FULL);
    assert !Unique(FULL, 1, 2);
  }

  /** For any row of any table: it keeps its id and owner, and keeps its number exactly unless the
      statement succeeds and another row of its group comes first; the row a tracklist names as its
      latest is never renumbered. */
  lemma {:induction false} WinnersKept(db: Tables, id: Id)
    requires id in db.versions
    ensures After(db).versions.Keys == db.versions.Keys && After(db).latest == db.latest
    ensures After(db).versions[id].owner == db.versions[id].owner
    ensures Joined(db, id) && IsLatest(db, id) ==> After(db).versions[id] == db.versions[id]
    ensures After(db).versions[id] != db.versions[id] <==>
              !Overflows(db) && Joined(db, id)
              && exists j :: Joined(db, j) && SameGroup(db, j, id) && Precedes(db, j, id)
    ensures After(db).versions[id] != db.versions[id] <==>
              !Overflows(db) && db.versions[id].owner in db.latest
              && exists j :: j in db.versions && j != id && db.versions[j] == db.versions[id]
                             && (|| db.latest[db.versions[id].owner] == Some(j)
                                 || (db.latest[db.versions[id].owner] != Some(id) && j < id))
  {
    AbortsIff(db);
    if Joined(db, id) {
      LoserIff(db, id);
    }
  }

  lemma {:induction false} NoLosersLeft(db: Tables, id: Id)
    requires id in db.versions
    ensures !IsLoser(Renumbered(db), id)
  {
    var t := Renumbered(db);
    if Joined(t, id) {
      LoserIff(t, id);
    }
    forall j | Joined(t, j) && SameGroup(t, j, id)
      ensures j == id
    {
      if j != id {
        PairUnique(db, j, id);
      }
    }
  }

  /** Running the statement again changes nothing, orphans or not, aborted or not. */
  lemma {:induction false} RenumberingTwice(db: Tables)
    ensures Dedupe(db).Some? ==> Dedupe(Dedupe(db).value) == Dedupe(db)
    ensures After(After(db)) == After(db)
  {
    forall id | id in db.versions
      ensures !IsLoser(Renumbered(db), id)
    {
      NoLosersLeft(db, id);
    }
    assert Renumbered(Renumbered(db)).versions == Renumbered(db).versions;
  }
}
