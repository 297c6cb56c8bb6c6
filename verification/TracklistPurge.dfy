/** Migrations 046 and 051: deleting tracklists and all that hangs off them, leaf to root, under
    foreign keys that forbid dangling rows after every statement. */
module TracklistPurge {
  import opened Options

  type Id = int

  /** The columns the migrations look at. */
  datatype Tracklist = Tracklist(source: string, externalId: string, propagatedFrom: Option<string>)

  /** discogs_links -> tracklist_tracks -> tracklist_versions -> tracklists, each by its own id. */
  datatype Rows = Rows(links: map<Id, Id>, tracks: map<Id, Id>, versions: map<Id, Id>, lists: map<Id, Tracklist>)

  /** Which tracklists a migration removes. */
  datatype Scope = Fingerprint | Propagated

  predicate Selected(scope: Scope, t: Tracklist) {
    match scope
    case Fingerprint => t.source == "fingerprint"
    case Propagated => t.propagatedFrom.Some?
  }

  /** All three NO ACTION foreign keys hold. */
  predicate ForeignKeys(db: Rows) {
    && (forall l :: l in db.links ==> db.links[l] in db.tracks)
    && (forall t :: t in db.tracks ==> db.tracks[t] in db.versions)
    && (forall v :: v in db.versions ==> db.versions[v] in db.lists)
  }

  // ----- the subqueries -----

  predicate ListGoes(db: Rows, scope: Scope, id: Id) {
    id in db.lists && Selected(scope, db.lists[id])
  }

  predicate VersionGoes(db: Rows, scope: Scope, id: Id) {
    id in db.versions && ListGoes(db, scope, db.versions[id])
  }

  predicate TrackGoes(db: Rows, scope: Scope, id: Id) {
    id in db.tracks && VersionGoes(db, scope, db.tracks[id])
  }

  predicate LinkGoes(db: Rows, scope: Scope, id: Id) {
    id in db.links && TrackGoes(db, scope, db.links[id])
  }

  // ----- the four statements -----

  function WithoutLinks(db: Rows, scope: Scope): Rows {
    db.(links := map l | l in db.links && !LinkGoes(db, scope, l) :: db.links[l])
  }

  function WithoutTracks(db: Rows, scope: Scope): Rows {
    db.(tracks := map t | t in db.tracks && !TrackGoes(db, scope, t) :: db.tracks[t])
  }

  function WithoutVersions(db: Rows, scope: Scope): Rows {
    db.(versions := map v | v in db.versions && !VersionGoes(db, scope, v) :: db.versions[v])
  }

  function WithoutLists(db: Rows, scope: Scope): Rows {
    db.(lists := map t | t in db.lists && !ListGoes(db, scope, t) :: db.lists[t])
  }

  /** What should be left: every row whose chain does not end in a selected tracklist. */
  function Purged(db: Rows, scope: Scope): Rows {
    Rows(map l | l in db.links && !LinkGoes(db, scope, l) :: db.links[l],
         map t | t in db.tracks && !TrackGoes(db, scope, t) :: db.tracks[t],
         map v | v in db.versions && !VersionGoes(db, scope, v) :: db.versions[v],
         map t | t in db.lists && !ListGoes(db, scope, t) :: db.lists[t])
  }

  /** A database the statements run against; a statement that would leave a dangling row aborts and
      changes nothing. */
  class Database {
    var rows: Rows

    constructor (db: Rows)
      ensures rows == db
    {
      rows := db;
    }

    /** Replaces the tables unless a foreign key objects. */
    method Execute(after: Rows) returns (ok: bool)
      modifies this
      ensures ok == ForeignKeys(after)
      ensures rows == if ok then after else old(rows)
    {
      ok := ForeignKeys(after);
      if ok {
        rows := after;
      }
    }

    /** The four deletes in the migrations' order: none aborts, and together they leave exactly the
        rows that do not hang off a selected tracklist. */
    method Purge(scope: Scope) returns (ok: bool)
      requires ForeignKeys(rows)
      modifies this
      ensures ok && ForeignKeys(rows)
      ensures rows == Purged(old(rows), scope)
    {
      ghost var start := rows;
      LeafToRoot(start, scope);
      ok := Execute(WithoutLinks(rows, scope));
      assert ok;
      ok := Execute(WithoutTracks(rows, scope));
      assert ok;
      ok := Execute(WithoutVersions(rows, scope));
      assert ok;
      ok := Execute(WithoutLists(rows, scope));
    }
  }

  // ----- why that order, and only that order, works -----

  lemma {:induction false} LinksFirst(db: Rows, scope: Scope)
    requires ForeignKeys(db)
    ensures ForeignKeys(WithoutLinks(db, scope))
    ensures forall l :: !LinkGoes(WithoutLinks(db, scope), scope, l)
  {
  }

  lemma {:induction false} TracksNext(db: Rows, scope: Scope)
    requires ForeignKeys(db) && forall l :: !LinkGoes(db, scope, l)
    ensures ForeignKeys(WithoutTracks(db, scope))
    ensures forall t :: !TrackGoes(WithoutTracks(db, scope), scope, t)
  {
    var after := WithoutTracks(db, scope);
    forall l | l in after.links
      ensures after.links[l] in after.tracks
    {
      assert !LinkGoes(db, scope, l);
    }
  }

  lemma {:induction false} VersionsNext(db: Rows, scope: Scope)
    requires ForeignKeys(db) && forall t :: !TrackGoes(db, scope, t)
    ensures ForeignKeys(WithoutVersions(db, scope))
    ensures forall v :: !VersionGoes(WithoutVersions(db, scope), scope, v)
  {
    var after := WithoutVersions(db, scope);
    forall t | t in after.tracks
      ensures after.tracks[t] in after.versions
    {
      assert !TrackGoes(db, scope, t);
    }
  }

  lemma {:induction false} ListsLast(db: Rows, scope: Scope)
    requires ForeignKeys(db) && forall v :: !VersionGoes(db, scope, v)
    ensures ForeignKeys(WithoutLists(db, scope))
  {
    var after := WithoutLists(db, scope);
    forall v | v in after.versions
      ensures after.versions[v] in after.lists
    {
      assert !VersionGoes(db, scope, v);
    }
  }

  /** All foreign keys hold after each of the four statements, and the end is the purged database. */
  lemma {:induction false} LeafToRoot(db: Rows, scope: Scope)
    requires ForeignKeys(db)
    ensures var a := WithoutLinks(db, scope);
            var b := WithoutTracks(a, scope);
            var c := WithoutVersions(b, scope);
            && ForeignKeys(a) && ForeignKeys(b) && ForeignKeys(c)
            && ForeignKeys(WithoutLists(c, scope))
            && WithoutLists(c, scope) == Purged(db, scope)
  {
    var a := WithoutLinks(db, scope);
    var b := WithoutTracks(a, scope);
    var c := WithoutVersions(b, scope);
    LinksFirst(db, scope);
    TracksNext(a, scope);
    VersionsNext(b, scope);
    ListsLast(c, scope);
    FourStatements(db, scope);
  }

  lemma {:induction false} FourStatements(db: Rows, scope: Scope)
    ensures WithoutLists(WithoutVersions(WithoutTracks(WithoutLinks(db, scope), scope), scope), scope)
            == Purged(db, scope)
  {
  }

  /** A statement run before the one on its left in the chain aborts exactly when rows still hang
      off what it deletes. */
  lemma {:induction false} OutOfOrderAborts(db: Rows, scope: Scope)
    requires ForeignKeys(db)
    ensures ForeignKeys(WithoutTracks(db, scope)) <==> forall l :: l in db.links ==> !LinkGoes(db, scope, l)
    ensures ForeignKeys(WithoutVersions(db, scope)) <==> forall t :: t in db.tracks ==> !TrackGoes(db, scope, t)
    ensures ForeignKeys(WithoutLists(db, scope)) <==> forall v :: v in db.versions ==> !VersionGoes(db, scope, v)
  {
  }

  /** Safe to run again. */
  lemma {:induction false} PurgedTwice(db: Rows, scope: Scope)
    ensures Purged(Purged(db, scope), scope) == Purged(db, scope)
  {
  }

  // ----- 051: restoring the global uniqueness of external ids -----

  /** The partial unique index: canonical rows have distinct external ids. */
  ghost predicate CanonicalUnique(db: Rows) {
    forall a, b :: a in db.lists && b in db.lists && a != b
                   && db.lists[a].propagatedFrom.None? && db.lists[b].propagatedFrom.None? ==>
      db.lists[a].externalId != db.lists[b].externalId
  }

  ghost predicate GloballyUnique(db: Rows) {
    forall a, b :: a in db.lists && b in db.lists && a != b ==> db.lists[a].externalId != db.lists[b].externalId
  }

  /** After the downgrade's deletes the global constraint can be created exactly because the partial
      index held before them, and no canonical tracklist has been lost. */
  lemma {:induction false} UniquenessRestored(db: Rows)
    ensures GloballyUnique(Purged(db, Propagated)) <==> CanonicalUnique(db)
    ensures forall t :: t in db.lists && db.lists[t].propagatedFrom.None? ==>
              t in Purged(db, Propagated).lists && Purged(db, Propagated).lists[t] == db.lists[t]
  {
    var after := Purged(db, Propagated);
    assert forall t :: t in after.lists <==> t in db.lists && db.lists[t].propagatedFrom.None?;
    assert forall t :: t in after.lists ==> after.lists[t] == db.lists[t];
  }

  /** The tracklist a track, or a link, belongs to. */
  ghost function ListOfTrack(db: Rows, t: Id): Id
    requires ForeignKeys(db) && t in db.tracks
  {
    db.versions[db.tracks[t]]
  }

  ghost function ListOfLink(db: Rows, l: Id): Id
    requires ForeignKeys(db) && l in db.links
  {
    ListOfTrack(db, db.links[l])
  }

  /** What each migration removes, in the tables' own terms: the tracklists of that source, or those
      propagated, and just the versions, tracks and links that lead to one of them. */
  lemma {:induction false} WhatGoes(db: Rows, scope: Scope)
    requires ForeignKeys(db)
    ensures var goes := set t | t in db.lists && (if scope == Fingerprint then db.lists[t].source == "fingerprint"
                                                  else db.lists[t].propagatedFrom != None);
            var after := Purged(db, scope);
            && (forall t :: t in after.lists <==> t in db.lists && t !in goes)
            && (forall v :: v in after.versions <==> v in db.versions && db.versions[v] !in goes)
            && (forall t :: t in after.tracks <==> t in db.tracks && ListOfTrack(db, t) !in goes)
            && (forall l :: l in after.links <==> l in db.links && ListOfLink(db, l) !in goes)
    ensures var after := Purged(db, scope);
            && (forall t :: t in after.lists ==> after.lists[t] == db.lists[t])
            && (forall v :: v in after.versions ==> after.versions[v] == db.versions[v])
            && (forall t :: t in after.tracks ==> after.tracks[t] == db.tracks[t])
            && (forall l :: l in after.links ==> after.links[l] == db.links[l])
  {
  }
}
