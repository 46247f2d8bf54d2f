/** The specification of session validity: a function of the history and the clock alone. Neither the
    database nor any cache occurs in it. */
module HistorySpec {
  import opened Domain
  import opened Handlers

  predicate Hits(e: Event, sid: Id, user: Id, org: Id) {
    match e
    case Created(_, _, _, _) => false
    case LoggedOut(s) => s == sid
    case ReplayCaught(s) => s == sid
    case LoggedOutAll(u) => u == user
    case PasswordReset(u) => u == user
    case Removed(u) => u == user
    case OrganizationDeleted(o) => o == org
  }

  /** No revoking event hit the session that entry i created. */
  predicate Survives(h: seq<Event>, i: nat)
    requires i < |h| && h[i].Created?
  {
    forall j :: i < j < |h| ==> !Hits(h[j], h[i].sid, h[i].user, h[i].org)
  }

  predicate AcceptedByHistory(h: seq<Event>, c: Claims, now: Millis) {
    && Unexpired(c, now)
    && c.session.Some?
    && exists i :: 0 <= i < |h| && h[i].Created? && h[i].sid == c.session.value
                   && now <= h[i].expiresAt && Survives(h, i)
  }

  // ---------------------------------------------------------------- the database agrees with the history

  /** The row of the session that entry i created: revoked exactly when a later event hit it. */
  ghost predicate RowMatches(h: seq<Event>, i: nat, db: Database)
    requires i < |h| && h[i].Created?
  {
    && h[i].sid in db.sessions
    && db.sessions[h[i].sid].user == h[i].user && db.sessions[h[i].sid].org == h[i].org
    && db.sessions[h[i].sid].expiresAt == h[i].expiresAt
    && (db.sessions[h[i].sid].revoked <==> !Survives(h, i))
  }

  ghost predicate Recorded(h: seq<Event>, db: Database) {
    && (forall i {:trigger RowMatches(h, i, db)} :: 0 <= i < |h| && h[i].Created? ==> RowMatches(h, i, db))
    && (forall sid {:trigger CreatedIn(h, sid)} :: sid in db.sessions ==> CreatedIn(h, sid))
  }

  ghost predicate CreatedIn(h: seq<Event>, sid: Id) {
    exists i :: 0 <= i < |h| && h[i].Created? && h[i].sid == sid
  }

  lemma CreatedInGrows(h: seq<Event>, e: Event, sid: Id)
    requires CreatedIn(h, sid) || (e.Created? && e.sid == sid)
    ensures CreatedIn(h + [e], sid)
  {
    if CreatedIn(h, sid) {
      var i :| 0 <= i < |h| && h[i].Created? && h[i].sid == sid;
      assert (h + [e])[i] == h[i];
    } else {
      assert (h + [e])[|h|] == e;
    }
  }

  lemma SurvivesStep(h: seq<Event>, e: Event, i: nat)
    requires i < |h| && h[i].Created?
    ensures (h + [e])[i] == h[i]
    ensures Survives(h + [e], i) <==> Survives(h, i) && !Hits(e, h[i].sid, h[i].user, h[i].org)
  {
    var h' := h + [e];
    if Survives(h', i) {
      forall j | i < j < |h| ensures !Hits(h[j], h[i].sid, h[i].user, h[i].org) {
        assert h'[j] == h[j];
      }
      assert !Hits(h'[|h|], h[i].sid, h[i].user, h[i].org);
    }
  }

  predicate SameIdentity(a: Session, b: Session) {
    a.user == b.user && a.org == b.org && a.expiresAt == b.expiresAt
  }

  /** Only activity stamps moved. */
  lemma RecordedUnchanged(h: seq<Event>, db: Database, db': Database)
    requires Recorded(h, db)
    requires db'.sessions.Keys == db.sessions.Keys
    requires forall i :: i in db.sessions ==>
               && SameIdentity(db.sessions[i], db'.sessions[i])
               && db'.sessions[i].revoked == db.sessions[i].revoked
    ensures Recorded(h, db')
  {
    forall i | 0 <= i < |h| && h[i].Created? ensures RowMatches(h, i, db') {
      assert RowMatches(h, i, db);
    }
  }

  /** A revoking event is recorded exactly when it flags the sessions it hits and no other. */
  lemma RecordedRevocation(h: seq<Event>, db: Database, db': Database, e: Event)
    requires Recorded(h, db) && !e.Created?
    requires db'.sessions.Keys == db.sessions.Keys
    requires forall i :: i in db.sessions ==>
               && SameIdentity(db.sessions[i], db'.sessions[i])
               && (db'.sessions[i].revoked <==>
                   db.sessions[i].revoked || Hits(e, i, db.sessions[i].user, db.sessions[i].org))
    ensures Recorded(h + [e], db')
  {
    var h' := h + [e];
    forall i | 0 <= i < |h'| && h'[i].Created? ensures RowMatches(h', i, db') {
      assert i < |h| && h[i] == h'[i];
      assert RowMatches(h, i, db);
      SurvivesStep(h, e, i);
    }
    forall sid | sid in db'.sessions ensures CreatedIn(h', sid) {
      CreatedInGrows(h, e, sid);
    }
  }

  lemma RecordedCreation(h: seq<Event>, db: Database, db': Database, e: Event)
    requires Recorded(h, db) && e.Created? && e.sid !in db.sessions
    requires db'.sessions.Keys == db.sessions.Keys + {e.sid}
    requires forall i :: i in db.sessions ==> db'.sessions[i] == db.sessions[i]
    requires db'.sessions[e.sid].user == e.user && db'.sessions[e.sid].org == e.org
    requires db'.sessions[e.sid].expiresAt == e.expiresAt
    requires !db'.sessions[e.sid].revoked
    ensures Recorded(h + [e], db')
  {
    var h' := h + [e];
    forall i | 0 <= i < |h'| && h'[i].Created? ensures RowMatches(h', i, db') {
      if i < |h| {
        assert RowMatches(h, i, db);
        SurvivesStep(h, e, i);
      }
    }
    forall sid | sid in db'.sessions ensures CreatedIn(h', sid) {
      CreatedInGrows(h, e, sid);
    }
  }

  /** With the database recording the history, the specification reads off the database row. */
  lemma HistoryReadsDatabase(h: seq<Event>, db: Database, c: Claims, now: Millis)
    requires Recorded(h, db)
    ensures AcceptedByHistory(h, c, now) <==>
            Unexpired(c, now) && c.session.Some? && !DbRejects(db, c.session.value, now)
  {
    if c.session.Some? && c.session.value in db.sessions {
      assert CreatedIn(h, c.session.value);
      var i :| 0 <= i < |h| && h[i].Created? && h[i].sid == c.session.value;
      assert RowMatches(h, i, db);
    }
    if AcceptedByHistory(h, c, now) {
      var i :| 0 <= i < |h| && h[i].Created? && h[i].sid == c.session.value && now <= h[i].expiresAt && Survives(h, i);
      assert RowMatches(h, i, db);
    }
  }
}
