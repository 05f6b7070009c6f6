// Storing captured evidence: observations, and episodes with their outcomes.
module Captures {
  import opened Ids
  import opened Domain
  import opened Database
  import opened Bundles
  import opened Portable

  datatype CaptureError = InvalidCapture | CaptureExists

  function PutObservation(db: Db, id: Id, o: Observation): Result<Db, CaptureError> {
    if id == NO_ID then Failure(InvalidCapture)
    else if id in db.observations then Failure(CaptureExists)
    else Success(db.(observations := db.observations[id := o]))
  }

  predicate ValidEpisode(id: Id, e: Episode, outcomes: seq<Row<Outcome>>) {
    && id != NO_ID
    && e.startedAt < e.endedAt
    && NO_ID !in e.observations
    && outcomes != []
    && forall r :: r in outcomes ==> r.id != NO_ID && r.value.source != NO_ID && r.value.kind != "" && r.value.episode == id
  }

  ghost function PutEpisode(db: Db, id: Id, e: Episode, outcomes: seq<Row<Outcome>>): Result<Db, CaptureError> {
    if !ValidEpisode(id, e, outcomes) then Failure(InvalidCapture)
    else if id in db.episodes || !Insertable(db.outcomes, outcomes) then Failure(CaptureExists)
    else Success(db.(episodes := db.episodes[id := e], outcomes := db.outcomes + Table(outcomes)))
  }

  /** An episode and its outcomes go in together or not at all. */
  method StoreEpisode(s: Store, id: Id, e: Episode, outcomes: seq<Row<Outcome>>) returns (r: Result<(), CaptureError>)
    modifies s
    ensures match PutEpisode(old(s.Snapshot()), id, e, outcomes)
            case Success(db) => s.Snapshot() == db && r == Success(())
            case Failure(error) => s.Snapshot() == old(s.Snapshot()) && r == Failure(error)
  {
    if !ValidEpisode(id, e, outcomes) {
      return Failure(InvalidCapture);
    }
    var tx := s.Snapshot();
    if id in tx.episodes {
      return Failure(CaptureExists);
    }
    var ok, table := InsertRows(tx.outcomes, outcomes);
    if !ok {
      return Failure(CaptureExists);
    }
    s.Commit(tx.(episodes := tx.episodes[id := e], outcomes := table));
    return Success(());
  }
}
