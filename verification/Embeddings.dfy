// Embedding vectors, tied to the text that is indexed for a version.
module Embeddings {
  import opened Ids
  import opened Domain
  import opened Database

  datatype EmbeddingError = IncompleteEmbedding | NotIndexed | ContentMismatch | ZeroNorm | VersionMissing

  const MAX_DIMENSIONS := 16384

  predicate RowOf(index: TextIndex, version: Id, row: nat) {
    row in index.rows && index.rows[row].version == version
  }

  /** The text of the first index row of a version. */
  ghost predicate FirstText(index: TextIndex, version: Id, text: string) {
    exists row :: RowOf(index, version, row) && index.rows[row].text == text
                  && forall earlier :: RowOf(index, version, earlier) ==> row <= earlier
  }

  predicate HasNorm(vector: seq<int>) {
    exists i :: 0 <= i < |vector| && vector[i] != 0
  }

  ghost function PutEmbedding(db: Db, key: EmbeddingKey, content: string, vector: seq<int>, at: int): Result<Db, EmbeddingError> {
    if key.version == NO_ID || key.provider == "" || key.model == "" || content == "" || vector == [] || |vector| > MAX_DIMENSIONS
    then Failure(IncompleteEmbedding)
    else if !exists row :: RowOf(db.index, key.version, row) then Failure(NotIndexed)
    else if !FirstText(db.index, key.version, content) then Failure(ContentMismatch)
    else if !HasNorm(vector) then Failure(ZeroNorm)
    else if key.version !in db.versions then Failure(VersionMissing)
    else Success(db.(embeddings := db.embeddings[key := Embedding(content, vector, at)]))
  }

  method IndexedContent(index: TextIndex, version: Id) returns (text: Option<string>)
    requires forall r :: r in index.rows ==> r < index.next
    ensures text.None? <==> !exists row :: RowOf(index, version, row)
    ensures forall t :: FirstText(index, version, t) <==> text == Some(t)
  {
    for row := 0 to index.next
      invariant forall earlier :: 0 <= earlier < row ==> !RowOf(index, version, earlier)
    {
      if row in index.rows && index.rows[row].version == version {
        assert RowOf(index, version, row);
        return Some(index.rows[row].text);
      }
    }
    return None;
  }

  /** The squared norm is zero exactly when every coordinate is. */
  method SquaredNorm(vector: seq<int>) returns (squared: int)
    ensures squared != 0 <==> HasNorm(vector)
  {
    squared := 0;
    for i := 0 to |vector|
      invariant squared >= 0
      invariant squared != 0 <==> exists k :: 0 <= k < i && vector[k] != 0
    {
      SquareSign(vector[i]);
      squared := squared + vector[i] * vector[i];
    }
  }

  lemma SquareSign(x: int)
    ensures x * x >= 0 && (x * x != 0 <==> x != 0)
  {
    if x < 0 {
      assert x * x == (-x) * (-x);
    }
  }

  method Put(s: Store, key: EmbeddingKey, content: string, vector: seq<int>, at: int) returns (r: Result<(), EmbeddingError>)
    requires s.Valid()
    modifies s
    ensures match PutEmbedding(old(s.Snapshot()), key, content, vector, at)
            case Success(db) => s.Snapshot() == db && r == Success(())
            case Failure(error) => s.Snapshot() == old(s.Snapshot()) && r == Failure(error)
  {
    if key.version == NO_ID || key.provider == "" || key.model == "" || content == "" || |vector| == 0 || |vector| > MAX_DIMENSIONS {
      return Failure(IncompleteEmbedding);
    }
    var indexed := IndexedContent(s.index, key.version);
    if indexed.None? {
      return Failure(NotIndexed);
    }
    if indexed.value != content {
      return Failure(ContentMismatch);
    }
    var squared := SquaredNorm(vector);
    if squared == 0 {
      return Failure(ZeroNorm);
    }
    if key.version !in s.versions {
      return Failure(VersionMissing);
    }
    s.embeddings := s.embeddings[key := Embedding(content, vector, at)];
    return Success(());
  }
}
