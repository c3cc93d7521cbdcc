/** The object store and what its entries certify (src/storage). */
module Storage {
  import opened Wrappers
  import opened JsonText
  import opened Canonical

  datatype StorageError = StorageError

  function Find(table: map<string, string>, id: string): Option<string> {
    if id in table then Some(table[id]) else None
  }

  /** The key-value table. `fault` stands for a failure inside the database: the call then returns an
      error and commits nothing. */
  class RedbStore {
    var table: map<string, string>

    constructor ()
      ensures table == map[]
    {
      table := map[];
    }

    method Has(id: string, fault: bool) returns (r: Result<bool, StorageError>)
      ensures r == if fault then Err(StorageError) else Ok(id in table)
    {
      if fault {
        return Err(StorageError);
      }
      var found := Find(table, id);
      r := Ok(found.Some?);
    }

    method Get(id: string, fault: bool) returns (r: Result<Option<string>, StorageError>)
      ensures r == if fault then Err(StorageError) else Ok(Find(table, id))
    {
      if fault {
        return Err(StorageError);
      }
      r := Ok(Find(table, id));
    }

    /** Returns the bytes that were stored before. */
    method Put(id: string, data: string, fault: bool) returns (r: Result<Option<string>, StorageError>)
      modifies this
      ensures table == if fault then old(table) else old(table)[id := data]
      ensures r == if fault then Err(StorageError) else Ok(Find(old(table), id))
    {
      if fault {
        return Err(StorageError);
      }
      r := Ok(Find(table, id));
      table := table[id := data];
    }
  }

  // ---------- self-certifying entries ----------

  /** The stored text is JSON with an object under `object`, and its id is the key it is stored at. */
  predicate EntryOk(digest: string -> string, id: string, bytes: string) {
    var v := FromStr(bytes);
    v.Some? && EnsureObjectField(v.value).Some? && ObjectId(digest, v.value) == id
  }

  ghost predicate Certified(digest: string -> string, table: map<string, string>) {
    forall id | id in table :: EntryOk(digest, id, table[id])
  }

  /** Canonical text of a stored text. */
  function CanonicalOf(bytes: string): Option<string> {
    var v :- FromStr(bytes);
    Some(CanonicalText(v))
  }

  /** Under one id, without a collision, only texts of the very same value can ever be stored. */
  lemma SameIdSameValue(digest: string -> string, id: string, a: string, b: string, texts: iset<string>)
    requires EntryOk(digest, id, a) && EntryOk(digest, id, b)
    requires CollisionFree(digest, texts) && CanonicalOf(a).value in texts && CanonicalOf(b).value in texts
    ensures FromStr(a) == FromStr(b)
  {
    RecanonicalisingIsIdentity(a);
    RecanonicalisingIsIdentity(b);
    var v, w := FromStr(a).value, FromStr(b).value;
    assert digest(CanonicalText(v)) == digest(CanonicalText(w));
  }
}
