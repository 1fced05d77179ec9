/** Runs of the id map carried out by the methods of the database (idmap/service.go). */
module IdRunMethods {
  import opened IdRuns
  import opened IdDatabase

  /** One operation by its method; whatever it returns, the bucket is the one of the model. */
  method Perform(db: Database, hashMode: bool, op: Op)
    requires Admissible(db.md5, hashMode, db.bucket, op)
    modifies db
    ensures db.bucket == Apply(db.md5, hashMode, old(db.bucket), op)
  {
    match op
    case StoreId(id) => var _ := db.StoreID(id, hashMode);
    case HalfStoreId(id) => var _ := db.SimplifiedStoreID(id);
    case Rebind(oldRow, newRow) => var _ := db.UpdateVirtualValue(oldRow, newRow);
    case StorePair(id, subid) => var _ := db.StoreIDPro(id, subid);
    case RebindPair(old1, new1, old2, new2) => var _ := db.UpdateVirtualValuePro(old1, new1, old2, new2);
    case RenameId(id, newID, order) => var _ := db.UpdateKeysWithNewID(id, newID, order);
  }

  /** Any sequence of calls is a run of the model, so what the runs keep holds of the database. */
  method PerformAll(db: Database, hashMode: bool, ops: seq<Op>)
    requires AdmissibleRun(db.md5, hashMode, db.bucket, ops)
    modifies db
    ensures db.bucket == Run(db.md5, hashMode, old(db.bucket), ops)
    ensures SoundBucket(old(db.bucket)) ==> SoundBucket(db.bucket)
  {
    for i := 0 to |ops|
      invariant AdmissibleRun(db.md5, hashMode, db.bucket, ops[i..])
      invariant Run(db.md5, hashMode, db.bucket, ops[i..]) == Run(db.md5, hashMode, old(db.bucket), ops)
    {
      assert ops[i..][0] == ops[i] && ops[i..][1..] == ops[i + 1..];
      Perform(db, hashMode, ops[i]);
    }
    assert ops[|ops|..] == [];
    if SoundBucket(old(db.bucket)) {
      RunKeepsSound(db.md5, hashMode, old(db.bucket), ops);
    }
  }
}
