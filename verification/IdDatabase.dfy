/** The bucket with its transactions: each method works on a copy and commits it only on success (idmap/service.go). */
module IdDatabase {
  import opened Wrappers
  import opened RowId
  import opened Bucket
  import opened IdMap
  import opened IdPairs
  import opened KeyOrder
  import opened Text

  class Database {
    const md5: Md5
    var bucket: Store

    constructor (md5: Md5)
      ensures this.md5 == md5 && bucket == map[]
    {
      this.md5 := md5;
      bucket := map[];
    }

    method AllocateByHash(id: string) returns (r: Result<int, IdError>)
      ensures r == HashRow(md5, bucket, id)
    {
      var preferred := GenerateRowID(md5, id, 9);
      if preferred.Err? {
        return Err(HashFailed(preferred.error));
      }
      var newRow := preferred.value;
      if RowKey(newRow) in bucket {
        var fallback := GenerateRowID(md5, id, 10);
        if fallback.Err? {
          return Err(HashFailed(fallback.error));
        }
        newRow := fallback.value;
        if RowKey(newRow) in bucket {
          return Err(NoUniqueRow);
        }
      }
      return Ok(newRow);
    }

    method StoreID(id: string, hashMode: bool) returns (r: Result<int, IdError>)
      modifies this
      ensures Outcome(bucket, r) == Stored(md5, hashMode, old(bucket), id)
      ensures r.Err? ==> bucket == old(bucket)
    {
      var tx := bucket;
      if id in tx {
        return if |tx[id]| < 8 then Err(CorruptRow) else Ok(DecodeRow(tx[id]));
      }
      var newRow;
      if !hashMode {
        newRow := CounterRow(tx);
      } else {
        newRow := AllocateByHash(id);
      }
      if newRow.Err? {
        return newRow;
      }
      var rowBytes := EncodeRow(newRow.value);
      if !hashMode {
        tx := Put(tx, COUNTER_KEY, rowBytes);
      }
      tx := Put(tx, id, rowBytes);
      tx := Put(tx, RowKey(newRow.value), id);
      bucket := tx;
      return newRow;
    }

    method SimplifiedStoreID(id: string) returns (r: Result<int, IdError>)
      modifies this
      ensures Outcome(bucket, r) == HalfStored(md5, old(bucket), id)
      ensures r.Err? ==> bucket == old(bucket)
    {
      var newRow := AllocateByHash(id);
      if newRow.Ok? {
        bucket := Put(bucket, RowKey(newRow.value), id);
      }
      return newRow;
    }

    method RetrieveRowByID(rowid: string) returns (r: Result<string, IdError>)
      ensures r == Retrieved(bucket, rowid)
    {
      if "row-" + rowid !in bucket {
        return Err(NotFound);
      }
      return Ok(bucket["row-" + rowid]);
    }

    method UpdateVirtualValue(oldRow: int, newRow: int) returns (r: Result<(), IdError>)
      modifies this
      ensures Outcome(bucket, r) == Rebound(old(bucket), oldRow, newRow)
      ensures r.Err? ==> bucket == old(bucket)
    {
      var tx := bucket;
      var oldRowKey := RowKey(oldRow);
      if oldRowKey !in tx {
        return Err(NotFound);
      }
      var id := tx[oldRowKey];
      var newRowKey := RowKey(newRow);
      if newRowKey in tx {
        return Err(AlreadyBound);
      }
      if id == "" {
        return Err(EmptyKey);
      }
      tx := Put(tx, id, EncodeRow(newRow));
      tx := Delete(tx, oldRowKey);
      tx := Put(tx, newRowKey, id);
      bucket := tx;
      return Ok(());
    }

    method StoreIDPro(id: string, subid: string) returns (r: Result<(int, int), IdError>)
      modifies this
      ensures Outcome(bucket, r) == PairStored(md5, old(bucket), id, subid)
      ensures r.Err? ==> bucket == old(bucket)
    {
      var tx := bucket;
      var forwardKey := PairKey(id, subid);
      if forwardKey in tx {
        return Ok(ScanPair(tx[forwardKey]));
      }
      var row := GenerateRowID(md5, id, 9);
      if row.Err? {
        return Err(HashFailed(row.error));
      }
      var subRow := GenerateRowID(md5, subid, 9);
      if subRow.Err? {
        return Err(HashFailed(subRow.error));
      }
      var reverseKey := RowPair(row.value, subRow.value);
      tx := Put(tx, forwardKey, reverseKey);
      tx := Put(tx, reverseKey, forwardKey);
      bucket := tx;
      return Ok((row.value, subRow.value));
    }

    method RetrieveRowByIDPro(row: string, subRow: string) returns (r: Result<(string, string), IdError>)
      ensures r == PairRetrieved(bucket, row, subRow)
    {
      var reverseKey := PairKey(row, subRow);
      if reverseKey !in bucket {
        return Err(NotFound);
      }
      var parts := Split(bucket[reverseKey], ':');
      if |parts| != 2 {
        return Err(InvalidFormat);
      }
      return Ok((parts[0], parts[1]));
    }

    method UpdateVirtualValuePro(old1: int, new1: int, old2: int, new2: int) returns (r: Result<(), IdError>)
      modifies this
      ensures Outcome(bucket, r) == PairRebound(old(bucket), old1, new1, old2, new2)
      ensures r.Err? ==> bucket == old(bucket)
    {
      var tx := bucket;
      var oldKey, newKey := RowPair(old1, old2), RowPair(new1, new2);
      if oldKey !in tx {
        return Err(NotFound);
      }
      var realKey := tx[oldKey];
      if newKey in tx {
        return Err(AlreadyBound);
      }
      tx := Delete(tx, oldKey);
      tx := Delete(tx, realKey);
      tx := Put(tx, newKey, realKey);
      if realKey == "" {
        return Err(EmptyKey);
      }
      tx := Put(tx, realKey, newKey);
      assert tx == PairRebound(bucket, old1, new1, old2, new2).bucket;
      bucket := tx;
      return Ok(());
    }

    /** `order` is the order in which the runtime happens to traverse the collected map. */
    method UpdateKeysWithNewID(id: string, newID: string, order: seq<string>) returns (r: Result<(), IdError>)
      requires IsTraversal(bucket, id, order)
      modifies this
      ensures Outcome(bucket, r) == Renamed(old(bucket), id, newID, order)
      ensures r.Err? ==> bucket == old(bucket)
    {
      var tx := bucket;
      var keysToUpdate := map k | k in tx && id + ":" <= k :: tx[k];
      for i := 0 to |order|
        invariant bucket == old(bucket)
        invariant forall j :: 0 <= j < |order| ==> order[j] in order
        invariant RenameAll(bucket, bucket, id, newID, order) == RenameAll(bucket, tx, id, newID, order[i..])
      {
        var key := order[i];
        assert key in order && order[i..][1..] == order[i + 1..];
        var reverseKey := keysToUpdate[key];
        if reverseKey !in tx {
          return Err(NotFound);
        }
        var reverseValue := tx[reverseKey];
        if reverseKey == "" {
          return Err(EmptyKey);
        }
        tx := Delete(tx, key);
        tx := tx[ReplaceFirst(key, id, newID) := reverseKey];
        tx := tx[reverseKey := ReplaceFirst(reverseValue, id, newID)];
      }
      assert order[|order|..] == [];
      bucket := tx;
      return Ok(());
    }

    /** The cursor's Seek: the first key at or after the given one. */
    static method Seek(keys: seq<string>, key: string) returns (i: nat)
      ensures i <= |keys| && (i < |keys| ==> AtMost(key, keys[i]))
      ensures forall j :: 0 <= j < i ==> !AtMost(key, keys[j])
    {
      i := 0;
      while i < |keys| && !AtMost(key, keys[i])
        invariant i <= |keys|
        invariant forall j :: 0 <= j < i ==> !AtMost(key, keys[j])
      {
        i := i + 1;
      }
    }

    /**
     * `keys` is what a cursor walks over: the keys of the bucket in ascending order. The scan stops at the
     * first key without the prefix, and yet finds every colon-free x stored as id:x, each once and in order.
     */
    method FindSubKeysById(keys: seq<string>, id: string) returns (subKeys: seq<string>)
      requires Ascending(keys) && forall k :: k in keys <==> k in bucket
      ensures forall sub :: sub in subKeys <==> ':' !in id && ':' !in sub && PairKey(id, sub) in bucket
      ensures Ascending(subKeys)
    {
      subKeys := [];
      var prefix := id + ":";
      var i := Seek(keys, prefix);
      ghost var first := i;
      NothingBefore(keys, id, i);
      while i < |keys| && prefix <= keys[i]
        invariant first <= i <= |keys|
        invariant subKeys == SubKeys(keys, id, i)
      {
        var keyParts := Split(keys[i], ':');
        if |keyParts| == 2 {
          var sub := keys[i][|prefix|..];
          assert keys[i] == prefix + sub;
          SubKeyParts(id, sub);
          subKeys := subKeys + [keyParts[1]];
        }
        i := i + 1;
      }
      if i < |keys| {
        NothingBeyond(keys, id, first, i, |keys|);
      }
      SubKeysAscending(keys, id, |keys|);
      assert keys[..|keys|] == keys;
      forall sub ensures sub in subKeys <==> ':' !in id && ':' !in sub && PairKey(id, sub) in bucket {
        SubKeysComplete(keys, id, |keys|, sub);
      }
    }
  }
}
