/** Single ids and their rows: allocation by hash or by counter, lookup and rebinding (idmap/service.go). */
module IdMap {
  import opened Wrappers
  import opened Decimal
  import opened RowId
  import opened Bucket

  datatype IdError =
    | HashFailed(reason: RowError)
    | NoUniqueRow
    | CorruptRow     // fewer than eight bytes where a row is expected: the original panics
    | NotFound
    | AlreadyBound
    | EmptyKey
    | InvalidFormat

  datatype Outcome<+T> = Outcome(bucket: Store, result: Result<T, IdError>)

  // ---------------------------------------------------------------- what the operations do

  /** The nine-digit row of an id, or its ten-digit row when the former is taken. */
  function HashRow(md5: Md5, b: Store, id: string): Result<int, IdError> {
    match RowOf(md5(id), 9)
    case Err(e) => Err(HashFailed(e))
    case Ok(preferred) =>
      if RowKey(preferred) !in b then Ok(preferred)
      else
        match RowOf(md5(id), 10)
        case Err(e) => Err(HashFailed(e))
        case Ok(fallback) => if RowKey(fallback) in b then Err(NoUniqueRow) else Ok(fallback)
  }

  /** One more than the stored counter, or 1 when there is none. */
  function CounterRow(b: Store): Result<int, IdError> {
    if COUNTER_KEY !in b then Ok(1)
    else if |b[COUNTER_KEY]| < 8 then Err(CorruptRow)
    else Ok(ToInt64(DecodeRow(b[COUNTER_KEY]) + 1))
  }

  function NewRow(md5: Md5, hashMode: bool, b: Store, id: string): Result<int, IdError> {
    if hashMode then HashRow(md5, b, id) else CounterRow(b)
  }

  /** StoreID: the row already stored, or a new one written in both directions. */
  function Stored(md5: Md5, hashMode: bool, b: Store, id: string): Outcome<int> {
    if id in b then
      Outcome(b, if |b[id]| < 8 then Err(CorruptRow) else Ok(DecodeRow(b[id])))
    else
      match NewRow(md5, hashMode, b, id)
      case Err(e) => Outcome(b, Err(e))
      case Ok(row) =>
        var counted := if hashMode then b else Put(b, COUNTER_KEY, EncodeRow(row));
        Outcome(Put(Put(counted, id, EncodeRow(row)), RowKey(row), id), Ok(row))
  }

  /** SimplifiedStoreID: allocates a row by hash and writes only row -> id. */
  function HalfStored(md5: Md5, b: Store, id: string): Outcome<int> {
    match HashRow(md5, b, id)
    case Err(e) => Outcome(b, Err(e))
    case Ok(row) => Outcome(Put(b, RowKey(row), id), Ok(row))
  }

  function Retrieved(b: Store, rowid: string): Result<string, IdError> {
    if "row-" + rowid in b then Ok(b["row-" + rowid]) else Err(NotFound)
  }

  /** UpdateVirtualValue: moves whatever id sits at the old row to the new one. */
  function Rebound(b: Store, oldRow: int, newRow: int): Outcome<()> {
    if RowKey(oldRow) !in b then Outcome(b, Err(NotFound))
    else if RowKey(newRow) in b then Outcome(b, Err(AlreadyBound))
    else
      var id := b[RowKey(oldRow)];
      if id == "" then Outcome(b, Err(EmptyKey))
      else Outcome(Put(Delete(b[id := EncodeRow(newRow)], RowKey(oldRow)), RowKey(newRow), id), Ok(()))
  }

  // ---------------------------------------------------------------- the two-way invariant

  /** Ids outside the names the bucket reserves for itself. */
  predicate PlainId(id: string) {
    id != "" && ':' !in id && !("row-" <= id) && id != COUNTER_KEY
  }

  /** The row stored for an id points back at the id. */
  predicate PointsBack(b: Store, id: string)
    requires id in b
  {
    && |b[id]| == 8
    && RowKey(DecodeRow(b[id])) in b
    && b[RowKey(DecodeRow(b[id]))] == id
  }

  function StoredRow(b: Store, id: string): Option<int> {
    if id in b && |b[id]| >= 8 then Some(DecodeRow(b[id])) else None
  }

  /** Every forward entry has its reverse entry. */
  ghost predicate TwoWay(b: Store) {
    forall id :: id in b && PlainId(id) ==> PointsBack(b, id)
  }

  /** Row entries hold ids outside the reserved names. */
  ghost predicate RowsHoldIds(b: Store) {
    forall n: int :: RowKey(n) in b ==> PlainId(b[RowKey(n)])
  }

  ghost predicate Consistent(b: Store) {
    TwoWay(b) && RowsHoldIds(b)
  }

  predicate IsInt64(n: int) {
    MIN_INT64 <= n <= MAX_INT64
  }

  lemma HashRowFresh(md5: Md5, b: Store, id: string)
    requires HashRow(md5, b, id).Ok?
    ensures var row := HashRow(md5, b, id).value;
            RowKey(row) !in b && 0 <= row < 10_000_000_000
  {
    var row := HashRow(md5, b, id).value;
    assert Pow10(5) == 100_000;
    assert Pow10(10) == 10_000_000_000;
    Pow10Monotone(9, 10);
    RowBounds(md5(id), if RowOf(md5(id), 9) == Ok(row) then 9 else 10);
  }

  /**
   * Writing both directions for a new id, whatever the reverse entry held before, keeps the invariant
   * if and only if no stored id has that row.
   */
  lemma BindKeepsConsistentExactly(b: Store, id: string, row: int)
    requires Consistent(b) && PlainId(id) && id !in b && IsInt64(row)
    ensures Consistent(b[id := EncodeRow(row)][RowKey(row) := id])
            <==> forall k :: k in b && PlainId(k) ==> StoredRow(b, k) != Some(row)
  {
    var b' := b[id := EncodeRow(row)][RowKey(row) := id];
    DecodeEncode(row);
    RowKeyShape(row);
    if k :| k in b && PlainId(k) && StoredRow(b, k) == Some(row) {
      assert PointsBack(b, k);
      assert !PointsBack(b', k);
    } else {
      forall n: int | RowKey(n) in b' ensures PlainId(b'[RowKey(n)]) {
        RowKeyShape(n);
      }
      forall k | k in b' && PlainId(k) ensures PointsBack(b', k) {
        BindKeepsOther(b, id, row, k);
      }
    }
  }

  lemma BindKeepsOther(b: Store, id: string, row: int, k: string)
    requires Consistent(b) && PlainId(id) && id !in b && IsInt64(row) && PlainId(k)
    requires k in b[id := EncodeRow(row)][RowKey(row) := id]
    requires StoredRow(b, k) != Some(row)
    ensures PointsBack(b[id := EncodeRow(row)][RowKey(row) := id], k)
  {
    RowKeyShape(row);
    if k == id {
      DecodeEncode(row);
    } else {
      assert PointsBack(b, k);
      RowKeyShape(DecodeRow(b[k]));
      if RowKey(DecodeRow(b[k])) == RowKey(row) {
        RowKeyInjective(DecodeRow(b[k]), row);
      }
    }
  }

  lemma BindFreshRow(b: Store, id: string, row: int)
    requires Consistent(b) && PlainId(id) && id !in b && RowKey(row) !in b && IsInt64(row)
    ensures Consistent(b[id := EncodeRow(row)][RowKey(row) := id])
  {
    forall k | k in b && PlainId(k) ensures StoredRow(b, k) != Some(row) {
      assert PointsBack(b, k);
    }
    BindKeepsConsistentExactly(b, id, row);
  }

  lemma StoreKeepsConsistent(md5: Md5, b: Store, id: string)
    requires Consistent(b) && PlainId(id)
    ensures Consistent(Stored(md5, true, b, id).bucket)
  {
    if id !in b && HashRow(md5, b, id).Ok? {
      HashRowFresh(md5, b, id);
      BindFreshRow(b, id, HashRow(md5, b, id).value);
    }
  }

  lemma HalfStoreKeepsConsistent(md5: Md5, b: Store, id: string)
    requires Consistent(b) && PlainId(id)
    ensures Consistent(HalfStored(md5, b, id).bucket)
  {
  }

  lemma RebindKeepsConsistent(b: Store, oldRow: int, newRow: int)
    requires Consistent(b) && IsInt64(newRow)
    ensures Consistent(Rebound(b, oldRow, newRow).bucket)
  {
    if Rebound(b, oldRow, newRow).result.Ok? {
      var id := b[RowKey(oldRow)];
      assert PlainId(id);
      var b' := Rebound(b, oldRow, newRow).bucket;
      DecodeEncode(newRow);
      RowKeyShape(oldRow);
      RowKeyShape(newRow);
      forall n: int | RowKey(n) in b' ensures PlainId(b'[RowKey(n)]) {
        RowKeyShape(n);
      }
      forall k | k in b' && PlainId(k) ensures PointsBack(b', k) {
        if k != id {
          assert PointsBack(b, k);
          RowKeyShape(DecodeRow(b[k]));
        }
      }
    }
  }

  // ---------------------------------------------------------------- what the invariant gives

  /** No two ids share a row. */
  lemma RowsAreUnshared(b: Store, id1: string, id2: string)
    requires Consistent(b) && PlainId(id1) && PlainId(id2) && id1 in b && id2 in b
    requires StoredRow(b, id1) == StoredRow(b, id2)
    ensures id1 == id2
  {
  }

  /** Looking up the row an id was given finds the id, and storing the id again gives that row and writes nothing. */
  lemma RetrieveUndoesStore(md5: Md5, b: Store, id: string)
    requires Consistent(b) && PlainId(id)
    ensures var o := Stored(md5, true, b, id);
            o.result.Ok? ==>
              && Retrieved(o.bucket, FormatInt(o.result.value)) == Ok(id)
              && Stored(md5, true, o.bucket, id) == o
  {
    var o := Stored(md5, true, b, id);
    if o.result.Ok? {
      StoreKeepsConsistent(md5, b, id);
      if id !in b {
        HashRowFresh(md5, b, id);
        DecodeEncode(o.result.value);
        RowKeyShape(o.result.value);
      }
      assert PointsBack(o.bucket, id);
    }
  }

  /** The row handed out by SimplifiedStoreID leads back to the id as well, although no forward entry exists. */
  lemma RetrieveUndoesHalfStore(md5: Md5, b: Store, id: string)
    requires PlainId(id)
    ensures var o := HalfStored(md5, b, id);
            o.result.Ok? ==>
              && Retrieved(o.bucket, FormatInt(o.result.value)) == Ok(id)
              && (id in o.bucket <==> id in b)
  {
  }

  /** A rebind moves the id: the new row finds it, the old row finds nothing, storing it gives the new row. */
  lemma RebindMoves(md5: Md5, hashMode: bool, b: Store, oldRow: int, newRow: int)
    requires Consistent(b) && IsInt64(newRow)
    requires Rebound(b, oldRow, newRow).result.Ok?
    ensures var b' := Rebound(b, oldRow, newRow).bucket; var id := b[RowKey(oldRow)];
            && Retrieved(b', FormatInt(newRow)) == Ok(id)
            && Retrieved(b', FormatInt(oldRow)) == Err(NotFound)
            && Stored(md5, hashMode, b', id) == Outcome(b', Ok(newRow))
  {
    var id := b[RowKey(oldRow)];
    assert PlainId(id);
    DecodeEncode(newRow);
    RowKeyShape(oldRow);
    RowKeyShape(newRow);
  }

  /** In a consistent bucket an id is refused a row exactly when its hash is too short or both its rows are taken. */
  lemma StoreFailsExactly(md5: Md5, b: Store, id: string)
    requires Consistent(b) && PlainId(id)
    ensures var d := DigitsOf(md5(id));
            Stored(md5, true, b, id).result.Err? <==>
              && id !in b
              && (|d| < 9 || (RowKey(Value(d[..9])) in b && (|d| < 10 || RowKey(Value(d[..10])) in b)))
  {
    if id in b {
      assert PointsBack(b, id);
    }
    UsualLengthsFit(md5(id), 9);
    UsualLengthsFit(md5(id), 10);
  }

  // ---------------------------------------------------------------- which row, and what else is written

  /** By hash the row is made of the first nine digits, or of ten if that row is taken; half storing chooses alike. */
  lemma HashStoreExactly(md5: Md5, b: Store, id: string)
    ensures var d, r := DigitsOf(md5(id)), HalfStored(md5, b, id).result;
            && (id !in b ==> Stored(md5, true, b, id).result == r)
            && (r.Ok? <==> |d| >= 9 && (RowKey(Value(d[..9])) !in b || (|d| >= 10 && RowKey(Value(d[..10])) !in b)))
            && (|d| >= 9 && RowKey(Value(d[..9])) !in b ==> r == Ok(Value(d[..9])))
            && (r.Ok? && RowKey(Value(d[..9])) in b ==> r == Ok(Value(d[..10])))
            && (r.Err? && |d| >= 10 ==> r == Err(NoUniqueRow))
  {
    UsualLengthsFit(md5(id), 9);
    UsualLengthsFit(md5(id), 10);
  }

  function Entry(b: Store, k: string): Option<string> {
    if k in b then Some(b[k]) else None
  }

  /** Storing writes the id's own entry, its row's and the counter's, and no others; an empty id gets no entry. */
  lemma StoreTouchesOnly(md5: Md5, hashMode: bool, b: Store, id: string, k: string)
    ensures var o := Stored(md5, hashMode, b, id);
            && (o.result.Ok? && k !in {id, RowKey(o.result.value), COUNTER_KEY} ==> Entry(o.bucket, k) == Entry(b, k))
            && (o.result.Ok? && hashMode && k !in {id, RowKey(o.result.value)} ==> Entry(o.bucket, k) == Entry(b, k))
            && (o.result.Err? ==> o.bucket == b)
            && ("" in o.bucket <==> "" in b)
  {
  }

  /** Half storing writes the row's entry only. */
  lemma HalfStoreTouchesOnly(md5: Md5, b: Store, id: string, k: string)
    ensures var o := HalfStored(md5, b, id);
            && (o.result.Ok? && k != RowKey(o.result.value) ==> Entry(o.bucket, k) == Entry(b, k))
            && (o.result.Err? ==> o.bucket == b)
  {
  }

  /**
   * A rebind succeeds if and only if an id sits at the old row and the new row is free; it touches the two rows and
   * the id's own entry, and a failed one touches nothing.
   */
  lemma RebindExactly(b: Store, oldRow: int, newRow: int, k: string)
    requires Consistent(b)
    ensures var o := Rebound(b, oldRow, newRow);
            && (o.result.Ok? <==> RowKey(oldRow) in b && RowKey(newRow) !in b)
            && (RowKey(oldRow) !in b ==> o.result == Err(NotFound))
            && (RowKey(oldRow) in b && RowKey(newRow) in b ==> o.result == Err(AlreadyBound))
            && (o.result.Ok? && k !in {RowKey(oldRow), RowKey(newRow), b[RowKey(oldRow)]}
                ==> Entry(o.bucket, k) == Entry(b, k))
            && (o.result.Err? ==> o.bucket == b)
  {
    if RowKey(oldRow) in b {
      assert PlainId(b[RowKey(oldRow)]);
    }
  }

  // ---------------------------------------------------------------- counter mode

  /** The counter is a number that was written there, and no stored id's row is above it. */
  ghost predicate RowsCounted(b: Store) {
    && (COUNTER_KEY in b ==> |b[COUNTER_KEY]| == 8 && DecodeRow(b[COUNTER_KEY]) >= 0)
    && (forall id :: id in b && PlainId(id) ==> RowAtMost(b, id, Counter(b)))
  }

  predicate RowAtMost(b: Store, id: string, row: int) {
    StoredRow(b, id).Some? ==> StoredRow(b, id).value <= row
  }

  /** The counter, 0 before the first allocation. */
  function Counter(b: Store): int {
    if COUNTER_KEY in b && |b[COUNTER_KEY]| >= 8 then DecodeRow(b[COUNTER_KEY]) else 0
  }

  /** The next row is one above the counter, and no stored id has it. */
  lemma NextCounterRow(b: Store)
    requires RowsCounted(b) && Counter(b) < MAX_INT64
    ensures CounterRow(b) == Ok(Counter(b) + 1) && Counter(b) >= 0
    ensures forall id :: id in b && PlainId(id) ==> StoredRow(b, id) != Some(Counter(b) + 1)
  {
    forall id | id in b && PlainId(id) ensures StoredRow(b, id) != Some(Counter(b) + 1) {
      assert RowAtMost(b, id, Counter(b));
    }
  }

  /** What a counter allocation writes when the id is new. */
  lemma CounterAllocation(md5: Md5, b: Store, id: string, row: int)
    requires PlainId(id) && id !in b && CounterRow(b) == Ok(row) && IsInt64(row)
    ensures var o := Stored(md5, false, b, id);
            && o.result == Ok(row)
            && o.bucket == b[COUNTER_KEY := EncodeRow(row)][id := EncodeRow(row)][RowKey(row) := id]
            && Counter(o.bucket) == row
  {
    DecodeEncode(row);
    RowKeyShape(row);
    var b' := b[COUNTER_KEY := EncodeRow(row)][id := EncodeRow(row)][RowKey(row) := id];
    assert b'[COUNTER_KEY] == EncodeRow(row);
  }

  /** Storing a new id gives it the next row and moves the counter there; everything stays consistent. */
  lemma CounterStore(md5: Md5, b: Store, id: string)
    requires Consistent(b) && RowsCounted(b) && PlainId(id) && Counter(b) < MAX_INT64
    ensures var o := Stored(md5, false, b, id);
            && Consistent(o.bucket) && RowsCounted(o.bucket) && o.result.Ok?
            && (id !in b ==> o.result == Ok(Counter(b) + 1) && Counter(o.bucket) == Counter(b) + 1)
            && (id in b ==> o.bucket == b)
            && Retrieved(o.bucket, FormatInt(o.result.value)) == Ok(id)
  {
    if id in b {
      assert PointsBack(b, id);
    } else {
      NextCounterRow(b);
      CounterAllocation(md5, b, id, Counter(b) + 1);
      CounterStoreConsistentExactly(md5, b, id);
      RowsStayCounted(b, id, Counter(b) + 1);
    }
  }

  lemma RowsStayCounted(b: Store, id: string, row: int)
    requires RowsCounted(b) && row == Counter(b) + 1 <= MAX_INT64 && PlainId(id) && Counter(b) >= 0
    ensures RowsCounted(b[COUNTER_KEY := EncodeRow(row)][id := EncodeRow(row)][RowKey(row) := id])
  {
    var b' := b[COUNTER_KEY := EncodeRow(row)][id := EncodeRow(row)][RowKey(row) := id];
    DecodeEncode(row);
    RowKeyShape(row);
    assert Counter(b') == row;
    forall k | k in b' && PlainId(k) ensures RowAtMost(b', k, row) {
      if k != id {
        assert k in b && StoredRow(b', k) == StoredRow(b, k) && RowAtMost(b, k, Counter(b));
      }
    }
  }

  lemma CounterKeyIsNoRow(b: Store, v: string)
    requires Consistent(b)
    ensures Consistent(b[COUNTER_KEY := v])
  {
    var b' := b[COUNTER_KEY := v];
    forall n: int | RowKey(n) in b' ensures PlainId(b'[RowKey(n)]) {
      RowKeyShape(n);
    }
    forall k | k in b' && PlainId(k) ensures PointsBack(b', k) {
      assert PointsBack(b, k);
      RowKeyShape(DecodeRow(b[k]));
    }
  }

  /** A rebind to a row not above the counter, be it negative, keeps the counter's invariant. */
  lemma CounterRebind(b: Store, oldRow: int, newRow: int)
    requires Consistent(b) && RowsCounted(b) && newRow <= Counter(b) && IsInt64(newRow)
    ensures var b' := Rebound(b, oldRow, newRow).bucket;
            Consistent(b') && RowsCounted(b') && Counter(b') == Counter(b)
  {
    RebindKeepsConsistent(b, oldRow, newRow);
    var o := Rebound(b, oldRow, newRow);
    if o.result.Ok? {
      var id := b[RowKey(oldRow)];
      RowKeyShape(oldRow);
      RowKeyShape(newRow);
      DecodeEncode(newRow);
      assert PlainId(id) && Counter(o.bucket) == Counter(b);
      forall k | k in o.bucket && PlainId(k) ensures RowAtMost(o.bucket, k, Counter(b)) {
        if k != id {
          assert k in b && StoredRow(o.bucket, k) == StoredRow(b, k) && RowAtMost(b, k, Counter(b));
        }
      }
    }
  }

  /** Half storing by hash, which counter mode does as well, leaves counter and rows alone. */
  lemma CounterHalfStore(md5: Md5, b: Store, id: string)
    requires RowsCounted(b)
    ensures var b' := HalfStored(md5, b, id).bucket;
            RowsCounted(b') && Counter(b') == Counter(b)
  {
    forall n: int ensures !PlainId(RowKey(n)) && RowKey(n) != COUNTER_KEY {
      RowKeyShape(n);
    }
    var b' := HalfStored(md5, b, id).bucket;
    forall k | k in b' && PlainId(k) ensures RowAtMost(b', k, Counter(b)) {
      assert StoredRow(b', k) == StoredRow(b, k) && RowAtMost(b, k, Counter(b));
    }
  }

  /**
   * A row that leads to an id known by its reverse entry alone, as half storing leaves it, is lost to a new id
   * exactly when it is the counter's next row.
   */
  lemma CounterKeepsRowExactly(md5: Md5, b: Store, id: string, row: int)
    requires Consistent(b) && RowsCounted(b) && PlainId(id) && Counter(b) < MAX_INT64 && RowKey(row) in b
    ensures var b' := Stored(md5, false, b, id).bucket;
            Retrieved(b', FormatInt(row)) == Retrieved(b, FormatInt(row))
            <==> id in b || b[RowKey(row)] == id || row != Counter(b) + 1
  {
    if id !in b {
      var next := Counter(b) + 1;
      NextCounterRow(b);
      CounterAllocation(md5, b, id, next);
      RowKeyShape(row);
      var b' := Stored(md5, false, b, id).bucket;
      assert RowKey(row) != id && b'[RowKey(row)] == if RowKey(row) == RowKey(next) then id else b[RowKey(row)];
      if RowKey(row) == RowKey(next) {
        RowKeyInjective(row, next);
      }
    }
  }

  /**
   * The guard is exact: allocating the next row for a new id keeps the two-way invariant if and only if
   * no stored id already has that row.
   */
  lemma CounterStoreConsistentExactly(md5: Md5, b: Store, id: string)
    requires Consistent(b) && PlainId(id) && id !in b && CounterRow(b).Ok?
    ensures Consistent(Stored(md5, false, b, id).bucket)
            <==> forall k :: k in b && PlainId(k) ==> StoredRow(b, k) != Some(CounterRow(b).value)
  {
    var row := CounterRow(b).value;
    var counted := b[COUNTER_KEY := EncodeRow(row)];
    CounterKeyIsNoRow(b, EncodeRow(row));
    BindKeepsConsistentExactly(counted, id, row);
    assert forall k :: PlainId(k) ==> StoredRow(counted, k) == StoredRow(b, k);
  }
}
