/** Whole runs of the id map: every operation, in any order, on one shared bucket (idmap/service.go). */
module IdRuns {
  import opened Wrappers
  import opened Decimal
  import opened RowId
  import opened Bucket
  import opened IdMap
  import opened IdPairs
  import opened IdRename
  import opened IdTakenNames

  datatype Op =
    | StoreId(id: string)
    | HalfStoreId(id: string)
    | Rebind(oldRow: int, newRow: int)
    | StorePair(id: string, subid: string)
    | RebindPair(old1: int, new1: int, old2: int, new2: int)
    | RenameId(id: string, newID: string, order: seq<string>)

  /**
   * Reserved names are not used as ids, the counter's next row is free, rows are int64, a generated reverse key is
   * free or paired with itself, and new names are free, or taken from whole pairs, unless nothing changes.
   */
  ghost predicate Admissible(md5: Md5, hashMode: bool, b: Store, op: Op) {
    match op
    case StoreId(id) => PlainId(id) && (hashMode || NextRowUsable(b, id))
    case HalfStoreId(id) => PlainId(id)
    case Rebind(_, newRow) => IsInt64(newRow)
    case StorePair(id, subid) => ReverseKeyUsable(md5, b, id, subid)
    case RebindPair(_, _, _, _) => true
    case RenameId(id, newID, order) =>
      IsTraversal(b, id, order) && (id == newID || NamesFree(b, id, newID) || NamesTakenWhole(b, id, newID))
  }

  ghost predicate NamesTakenWhole(b: Store, id: string, newID: string) {
    NamesAside(b, id, newID) && PairsTakenWhole(b, id, newID)
  }

  /** Exactly when a counter allocation keeps every id's row pointing back at it. */
  ghost predicate NextRowUsable(b: Store, id: string) {
    id in b || CounterRow(b).Err? || forall k :: k in b && PlainId(k) ==> StoredRow(b, k) != Some(CounterRow(b).value)
  }

  /** Exactly when storing the pair keeps the pairing an involution. */
  predicate ReverseKeyUsable(md5: Md5, b: Store, id: string, subid: string) {
    var o := PairStored(md5, b, id, subid);
    PairKey(id, subid) in b || o.result.Err? || FreeOrSelfPaired(b, RowPair(o.result.value.0, o.result.value.1))
  }

  predicate FreeOrSelfPaired(b: Store, k: string) {
    k in b ==> b[k] == k
  }

  /** The bucket after one operation, with rows allocated by hash or by counter; half storing always goes by hash. */
  ghost function Apply(md5: Md5, hashMode: bool, b: Store, op: Op): Store
    requires Admissible(md5, hashMode, b, op)
  {
    match op
    case StoreId(id) => Stored(md5, hashMode, b, id).bucket
    case HalfStoreId(id) => HalfStored(md5, b, id).bucket
    case Rebind(oldRow, newRow) => Rebound(b, oldRow, newRow).bucket
    case StorePair(id, subid) => PairStored(md5, b, id, subid).bucket
    case RebindPair(old1, new1, old2, new2) => PairRebound(b, old1, new1, old2, new2).bucket
    case RenameId(id, newID, order) => Renamed(b, id, newID, order).bucket
  }

  ghost predicate AdmissibleRun(md5: Md5, hashMode: bool, b: Store, ops: seq<Op>)
    decreases |ops|
  {
    ops == [] || (
      && Admissible(md5, hashMode, b, ops[0])
      && AdmissibleRun(md5, hashMode, Apply(md5, hashMode, b, ops[0]), ops[1..]))
  }

  ghost function Run(md5: Md5, hashMode: bool, b: Store, ops: seq<Op>): Store
    requires AdmissibleRun(md5, hashMode, b, ops)
    decreases |ops|
  {
    if ops == [] then b else Run(md5, hashMode, Apply(md5, hashMode, b, ops[0]), ops[1..])
  }

  ghost predicate SoundBucket(b: Store) {
    Consistent(b) && Involutive(b)
  }

  // ---------------------------------------------------------------- single ids and pairs do not interfere

  ghost predicate SameSingles(b: Store, b': Store) {
    forall k :: ':' !in k ==> (k in b <==> k in b') && (k in b ==> b[k] == b'[k])
  }

  ghost predicate SamePairs(b: Store, b': Store) {
    forall k :: ':' in k ==> (k in b <==> k in b') && (k in b ==> b[k] == b'[k])
  }

  lemma SinglesDecideConsistency(b: Store, b': Store)
    requires SameSingles(b, b') && Consistent(b)
    ensures Consistent(b')
  {
    forall n: int | RowKey(n) in b' ensures PlainId(b'[RowKey(n)]) {
      RowKeyShape(n);
    }
    forall k | k in b' && PlainId(k) ensures PointsBack(b', k) {
      assert PointsBack(b, k);
      RowKeyShape(DecodeRow(b[k]));
    }
  }

  lemma PairsDecideInvolution(b: Store, b': Store)
    requires SamePairs(b, b') && Involutive(b)
    ensures Involutive(b')
  {
  }

  /** A renamed key, its new name and its partner all hold a colon. */
  lemma {:induction false} RenamingKeepsSingles(b: Store, tx: Store, id: string, newID: string, order: seq<string>)
    requires Involutive(b) && forall i :: 0 <= i < |order| ==> order[i] in b && Selected(b, id, order[i])
    ensures var r := RenameAll(b, tx, id, newID, order);
            r.Ok? ==> SameSingles(tx, r.value)
    decreases |order|
  {
    if order != [] {
      var key := order[0];
      ReplaceRenames(id, newID, key);
      assert Paired(b, key);
      var r := RenameOne(tx, id, newID, key, b[key]);
      if r.Ok? {
        assert SameSingles(tx, r.value);
        RenamingKeepsSingles(b, r.value, id, newID, order[1..]);
      }
    }
  }

  // ---------------------------------------------------------------- every step keeps the bucket sound

  /** What is written under colon-free keys leaves the entries of pairs alone. */
  lemma StoredKeepsPairs(md5: Md5, hashMode: bool, b: Store, id: string)
    requires PlainId(id)
    ensures SamePairs(b, Stored(md5, hashMode, b, id).bucket)
  {
    var o := Stored(md5, hashMode, b, id);
    if o.result.Ok? {
      RowKeyShape(o.result.value);
    }
  }

  lemma HalfStoredKeepsPairs(md5: Md5, b: Store, id: string)
    ensures SamePairs(b, HalfStored(md5, b, id).bucket)
  {
    var o := HalfStored(md5, b, id);
    if o.result.Ok? {
      RowKeyShape(o.result.value);
    }
  }

  lemma ReboundKeepsPairs(b: Store, oldRow: int, newRow: int)
    requires Consistent(b)
    ensures SamePairs(b, Rebound(b, oldRow, newRow).bucket)
  {
    RowKeyShape(oldRow);
    RowKeyShape(newRow);
  }

  /** Operations on single ids do not touch the entries of pairs at all. */
  lemma SingleStepKeepsPairs(md5: Md5, hashMode: bool, b: Store, op: Op)
    requires SoundBucket(b) && Admissible(md5, hashMode, b, op)
    requires op.StoreId? || op.HalfStoreId? || op.Rebind?
    ensures SamePairs(b, Apply(md5, hashMode, b, op))
  {
    match op
    case StoreId(id) => StoredKeepsPairs(md5, hashMode, b, id);
    case HalfStoreId(id) => HalfStoredKeepsPairs(md5, b, id);
    case Rebind(oldRow, newRow) => ReboundKeepsPairs(b, oldRow, newRow);
  }

  lemma SingleStep(md5: Md5, hashMode: bool, b: Store, op: Op)
    requires SoundBucket(b) && Admissible(md5, hashMode, b, op)
    requires op.StoreId? || op.HalfStoreId? || op.Rebind?
    ensures SoundBucket(Apply(md5, hashMode, b, op))
  {
    SingleStepKeepsPairs(md5, hashMode, b, op);
    PairsDecideInvolution(b, Apply(md5, hashMode, b, op));
    match op
    case StoreId(id) =>
      if hashMode {
        StoreKeepsConsistent(md5, b, id);
      } else if id !in b && CounterRow(b).Ok? {
        CounterStoreConsistentExactly(md5, b, id);
      }
    case HalfStoreId(id) => HalfStoreKeepsConsistent(md5, b, id);
    case Rebind(oldRow, newRow) => RebindKeepsConsistent(b, oldRow, newRow);
  }

  /** Pair operations do not touch the entries of single ids at all. */
  lemma PairStepKeepsSingles(md5: Md5, hashMode: bool, b: Store, op: Op)
    requires SoundBucket(b) && Admissible(md5, hashMode, b, op)
    requires op.StorePair? || op.RebindPair? || op.RenameId?
    ensures SameSingles(b, Apply(md5, hashMode, b, op))
  {
    match op
    case StorePair(_, _) =>
    case RebindPair(old1, _, old2, _) =>
      if RowPair(old1, old2) in b {
        assert Paired(b, RowPair(old1, old2));
      }
    case RenameId(id, newID, order) => RenamingKeepsSingles(b, b, id, newID, order);
  }

  lemma PairStep(md5: Md5, hashMode: bool, b: Store, op: Op)
    requires SoundBucket(b) && Admissible(md5, hashMode, b, op)
    requires op.StorePair? || op.RebindPair? || op.RenameId?
    ensures SoundBucket(Apply(md5, hashMode, b, op))
  {
    PairStepKeepsSingles(md5, hashMode, b, op);
    SinglesDecideConsistency(b, Apply(md5, hashMode, b, op));
    match op
    case StorePair(id, subid) =>
      if PairKey(id, subid) !in b && PairStored(md5, b, id, subid).result.Ok? {
        PairStoreInvolutiveExactly(md5, b, id, subid);
      }
    case RebindPair(old1, new1, old2, new2) => PairRebindKeepsInvolutive(b, old1, new1, old2, new2);
    case RenameId(id, newID, order) =>
      if id == newID {
        RenameToItself(b, id, order);
      } else if NamesTakenWhole(b, id, newID) {
        TakenNamesExactly(b, id, newID, order);
      } else {
        RenameFailsExactly(b, id, newID, order);
      }
  }

  lemma StepKeepsSound(md5: Md5, hashMode: bool, b: Store, op: Op)
    requires SoundBucket(b) && Admissible(md5, hashMode, b, op)
    ensures SoundBucket(Apply(md5, hashMode, b, op))
  {
    if op.StoreId? || op.HalfStoreId? || op.Rebind? {
      SingleStep(md5, hashMode, b, op);
    } else {
      PairStep(md5, hashMode, b, op);
    }
  }

  /** Over every run, each forward entry has its reverse entry and the pairs form an involution. */
  lemma {:induction false} RunKeepsSound(md5: Md5, hashMode: bool, b: Store, ops: seq<Op>)
    requires SoundBucket(b) && AdmissibleRun(md5, hashMode, b, ops)
    ensures SoundBucket(Run(md5, hashMode, b, ops))
    decreases |ops|
  {
    if ops != [] {
      StepKeepsSound(md5, hashMode, b, ops[0]);
      RunKeepsSound(md5, hashMode, Apply(md5, hashMode, b, ops[0]), ops[1..]);
    }
  }

  /**
   * After any run from an empty bucket: storing an id and looking its row up gives the id back, and two
   * different ids never have the same row.
   */
  lemma RunFromEmpty(md5: Md5, hashMode: bool, ops: seq<Op>, id1: string, id2: string)
    requires AdmissibleRun(md5, hashMode, map[], ops)
    requires var b := Run(md5, hashMode, map[], ops);
             && Admissible(md5, hashMode, b, StoreId(id1))
             && Admissible(md5, hashMode, Apply(md5, hashMode, b, StoreId(id1)), StoreId(id2))
    ensures var b := Run(md5, hashMode, map[], ops);
            var o1 := Stored(md5, hashMode, b, id1);
            var o2 := Stored(md5, hashMode, o1.bucket, id2);
            && (o1.result.Ok? ==> Retrieved(o2.bucket, FormatInt(o1.result.value)) == Ok(id1))
            && (o1.result.Ok? && o2.result == o1.result ==> id1 == id2)
  {
    RunKeepsSound(md5, hashMode, map[], ops);
    var b := Run(md5, hashMode, map[], ops);
    var b1 := Apply(md5, hashMode, b, StoreId(id1));
    StepKeepsSound(md5, hashMode, b, StoreId(id1));
    StepKeepsSound(md5, hashMode, b1, StoreId(id2));
    StoredEntry(md5, hashMode, b, id1);
    StoredEntry(md5, hashMode, b1, id2);
    if Stored(md5, hashMode, b, id1).result.Ok? {
      StepKeepsRow(md5, hashMode, b1, StoreId(id2), id1);
      assert PointsBack(Apply(md5, hashMode, b1, StoreId(id2)), id1);
    }
  }

  /** The row an id is given is the row stored for it. */
  lemma StoredEntry(md5: Md5, hashMode: bool, b: Store, id: string)
    requires PlainId(id)
    ensures var o := Stored(md5, hashMode, b, id);
            o.result.Ok? ==> id in o.bucket && |o.bucket[id]| >= 8 && DecodeRow(o.bucket[id]) == o.result.value
  {
    var o := Stored(md5, hashMode, b, id);
    if o.result.Ok? && id !in b {
      var row := o.result.value;
      NewRowIsInt64(md5, hashMode, b, id);
      DecodeEncode(row);
      RowKeyShape(row);
    }
  }

  lemma NewRowIsInt64(md5: Md5, hashMode: bool, b: Store, id: string)
    requires NewRow(md5, hashMode, b, id).Ok?
    ensures IsInt64(NewRow(md5, hashMode, b, id).value)
  {
    if hashMode {
      HashRowFresh(md5, b, id);
    }
  }

  // ---------------------------------------------------------------- rows are stable

  /** Only a rebind of a row that leads to the id touches the id's own entry. */
  ghost predicate LeavesAlone(b: Store, op: Op, id: string) {
    op.Rebind? && RowKey(op.oldRow) in b ==> b[RowKey(op.oldRow)] != id
  }

  ghost predicate RunLeavesAlone(md5: Md5, hashMode: bool, b: Store, ops: seq<Op>, id: string)
    requires AdmissibleRun(md5, hashMode, b, ops)
    decreases |ops|
  {
    ops == [] || (
      && LeavesAlone(b, ops[0], id)
      && RunLeavesAlone(md5, hashMode, Apply(md5, hashMode, b, ops[0]), ops[1..], id))
  }

  lemma RebindKeepsOthers(b: Store, oldRow: int, newRow: int, id: string)
    requires PlainId(id) && id in b && (RowKey(oldRow) in b ==> b[RowKey(oldRow)] != id)
    ensures var b' := Rebound(b, oldRow, newRow).bucket;
            id in b' && b'[id] == b[id]
  {
    RowKeyShape(oldRow);
    RowKeyShape(newRow);
  }

  lemma StoredKeepsOthers(md5: Md5, hashMode: bool, b: Store, stored: string, id: string)
    requires PlainId(stored) && PlainId(id) && id in b
    ensures var b' := Stored(md5, hashMode, b, stored).bucket;
            id in b' && b'[id] == b[id]
  {
    var o := Stored(md5, hashMode, b, stored);
    if o.result.Ok? {
      RowKeyShape(o.result.value);
    }
  }

  lemma StepKeepsRow(md5: Md5, hashMode: bool, b: Store, op: Op, id: string)
    requires SoundBucket(b) && Admissible(md5, hashMode, b, op) && PlainId(id) && id in b && LeavesAlone(b, op, id)
    ensures id in Apply(md5, hashMode, b, op) && Apply(md5, hashMode, b, op)[id] == b[id]
  {
    match op
    case StoreId(stored) => StoredKeepsOthers(md5, hashMode, b, stored, id);
    case HalfStoreId(stored) =>
      var o := HalfStored(md5, b, stored);
      if o.result.Ok? {
        RowKeyShape(o.result.value);
      }
    case Rebind(oldRow, newRow) => RebindKeepsOthers(b, oldRow, newRow, id);
    case _ => PairStepKeepsSingles(md5, hashMode, b, op);
  }

  lemma {:induction false} EntryIsStable(md5: Md5, hashMode: bool, b: Store, ops: seq<Op>, id: string)
    requires SoundBucket(b) && AdmissibleRun(md5, hashMode, b, ops) && PlainId(id) && id in b
    requires RunLeavesAlone(md5, hashMode, b, ops, id)
    ensures id in Run(md5, hashMode, b, ops) && Run(md5, hashMode, b, ops)[id] == b[id]
    decreases |ops|
  {
    if ops != [] {
      StepKeepsRow(md5, hashMode, b, ops[0], id);
      StepKeepsSound(md5, hashMode, b, ops[0]);
      EntryIsStable(md5, hashMode, Apply(md5, hashMode, b, ops[0]), ops[1..], id);
    }
  }

  /** A stored id is given the same row ever after, as long as no rebind moves it. */
  lemma RowIsStable(md5: Md5, hashMode: bool, b: Store, ops: seq<Op>, id: string)
    requires SoundBucket(b) && AdmissibleRun(md5, hashMode, b, ops) && PlainId(id) && id in b
    requires RunLeavesAlone(md5, hashMode, b, ops, id)
    ensures Stored(md5, hashMode, Run(md5, hashMode, b, ops), id).result == Stored(md5, hashMode, b, id).result
  {
    EntryIsStable(md5, hashMode, b, ops, id);
  }

  // ---------------------------------------------------------------- counter mode

  /** In counter mode: rebinds go no higher than the counter, which does not run out of int64. */
  ghost predicate CountedAdmissible(md5: Md5, b: Store, op: Op) {
    match op
    case StoreId(id) => PlainId(id) && Counter(b) < MAX_INT64
    case Rebind(_, newRow) => IsInt64(newRow) && newRow <= Counter(b)
    case _ => Admissible(md5, false, b, op)
  }

  ghost predicate CountedBucket(b: Store) {
    SoundBucket(b) && RowsCounted(b)
  }

  /** Below the counter the guard of counter allocations holds of itself. */
  lemma CountedIsAdmissible(md5: Md5, b: Store, op: Op)
    requires CountedBucket(b) && CountedAdmissible(md5, b, op)
    ensures Admissible(md5, false, b, op)
  {
    if op.StoreId? {
      NextCounterRow(b);
    }
  }

  ghost predicate CountedRunAdmissible(md5: Md5, b: Store, ops: seq<Op>)
    requires CountedBucket(b)
    decreases |ops|
  {
    ops == [] || (
      && CountedAdmissible(md5, b, ops[0])
      && (CountedStep(md5, b, ops[0]); CountedRunAdmissible(md5, Apply(md5, false, b, ops[0]), ops[1..])))
  }

  /** How many operations of a run store an id not seen before. */
  ghost function NewIds(md5: Md5, b: Store, ops: seq<Op>): nat
    requires AdmissibleRun(md5, false, b, ops)
    decreases |ops|
  {
    if ops == [] then 0
    else (if IsNewId(b, ops[0]) then 1 else 0) + NewIds(md5, Apply(md5, false, b, ops[0]), ops[1..])
  }

  predicate IsNewId(b: Store, op: Op) {
    op.StoreId? && op.id !in b
  }

  lemma SinglesDecideCount(b: Store, b': Store)
    requires SameSingles(b, b') && RowsCounted(b)
    ensures RowsCounted(b') && Counter(b') == Counter(b)
  {
    assert ':' !in COUNTER_KEY;
    forall k | k in b' && PlainId(k) ensures RowAtMost(b', k, Counter(b)) {
      assert StoredRow(b', k) == StoredRow(b, k) && RowAtMost(b, k, Counter(b));
    }
  }

  /** Every operation keeps the counter above all rows, and only a new id moves it, by one. */
  lemma CountedStep(md5: Md5, b: Store, op: Op)
    requires CountedBucket(b) && CountedAdmissible(md5, b, op)
    ensures Admissible(md5, false, b, op) && CountedBucket(Apply(md5, false, b, op))
    ensures Counter(Apply(md5, false, b, op)) == Counter(b) + if IsNewId(b, op) then 1 else 0
  {
    CountedIsAdmissible(md5, b, op);
    StepKeepsSound(md5, false, b, op);
    match op
    case StoreId(id) => CounterStore(md5, b, id);
    case HalfStoreId(id) => CounterHalfStore(md5, b, id);
    case Rebind(oldRow, newRow) => CounterRebind(b, oldRow, newRow);
    case _ =>
      PairStepKeepsSingles(md5, false, b, op);
      SinglesDecideCount(b, Apply(md5, false, b, op));
  }

  /**
   * Counter-mode runs of all operations stay sound and counted, and the counter counts the new ids: from an empty
   * bucket the n-th new id gets row n.
   */
  lemma {:induction false} CountedRun(md5: Md5, b: Store, ops: seq<Op>)
    requires CountedBucket(b) && CountedRunAdmissible(md5, b, ops)
    ensures AdmissibleRun(md5, false, b, ops)
    ensures CountedBucket(Run(md5, false, b, ops))
    ensures Counter(Run(md5, false, b, ops)) == Counter(b) + NewIds(md5, b, ops)
    decreases |ops|
  {
    if ops != [] {
      CountedStep(md5, b, ops[0]);
      CountedRun(md5, Apply(md5, false, b, ops[0]), ops[1..]);
    }
  }

  /** The next new id after a run gets the row after the counter and all ids newly stored in the run. */
  lemma NextNewIdGetsNextRow(md5: Md5, b: Store, ops: seq<Op>, id: string)
    requires CountedBucket(b) && CountedRunAdmissible(md5, b, ops) && AdmissibleRun(md5, false, b, ops) && PlainId(id)
    requires id !in Run(md5, false, b, ops) && Counter(Run(md5, false, b, ops)) < MAX_INT64
    ensures Stored(md5, false, Run(md5, false, b, ops), id).result == Ok(Counter(b) + NewIds(md5, b, ops) + 1)
  {
    CountedRun(md5, b, ops);
    CounterStore(md5, Run(md5, false, b, ops), id);
  }

  /** Without the guard: moving a row to counter + 1 lets the next new id overwrite its reverse entry. */
  lemma UnguardedMoveBreaksLookup(md5: Md5)
    ensures var b1 := Stored(md5, false, map[], "7").bucket;
            var b2 := Rebound(b1, 1, 2).bucket;
            var b3 := Stored(md5, false, b2, "8").bucket;
            && Stored(md5, false, b3, "7").result == Ok(2)
            && Retrieved(b3, FormatInt(2)) == Ok("8")
  {
    DecodeEncode(1);
    DecodeEncode(2);
    assert RowKey(1) == "row-1" && RowKey(2) == "row-2";
    var b1 := Stored(md5, false, map[], "7").bucket;
    assert b1 == map[COUNTER_KEY := EncodeRow(1), "7" := EncodeRow(1), "row-1" := "7"];
    var b2 := Rebound(b1, 1, 2).bucket;
    assert b2 == map[COUNTER_KEY := EncodeRow(1), "7" := EncodeRow(2), "row-2" := "7"];
    assert CounterRow(b2) == Ok(2);
    var b3 := Stored(md5, false, b2, "8").bucket;
    assert b3["7"] == EncodeRow(2) && b3["row-2"] == "8";
  }
}
