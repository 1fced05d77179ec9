/** Pairs over whole runs: when the rows given to a pair lead back to it (idmap/service.go). */
module IdPairRuns {
  import opened Wrappers
  import opened Decimal
  import opened RowId
  import opened Bucket
  import opened IdMap
  import opened IdPairs
  import opened IdRename
  import opened IdRuns
  import opened Text

  // ---------------------------------------------------------------- one half of every pair is a pair of rows

  ghost predicate IsRowPair(k: string) {
    exists n: int, m: int :: k == RowPair(n, m) && IsInt64(n) && IsInt64(m)
  }

  ghost predicate RowHalves(b: Store) {
    forall k :: k in b && ':' in k ==> IsRowPair(k) || IsRowPair(b[k])
  }

  /** Pairs are moved to int64 rows, and what is renamed is not itself a pair of rows. */
  ghost predicate KeepsRowsApart(b: Store, op: Op) {
    match op
    case RebindPair(_, new1, _, new2) => IsInt64(new1) && IsInt64(new2)
    case RenameId(id, _, _) => forall k :: Selected(b, id, k) ==> !IsRowPair(k)
    case _ => true
  }

  ghost predicate RunKeepsRowsApart(md5: Md5, hashMode: bool, b: Store, ops: seq<Op>)
    requires AdmissibleRun(md5, hashMode, b, ops)
    decreases |ops|
  {
    ops == [] || (
      && KeepsRowsApart(b, ops[0])
      && RunKeepsRowsApart(md5, hashMode, Apply(md5, hashMode, b, ops[0]), ops[1..]))
  }

  /** Generated rows are int64, so the reverse key of a new pair is a pair of rows. */
  lemma GeneratedRowPair(md5: Md5, b: Store, id: string, subid: string)
    requires PairKey(id, subid) !in b && PairStored(md5, b, id, subid).result.Ok?
    ensures var (row, subRow) := PairStored(md5, b, id, subid).result.value;
            IsInt64(row) && IsInt64(subRow) && IsRowPair(RowPair(row, subRow))
  {
    RowBounds(md5(id), 9);
    RowBounds(md5(subid), 9);
  }

  lemma {:induction false} RenamingKeepsRowHalves(b: Store, tx: Store, id: string, newID: string, order: seq<string>)
    requires RowHalves(tx) && forall i :: 0 <= i < |order| ==> order[i] in b && IsRowPair(b[order[i]])
    ensures var r := RenameAll(b, tx, id, newID, order);
            r.Ok? ==> RowHalves(r.value)
    decreases |order|
  {
    if order != [] {
      var r := RenameOne(tx, id, newID, order[0], b[order[0]]);
      if r.Ok? {
        assert RowHalves(r.value);
        RenamingKeepsRowHalves(b, r.value, id, newID, order[1..]);
      }
    }
  }

  lemma PairStoreKeepsRowHalves(md5: Md5, b: Store, id: string, subid: string)
    requires RowHalves(b)
    ensures RowHalves(PairStored(md5, b, id, subid).bucket)
  {
    if PairKey(id, subid) !in b && PairStored(md5, b, id, subid).result.Ok? {
      GeneratedRowPair(md5, b, id, subid);
    }
  }

  /** Every entry after a move is an old one, or belongs to the new pair of rows. */
  lemma EntriesAfterMove(b: Store, oldKey: string, newKey: string, realKey: string, k: string)
    requires k in (b - {oldKey, realKey})[newKey := realKey][realKey := newKey]
    ensures var b' := (b - {oldKey, realKey})[newKey := realKey][realKey := newKey];
            k == newKey || b'[k] == newKey || (k in b && b'[k] == b[k])
  {
  }

  lemma PairMoveKeepsRowHalves(b: Store, old1: int, new1: int, old2: int, new2: int)
    requires RowHalves(b) && IsInt64(new1) && IsInt64(new2)
    ensures RowHalves(PairRebound(b, old1, new1, old2, new2).bucket)
  {
    var o := PairRebound(b, old1, new1, old2, new2);
    var oldKey, newKey := RowPair(old1, old2), RowPair(new1, new2);
    if o.result.Ok? {
      assert IsRowPair(newKey);
      forall k | k in o.bucket && ':' in k ensures IsRowPair(k) || IsRowPair(o.bucket[k]) {
        EntriesAfterMove(b, oldKey, newKey, b[oldKey], k);
      }
    }
  }

  lemma RenameKeepsRowHalves(b: Store, id: string, newID: string, order: seq<string>)
    requires RowHalves(b) && IsTraversal(b, id, order) && forall k :: Selected(b, id, k) ==> !IsRowPair(k)
    ensures RowHalves(Renamed(b, id, newID, order).bucket)
  {
    forall i | 0 <= i < |order| ensures IsRowPair(b[order[i]]) {
      assert Selected(b, id, order[i]);
      ReplaceRenames(id, newID, order[i]);
    }
    RenamingKeepsRowHalves(b, b, id, newID, order);
  }

  lemma StepKeepsRowHalves(md5: Md5, hashMode: bool, b: Store, op: Op)
    requires SoundBucket(b) && RowHalves(b) && Admissible(md5, hashMode, b, op) && KeepsRowsApart(b, op)
    ensures RowHalves(Apply(md5, hashMode, b, op))
  {
    match op
    case StorePair(id, subid) => PairStoreKeepsRowHalves(md5, b, id, subid);
    case RebindPair(old1, new1, old2, new2) => PairMoveKeepsRowHalves(b, old1, new1, old2, new2);
    case RenameId(id, newID, order) => RenameKeepsRowHalves(b, id, newID, order);
    case _ => SingleStepKeepsPairs(md5, hashMode, b, op);
  }

  lemma {:induction false} RunKeepsRowHalves(md5: Md5, hashMode: bool, b: Store, ops: seq<Op>)
    requires SoundBucket(b) && RowHalves(b)
    requires AdmissibleRun(md5, hashMode, b, ops) && RunKeepsRowsApart(md5, hashMode, b, ops)
    ensures SoundBucket(Run(md5, hashMode, b, ops)) && RowHalves(Run(md5, hashMode, b, ops))
    decreases |ops|
  {
    if ops != [] {
      StepKeepsSound(md5, hashMode, b, ops[0]);
      StepKeepsRowHalves(md5, hashMode, b, ops[0]);
      RunKeepsRowHalves(md5, hashMode, Apply(md5, hashMode, b, ops[0]), ops[1..]);
    }
  }

  // ---------------------------------------------------------------- storing a pair and looking it up

  /** Colon-free ids; if the pair is known, its value is a pair of rows. */
  ghost predicate Returning(b: Store, id: string, subid: string) {
    ':' !in id && ':' !in subid && (PairKey(id, subid) in b ==> IsRowPair(b[PairKey(id, subid)]))
  }

  /** The rows given to a pair, new or known, lead back to it, and storing it again gives them again. */
  lemma RetrieveUndoesPairStore(md5: Md5, b: Store, id: string, subid: string)
    requires Involutive(b) && Returning(b, id, subid)
    ensures var o := PairStored(md5, b, id, subid);
            o.result.Ok? ==>
              var (row, subRow) := o.result.value;
              && PairKey(id, subid) in o.bucket && o.bucket[PairKey(id, subid)] == RowPair(row, subRow)
              && PairRetrieved(o.bucket, FormatInt(row), FormatInt(subRow)) == Ok((id, subid))
              && PairStored(md5, o.bucket, id, subid) == o
  {
    var key, o := PairKey(id, subid), PairStored(md5, b, id, subid);
    if key in b {
      var n: int, m: int :| b[key] == RowPair(n, m) && IsInt64(n) && IsInt64(m);
      ScanRowPair(n, m);
      KnownPairExactly(md5, b, id, subid);
    } else if o.result.Ok? {
      GeneratedRowPair(md5, b, id, subid);
      ScanRowPair(o.result.value.0, o.result.value.1);
      RetrieveUndoesNewPair(md5, b, id, subid);
    }
  }

  /** It still does after another pair is stored, and different pairs have different rows. */
  ghost predicate PairsApart(md5: Md5, b: Store, id1: string, subid1: string, id2: string, subid2: string) {
    var o1 := PairStored(md5, b, id1, subid1);
    var o2 := PairStored(md5, o1.bucket, id2, subid2);
    o1.result.Ok? ==>
      var (row, subRow) := o1.result.value;
      && PairRetrieved(o2.bucket, FormatInt(row), FormatInt(subRow)) == Ok((id1, subid1))
      && PairStored(md5, o2.bucket, id1, subid1) == Outcome(o2.bucket, o1.result)
      && (o2.result == o1.result ==> id1 == id2 && subid1 == subid2)
  }

  /** The pair is known, or its generated reverse key is in nobody's use. */
  predicate ReverseKeyFree(md5: Md5, b: Store, id: string, subid: string) {
    var o := PairStored(md5, b, id, subid);
    PairKey(id, subid) in b || o.result.Err? || RowPair(o.result.value.0, o.result.value.1) !in b
  }

  /** Neither of two pairs stored one after the other overwrites a reverse entry. */
  predicate BothReverseKeysFree(md5: Md5, b: Store, id1: string, subid1: string, id2: string, subid2: string) {
    && ReverseKeyFree(md5, b, id1, subid1)
    && ReverseKeyFree(md5, PairStored(md5, b, id1, subid1).bucket, id2, subid2)
  }

  /** A second pair with a free reverse key leaves the entries of the pairs before it alone. */
  lemma LaterPairKeeps(md5: Md5, b: Store, id: string, subid: string, k: string)
    requires ReverseKeyFree(md5, b, id, subid) && k in b
    ensures var b' := PairStored(md5, b, id, subid).bucket;
            k in b' && b'[k] == b[k]
  {
  }

  lemma PairThenPair(md5: Md5, b: Store, id1: string, subid1: string, id2: string, subid2: string)
    requires SoundBucket(b) && BothReverseKeysFree(md5, b, id1, subid1, id2, subid2)
    requires Returning(b, id1, subid1) && Returning(PairStored(md5, b, id1, subid1).bucket, id2, subid2)
    ensures PairsApart(md5, b, id1, subid1, id2, subid2)
  {
    var o1 := PairStored(md5, b, id1, subid1);
    if o1.result.Ok? {
      RetrieveUndoesPairStore(md5, b, id1, subid1);
      StepKeepsSound(md5, true, b, StorePair(id1, subid1));
      KnownThenPair(md5, o1.bucket, id1, subid1, id2, subid2);
    }
  }

  lemma KnownThenPair(md5: Md5, b: Store, id1: string, subid1: string, id2: string, subid2: string)
    requires Involutive(b) && ReverseKeyFree(md5, b, id2, subid2) && Returning(b, id2, subid2)
    requires ':' !in id1 && ':' !in subid1 && PairKey(id1, subid1) in b
    requires var o1 := PairStored(md5, b, id1, subid1);
             && b[PairKey(id1, subid1)] == RowPair(o1.result.value.0, o1.result.value.1)
             && PairRetrieved(b, FormatInt(o1.result.value.0), FormatInt(o1.result.value.1)) == Ok((id1, subid1))
    ensures PairsApart(md5, b, id1, subid1, id2, subid2)
  {
    var key1, key2 := PairKey(id1, subid1), PairKey(id2, subid2);
    assert Paired(b, key1);
    LaterPairKeeps(md5, b, id2, subid2, key1);
    LaterPairKeeps(md5, b, id2, subid2, b[key1]);
    RetrieveUndoesPairStore(md5, b, id2, subid2);
    var o1, o2 := PairStored(md5, b, id1, subid1), PairStored(md5, b, id2, subid2);
    if o2.result == o1.result {
      assert key2 in b && Paired(b, key2);
      PairKeyInjective(id1, subid1, id2, subid2);
    }
  }

  /**
   * After any run from an empty bucket in which rows are kept apart from ids: the rows given to a pair, stored in
   * the run or not, lead back to it, also after another pair is stored, and different pairs have different rows.
   */
  lemma PairRunFromEmpty(md5: Md5, hashMode: bool, ops: seq<Op>, id1: string, subid1: string, id2: string,
                         subid2: string)
    requires AdmissibleRun(md5, hashMode, map[], ops) && RunKeepsRowsApart(md5, hashMode, map[], ops)
    requires BothReverseKeysFree(md5, Run(md5, hashMode, map[], ops), id1, subid1, id2, subid2)
    requires ':' !in id1 && ':' !in subid1 && !IsRowPair(PairKey(id1, subid1))
    requires ':' !in id2 && ':' !in subid2 && !IsRowPair(PairKey(id2, subid2))
    ensures PairsApart(md5, Run(md5, hashMode, map[], ops), id1, subid1, id2, subid2)
  {
    RunKeepsRowHalves(md5, hashMode, map[], ops);
    var b := Run(md5, hashMode, map[], ops);
    StepKeepsRowHalves(md5, hashMode, b, StorePair(id1, subid1));
    PairThenPair(md5, b, id1, subid1, id2, subid2);
  }

  /** Without that: a pair of rows handed to StoreIDPro as ids is known, but gets rows that lead nowhere. */
  lemma RowsTakenForIds(md5: Md5, hashMode: bool)
    requires RowOf(md5("g"), 9).Ok? && RowOf(md5("u"), 9).Ok?
    ensures var run := [StorePair("g", "u")];
            && AdmissibleRun(md5, hashMode, map[], run)
            && RowsLeadNowhere(md5, Run(md5, hashMode, map[], run), PairStored(md5, map[], "g", "u").result.value)
  {
    OneStepRun(md5, hashMode, StorePair("g", "u"));
    NothingScanned(PairKey("g", "u"));
    ReverseEntryScanned(md5, "g", "u");
  }

  /** Stored as ids, the rows are given the rows (0, 0), and those are not found, unless they are the same. */
  ghost predicate RowsLeadNowhere(md5: Md5, b: Store, rows: (int, int)) {
    && PairStored(md5, b, FormatInt(rows.0), FormatInt(rows.1)) == Outcome(b, Ok((0, 0)))
    && (rows != (0, 0) ==> PairRetrieved(b, FormatInt(0), FormatInt(0)) == Err(NotFound))
  }

  lemma ReverseEntryScanned(md5: Md5, id: string, subid: string)
    requires PairStored(md5, map[], id, subid).result.Ok? && ScanPair(PairKey(id, subid)) == (0, 0)
    requires !IsRowPair(PairKey(id, subid))
    ensures var o := PairStored(md5, map[], id, subid);
            RowsLeadNowhere(md5, o.bucket, o.result.value)
  {
    var (row, subRow) := PairStored(md5, map[], id, subid).result.value;
    var b := PairStored(md5, map[], id, subid).bucket;
    GeneratedRowPair(md5, map[], id, subid);
    ScanRowPair(row, subRow);
    ScanRowPair(0, 0);
    assert b.Keys == {PairKey(id, subid), RowPair(row, subRow)} && b[RowPair(row, subRow)] == PairKey(id, subid);
    assert RowPair(0, 0) != PairKey(id, subid);
  }

  lemma NothingScanned(k: string)
    requires k != "" && !IsDigit(k[0]) && k[0] != '-' && k[0] != '+' && !IsScanSpace(k[0])
    ensures ScanPair(k) == (0, 0) && !IsRowPair(k)
  {
    assert DigitRun(k) == 0;
    forall n: int, m: int ensures k != RowPair(n, m) {
      FormatIntChars(n);
      assert RowPair(n, m)[0] == FormatInt(n)[0];
    }
  }

  lemma OneStepRun(md5: Md5, hashMode: bool, op: Op)
    requires Admissible(md5, hashMode, map[], op)
    ensures AdmissibleRun(md5, hashMode, map[], [op])
    ensures Run(md5, hashMode, map[], [op]) == Apply(md5, hashMode, map[], op)
  {
    assert [op][1..] == [];
  }

  // ---------------------------------------------------------------- runs in which all ids are numbers

  ghost predicate OnlyRowPairs(b: Store) {
    forall k :: k in b && ':' in k ==> IsRowPair(k)
  }

  /** Every pair key an operation brings in is itself a printed pair of int64. */
  ghost predicate Numeric(b: Store, op: Op) {
    match op
    case StorePair(id, subid) => IsRowPair(PairKey(id, subid))
    case RebindPair(_, new1, _, new2) => IsInt64(new1) && IsInt64(new2)
    case RenameId(id, newID, _) => forall k :: Selected(b, id, k) ==> IsRowPair(ReplaceFirst(k, id, newID))
    case _ => true
  }

  ghost predicate NumericRun(md5: Md5, hashMode: bool, b: Store, ops: seq<Op>)
    requires AdmissibleRun(md5, hashMode, b, ops)
    decreases |ops|
  {
    ops == [] || (Numeric(b, ops[0]) && NumericRun(md5, hashMode, Apply(md5, hashMode, b, ops[0]), ops[1..]))
  }

  lemma {:induction false} RenamingKeepsOnlyRowPairs(b: Store, tx: Store, id: string, newID: string, order: seq<string>)
    requires OnlyRowPairs(b) && Involutive(b) && OnlyRowPairs(tx)
    requires forall i :: 0 <= i < |order| ==>
               order[i] in b && ':' in order[i] && IsRowPair(ReplaceFirst(order[i], id, newID))
    ensures var r := RenameAll(b, tx, id, newID, order);
            r.Ok? ==> OnlyRowPairs(r.value)
    decreases |order|
  {
    if order != [] {
      assert Paired(b, order[0]);
      var r := RenameOne(tx, id, newID, order[0], b[order[0]]);
      if r.Ok? {
        assert OnlyRowPairs(r.value);
        RenamingKeepsOnlyRowPairs(b, r.value, id, newID, order[1..]);
      }
    }
  }

  lemma PairMoveKeepsOnlyRowPairs(b: Store, old1: int, new1: int, old2: int, new2: int)
    requires Involutive(b) && OnlyRowPairs(b) && IsInt64(new1) && IsInt64(new2)
    ensures OnlyRowPairs(PairRebound(b, old1, new1, old2, new2).bucket)
  {
    assert IsRowPair(RowPair(new1, new2));
    if RowPair(old1, old2) in b {
      assert Paired(b, RowPair(old1, old2));
    }
  }

  lemma RenameKeepsOnlyRowPairs(b: Store, id: string, newID: string, order: seq<string>)
    requires Involutive(b) && OnlyRowPairs(b) && IsTraversal(b, id, order)
    requires forall k :: Selected(b, id, k) ==> IsRowPair(ReplaceFirst(k, id, newID))
    ensures OnlyRowPairs(Renamed(b, id, newID, order).bucket)
  {
    forall i | 0 <= i < |order|
      ensures order[i] in b && ':' in order[i] && IsRowPair(ReplaceFirst(order[i], id, newID))
    {
      assert Selected(b, id, order[i]);
      ReplaceRenames(id, newID, order[i]);
    }
    RenamingKeepsOnlyRowPairs(b, b, id, newID, order);
  }

  lemma PairStoreKeepsOnlyRowPairs(md5: Md5, b: Store, id: string, subid: string)
    requires OnlyRowPairs(b) && IsRowPair(PairKey(id, subid))
    ensures OnlyRowPairs(PairStored(md5, b, id, subid).bucket)
  {
    if PairKey(id, subid) !in b && PairStored(md5, b, id, subid).result.Ok? {
      GeneratedRowPair(md5, b, id, subid);
    }
  }

  lemma StepKeepsOnlyRowPairs(md5: Md5, hashMode: bool, b: Store, op: Op)
    requires SoundBucket(b) && OnlyRowPairs(b) && Admissible(md5, hashMode, b, op) && Numeric(b, op)
    ensures OnlyRowPairs(Apply(md5, hashMode, b, op))
  {
    match op
    case StorePair(id, subid) => PairStoreKeepsOnlyRowPairs(md5, b, id, subid);
    case RebindPair(old1, new1, old2, new2) => PairMoveKeepsOnlyRowPairs(b, old1, new1, old2, new2);
    case RenameId(id, newID, order) => RenameKeepsOnlyRowPairs(b, id, newID, order);
    case _ => SingleStepKeepsPairs(md5, hashMode, b, op);
  }

  lemma {:induction false} RunKeepsOnlyRowPairs(md5: Md5, hashMode: bool, b: Store, ops: seq<Op>)
    requires SoundBucket(b) && OnlyRowPairs(b)
    requires AdmissibleRun(md5, hashMode, b, ops) && NumericRun(md5, hashMode, b, ops)
    ensures SoundBucket(Run(md5, hashMode, b, ops)) && OnlyRowPairs(Run(md5, hashMode, b, ops))
    decreases |ops|
  {
    if ops != [] {
      StepKeepsSound(md5, hashMode, b, ops[0]);
      StepKeepsOnlyRowPairs(md5, hashMode, b, ops[0]);
      RunKeepsOnlyRowPairs(md5, hashMode, Apply(md5, hashMode, b, ops[0]), ops[1..]);
    }
  }

  lemma KnownNumericPairReturns(b: Store, id: string, subid: string)
    requires Involutive(b) && OnlyRowPairs(b) && ':' !in id && ':' !in subid
    ensures Returning(b, id, subid)
  {
    if PairKey(id, subid) in b {
      assert Paired(b, PairKey(id, subid));
    }
  }

  /**
   * The same when all pairs of ids are numbers, as the platform's are, and can be confused with rows: after any
   * run from an empty bucket the rows given to a pair lead back to it, and different pairs have different rows.
   */
  lemma NumericRunFromEmpty(md5: Md5, hashMode: bool, ops: seq<Op>, id1: string, subid1: string, id2: string,
                            subid2: string)
    requires AdmissibleRun(md5, hashMode, map[], ops) && NumericRun(md5, hashMode, map[], ops)
    requires BothReverseKeysFree(md5, Run(md5, hashMode, map[], ops), id1, subid1, id2, subid2)
    requires ':' !in id1 && ':' !in subid1 && IsRowPair(PairKey(id1, subid1))
    requires ':' !in id2 && ':' !in subid2
    ensures PairsApart(md5, Run(md5, hashMode, map[], ops), id1, subid1, id2, subid2)
  {
    RunKeepsOnlyRowPairs(md5, hashMode, map[], ops);
    var b := Run(md5, hashMode, map[], ops);
    StepKeepsSound(md5, hashMode, b, StorePair(id1, subid1));
    StepKeepsOnlyRowPairs(md5, hashMode, b, StorePair(id1, subid1));
    KnownNumericPairReturns(b, id1, subid1);
    KnownNumericPairReturns(PairStored(md5, b, id1, subid1).bucket, id2, subid2);
    PairThenPair(md5, b, id1, subid1, id2, subid2);
  }

  // ---------------------------------------------------------------- when the generated rows are taken

  /**
   * Two pairs of ids with the same generated rows: the second takes the reverse entry of the first, whose rows,
   * given to it as before, now lead to the second.
   */
  lemma CollidingPairs(md5: Md5, id1: string, subid1: string, id2: string, subid2: string)
    requires ':' !in id1 && ':' !in subid1 && !IsRowPair(PairKey(id1, subid1))
    requires ':' !in id2 && ':' !in subid2 && !IsRowPair(PairKey(id2, subid2))
    requires id1 != id2 || subid1 != subid2
    requires RowOf(md5(id1), 9).Ok? && RowOf(md5(id2), 9) == RowOf(md5(id1), 9)
    requires RowOf(md5(subid1), 9).Ok? && RowOf(md5(subid2), 9) == RowOf(md5(subid1), 9)
    ensures var o1 := PairStored(md5, map[], id1, subid1);
            var o2 := PairStored(md5, o1.bucket, id2, subid2);
            && o1.result.Ok? && o2.result == o1.result && !Involutive(o2.bucket)
            && PairStored(md5, o2.bucket, id1, subid1) == Outcome(o2.bucket, o1.result)
            && PairRetrieved(o2.bucket, FormatInt(o1.result.value.0), FormatInt(o1.result.value.1)) == Ok((id2, subid2))
  {
    var key1, key2 := PairKey(id1, subid1), PairKey(id2, subid2);
    var o1 := PairStored(md5, map[], id1, subid1);
    GeneratedRowPair(md5, map[], id1, subid1);
    var (row, subRow) := o1.result.value;
    ScanRowPair(row, subRow);
    SplitPairKey(id2, subid2);
    if key1 == key2 {
      PairKeyInjective(id1, subid1, id2, subid2);
    }
    var o2 := PairStored(md5, o1.bucket, id2, subid2);
    assert o2.bucket[key1] == RowPair(row, subRow) && o2.bucket[RowPair(row, subRow)] == key2;
    assert !Paired(o2.bucket, key1);
  }
}
