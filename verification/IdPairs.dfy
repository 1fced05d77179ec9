/** Pairs of ids stored in both directions: allocation, lookup, rebinding and renaming (idmap/service.go). */
module IdPairs {
  import opened Wrappers
  import opened Decimal
  import opened RowId
  import opened Bucket
  import opened IdMap
  import opened Text

  function PairKey(a: string, b: string): (k: string)
    ensures ':' in k
  {
    var k := a + ":" + b;
    assert k[|a|] == ':';
    k
  }

  function RowPair(n: int, m: int): string {
    PairKey(FormatInt(n), FormatInt(m))
  }

  // ---------------------------------------------------------------- reading "%d:%d"

  /** White space that fmt's scanner skips before a number; a newline stops it. */
  predicate IsScanSpace(c: char) {
    c == ' ' || c == '\t' || c == '\r' || c == '\U{0B}' || c == '\U{0C}' || c == '\U{85}' || c == '\U{A0}'
  }

  function SkipSpace(s: string): string {
    if s != "" && IsScanSpace(s[0]) then SkipSpace(s[1..]) else s
  }

  /** The int64 made of the leading digits, if there is one, and the text left. */
  function ScanDigits(u: string, negative: bool): (r: Option<(int, string)>) {
    var n := DigitRun(u);
    if n == 0 then None
    else
      var v: int := if negative then -(Value(u[..n]) as int) else Value(u[..n]);
      if IsInt64(v) then Some((v, u[n..])) else None
  }

  /** One %d: the number read and the text left, or nothing when no int64 starts the text. */
  function ScanInt(s: string): (r: Option<(int, string)>) {
    var t := SkipSpace(s);
    if t != "" && (t[0] == '+' || t[0] == '-') then ScanDigits(t[1..], t[0] == '-') else ScanDigits(t, false)
  }

  /** fmt.Sscanf(s, "%d:%d") into two zeroed variables, the error being dropped. */
  function ScanPair(s: string): (int, int) {
    match ScanInt(s)
    case None => (0, 0)
    case Some((n, rest)) =>
      if rest == "" || rest[0] != ':' then (n, 0)
      else
        match ScanInt(rest[1..])
        case None => (n, 0)
        case Some((m, _)) => (n, m)
  }

  lemma ScanPrintedDigits(n: nat, negative: bool, rest: string)
    requires IsInt64(if negative then -(n as int) else n) && (rest == "" || !IsDigit(rest[0]))
    ensures ScanDigits(FormatNat(n) + rest, negative) == Some((if negative then -(n as int) else n, rest))
  {
    var digits := FormatNat(n);
    ReadsBackNat(n);
    DigitRunStops(digits, rest);
    assert (digits + rest)[..|digits|] == digits && (digits + rest)[|digits|..] == rest;
  }

  lemma NothingToSkip(s: string)
    requires s != "" && (IsDigit(s[0]) || s[0] == '-')
    ensures ScanInt(s) == if s[0] == '-' then ScanDigits(s[1..], true) else ScanDigits(s, false)
  {
  }

  lemma ScanNegative(digits: string, rest: string)
    ensures ScanInt("-" + digits + rest) == ScanDigits(digits + rest, true)
  {
    var s := "-" + digits + rest;
    NothingToSkip(s);
    assert s[1..] == digits + rest;
  }

  /** A printed int64 is read back whole, up to the first character that is no digit. */
  lemma ScanPrinted(n: int, rest: string)
    requires IsInt64(n) && (rest == "" || !IsDigit(rest[0]))
    ensures ScanInt(FormatInt(n) + rest) == Some((n, rest))
  {
    if n < 0 {
      ScanPrintedDigits(-n, true, rest);
      ScanNegative(FormatNat(-n), rest);
    } else {
      FormatIntChars(n);
      ScanPrintedDigits(n, false, rest);
      NothingToSkip(FormatNat(n) + rest);
    }
  }

  lemma ScanRowPair(n: int, m: int)
    requires IsInt64(n) && IsInt64(m)
    ensures ScanPair(RowPair(n, m)) == (n, m)
  {
    var tail := ":" + FormatInt(m);
    assert RowPair(n, m) == FormatInt(n) + tail;
    ScanPrinted(n, tail);
    assert tail[1..] == FormatInt(m) + "";
    ScanPrinted(m, "");
  }

  /** Of a value that goes wrong after the first number or after the colon the first number is kept, the second is 0. */
  lemma ScanStopsHalfway(n: int, junk: string)
    requires IsInt64(n)
    requires junk != "" ==> !IsDigit(junk[0]) && junk[0] != '+' && junk[0] != '-' && !IsScanSpace(junk[0])
    ensures ScanPair(FormatInt(n) + ":" + junk) == (n, 0)
    ensures junk == "" || junk[0] != ':' ==> ScanPair(FormatInt(n) + junk) == (n, 0)
  {
    assert FormatInt(n) + ":" + junk == FormatInt(n) + (":" + junk) && (":" + junk)[1..] == junk;
    ScanPrinted(n, ":" + junk);
    ScanPrinted(n, junk);
    assert DigitRun(junk) == 0;
  }

  // ---------------------------------------------------------------- what the operations do

  /** StoreIDPro: the rows of the stored pair, or the two nine-digit rows written in both directions. */
  function PairStored(md5: Md5, b: Store, id: string, subid: string): Outcome<(int, int)> {
    var forward := PairKey(id, subid);
    if forward in b then Outcome(b, Ok(ScanPair(b[forward])))
    else
      match RowOf(md5(id), 9)
      case Err(e) => Outcome(b, Err(HashFailed(e)))
      case Ok(row) =>
        match RowOf(md5(subid), 9)
        case Err(e) => Outcome(b, Err(HashFailed(e)))
        case Ok(subRow) =>
          Outcome(Put(Put(b, forward, RowPair(row, subRow)), RowPair(row, subRow), forward), Ok((row, subRow)))
  }

  function PairRetrieved(b: Store, row: string, subRow: string): Result<(string, string), IdError> {
    if PairKey(row, subRow) !in b then Err(NotFound)
    else
      var parts := Split(b[PairKey(row, subRow)], ':');
      if |parts| != 2 then Err(InvalidFormat) else Ok((parts[0], parts[1]))
  }

  /** UpdateVirtualValuePro. */
  function PairRebound(b: Store, old1: int, new1: int, old2: int, new2: int): Outcome<()> {
    var oldKey := RowPair(old1, old2);
    var newKey := RowPair(new1, new2);
    if oldKey !in b then Outcome(b, Err(NotFound))
    else if newKey in b then Outcome(b, Err(AlreadyBound))
    else if b[oldKey] == "" then Outcome(b, Err(EmptyKey))
    else Outcome((b - {oldKey, b[oldKey]})[newKey := b[oldKey]][b[oldKey] := newKey], Ok(()))
  }

  /** One turn of the renaming loop: `key` with the partner `partner` noted before the loop started. */
  function RenameOne(tx: Store, id: string, newID: string, key: string, partner: string): Result<Store, IdError> {
    if partner !in tx then Err(NotFound)
    else if partner == "" then Err(EmptyKey)
    else Ok(Delete(tx, key)[ReplaceFirst(key, id, newID) := partner][partner := ReplaceFirst(tx[partner], id, newID)])
  }

  /** The renaming loop over the noted keys in a given order; `b` is the bucket they were noted in. */
  function RenameAll(b: Store, tx: Store, id: string, newID: string, order: seq<string>): Result<Store, IdError>
    requires forall i :: 0 <= i < |order| ==> order[i] in b
    decreases |order|
  {
    if order == [] then Ok(tx)
    else
      match RenameOne(tx, id, newID, order[0], b[order[0]])
      case Err(e) => Err(e)
      case Ok(tx') => RenameAll(b, tx', id, newID, order[1..])
  }

  predicate Selected(b: Store, id: string, k: string) {
    k in b && id + ":" <= k
  }

  /** An order in which a Go map holding the selected keys may be traversed. */
  ghost predicate IsTraversal(b: Store, id: string, order: seq<string>) {
    && (forall i :: 0 <= i < |order| ==> Selected(b, id, order[i]))
    && (forall k :: Selected(b, id, k) ==> k in order)
    && (forall i, j :: 0 <= i < j < |order| ==> order[i] != order[j])
  }

  /** UpdateKeysWithNewID: all renamed, or nothing. */
  function Renamed(b: Store, id: string, newID: string, order: seq<string>): Outcome<()>
    requires forall i :: 0 <= i < |order| ==> order[i] in b
  {
    match RenameAll(b, b, id, newID, order)
    case Err(e) => Outcome(b, Err(e))
    case Ok(tx) => Outcome(tx, Ok(()))
  }

  // ---------------------------------------------------------------- the pairing is an involution

  predicate Paired(b: Store, k: string)
    requires k in b
  {
    ':' in b[k] && b[k] in b && b[b[k]] == k
  }

  /** Looking up a paired key twice leads back to it. */
  ghost predicate Involutive(b: Store) {
    forall k :: k in b && ':' in k ==> Paired(b, k)
  }

  /**
   * Storing a new pair keeps the involution if and only if the generated reverse key was free, or paired
   * with itself.
   */
  lemma PairStoreInvolutiveExactly(md5: Md5, b: Store, id: string, subid: string)
    requires Involutive(b) && PairStored(md5, b, id, subid).result.Ok? && PairKey(id, subid) !in b
    ensures var (row, subRow) := PairStored(md5, b, id, subid).result.value;
            Involutive(PairStored(md5, b, id, subid).bucket)
            <==> RowPair(row, subRow) !in b || b[RowPair(row, subRow)] == RowPair(row, subRow)
  {
  }

  /** Moving a pair to other rows keeps the involution whatever the arguments. */
  lemma PairRebindKeepsInvolutive(b: Store, old1: int, new1: int, old2: int, new2: int)
    requires Involutive(b)
    ensures Involutive(PairRebound(b, old1, new1, old2, new2).bucket)
  {
  }

  /** The rows given to a new pair lead back to it exactly when neither id holds a colon. */
  lemma RetrieveUndoesNewPair(md5: Md5, b: Store, id: string, subid: string)
    requires PairKey(id, subid) !in b
    ensures var o := PairStored(md5, b, id, subid);
            o.result.Ok? ==>
              var (row, subRow) := o.result.value;
              var back := PairRetrieved(o.bucket, FormatInt(row), FormatInt(subRow));
              && (back == Ok((id, subid)) <==> ':' !in id && ':' !in subid)
              && (back.Err? <==> ':' in id || ':' in subid)
  {
    SplitPairKey(id, subid);
  }

  /**
   * A pair known already is given the rows scanned from its value, without a write. They lead back to it if and
   * only if neither id holds a colon and the value is a printed pair of rows.
   */
  lemma KnownPairExactly(md5: Md5, b: Store, id: string, subid: string)
    requires Involutive(b) && PairKey(id, subid) in b
    ensures var o := PairStored(md5, b, id, subid);
            && o == Outcome(b, Ok(ScanPair(b[PairKey(id, subid)])))
            && var (row, subRow) := o.result.value;
              PairRetrieved(b, FormatInt(row), FormatInt(subRow)) == Ok((id, subid))
              <==> ':' !in id && ':' !in subid && b[PairKey(id, subid)] == RowPair(row, subRow)
  {
    var key := PairKey(id, subid);
    var (row, subRow) := ScanPair(b[key]);
    assert Paired(b, key);
    SplitPairKey(id, subid);
    if PairRetrieved(b, FormatInt(row), FormatInt(subRow)) == Ok((id, subid)) {
      assert Paired(b, RowPair(row, subRow));
      TwoParts(b[RowPair(row, subRow)], id, subid);
    }
  }

  /** A string with the parts id and subid is their pair key, and they hold no colon. */
  lemma TwoParts(s: string, id: string, subid: string)
    requires Split(s, ':') == [id, subid]
    ensures s == PairKey(id, subid) && ':' !in id && ':' !in subid
  {
    JoinSplit(s, ':');
    PartsLackSeparator(s, ':');
    assert [id, subid][1..] == [subid];
    assert id in [id, subid] && subid in [id, subid];
    assert Join([id, subid], ':') == id + ":" + subid;
  }

  /** A lookup yields the two colon-free halves of the value, and is an error for every other value. */
  lemma PairRetrievedExactly(b: Store, row: string, subRow: string, id: string, subid: string)
    ensures var key, r := row + ":" + subRow, PairRetrieved(b, row, subRow);
            && (r == Ok((id, subid)) <==> key in b && b[key] == id + ":" + subid && ':' !in id && ':' !in subid)
            && (r == Err(NotFound) <==> key !in b)
            && (r.Err? && key in b ==> r == Err(InvalidFormat))
  {
    SplitPairKey(id, subid);
    if PairRetrieved(b, row, subRow) == Ok((id, subid)) {
      TwoParts(b[PairKey(row, subRow)], id, subid);
    }
  }

  /** A new pair is given the rows of its ids, in their order, and its two entries; nothing else is written. */
  lemma NewPairExactly(md5: Md5, b: Store, id: string, subid: string, k: string)
    requires PairKey(id, subid) !in b
    ensures var d, e, o := DigitsOf(md5(id)), DigitsOf(md5(subid)), PairStored(md5, b, id, subid);
            && (o.result.Ok? <==> |d| >= 9 && |e| >= 9)
            && (o.result.Ok? ==> o.result == Ok((Value(d[..9]), Value(e[..9]))))
            && (o.result.Ok? && k !in {PairKey(id, subid), RowPair(Value(d[..9]), Value(e[..9]))}
                ==> Entry(o.bucket, k) == Entry(b, k))
            && (o.result.Err? ==> o.bucket == b)
  {
    UsualLengthsFit(md5(id), 9);
    UsualLengthsFit(md5(subid), 9);
  }

  /** When a pair can be moved, and what a move leaves alone. */
  lemma PairRebindExactly(b: Store, old1: int, new1: int, old2: int, new2: int, k: string)
    ensures var oldKey, newKey := PairKey(FormatInt(old1), FormatInt(old2)), PairKey(FormatInt(new1), FormatInt(new2));
            var o := PairRebound(b, old1, new1, old2, new2);
            && (o.result.Ok? <==> oldKey in b && newKey !in b && b[oldKey] != "")
            && (oldKey !in b ==> o.result == Err(NotFound))
            && (oldKey in b && newKey in b ==> o.result == Err(AlreadyBound))
            && (o.result.Ok? && k !in {oldKey, newKey, b[oldKey]} ==> Entry(o.bucket, k) == Entry(b, k))
            && (o.result.Err? ==> o.bucket == b)
  {
  }

  /**
   * A move takes a colon-free pair to the new rows: they lead to it, storing it gives them without a write, and the
   * old rows are not found, unless they were the pair itself.
   */
  lemma PairRebindMoves(md5: Md5, b: Store, old1: int, new1: int, old2: int, new2: int, id: string, subid: string)
    requires Involutive(b) && IsInt64(new1) && IsInt64(new2)
    requires PairRebound(b, old1, new1, old2, new2).result.Ok?
    requires PairRetrieved(b, FormatInt(old1), FormatInt(old2)) == Ok((id, subid))
    ensures var b' := PairRebound(b, old1, new1, old2, new2).bucket;
            && PairRetrieved(b', FormatInt(new1), FormatInt(new2)) == Ok((id, subid))
            && PairStored(md5, b', id, subid) == Outcome(b', Ok((new1, new2)))
            && (PairRetrieved(b', FormatInt(old1), FormatInt(old2)) == Err(NotFound)
                <==> PairKey(FormatInt(old1), FormatInt(old2)) != PairKey(id, subid))
  {
    var oldKey := PairKey(FormatInt(old1), FormatInt(old2));
    TwoParts(b[oldKey], id, subid);
    SplitPairKey(id, subid);
    ScanRowPair(new1, new2);
    assert Paired(b, oldKey);
  }

  lemma PairKeyInjective(id1: string, subid1: string, id2: string, subid2: string)
    requires ':' !in id1 && ':' !in subid1 && ':' !in id2 && ':' !in subid2
    requires PairKey(id1, subid1) == PairKey(id2, subid2)
    ensures id1 == id2 && subid1 == subid2
  {
    SplitPairKey(id1, subid1);
    SplitPairKey(id2, subid2);
    var parts := [id1, subid1];
    assert parts == [id2, subid2];
    assert parts[0] == id2 && parts[1] == subid2;
  }

  lemma SplitPairKey(id: string, subid: string)
    ensures Split(PairKey(id, subid), ':') == Split(id, ':') + Split(subid, ':')
    ensures |Split(PairKey(id, subid), ':')| == 2 <==> ':' !in id && ':' !in subid
    ensures ':' !in id && ':' !in subid ==> Split(PairKey(id, subid), ':') == [id, subid]
  {
    SplitAt(id, ':', subid);
    SplitSingle(id, ':');
    SplitSingle(subid, ':');
  }
}
