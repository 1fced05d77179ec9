/** Round trips foreseen from the bucket before receiving, and one that fails (handlers/message_parser.go). */
module MentionCases {
  import opened Wrappers
  import opened Decimal
  import opened RowId
  import opened Bucket
  import opened IdMap
  import opened IdRuns
  import opened Mentions
  import opened MentionLaws
  import opened MentionRoundTrip

  // ---------------------------------------------------------------- before receiving, rows by hash

  /** The users mentioned, the bot aside. */
  function Users(bot: BotConfig, toks: seq<Token>): set<string> {
    if toks == [] then {}
    else (if toks[0].Ref? && toks[0].id != bot.botID then {toks[0].id} else {}) + Users(bot, toks[1..])
  }

  /** The user is known, or its nine-digit row is free and does not print as the bot's number. */
  predicate Ready(md5: Md5, bot: BotConfig, b: Store, id: string) {
    || id in b
    || (RowOf(md5(id), 9).Ok? &&
        var row := RowOf(md5(id), 9).value;
        RowKey(row) !in b && FormatInt(row) != bot.botID)
  }

  /** Two users are given different rows. */
  predicate RowsDiffer(md5: Md5, b: Store, u: string, v: string) {
    u == v || u in b || v in b || RowOf(md5(u), 9) != RowOf(md5(v), 9)
  }

  ghost predicate ForeseenByHash(md5: Md5, bot: BotConfig, b: Store, users: set<string>) {
    && "row-" + bot.botID !in b
    && (forall u :: u in users ==> Ready(md5, bot, b, u))
    && (forall u, v :: u in users && v in users ==> RowsDiffer(md5, b, u, v))
  }

  /** The bucket once a new user is stored at its nine-digit row. */
  function WithUser(md5: Md5, b: Store, id: string): Store
    requires RowOf(md5(id), 9).Ok?
  {
    var row := RowOf(md5(id), 9).value;
    b[id := EncodeRow(row)][RowKey(row) := id]
  }

  /** A free nine-digit row is still free when another user has been given its own. */
  lemma StillReady(md5: Md5, bot: BotConfig, b: Store, id: string, u: string)
    requires PlainId(id) && id !in b && RowOf(md5(id), 9).Ok?
    requires Ready(md5, bot, b, u) && RowsDiffer(md5, b, u, id)
    ensures Ready(md5, bot, WithUser(md5, b, id), u)
  {
    if u !in b && u != id {
      var row, other := RowOf(md5(id), 9).value, RowOf(md5(u), 9).value;
      RowKeyShape(other);
      if RowKey(row) == RowKey(other) {
        RowKeyInjective(row, other);
      }
    }
  }

  lemma RowKeyOfOther(row: int, number: string)
    requires FormatInt(row) != number
    ensures "row-" + number !in {RowKey(row), COUNTER_KEY}
    ensures "row-" <= "row-" + number
  {
    var k := "row-" + number;
    assert k[4..] == number && RowKey(row)[4..] == FormatInt(row);
    assert k[0] == 'r' && COUNTER_KEY[0] == 'c';
  }

  lemma BotStillFree(md5: Md5, bot: BotConfig, b: Store, id: string)
    requires PlainId(id) && id !in b && Ready(md5, bot, b, id) && "row-" + bot.botID !in b
    ensures "row-" + bot.botID !in WithUser(md5, b, id)
  {
    RowKeyOfOther(RowOf(md5(id), 9).value, bot.botID);
  }

  lemma HashMentionForeseen(md5: Md5, bot: BotConfig, b: Store, id: string, users: set<string>)
    requires id in users && PlainId(id) && ForeseenByHash(md5, bot, b, users)
    ensures var o := Stored(md5, true, b, id);
            id in o.bucket && ForeseenByHash(md5, bot, o.bucket, users)
  {
    assert Ready(md5, bot, b, id);
    if id !in b {
      var b' := WithUser(md5, b, id);
      assert Stored(md5, true, b, id).bucket == b';
      BotStillFree(md5, bot, b, id);
      forall u | u in users ensures Ready(md5, bot, b', u) {
        assert Ready(md5, bot, b, u) && RowsDiffer(md5, b, u, id);
        StillReady(md5, bot, b, id, u);
      }
      forall u, v | u in users && v in users ensures RowsDiffer(md5, b', u, v) {
        assert RowsDiffer(md5, b, u, v);
      }
    }
  }

  // ---------------------------------------------------------------- before receiving, rows by counter

  /** None of the next `budget` rows prints as the bot's number. */
  ghost predicate ForeseenByCounter(bot: BotConfig, b: Store, budget: nat) {
    && "row-" + bot.botID !in b
    && (forall n: int :: Counter(b) < n <= Counter(b) + budget ==> FormatInt(n) != bot.botID)
  }

  lemma CountedMentionForeseen(md5: Md5, bot: BotConfig, b: Store, id: string, budget: nat)
    requires Healthy(false, b, budget + 1) && PlainId(id) && ForeseenByCounter(bot, b, budget + 1)
    ensures var o := Stored(md5, false, b, id);
            id in o.bucket && ForeseenByCounter(bot, o.bucket, budget)
  {
    if id in b {
      CounterStore(md5, b, id);
    } else {
      var row := Counter(b) + 1;
      NextCounterRow(b);
      CounterAllocation(md5, b, id, row);
      RowKeyOfOther(row, bot.botID);
      assert "row-" + bot.botID != id;
    }
  }

  // ---------------------------------------------------------------- the text returns

  ghost predicate Foreseen(md5: Md5, hashMode: bool, bot: BotConfig, b: Store, users: set<string>, budget: nat) {
    if hashMode then ForeseenByHash(md5, bot, b, users) else ForeseenByCounter(bot, b, budget)
  }

  lemma MentionForeseen(md5: Md5, hashMode: bool, bot: BotConfig, b: Store, tok: Token, users: set<string>, budget: nat)
    requires RefsAreDigits([tok]) && Users(bot, [tok]) <= users
    requires Healthy(hashMode, b, budget + 1) && Foreseen(md5, hashMode, bot, b, users, budget + 1)
    ensures var b1 := TokenRewritten(md5, hashMode, bot, b, tok).0;
            Foreseen(md5, hashMode, bot, b1, users, budget) && (tok.Ref? && tok.id != bot.botID ==> tok.id in b1)
  {
    if tok.Ref? && tok.id != bot.botID {
      DigitsArePlain(tok.id);
      if hashMode {
        HashMentionForeseen(md5, bot, b, tok.id, users);
      } else {
        CountedMentionForeseen(md5, bot, b, tok.id, budget);
      }
    }
  }

  /** What is foreseen happens: every user mentioned has a row in the end, and the bot's number is nobody's. */
  lemma {:induction false} ForeseenHappens(md5: Md5, hashMode: bool, bot: BotConfig, b: Store, toks: seq<Token>,
                                           users: set<string>)
    requires RefsAreDigits(toks) && Users(bot, toks) <= users
    requires Healthy(hashMode, b, |toks|) && Foreseen(md5, hashMode, bot, b, users, |toks|)
    ensures var b' := Relabelled(md5, hashMode, bot, b, toks).0;
            AllHaveRows(bot, b', toks) && "row-" + bot.botID !in b'
    decreases |toks|
  {
    if toks != [] {
      var b1 := TokenRewritten(md5, hashMode, bot, b, toks[0]).0;
      TokenStep(md5, hashMode, bot, b, toks[0], |toks| - 1);
      MentionForeseen(md5, hashMode, bot, b, toks[0], users, |toks| - 1);
      ForeseenHappens(md5, hashMode, bot, b1, toks[1..], users);
      RunStaysHealthy(md5, hashMode, bot, b1, toks[1..]);
      if toks[0].Ref? {
        DigitsArePlain(toks[0].id);
      }
    }
  }

  /**
   * A condition on the bucket before receiving: no row is negative, the users mentioned are known or their rows
   * are free and different, and neither an old nor a new row is the bot's number. Then the text comes back.
   */
  lemma ForeseenTextReturns(md5: Md5, hashMode: bool, bot: BotConfig, b: Store, text: string)
    requires !bot.removeAt && NoCqCode(text) && Healthy(hashMode, b, |Scan(MET, MET, text)|) && NoNegativeRows(b)
    requires var toks := Scan(MET, MET, text);
             Foreseen(md5, hashMode, bot, b, Users(bot, toks), |toks|)
    ensures ThereAndBack(md5, hashMode, bot, b, text) == text
  {
    var toks := Scan(MET, MET, text);
    RenderUndoesScan(text);
    RewritingRelabels(md5, hashMode, bot, b, toks);
    ForeseenHappens(md5, hashMode, bot, b, toks, Users(bot, toks));
    StoredUsersReturn(md5, hashMode, bot, b, text);
  }

  // ---------------------------------------------------------------- buckets that runs lead to

  /** The ids stored are those of users, groups, channels and messages, which hold no parenthesis. */
  predicate HoldsNoParenthesis(op: Op) {
    op.StoreId? || op.HalfStoreId? ==> '(' !in op.id
  }

  /** No reverse entry of a single id holds a parenthesis. */
  ghost predicate RowsWithoutParenthesis(b: Store) {
    forall k :: k in b && "row-" <= k && ':' !in k ==> '(' !in b[k]
  }

  lemma StepKeepsRowsPlain(md5: Md5, hashMode: bool, b: Store, op: Op)
    requires SoundBucket(b) && Admissible(md5, hashMode, b, op) && HoldsNoParenthesis(op) && RowsWithoutParenthesis(b)
    ensures RowsWithoutParenthesis(Apply(md5, hashMode, b, op))
  {
    assert COUNTER_KEY[0] == 'c';
    match op
    case StoreId(id) =>
      var b' := Apply(md5, hashMode, b, op);
      forall k | k in b' && "row-" <= k && ':' !in k ensures '(' !in b'[k] {
        assert k[0] == 'r';
        StoredEntries(md5, hashMode, b, id, k);
      }
    case HalfStoreId(_) =>
    case Rebind(oldRow, newRow) => RebindKeepsRowsPlain(b, oldRow, newRow);
    case _ => PairStepKeepsSingles(md5, hashMode, b, op);
  }

  lemma RebindKeepsRowsPlain(b: Store, oldRow: int, newRow: int)
    requires Consistent(b) && RowsWithoutParenthesis(b)
    ensures RowsWithoutParenthesis(Rebound(b, oldRow, newRow).bucket)
  {
    var o := Rebound(b, oldRow, newRow);
    if o.result.Ok? {
      RowKeyShape(oldRow);
      assert PlainId(b[RowKey(oldRow)]) && '(' !in b[RowKey(oldRow)];
    }
  }

  lemma {:induction false} RunKeepsRowsPlain(md5: Md5, hashMode: bool, b: Store, ops: seq<Op>)
    requires SoundBucket(b) && AdmissibleRun(md5, hashMode, b, ops) && RowsWithoutParenthesis(b)
    requires forall i :: 0 <= i < |ops| ==> HoldsNoParenthesis(ops[i])
    ensures SoundBucket(Run(md5, hashMode, b, ops)) && RowsWithoutParenthesis(Run(md5, hashMode, b, ops))
    decreases |ops|
  {
    if ops != [] {
      StepKeepsSound(md5, hashMode, b, ops[0]);
      StepKeepsRowsPlain(md5, hashMode, b, ops[0]);
      RunKeepsRowsPlain(md5, hashMode, Apply(md5, hashMode, b, ops[0]), ops[1..]);
    }
  }

  lemma PlainRowsSuffice(b: Store)
    requires RowsWithoutParenthesis(b)
    ensures NoParenthesisBehindRows(b)
  {
    forall k | k in b && "row-" <= k && AllDigits(k[4..]) ensures '(' !in b[k] {
      assert k == "row-" + k[4..] && forall c :: c in k[4..] ==> IsDigit(c);
    }
  }

  /**
   * Whatever was stored, moved, paired and renamed before, message ids among it: a text comes back if and only if
   * every mention is safe. In counter mode the rows must lie below the counter.
   */
  lemma MentionsReturnAfterRun(md5: Md5, hashMode: bool, ops: seq<Op>, bot: BotConfig, text: string)
    requires AdmissibleRun(md5, hashMode, map[], ops) && forall i :: 0 <= i < |ops| ==> HoldsNoParenthesis(ops[i])
    requires !bot.removeAt && NoCqCode(text)
    requires hashMode || Healthy(false, Run(md5, hashMode, map[], ops), |Scan(MET, MET, text)|)
    ensures var b := Run(md5, hashMode, map[], ops);
            ThereAndBack(md5, hashMode, bot, b, text) == text
            <==> MentionsSafe(bot, RewrittenText(md5, hashMode, bot, b, text).0, Scan(MET, MET, text))
  {
    RunKeepsRowsPlain(md5, hashMode, map[], ops);
    PlainRowsSuffice(Run(md5, hashMode, map[], ops));
    MentionsReturnExactly(md5, hashMode, bot, Run(md5, hashMode, map[], ops), text);
  }

  // ---------------------------------------------------------------- a mention that does not return

  lemma NoBracketNoCode(s: string)
    requires '[' !in s
    ensures NoCqCode(s)
  {
    forall i | 0 <= i <= |s| ensures !("[CQ:" <= s[i..]) {
      assert s[i..] != "" ==> s[i..][0] in s;
    }
  }

  lemma ScanOneMention(id: string)
    requires id != "" && AllDigits(id)
    ensures Scan(MET, MET, MetText(id)) == [Ref(id)] && NoCqCode(MetText(id))
  {
    OneMention(MET, MET, id);
    NoBracketNoCode(MetText(id));
  }

  lemma OneMention(open_: string, close_: string, id: string)
    requires id != "" && AllDigits(id) && close_ != "" && !IsDigit(close_[0])
    ensures Scan(open_, close_, open_ + id + close_) == [Ref(id)]
  {
    var s := open_ + id + close_;
    var t := s[|open_|..];
    assert t == id + close_ && s == open_ + t;
    DigitRunStops(id, close_);
    assert t[..|id|] == id && t[|id|..] == close_;
    assert MatchRef(open_, close_, s) == Some(id) && s[|s|..] == "";
    ScanFront(open_, close_, s);
    assert Scan(open_, close_, "") == [];
  }

  /** Translating the mention of a known user leaves the bucket alone. */
  lemma KnownUserRewritten(md5: Md5, hashMode: bool, bot: BotConfig, b: Store, id: string)
    requires id in b && Scan(MET, MET, MetText(id)) == [Ref(id)]
    ensures RewrittenText(md5, hashMode, bot, b, MetText(id)).0 == b
  {
    assert [Ref(id)][1..] == [];
    assert Rewritten(md5, hashMode, bot, b, []).0 == b;
  }

  lemma OneUnsafe(bot: BotConfig, b: Store, id: string)
    requires !MentionSafe(bot, b, id)
    ensures !MentionsSafe(bot, b, [Ref(id)])
  {
  }

  /** A user whose row is negative is not translated back. */
  lemma NegativeRowIsLost(md5: Md5, hashMode: bool, bot: BotConfig, b: Store, id: string)
    requires !bot.removeAt && id != "" && AllDigits(id) && id != bot.botID
    requires Healthy(hashMode, b, 1) && NoParenthesisBehindRows(b)
    requires id in b && |b[id]| == 8 && DecodeRow(b[id]) < 0
    ensures ThereAndBack(md5, hashMode, bot, b, MetText(id)) != MetText(id)
  {
    ScanOneMention(id);
    MentionsReturnExactly(md5, hashMode, bot, b, MetText(id));
    KnownUserRewritten(md5, hashMode, bot, b, id);
    OneUnsafe(bot, b, id);
  }

  /** In every bucket a run leads to: moving a stored user to a free negative row succeeds, and the user is lost. */
  lemma MovedBelowZero(md5: Md5, hashMode: bool, ops: seq<Op>, bot: BotConfig, id: string, newRow: int)
    requires AdmissibleRun(md5, hashMode, map[], ops) && forall i :: 0 <= i < |ops| ==> HoldsNoParenthesis(ops[i])
    requires hashMode || Healthy(false, Run(md5, hashMode, map[], ops), 1)
    requires !bot.removeAt && id != "" && AllDigits(id) && id != bot.botID && MIN_INT64 <= newRow < 0
    requires id in Run(md5, hashMode, map[], ops) && RowKey(newRow) !in Run(md5, hashMode, map[], ops)
    ensures var b := Run(md5, hashMode, map[], ops);
            |b[id]| >= 8 &&
            var moved := Rebound(b, DecodeRow(b[id]), newRow);
            moved.result.Ok? && ThereAndBack(md5, hashMode, bot, moved.bucket, MetText(id)) != MetText(id)
  {
    var b := Run(md5, hashMode, map[], ops);
    DigitsArePlain(id);
    RunKeepsRowsPlain(md5, hashMode, map[], ops);
    assert PointsBack(b, id);
    MoveStoredUser(md5, hashMode, b, id, newRow);
    PlainRowsSuffice(Rebound(b, DecodeRow(b[id]), newRow).bucket);
    NegativeRowIsLost(md5, hashMode, bot, Rebound(b, DecodeRow(b[id]), newRow).bucket, id);
  }

  lemma MoveStoredUser(md5: Md5, hashMode: bool, b: Store, id: string, newRow: int)
    requires Healthy(hashMode, b, 1) && RowsWithoutParenthesis(b) && PlainId(id) && id in b && PointsBack(b, id)
    requires MIN_INT64 <= newRow < 0 && RowKey(newRow) !in b
    ensures var o := Rebound(b, DecodeRow(b[id]), newRow);
            && o.result.Ok? && Healthy(hashMode, o.bucket, 1) && RowsWithoutParenthesis(o.bucket)
            && id in o.bucket && |o.bucket[id]| == 8 && DecodeRow(o.bucket[id]) == newRow
  {
    var row := DecodeRow(b[id]);
    RebindKeepsRowsPlain(b, row, newRow);
    RebindKeepsConsistent(b, row, newRow);
    if !hashMode {
      CounterIsNatural(b);
      CounterRebind(b, row, newRow);
    }
    RebindMoves(md5, hashMode, b, row, newRow);
    DecodeEncode(newRow);
    RowKeyShape(row);
    RowKeyShape(newRow);
  }

  lemma CounterIsNatural(b: Store)
    requires RowsCounted(b)
    ensures Counter(b) >= 0
  {
  }

  /** Two calls are enough, starting from an empty bucket: the user is stored, and its row is moved below zero. */
  lemma StoredAndMoved(md5: Md5, bot: BotConfig, id: string, newRow: int)
    requires !bot.removeAt && id != "" && AllDigits(id) && id != bot.botID
    requires RowOf(md5(id), 9).Ok? && MIN_INT64 <= newRow < 0
    ensures var o := Stored(md5, true, map[], id);
            var moved := Rebound(o.bucket, o.result.value, newRow);
            moved.result.Ok? && ThereAndBack(md5, true, bot, moved.bucket, MetText(id)) != MetText(id)
  {
    var o := Stored(md5, true, map[], id);
    DigitsArePlain(id);
    DigitsHoldNoParenthesis(id);
    assert Admissible(md5, true, map[], StoreId(id)) && o.bucket == Apply(md5, true, map[], StoreId(id));
    StepKeepsSound(md5, true, map[], StoreId(id));
    StepKeepsRowsPlain(md5, true, map[], StoreId(id));
    StoredEntry(md5, true, map[], id);
    OnlyThatRow(md5, id, newRow);
    MoveStoredUser(md5, true, o.bucket, id, newRow);
    var moved := Rebound(o.bucket, o.result.value, newRow);
    PlainRowsSuffice(moved.bucket);
    NegativeRowIsLost(md5, true, bot, moved.bucket, id);
  }

  lemma OnlyThatRow(md5: Md5, id: string, newRow: int)
    requires PlainId(id) && RowOf(md5(id), 9).Ok? && newRow < 0
    ensures Stored(md5, true, map[], id).result.Ok? && RowKey(newRow) !in Stored(md5, true, map[], id).bucket
  {
    var row := RowOf(md5(id), 9).value;
    RowBounds(md5(id), 9);
    RowKeyShape(newRow);
    if RowKey(row) == RowKey(newRow) {
      RowKeyInjective(row, newRow);
    }
  }
}
