/** The mention round trip on top of the id map (handlers/message_parser.go, idmap/service.go). */
module MentionRoundTrip {
  import opened Wrappers
  import opened Decimal
  import opened RowId
  import opened Bucket
  import opened IdMap
  import opened Mentions
  import opened MentionLaws

  /** The tokens with each reference relabelled, storing ids on the way, and the bucket at the end. */
  function Relabelled(md5: Md5, hashMode: bool, bot: BotConfig, b: Store, toks: seq<Token>): (r: (Store, seq<Token>))
    ensures |r.1| == |toks|
    decreases |toks|
  {
    if toks == [] then (b, [])
    else if toks[0].Chr? then
      var (b', rest) := Relabelled(md5, hashMode, bot, b, toks[1..]);
      (b', [toks[0]] + rest)
    else
      var id := toks[0].id;
      var (b', rest) := Relabelled(md5, hashMode, bot, AfterMention(md5, hashMode, bot, b, id), toks[1..]);
      (b', [Ref(Label(md5, hashMode, bot, b, id))] + rest)
  }

  lemma {:induction false} RewritingRelabels(md5: Md5, hashMode: bool, bot: BotConfig, b: Store, toks: seq<Token>)
    requires !bot.removeAt
    ensures var (b', relabelled) := Relabelled(md5, hashMode, bot, b, toks);
            Rewritten(md5, hashMode, bot, b, toks) == (b', RenderAt(relabelled))
    decreases |toks|
  {
    if toks != [] {
      var b1 := TokenRewritten(md5, hashMode, bot, b, toks[0]).0;
      RewritingRelabels(md5, hashMode, bot, b1, toks[1..]);
      var relabelled := Relabelled(md5, hashMode, bot, b, toks).1;
      RenderCons(AtText, relabelled[0], relabelled[1..]);
      assert relabelled == [relabelled[0]] + relabelled[1..];
    }
  }

  /** The same single characters at the same places. */
  ghost predicate SameShape(toks: seq<Token>, other: seq<Token>) {
    |toks| == |other| && forall i :: 0 <= i < |toks| ==> toks[i] == other[i] || (toks[i].Ref? && other[i].Ref?)
  }

  lemma {:induction false} RelabelledShape(md5: Md5, hashMode: bool, bot: BotConfig, b: Store, toks: seq<Token>)
    ensures SameShape(toks, Relabelled(md5, hashMode, bot, b, toks).1)
    decreases |toks|
  {
    if toks != [] {
      RelabelledShape(md5, hashMode, bot, TokenRewritten(md5, hashMode, bot, b, toks[0]).0, toks[1..]);
    }
  }

  lemma {:induction false} ShapeStartsWith(p: string, toks: seq<Token>, other: seq<Token>)
    requires SameShape(toks, other) && StartsWith(p, other)
    ensures StartsWith(p, toks)
    decreases |p|
  {
    if p != "" {
      ShapeStartsWith(p[1..], toks[1..], other[1..]);
    }
  }

  lemma {:induction false} ShapeKeepsQuiet(toks: seq<Token>, other: seq<Token>)
    requires SameShape(toks, other) && Quiet(toks)
    ensures Quiet(other)
  {
    if toks != [] {
      ShapeKeepsQuiet(toks[1..], other[1..]);
      if StartsWith("[CQ:", other) {
        ShapeStartsWith("[CQ:", toks, other);
      }
    }
  }

  // ---------------------------------------------------------------- the bucket while mentions are stored

  /** Consistent, and in counter mode with room for `budget` more rows. */
  ghost predicate Healthy(hashMode: bool, b: Store, budget: nat) {
    Consistent(b) && (hashMode || (RowsCounted(b) && Counter(b) + budget <= MAX_INT64))
  }

  /** Every stored id still has its row. */
  ghost predicate Extends(b: Store, b': Store) {
    forall k :: k in b && PlainId(k) ==> k in b' && b'[k] == b[k]
  }

  lemma DigitsArePlain(id: string)
    requires id != "" && AllDigits(id)
    ensures PlainId(id)
  {
    assert IsDigit(id[0]);
  }

  lemma StoreMention(md5: Md5, hashMode: bool, b: Store, id: string, budget: nat)
    requires Healthy(hashMode, b, budget) && budget > 0 && PlainId(id)
    ensures var o := Stored(md5, hashMode, b, id);
            && Healthy(hashMode, o.bucket, budget - 1) && Extends(b, o.bucket)
            && (o.result.Ok? ==> StoredRow(o.bucket, id) == Some(o.result.value))
            && (o.result.Err? ==> Blocked(md5, hashMode, b, id))
  {
    if hashMode {
      StoreKeepsConsistent(md5, b, id);
      RetrieveUndoesStore(md5, b, id);
    } else {
      CounterStore(md5, b, id);
    }
    var o := Stored(md5, hashMode, b, id);
    if id in b {
      assert PointsBack(b, id);
    } else if o.result.Ok? {
      StoredIsNew(md5, hashMode, b, id);
      assert PointsBack(o.bucket, id);
    }
  }

  /** The entries of a new id leave those of the others alone. */
  lemma WrittenIsNew(b: Store, counted: Store, id: string, row: int)
    requires PlainId(id) && id !in b && IsInt64(row) && Extends(b, counted)
    ensures var b' := counted[id := EncodeRow(row)][RowKey(row) := id];
            Extends(b, b') && StoredRow(b', id) == Some(row)
  {
    RowKeyShape(row);
    DecodeEncode(row);
  }

  /** A new id gets an entry of its own. */
  lemma StoredIsNew(md5: Md5, hashMode: bool, b: Store, id: string)
    requires Healthy(hashMode, b, 1) && PlainId(id) && id !in b && Stored(md5, hashMode, b, id).result.Ok?
    ensures var o := Stored(md5, hashMode, b, id);
            Extends(b, o.bucket) && StoredRow(o.bucket, id) == Some(o.result.value)
  {
    var row := Stored(md5, hashMode, b, id).result.value;
    if hashMode {
      HashRowFresh(md5, b, id);
      WrittenIsNew(b, b, id, row);
    } else {
      NextCounterRow(b);
      WrittenIsNew(b, b[COUNTER_KEY := EncodeRow(row)], id, row);
    }
  }

  /** Storing this id fails now; only possible by hash. */
  predicate Blocked(md5: Md5, hashMode: bool, b: Store, id: string) {
    hashMode && id !in b && HashRow(md5, b, id).Err?
  }

  /** What fails once fails ever after, because rows are never given back. */
  lemma StillBlocked(md5: Md5, hashMode: bool, b: Store, id: string, other: string)
    requires PlainId(id) && PlainId(other) && Blocked(md5, hashMode, b, id)
    ensures Blocked(md5, hashMode, Stored(md5, hashMode, b, other).bucket, id)
  {
  }

  lemma {:induction false} BlockedThroughout(md5: Md5, hashMode: bool, bot: BotConfig, b: Store, toks: seq<Token>,
                                             id: string)
    requires PlainId(id) && RefsAreDigits(toks) && Blocked(md5, hashMode, b, id)
    ensures Blocked(md5, hashMode, Relabelled(md5, hashMode, bot, b, toks).0, id)
    decreases |toks|
  {
    if toks != [] {
      if toks[0].Ref? {
        DigitsArePlain(toks[0].id);
        StillBlocked(md5, hashMode, b, id, toks[0].id);
      }
      BlockedThroughout(md5, hashMode, bot, TokenRewritten(md5, hashMode, bot, b, toks[0]).0, toks[1..], id);
    }
  }

  /** The label of a mention, told from the bucket at the end. */
  predicate LabelledBy(bot: BotConfig, b: Store, id: string, number: string) {
    if id != bot.botID && id in b then StoredRow(b, id).Some? && number == FormatInt(StoredRow(b, id).value)
    else number == id
  }

  predicate AllLabelledBy(bot: BotConfig, b: Store, toks: seq<Token>, labels: seq<Token>) {
    toks == [] || (
      && labels != []
      && (toks[0].Chr? ==> labels[0] == toks[0])
      && (toks[0].Ref? ==> labels[0].Ref? && LabelledBy(bot, b, toks[0].id, labels[0].id))
      && AllLabelledBy(bot, b, toks[1..], labels[1..]))
  }

  lemma TokenStep(md5: Md5, hashMode: bool, bot: BotConfig, b: Store, tok: Token, budget: nat)
    requires Healthy(hashMode, b, budget + 1) && RefsAreDigits([tok])
    ensures var b1 := TokenRewritten(md5, hashMode, bot, b, tok).0;
            Healthy(hashMode, b1, budget) && Extends(b, b1)
  {
    if tok.Ref? {
      DigitsArePlain(tok.id);
      StoreMention(md5, hashMode, b, tok.id, budget + 1);
    }
  }

  /** Storing the mentions only adds entries, and leaves the bucket healthy. */
  lemma {:induction false} RunStaysHealthy(md5: Md5, hashMode: bool, bot: BotConfig, b: Store, toks: seq<Token>)
    requires Healthy(hashMode, b, |toks|) && RefsAreDigits(toks)
    ensures var b' := Relabelled(md5, hashMode, bot, b, toks).0;
            Healthy(hashMode, b', 0) && Extends(b, b')
    decreases |toks|
  {
    if toks != [] {
      TokenStep(md5, hashMode, bot, b, toks[0], |toks| - 1);
      RunStaysHealthy(md5, hashMode, bot, TokenRewritten(md5, hashMode, bot, b, toks[0]).0, toks[1..]);
    }
  }

  lemma FirstLabel(md5: Md5, hashMode: bool, bot: BotConfig, b: Store, id: string, rest: seq<Token>)
    requires Healthy(hashMode, b, |rest| + 1) && PlainId(id) && RefsAreDigits(rest)
    ensures LabelledBy(bot, Relabelled(md5, hashMode, bot, AfterMention(md5, hashMode, bot, b, id), rest).0, id,
                       Label(md5, hashMode, bot, b, id))
  {
    if id != bot.botID {
      StoreMention(md5, hashMode, b, id, |rest| + 1);
      var o := Stored(md5, hashMode, b, id);
      RunStaysHealthy(md5, hashMode, bot, o.bucket, rest);
      if o.result.Err? {
        BlockedThroughout(md5, hashMode, bot, o.bucket, rest, id);
      }
    }
  }

  lemma {:induction false} RunLabels(md5: Md5, hashMode: bool, bot: BotConfig, b: Store, toks: seq<Token>)
    requires Healthy(hashMode, b, |toks|) && RefsAreDigits(toks)
    ensures var (b', labels) := Relabelled(md5, hashMode, bot, b, toks);
            AllLabelledBy(bot, b', toks, labels)
    decreases |toks|
  {
    if toks != [] {
      var tok := toks[0];
      TokenStep(md5, hashMode, bot, b, tok, |toks| - 1);
      RunLabels(md5, hashMode, bot, TokenRewritten(md5, hashMode, bot, b, tok).0, toks[1..]);
      if tok.Ref? {
        DigitsArePlain(tok.id);
        FirstLabel(md5, hashMode, bot, b, tok.id, toks[1..]);
      }
    }
  }

  /** No id behind a numeric row holds a parenthesis, as no id of a user, group, channel or message does. */
  ghost predicate NoParenthesisBehindRows(b: Store) {
    forall k :: k in b && "row-" <= k && AllDigits(k[4..]) ==> '(' !in b[k]
  }

  /** Every entry after a store is an old one, or belongs to the id, the counter or the new row. */
  lemma StoredEntries(md5: Md5, hashMode: bool, b: Store, id: string, k: string)
    requires k in Stored(md5, hashMode, b, id).bucket && k != id && k != COUNTER_KEY
    ensures var b' := Stored(md5, hashMode, b, id).bucket;
            b'[k] == id || (k in b && b'[k] == b[k])
  {
  }

  lemma StoreKeepsParenthesesOut(md5: Md5, hashMode: bool, b: Store, id: string)
    requires NoParenthesisBehindRows(b) && PlainId(id) && '(' !in id
    ensures NoParenthesisBehindRows(Stored(md5, hashMode, b, id).bucket)
  {
    var b' := Stored(md5, hashMode, b, id).bucket;
    forall k | k in b' && "row-" <= k && AllDigits(k[4..]) ensures '(' !in b'[k] {
      assert k[0] == 'r' && COUNTER_KEY[0] == 'c';
      StoredEntries(md5, hashMode, b, id, k);
    }
  }

  lemma DigitsHoldNoParenthesis(id: string)
    requires AllDigits(id)
    ensures '(' !in id
  {
  }

  lemma {:induction false} NoParenthesisThroughout(md5: Md5, hashMode: bool, bot: BotConfig, b: Store, toks: seq<Token>)
    requires NoParenthesisBehindRows(b) && RefsAreDigits(toks)
    ensures NoParenthesisBehindRows(Relabelled(md5, hashMode, bot, b, toks).0)
    decreases |toks|
  {
    if toks != [] {
      if toks[0].Ref? {
        DigitsArePlain(toks[0].id);
        DigitsHoldNoParenthesis(toks[0].id);
        StoreKeepsParenthesesOut(md5, hashMode, b, toks[0].id);
      }
      NoParenthesisThroughout(md5, hashMode, bot, TokenRewritten(md5, hashMode, bot, b, toks[0]).0, toks[1..]);
    }
  }

  lemma {:induction false} WithoutBotDigits(bot: BotConfig, toks: seq<Token>)
    requires RefsAreDigits(toks)
    ensures RefsAreDigits(WithoutBot(bot, toks)) && |WithoutBot(bot, toks)| <= |toks|
  {
    if toks != [] {
      WithoutBotDigits(bot, toks[1..]);
      assert ([toks[0]] + WithoutBot(bot, toks[1..]))[1..] == WithoutBot(bot, toks[1..]);
    }
  }

  /** With remove_at on, the mentions of the bot disappear and every other one carries its label, told from the end. */
  lemma RemovedRunLabels(md5: Md5, hashMode: bool, bot: BotConfig, b: Store, toks: seq<Token>)
    requires bot.removeAt && Healthy(hashMode, b, |toks|) && RefsAreDigits(toks)
    ensures var others := WithoutBot(bot, toks);
            var (b', labels) := Relabelled(md5, hashMode, bot, b, others);
            && Rewritten(md5, hashMode, bot, b, toks) == (b', RenderAt(labels))
            && SameShape(others, labels) && AllLabelledBy(bot, b', others, labels)
  {
    var off, others := bot.(removeAt := false), WithoutBot(bot, toks);
    RemovesOnlyTheBot(md5, hashMode, bot, b, toks);
    WithoutBotDigits(bot, toks);
    SameLabels(md5, hashMode, bot, b, others);
    RewritingRelabels(md5, hashMode, off, b, others);
    RelabelledShape(md5, hashMode, bot, b, others);
    RunLabels(md5, hashMode, bot, b, others);
  }

  lemma {:induction false} SameLabels(md5: Md5, hashMode: bool, bot: BotConfig, b: Store, toks: seq<Token>)
    ensures Relabelled(md5, hashMode, bot.(removeAt := false), b, toks) == Relabelled(md5, hashMode, bot, b, toks)
    decreases |toks|
  {
    if toks != [] {
      SameLabels(md5, hashMode, bot, TokenRewritten(md5, hashMode, bot, b, toks[0]).0, toks[1..]);
    }
  }

  // ---------------------------------------------------------------- which mentions survive

  /**
   * A stored user survives when the row is not negative. The bot, and a user that could not be stored, keep
   * their own number, which must not be the row of somebody else.
   */
  predicate MentionSafe(bot: BotConfig, b: Store, id: string) {
    if id != bot.botID && id in b then StoredRow(b, id).Some? && StoredRow(b, id).value >= 0
    else "row-" + id in b ==> b["row-" + id] == id
  }

  predicate MentionsSafe(bot: BotConfig, b: Store, toks: seq<Token>) {
    toks == [] || ((toks[0].Ref? ==> MentionSafe(bot, b, toks[0].id)) && MentionsSafe(bot, b, toks[1..]))
  }

  lemma FirstIsNoParenthesis(u: string)
    requires '(' !in u
    ensures u != "" ==> u[0] != '('
  {
  }

  lemma {:induction false} UpToParenthesis(u: string, v: string, r1: string, r2: string)
    requires '(' !in u && '(' !in v && u + "(" + r1 == v + "(" + r2
    ensures u == v && r1 == r2
  {
    var s := u + "(" + r1;
    FirstIsNoParenthesis(u);
    FirstIsNoParenthesis(v);
    assert s[0] == (u + "(")[0] == (v + "(")[0];
    if u != "" && v != "" {
      assert s[1..] == u[1..] + "(" + r1 == v[1..] + "(" + r2;
      UpToParenthesis(u[1..], v[1..], r1, r2);
      assert u == [s[0]] + u[1..] && v == [s[0]] + v[1..];
    } else {
      assert u == v == "" && s[1..] == r1 && s[1..] == r2;
    }
  }

  /** A mention is read off a text unambiguously as long as its id holds no parenthesis. */
  lemma MetTextInjective(u: string, v: string, r1: string, r2: string)
    requires '(' !in u && '(' !in v && MetText(u) + r1 == MetText(v) + r2
    ensures u == v && r1 == r2
  {
    var s := MetText(u) + r1;
    assert MET == "(" + MET[1..];
    assert s[5..] == u + "(" + (MET[1..] + r1) && s[5..] == v + "(" + (MET[1..] + r2);
    UpToParenthesis(u, v, MET[1..] + r1, MET[1..] + r2);
    assert r1 == (MET[1..] + r1)[4..] && r2 == (MET[1..] + r2)[4..];
  }

  /** A labelled mention comes back as it was exactly when it is safe. */
  lemma SafeMentionReturns(bot: BotConfig, b: Store, id: string, number: string)
    requires Consistent(b) && id != "" && AllDigits(id) && LabelledBy(bot, b, id, number)
    ensures IsLabel(number)
    ensures MentionSafe(bot, b, id) ==> CodeSent(Restorer(b, false), number) == MetText(id)
    ensures !MentionSafe(bot, b, id) ==>
              var sent := CodeSent(Restorer(b, false), number);
              sent == AtText(number) || ("row-" + id in b && sent == MetText(b["row-" + id]) && b["row-" + id] != id)
  {
    DigitsArePlain(id);
    if id != bot.botID && id in b {
      assert PointsBack(b, id);
      var row := StoredRow(b, id).value;
      FormatIntChars(row);
      assert !IsDigit('[');
    } else {
      assert !IsDigit('[');
    }
  }

  lemma {:induction false} LabelsAreLabels(bot: BotConfig, b: Store, toks: seq<Token>, labels: seq<Token>)
    requires Consistent(b) && RefsAreDigits(toks) && |toks| == |labels| && AllLabelledBy(bot, b, toks, labels)
    ensures RefsAreLabels(labels)
  {
    if toks != [] {
      if toks[0].Ref? {
        SafeMentionReturns(bot, b, toks[0].id, labels[0].id);
      }
      LabelsAreLabels(bot, b, toks[1..], labels[1..]);
    }
  }

  /** Safe mentions all come back. */
  lemma {:induction false} SafeTextReturns(bot: BotConfig, b: Store, toks: seq<Token>, labels: seq<Token>)
    requires Consistent(b) && RefsAreDigits(toks) && |toks| == |labels| && AllLabelledBy(bot, b, toks, labels)
    requires MentionsSafe(bot, b, toks)
    ensures Render(CodeSender(Restorer(b, false)), labels) == RenderMet(toks)
  {
    if toks != [] {
      if toks[0].Ref? {
        SafeMentionReturns(bot, b, toks[0].id, labels[0].id);
      }
      SafeTextReturns(bot, b, toks[1..], labels[1..]);
    }
  }

  /** The first unsafe mention already makes a difference. */
  lemma {:induction false} UnsafeTextDiffers(bot: BotConfig, b: Store, toks: seq<Token>, labels: seq<Token>)
    requires Consistent(b) && NoParenthesisBehindRows(b)
    requires RefsAreDigits(toks) && |toks| == |labels| && AllLabelledBy(bot, b, toks, labels)
    requires Render(CodeSender(Restorer(b, false)), labels) == RenderMet(toks)
    ensures MentionsSafe(bot, b, toks)
  {
    if toks != [] {
      var f := CodeSender(Restorer(b, false));
      var r1, r2 := Render(f, labels[1..]), RenderMet(toks[1..]);
      if toks[0].Chr? {
        assert Render(f, labels)[1..] == r1 && RenderMet(toks)[1..] == r2;
      } else {
        FrontMentionSafe(bot, b, toks[0].id, labels[0].id, r1, r2);
      }
      UnsafeTextDiffers(bot, b, toks[1..], labels[1..]);
    }
  }

  lemma FrontMentionSafe(bot: BotConfig, b: Store, id: string, number: string, r1: string, r2: string)
    requires Consistent(b) && NoParenthesisBehindRows(b) && id != "" && AllDigits(id) && LabelledBy(bot, b, id, number)
    requires CodeSent(Restorer(b, false), number) + r1 == MetText(id) + r2
    ensures MentionSafe(bot, b, id) && r1 == r2
  {
    SafeMentionReturns(bot, b, id, number);
    var sent := CodeSent(Restorer(b, false), number);
    assert (MetText(id) + r2)[0] == '(' && (AtText(number) + r1)[0] == '[';
    DigitsHoldNoParenthesis(id);
    if sent == MetText(id) {
      MetTextInjective(id, id, r1, r2);
    }
    if !MentionSafe(bot, b, id) {
      var other := b["row-" + id];
      assert ("row-" + id)[4..] == id;
      MetTextInjective(other, id, r1, r2);
    }
  }

  /** The text a received message is turned into, sent back through the bucket it left behind. */
  function ThereAndBack(md5: Md5, hashMode: bool, bot: BotConfig, b: Store, text: string): string {
    var (b', received) := RewrittenText(md5, hashMode, bot, b, text);
    Sent(b', false, received)
  }

  /** Sending back translates exactly the labels that receiving put in. */
  lemma BackIsTranslation(md5: Md5, hashMode: bool, bot: BotConfig, b: Store, text: string)
    requires !bot.removeAt && NoCqCode(text) && Healthy(hashMode, b, |Scan(MET, MET, text)|)
    ensures var toks := Scan(MET, MET, text);
            var (b', labels) := Relabelled(md5, hashMode, bot, b, toks);
            && RefsAreDigits(toks) && AllLabelledBy(bot, b', toks, labels) && Consistent(b')
            && ThereAndBack(md5, hashMode, bot, b, text) == Render(CodeSender(Restorer(b', false)), labels)
  {
    var toks := Scan(MET, MET, text);
    RenderUndoesScan(text);
    NoCqCodeIsQuiet(toks);
    RewritingRelabels(md5, hashMode, bot, b, toks);
    RunStaysHealthy(md5, hashMode, bot, b, toks);
    RunLabels(md5, hashMode, bot, b, toks);
    RelabelledShape(md5, hashMode, bot, b, toks);
    var (b', labels) := Relabelled(md5, hashMode, bot, b, toks);
    ShapeKeepsQuiet(toks, labels);
    LabelsAreLabels(bot, b', toks, labels);
    NoReplies(Erase, labels);
    LabelsAreSent(Restorer(b', false), labels);
  }

  /**
   * For any text without a CQ code, translating the mentions of a received message and sending the result
   * gives back exactly the text, as soon as every mention is safe in the bucket left behind.
   */
  lemma MentionsReturn(md5: Md5, hashMode: bool, bot: BotConfig, b: Store, text: string)
    requires !bot.removeAt && NoCqCode(text) && Healthy(hashMode, b, |Scan(MET, MET, text)|)
    requires MentionsSafe(bot, RewrittenText(md5, hashMode, bot, b, text).0, Scan(MET, MET, text))
    ensures ThereAndBack(md5, hashMode, bot, b, text) == text
  {
    var toks := Scan(MET, MET, text);
    BackIsTranslation(md5, hashMode, bot, b, text);
    RewritingRelabels(md5, hashMode, bot, b, toks);
    RenderUndoesScan(text);
    var (b', labels) := Relabelled(md5, hashMode, bot, b, toks);
    SafeTextReturns(bot, b', toks, labels);
  }

  /** The text comes back if and only if every mention is safe. */
  lemma MentionsReturnExactly(md5: Md5, hashMode: bool, bot: BotConfig, b: Store, text: string)
    requires !bot.removeAt && NoCqCode(text) && Healthy(hashMode, b, |Scan(MET, MET, text)|)
    requires NoParenthesisBehindRows(b)
    ensures ThereAndBack(md5, hashMode, bot, b, text) == text
            <==> MentionsSafe(bot, RewrittenText(md5, hashMode, bot, b, text).0, Scan(MET, MET, text))
  {
    var toks := Scan(MET, MET, text);
    BackIsTranslation(md5, hashMode, bot, b, text);
    RewritingRelabels(md5, hashMode, bot, b, toks);
    RenderUndoesScan(text);
    var (b', labels) := Relabelled(md5, hashMode, bot, b, toks);
    if MentionsSafe(bot, b', toks) {
      SafeTextReturns(bot, b', toks, labels);
    }
    if ThereAndBack(md5, hashMode, bot, b, text) == text {
      NoParenthesisThroughout(md5, hashMode, bot, b, toks);
      UnsafeTextDiffers(bot, b', toks, labels);
    }
  }

  // ---------------------------------------------------------------- the usual case

  /** No stored id was moved to a negative row. */
  ghost predicate NoNegativeRows(b: Store) {
    forall id :: id in b && PlainId(id) ==> |b[id]| >= 8 && DecodeRow(b[id]) >= 0
  }

  lemma StoreKeepsNonNegative(md5: Md5, hashMode: bool, b: Store, id: string, budget: nat)
    requires Healthy(hashMode, b, budget) && budget > 0 && PlainId(id) && NoNegativeRows(b)
    ensures NoNegativeRows(Stored(md5, hashMode, b, id).bucket)
  {
    var o := Stored(md5, hashMode, b, id);
    if id !in b && o.result.Ok? {
      StoredIsNew(md5, hashMode, b, id);
      NewRowNonNegative(md5, hashMode, b, id);
      forall k | k in o.bucket && PlainId(k) ensures |o.bucket[k]| >= 8 && DecodeRow(o.bucket[k]) >= 0 {
        RowKeyShape(o.result.value);
        if k != id {
          assert k in b;
        }
      }
    }
  }

  lemma NewRowNonNegative(md5: Md5, hashMode: bool, b: Store, id: string)
    requires Healthy(hashMode, b, 1) && NewRow(md5, hashMode, b, id).Ok?
    ensures NewRow(md5, hashMode, b, id).value >= 0
  {
  }

  lemma {:induction false} NonNegativeThroughout(md5: Md5, hashMode: bool, bot: BotConfig, b: Store, toks: seq<Token>)
    requires Healthy(hashMode, b, |toks|) && RefsAreDigits(toks) && NoNegativeRows(b)
    ensures NoNegativeRows(Relabelled(md5, hashMode, bot, b, toks).0)
    decreases |toks|
  {
    if toks != [] {
      TokenStep(md5, hashMode, bot, b, toks[0], |toks| - 1);
      if toks[0].Ref? {
        DigitsArePlain(toks[0].id);
        StoreKeepsNonNegative(md5, hashMode, b, toks[0].id, |toks|);
      }
      NonNegativeThroughout(md5, hashMode, bot, TokenRewritten(md5, hashMode, bot, b, toks[0]).0, toks[1..]);
    }
  }

  /** Everybody mentioned but the bot has a row. */
  predicate AllHaveRows(bot: BotConfig, b: Store, toks: seq<Token>) {
    toks == [] || ((toks[0].Ref? && toks[0].id != bot.botID ==> toks[0].id in b) && AllHaveRows(bot, b, toks[1..]))
  }

  lemma {:induction false} RowsMakeSafe(bot: BotConfig, b: Store, toks: seq<Token>)
    requires RefsAreDigits(toks) && NoNegativeRows(b) && AllHaveRows(bot, b, toks) && "row-" + bot.botID !in b
    ensures MentionsSafe(bot, b, toks)
  {
    if toks != [] {
      if toks[0].Ref? {
        DigitsArePlain(toks[0].id);
      }
      RowsMakeSafe(bot, b, toks[1..]);
    }
  }

  /**
   * If no row is negative to begin with, all mentioned users could be stored, and the bot's own number is
   * nobody's row, the text comes back, whatever is in it besides CQ codes.
   */
  lemma StoredUsersReturn(md5: Md5, hashMode: bool, bot: BotConfig, b: Store, text: string)
    requires !bot.removeAt && NoCqCode(text) && Healthy(hashMode, b, |Scan(MET, MET, text)|) && NoNegativeRows(b)
    requires var b' := RewrittenText(md5, hashMode, bot, b, text).0;
             AllHaveRows(bot, b', Scan(MET, MET, text)) && "row-" + bot.botID !in b'
    ensures ThereAndBack(md5, hashMode, bot, b, text) == text
  {
    var toks := Scan(MET, MET, text);
    RenderUndoesScan(text);
    RewritingRelabels(md5, hashMode, bot, b, toks);
    NonNegativeThroughout(md5, hashMode, bot, b, toks);
    RowsMakeSafe(bot, RewrittenText(md5, hashMode, bot, b, text).0, toks);
    MentionsReturn(md5, hashMode, bot, b, text);
  }
}
