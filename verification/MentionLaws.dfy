/** Translating a received message's mentions and sending the result back (handlers/message_parser.go). */
module MentionLaws {
  import opened Wrappers
  import opened Decimal
  import opened RowId
  import opened Bucket
  import opened IdMap
  import opened Mentions

  // ---------------------------------------------------------------- scanning and printing

  function RenderMet(toks: seq<Token>): string {
    Render(MetText, toks)
  }

  function RenderAt(toks: seq<Token>): string {
    Render(AtText, toks)
  }

  predicate RefsAreDigits(toks: seq<Token>) {
    toks == [] || ((toks[0].Ref? ==> toks[0].id != "" && AllDigits(toks[0].id)) && RefsAreDigits(toks[1..]))
  }

  /** Printing a scanned text gives the text back: nothing is lost, stray (met) fragments included. */
  lemma {:induction false} RenderUndoesScan(s: string)
    ensures RenderMet(Scan(MET, MET, s)) == s
    ensures RefsAreDigits(Scan(MET, MET, s))
    decreases |s|
  {
    if s != "" {
      var (tok, rest) := Front(MET, MET, s);
      RenderUndoesScan(rest);
      RenderCons(MetText, tok, Scan(MET, MET, rest));
    }
  }

  lemma RenderCons(f: string -> string, tok: Token, toks: seq<Token>)
    ensures Render(f, [tok] + toks) == (if tok.Chr? then [tok.c] else f(tok.id)) + Render(f, toks)
  {
  }

  /** The tokens start with the characters of p, each as a single character. */
  predicate StartsWith(p: string, toks: seq<Token>)
    decreases |p|
  {
    p == "" || (toks != [] && toks[0] == Chr(p[0]) && StartsWith(p[1..], toks[1..]))
  }

  /** No run of single characters spells the opening of a CQ code. */
  predicate Quiet(toks: seq<Token>) {
    toks == [] || (!StartsWith("[CQ:", toks) && Quiet(toks[1..]))
  }

  ghost predicate NoCqCode(s: string) {
    forall i :: 0 <= i <= |s| ==> !("[CQ:" <= s[i..])
  }

  lemma {:induction false} StartsWithPrints(p: string, toks: seq<Token>)
    requires StartsWith(p, toks)
    ensures p <= RenderMet(toks)
    decreases |p|
  {
    if p != "" {
      StartsWithPrints(p[1..], toks[1..]);
      assert p == [p[0]] + p[1..];
    }
  }

  lemma {:induction false} NoCqCodeIsQuiet(toks: seq<Token>)
    requires NoCqCode(RenderMet(toks))
    ensures Quiet(toks)
  {
    if toks != [] {
      var s, rest := RenderMet(toks), RenderMet(toks[1..]);
      assert s[0..] == s;
      if StartsWith("[CQ:", toks) {
        StartsWithPrints("[CQ:", toks);
      }
      var skip := |s| - |rest|;
      forall i | 0 <= i <= |rest| ensures !("[CQ:" <= rest[i..]) {
        assert rest[i..] == s[skip + i..];
      }
      NoCqCodeIsQuiet(toks[1..]);
    }
  }

  /** A CQ code starts with a bracket, so text without one can only be spelled by single characters. */
  lemma {:induction false} PlainPrefixIsLiteral(p: string, toks: seq<Token>)
    requires '[' !in p && p <= RenderAt(toks)
    ensures StartsWith(p, toks)
    decreases |p|
  {
    if p != "" {
      var s := RenderAt(toks);
      assert s[0] == p[0] && p[0] in p;
      if toks[0].Chr? {
        assert s[1..] == RenderAt(toks[1..]);
        assert p == [p[0]] + p[1..];
        PlainPrefixIsLiteral(p[1..], toks[1..]);
      }
    }
  }

  /** In quiet tokens a CQ code never starts at a single character. */
  lemma NoCodeAtCharacter(toks: seq<Token>)
    requires toks != [] && toks[0].Chr? && !StartsWith("[CQ:", toks)
    ensures !("[CQ:" <= RenderAt(toks))
  {
    var s := RenderAt(toks);
    assert s[1..] == RenderAt(toks[1..]);
    assert "[CQ:"[1..] == "CQ:";
    if "[CQ:" <= s {
      assert s[1..4] == "CQ:" && "CQ:" <= s[1..];
      PlainPrefixIsLiteral("CQ:", toks[1..]);
    }
  }

  // ---------------------------------------------------------------- replacing in a printed text

  lemma ReplaceAtCharacter(open_: string, close_: string, f: string -> string, s: string)
    requires s != "" && MatchRef(open_, close_, s).None?
    ensures ReplaceRefs(open_, close_, f, s) == [s[0]] + ReplaceRefs(open_, close_, f, s[1..])
  {
  }

  lemma ReplaceAtMatch(open_: string, close_: string, f: string -> string, d: string, rest: string)
    requires d != "" && AllDigits(d) && close_ != "" && !IsDigit(close_[0])
    ensures ReplaceRefs(open_, close_, f, open_ + d + close_ + rest) == f(d) + ReplaceRefs(open_, close_, f, rest)
  {
    var s := open_ + d + close_ + rest;
    var t := s[|open_|..];
    assert t == d + (close_ + rest) && s == open_ + t;
    DigitRunStops(d, close_ + rest);
    assert t[|d|..] == close_ + rest && t[..|d|] == d;
    assert MatchRef(open_, close_, s) == Some(d);
    assert s[|open_ + d + close_|..] == rest;
    ScanFront(open_, close_, s);
    RenderCons(f, Ref(d), Scan(open_, close_, rest));
  }

  /** No match starts inside text without the bracket that opens the pattern. */
  lemma {:induction false} ReplaceSkips(open_: string, close_: string, f: string -> string, p: string, rest: string)
    requires open_ != "" && open_[0] !in p
    ensures ReplaceRefs(open_, close_, f, p + rest) == p + ReplaceRefs(open_, close_, f, rest)
    decreases |p|
  {
    if p == "" {
      assert p + rest == rest;
    } else {
      var s := p + rest;
      assert s[0] == p[0] && p[0] in p && s[1..] == p[1..] + rest;
      ReplaceAtCharacter(open_, close_, f, s);
      ReplaceSkips(open_, close_, f, p[1..], rest);
      assert p == [p[0]] + p[1..];
    }
  }

  /** A code whose text does not match is copied whole. */
  lemma ReplaceCopies(open_: string, close_: string, f: string -> string, c: char, tail: string, rest: string)
    requires open_ != "" && open_[0] !in tail && MatchRef(open_, close_, [c] + (tail + rest)).None?
    ensures ReplaceRefs(open_, close_, f, [c] + (tail + rest)) == [c] + (tail + ReplaceRefs(open_, close_, f, rest))
  {
    var s := [c] + (tail + rest);
    assert s[1..] == tail + rest;
    ReplaceAtCharacter(open_, close_, f, s);
    ReplaceSkips(open_, close_, f, tail, rest);
  }

  // ---------------------------------------------------------------- what is recognised

  /** A match is the opening, a numeral and the closing at the start of the text, and there is one match at most. */
  lemma MatchRefExactly(open_: string, close_: string, s: string, d: string)
    requires close_ != "" && !IsDigit(close_[0])
    ensures MatchRef(open_, close_, s) == Some(d) <==> d != "" && AllDigits(d) && open_ + d + close_ <= s
  {
    if d != "" && AllDigits(d) && open_ + d + close_ <= s {
      var rest := s[|open_ + d + close_|..];
      assert s == open_ + d + close_ + rest;
      var t := s[|open_|..];
      assert t == d + (close_ + rest) && s == open_ + t;
      DigitRunStops(d, close_ + rest);
      assert t[|d|..] == close_ + rest && t[..|d|] == d;
    }
  }

  lemma RewrittenCharacter(md5: Md5, hashMode: bool, bot: BotConfig, b: Store, c: char, rest: string)
    requires c != '('
    ensures var (b', more) := RewrittenText(md5, hashMode, bot, b, rest);
            RewrittenText(md5, hashMode, bot, b, [c] + rest) == (b', [c] + more)
  {
    var s := [c] + rest;
    assert s[1..] == rest && MatchRef(MET, MET, s).None?;
    RewrittenFront(md5, hashMode, bot, b, s);
  }

  predicate Copies(g: string -> (Store, string), p: string, rest: string) {
    g(p + rest) == (g(rest).0, p + g(rest).1)
  }

  lemma CopiesMore(g: string -> (Store, string), c: char, p: string, rest: string)
    requires Copies(g, [c], p + rest) && Copies(g, p, rest)
    ensures Copies(g, [c] + p, rest)
  {
    assert [c] + p + rest == [c] + (p + rest);
    assert [c] + p + g(rest).1 == [c] + (p + g(rest).1);
  }

  lemma {:induction false} CopiesText(g: string -> (Store, string), p: string, rest: string)
    requires '(' !in p && forall c, rest' :: c != '(' ==> Copies(g, [c], rest')
    ensures Copies(g, p, rest)
    decreases |p|
  {
    if p == "" {
      assert p + rest == rest && p + g(rest).1 == g(rest).1;
    } else {
      CopiesText(g, p[1..], rest);
      assert p[0] in p && Copies(g, [p[0]], p[1..] + rest);
      CopiesMore(g, p[0], p[1..], rest);
      assert p == [p[0]] + p[1..];
    }
  }

  /** Receiving copies what stands before a parenthesis. */
  lemma RewritingSkips(md5: Md5, hashMode: bool, bot: BotConfig, b: Store, p: string, rest: string)
    requires '(' !in p
    ensures var (b', more) := RewrittenText(md5, hashMode, bot, b, rest);
            RewrittenText(md5, hashMode, bot, b, p + rest) == (b', p + more)
  {
    var g := (s: string) => RewrittenText(md5, hashMode, bot, b, s);
    forall c, rest' | c != '(' ensures Copies(g, [c], rest') {
      RewrittenCharacter(md5, hashMode, bot, b, c, rest');
    }
    CopiesText(g, p, rest);
    assert Copies(g, p, rest);
  }

  /**
   * Receiving translates every mention: nothing or its own number for the bot, the row for a user that could be
   * stored, and its own number for another. What follows is translated with the bucket then reached.
   */
  lemma MentionIsRewritten(md5: Md5, hashMode: bool, bot: BotConfig, b: Store, d: string, rest: string)
    requires d != "" && AllDigits(d)
    ensures var o := Stored(md5, hashMode, b, d);
            var b1 := if d == bot.botID then b else o.bucket;
            var number := if d != bot.botID && o.result.Ok? then FormatInt(o.result.value) else d;
            var code := if d == bot.botID && bot.removeAt then "" else "[CQ:at,qq=" + number + "]";
            var (b', more) := RewrittenText(md5, hashMode, bot, b1, rest);
            RewrittenText(md5, hashMode, bot, b, "(met)" + d + "(met)" + rest) == (b', code + more)
  {
    var s := MET + d + MET + rest;
    MatchRefExactly(MET, MET, s, d);
    assert s[|MET + d + MET|..] == rest;
    RewrittenFront(md5, hashMode, bot, b, s);
  }

  /** A character at which no mention starts is copied, a stray parenthesis too. */
  lemma StrayIsCopied(md5: Md5, hashMode: bool, bot: BotConfig, b: Store, s: string)
    requires s != "" && forall d :: d != "" && AllDigits(d) ==> !("(met)" + d + "(met)" <= s)
    ensures var (b', more) := RewrittenText(md5, hashMode, bot, b, s[1..]);
            RewrittenText(md5, hashMode, bot, b, s) == (b', [s[0]] + more)
  {
    RewrittenFront(md5, hashMode, bot, b, s);
  }

  // ---------------------------------------------------------------- sending a relabelled text

  /** Labels are ids or printed rows: digits only, or led by a minus sign. */
  predicate IsLabel(number: string) {
    number != "" && (AllDigits(number) || number[0] == '-') && '[' !in number
  }

  predicate RefsAreLabels(toks: seq<Token>) {
    toks == [] || ((toks[0].Ref? ==> IsLabel(toks[0].id)) && RefsAreLabels(toks[1..]))
  }

  /** What sending makes of one code: a negative label is not recognised and the code stays. */
  function CodeSent(f: string -> string, number: string): string {
    if AllDigits(number) then f(number) else AtText(number)
  }

  function CodeSender(f: string -> string): string -> string {
    number => CodeSent(f, number)
  }

  /** A code seen as its bracket and the rest. */
  function AtTail(number: string): string {
    "CQ:at,qq=" + number + "]"
  }

  lemma AtTextShape(number: string, rest: string)
    requires IsLabel(number)
    ensures '[' !in AtTail(number)
    ensures AtText(number) + rest == ['['] + (AtTail(number) + rest)
  {
  }

  lemma CodeIsSent(f: string -> string, number: string, rest: string)
    requires IsLabel(number)
    ensures ReplaceRefs(AT_OPEN, CQ_CLOSE, f, AtText(number) + rest)
         == CodeSent(f, number) + ReplaceRefs(AT_OPEN, CQ_CLOSE, f, rest)
  {
    if AllDigits(number) {
      ReplaceAtMatch(AT_OPEN, CQ_CLOSE, f, number, rest);
    } else {
      AtTextShape(number, rest);
      NegativeIsNoMatch(number, rest);
      ReplaceCopies(AT_OPEN, CQ_CLOSE, f, '[', AtTail(number), rest);
      AtTextShape(number, ReplaceRefs(AT_OPEN, CQ_CLOSE, f, rest));
    }
  }

  lemma NegativeIsNoMatch(number: string, rest: string)
    requires number != "" && !IsDigit(number[0])
    ensures MatchRef(AT_OPEN, CQ_CLOSE, AtText(number) + rest).None?
  {
    assert (AtText(number) + rest)[|AT_OPEN|..] == number + CQ_CLOSE + rest;
  }

  lemma CodeIsNoReply(f: string -> string, number: string, rest: string)
    requires IsLabel(number)
    ensures ReplaceRefs(REPLY_OPEN, CQ_CLOSE, f, AtText(number) + rest)
         == AtText(number) + ReplaceRefs(REPLY_OPEN, CQ_CLOSE, f, rest)
  {
    AtTextShape(number, rest);
    assert (AtText(number) + rest)[4] == 'a' && REPLY_OPEN[4] == 'r';
    ReplaceCopies(REPLY_OPEN, CQ_CLOSE, f, '[', AtTail(number), rest);
    AtTextShape(number, ReplaceRefs(REPLY_OPEN, CQ_CLOSE, f, rest));
  }

  lemma PrefixTransitive(a: string, b: string, c: string)
    requires a <= b <= c
    ensures a <= c
  {
  }

  lemma QuietFrontIsNoMatch(open_: string, toks: seq<Token>)
    requires toks != [] && toks[0].Chr? && !StartsWith("[CQ:", toks) && "[CQ:" <= open_
    ensures MatchRef(open_, CQ_CLOSE, RenderAt(toks)).None?
  {
    NoCodeAtCharacter(toks);
    var s := RenderAt(toks);
    if open_ <= s {
      PrefixTransitive("[CQ:", open_, s);
    }
  }

  /** Dropping replies does not touch a relabelled text. */
  lemma {:induction false} NoReplies(f: string -> string, toks: seq<Token>)
    requires Quiet(toks) && RefsAreLabels(toks)
    ensures ReplaceRefs(REPLY_OPEN, CQ_CLOSE, f, RenderAt(toks)) == RenderAt(toks)
  {
    if toks != [] {
      NoReplies(f, toks[1..]);
      RenderCons(AtText, toks[0], toks[1..]);
      if toks[0].Chr? {
        QuietFrontIsNoMatch(REPLY_OPEN, toks);
        ReplaceAtCharacter(REPLY_OPEN, CQ_CLOSE, f, RenderAt(toks));
        assert RenderAt(toks)[1..] == RenderAt(toks[1..]);
      } else {
        CodeIsNoReply(f, toks[0].id, RenderAt(toks[1..]));
      }
    }
  }

  /** Translating the mentions of a relabelled text translates exactly its labels. */
  lemma {:induction false} LabelsAreSent(f: string -> string, toks: seq<Token>)
    requires Quiet(toks) && RefsAreLabels(toks)
    ensures ReplaceRefs(AT_OPEN, CQ_CLOSE, f, RenderAt(toks)) == Render(CodeSender(f), toks)
  {
    if toks != [] {
      LabelsAreSent(f, toks[1..]);
      RenderCons(AtText, toks[0], toks[1..]);
      if toks[0].Chr? {
        QuietFrontIsNoMatch(AT_OPEN, toks);
        ReplaceAtCharacter(AT_OPEN, CQ_CLOSE, f, RenderAt(toks));
        assert RenderAt(toks)[1..] == RenderAt(toks[1..]);
      } else {
        CodeIsSent(f, toks[0].id, RenderAt(toks[1..]));
      }
    }
  }

  // ---------------------------------------------------------------- sending any text

  lemma SentTwice(b: Store, removeBotAtGroup: bool, s: string)
    ensures Sent(b, removeBotAtGroup, s)
         == ReplaceRefs(AT_OPEN, CQ_CLOSE, Restorer(b, removeBotAtGroup), ReplaceRefs(REPLY_OPEN, CQ_CLOSE, Erase, s))
  {
  }

  /** Sending copies what stands before a bracket. */
  lemma SendingSkips(b: Store, removeBotAtGroup: bool, p: string, rest: string)
    requires '[' !in p
    ensures Sent(b, removeBotAtGroup, p + rest) == p + Sent(b, removeBotAtGroup, rest)
  {
    var f := Restorer(b, removeBotAtGroup);
    ReplaceSkips(REPLY_OPEN, CQ_CLOSE, Erase, p, rest);
    ReplaceSkips(AT_OPEN, CQ_CLOSE, f, p, ReplaceRefs(REPLY_OPEN, CQ_CLOSE, Erase, rest));
  }

  lemma NothingSent(b: Store, removeBotAtGroup: bool)
    ensures Sent(b, removeBotAtGroup, "") == ""
  {
  }

  /** Sending drops every reply. */
  lemma ReplyIsDropped(b: Store, removeBotAtGroup: bool, d: string, rest: string)
    requires d != "" && AllDigits(d)
    ensures Sent(b, removeBotAtGroup, "[CQ:reply,id=" + d + "]" + rest) == Sent(b, removeBotAtGroup, rest)
  {
    ReplaceAtMatch(REPLY_OPEN, CQ_CLOSE, Erase, d, rest);
    assert Erase(d) + ReplaceRefs(REPLY_OPEN, CQ_CLOSE, Erase, rest) == ReplaceRefs(REPLY_OPEN, CQ_CLOSE, Erase, rest);
  }

  /**
   * Sending translates every mention: a number that is no row is mentioned as it is, and a row as the user behind it,
   * unless bots of 32 characters are to be left out in groups.
   */
  lemma MentionIsSent(b: Store, removeBotAtGroup: bool, d: string, rest: string)
    requires d != "" && AllDigits(d)
    ensures var user := Retrieved(b, d);
            var id := if user.Ok? then user.value else d;
            var mention := if removeBotAtGroup && user.Ok? && |id| == 32 then "" else "(met)" + id + "(met)";
            Sent(b, removeBotAtGroup, "[CQ:at,qq=" + d + "]" + rest) == mention + Sent(b, removeBotAtGroup, rest)
  {
    var f, dropped := Restorer(b, removeBotAtGroup), ReplaceRefs(REPLY_OPEN, CQ_CLOSE, Erase, rest);
    assert !IsDigit('[');
    CodeIsNoReply(Erase, d, rest);
    ReplaceAtMatch(AT_OPEN, CQ_CLOSE, f, d, dropped);
  }

  // ---------------------------------------------------------------- mentions of the bot

  /** The tokens without the references to the bot. */
  function WithoutBot(bot: BotConfig, toks: seq<Token>): seq<Token> {
    if toks == [] then []
    else if toks[0] == Ref(bot.botID) then WithoutBot(bot, toks[1..])
    else [toks[0]] + WithoutBot(bot, toks[1..])
  }

  lemma RewrittenCons(md5: Md5, hashMode: bool, bot: BotConfig, b: Store, tok: Token, toks: seq<Token>)
    ensures var (b1, code) := TokenRewritten(md5, hashMode, bot, b, tok);
            var (b2, rest) := Rewritten(md5, hashMode, bot, b1, toks);
            Rewritten(md5, hashMode, bot, b, [tok] + toks) == (b2, code + rest)
  {
    assert ([tok] + toks)[1..] == toks;
  }

  /** With remove_at on a mention of the bot leaves nothing, and every other token what it leaves with it off. */
  lemma TokenWithRemoval(md5: Md5, hashMode: bool, bot: BotConfig, b: Store, tok: Token)
    requires bot.removeAt
    ensures var off := TokenRewritten(md5, hashMode, bot.(removeAt := false), b, tok);
            && TokenRewritten(md5, hashMode, bot, b, tok) == (off.0, if tok == Ref(bot.botID) then "" else off.1)
            && (tok == Ref(bot.botID) ==> off.0 == b)
  {
  }

  /** What follows a token decides what follows its code. */
  lemma SameRestSameText(md5: Md5, hashMode: bool, bot: BotConfig, other: BotConfig, b: Store, tok: Token,
                         toks: seq<Token>, toks': seq<Token>)
    requires TokenRewritten(md5, hashMode, bot, b, tok) == TokenRewritten(md5, hashMode, other, b, tok)
    requires var b1 := TokenRewritten(md5, hashMode, bot, b, tok).0;
             Rewritten(md5, hashMode, bot, b1, toks) == Rewritten(md5, hashMode, other, b1, toks')
    ensures Rewritten(md5, hashMode, bot, b, [tok] + toks) == Rewritten(md5, hashMode, other, b, [tok] + toks')
  {
    RewrittenCons(md5, hashMode, bot, b, tok, toks);
    RewrittenCons(md5, hashMode, other, b, tok, toks');
  }

  /** With remove_at on, the text is the one got with it off after the references to the bot alone are dropped. */
  lemma {:induction false} RemovesOnlyTheBot(md5: Md5, hashMode: bool, bot: BotConfig, b: Store, toks: seq<Token>)
    requires bot.removeAt
    ensures Rewritten(md5, hashMode, bot, b, toks)
         == Rewritten(md5, hashMode, bot.(removeAt := false), b, WithoutBot(bot, toks))
    decreases |toks|
  {
    if toks != [] {
      var tok, rest := toks[0], toks[1..];
      var b1 := TokenRewritten(md5, hashMode, bot, b, tok).0;
      RemovesOnlyTheBot(md5, hashMode, bot, b1, rest);
      TokenWithRemoval(md5, hashMode, bot, b, tok);
      assert toks == [tok] + rest;
      if tok == Ref(bot.botID) {
        RewrittenCons(md5, hashMode, bot, b, tok, rest);
        assert "" + Rewritten(md5, hashMode, bot, b, rest).1 == Rewritten(md5, hashMode, bot, b, rest).1;
      } else {
        SameRestSameText(md5, hashMode, bot, bot.(removeAt := false), b, tok, rest, WithoutBot(bot, rest));
      }
    }
  }

  /** And the bucket is the one left with it off. */
  lemma {:induction false} RemovalKeepsBucket(md5: Md5, hashMode: bool, bot: BotConfig, b: Store, toks: seq<Token>)
    requires bot.removeAt
    ensures Rewritten(md5, hashMode, bot, b, toks).0 == Rewritten(md5, hashMode, bot.(removeAt := false), b, toks).0
    decreases |toks|
  {
    if toks != [] {
      RemovalKeepsBucket(md5, hashMode, bot, TokenRewritten(md5, hashMode, bot, b, toks[0]).0, toks[1..]);
    }
  }
}
