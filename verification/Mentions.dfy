/**
 * Mentions: (met)N(met) in a received message becomes [CQ:at,qq=M], and back when a message is sent
 * (handlers/message_parser.go).
 */
module Mentions {
  import opened Wrappers
  import opened Decimal
  import opened RowId
  import opened Bucket
  import opened IdMap
  import opened IdDatabase

  /** A scanned text: single characters, and references open \d+ close whose digits are kept. */
  datatype Token = Chr(c: char) | Ref(id: string)

  const MET := "(met)"
  const AT_OPEN := "[CQ:at,qq="
  const REPLY_OPEN := "[CQ:reply,id="
  const CQ_CLOSE := "]"

  /** The digits of a match of open \d+ close at the start of the text. */
  function MatchRef(open_: string, close_: string, s: string): (r: Option<string>)
    ensures r.Some? ==> r.value != "" && AllDigits(r.value) && open_ + r.value + close_ <= s
  {
    if !(open_ <= s) then None
    else
      var t := s[|open_|..];
      var n := DigitRun(t);
      if n > 0 && close_ <= t[n..] then
        assert s == open_ + t && t == t[..n] + t[n..];
        Some(t[..n])
      else None
  }

  /** The match or the single character at the start of the text, and the text after it. */
  function Front(open_: string, close_: string, s: string): (r: (Token, string))
    requires s != ""
    ensures |r.1| < |s|
    ensures r.0.Ref? ==> r.0.id != "" && AllDigits(r.0.id) && s == open_ + r.0.id + close_ + r.1
    ensures r.0.Chr? ==> s == [r.0.c] + r.1
  {
    match MatchRef(open_, close_, s)
    case None => (Chr(s[0]), s[1..])
    case Some(d) =>
      assert open_ + d + close_ == s[..|open_ + d + close_|];
      (Ref(d), s[|open_ + d + close_|..])
  }

  /** Leftmost non-overlapping matches of open \d+ close. */
  function Scan(open_: string, close_: string, s: string): seq<Token>
    decreases |s|
  {
    if s == "" then []
    else
      var (tok, rest) := Front(open_, close_, s);
      [tok] + Scan(open_, close_, rest)
  }

  /** The text with every reference replaced by f of its digits. */
  function Render(f: string -> string, toks: seq<Token>): string {
    if toks == [] then ""
    else (if toks[0].Chr? then [toks[0].c] else f(toks[0].id)) + Render(f, toks[1..])
  }

  /** regexp.ReplaceAllStringFunc for the pattern open \d+ close. */
  function ReplaceRefs(open_: string, close_: string, f: string -> string, s: string): string {
    Render(f, Scan(open_, close_, s))
  }

  function MetText(id: string): string {
    MET + id + MET
  }

  function AtText(number: string): string {
    AT_OPEN + number + CQ_CLOSE
  }

  // ---------------------------------------------------------------- received messages

  datatype BotConfig = BotConfig(botID: string, removeAt: bool)

  /** The bucket after a mention has been met: every user but the bot is stored. */
  function AfterMention(md5: Md5, hashMode: bool, bot: BotConfig, b: Store, id: string): Store {
    if id == bot.botID then b else Stored(md5, hashMode, b, id).bucket
  }

  /** The number put into the CQ code: the row, or the id itself for the bot and when storing fails. */
  function Label(md5: Md5, hashMode: bool, bot: BotConfig, b: Store, id: string): string {
    if id == bot.botID then id
    else
      match Stored(md5, hashMode, b, id).result
      case Ok(row) => FormatInt(row)
      case Err(_) => id
  }

  /** What stands in place of one mention. */
  function MentionCode(md5: Md5, hashMode: bool, bot: BotConfig, b: Store, id: string): string {
    if id == bot.botID && bot.removeAt then "" else AtText(Label(md5, hashMode, bot, b, id))
  }

  /** The mention stage of RevertTransformedText on a scanned text, for either setting of remove_at. */
  function Rewritten(md5: Md5, hashMode: bool, bot: BotConfig, b: Store, toks: seq<Token>): (Store, string)
    decreases |toks|
  {
    if toks == [] then (b, "")
    else if toks[0].Chr? then
      var (b', rest) := Rewritten(md5, hashMode, bot, b, toks[1..]);
      (b', [toks[0].c] + rest)
    else
      var id := toks[0].id;
      var (b', rest) := Rewritten(md5, hashMode, bot, AfterMention(md5, hashMode, bot, b, id), toks[1..]);
      (b', MentionCode(md5, hashMode, bot, b, id) + rest)
  }

  /** The bucket and the code one token leads to. */
  function TokenRewritten(md5: Md5, hashMode: bool, bot: BotConfig, b: Store, tok: Token): (Store, string) {
    match tok
    case Chr(c) => (b, [c])
    case Ref(id) => (AfterMention(md5, hashMode, bot, b, id), MentionCode(md5, hashMode, bot, b, id))
  }

  /** The mention stage of RevertTransformedText: the bucket and the text after it. */
  function RewrittenText(md5: Md5, hashMode: bool, bot: BotConfig, b: Store, s: string): (Store, string) {
    Rewritten(md5, hashMode, bot, b, Scan(MET, MET, s))
  }

  lemma ScanFront(open_: string, close_: string, s: string)
    requires s != ""
    ensures var (tok, rest) := Front(open_, close_, s);
            Scan(open_, close_, s) == [tok] + Scan(open_, close_, rest)
  {
  }

  lemma RewrittenFront(md5: Md5, hashMode: bool, bot: BotConfig, b: Store, s: string)
    requires s != ""
    ensures var (tok, rest) := Front(MET, MET, s);
            var (b1, code) := TokenRewritten(md5, hashMode, bot, b, tok);
            var (b2, more) := RewrittenText(md5, hashMode, bot, b1, rest);
            RewrittenText(md5, hashMode, bot, b, s) == (b2, code + more)
  {
  }

  /** Translates one token, storing the mentioned user. */
  method RewriteToken(db: Database, hashMode: bool, bot: BotConfig, tok: Token) returns (code: string)
    modifies db
    ensures (db.bucket, code) == TokenRewritten(db.md5, hashMode, bot, old(db.bucket), tok)
  {
    if tok.Chr? {
      return [tok.c];
    }
    if tok.id == bot.botID {
      return if bot.removeAt then "" else AtText(bot.botID);
    }
    var row := db.StoreID(tok.id, hashMode);
    return AtText(if row.Ok? then FormatInt(row.value) else tok.id);
  }

  /** Translates the match or the single character at the start of the text. */
  method RewriteFront(db: Database, hashMode: bool, bot: BotConfig, text: string) returns (code: string, next: string)
    requires text != ""
    modifies db
    ensures |next| < |text|
    ensures var (b, more) := RewrittenText(db.md5, hashMode, bot, db.bucket, next);
            RewrittenText(db.md5, hashMode, bot, old(db.bucket), text) == (b, code + more)
  {
    RewrittenFront(db.md5, hashMode, bot, db.bucket, text);
    var (tok, rest) := Front(MET, MET, text);
    code := RewriteToken(db, hashMode, bot, tok);
    next := rest;
  }

  method RewriteMentions(db: Database, hashMode: bool, bot: BotConfig, text: string) returns (out: string)
    modifies db
    ensures (db.bucket, out) == RewrittenText(db.md5, hashMode, bot, old(db.bucket), text)
  {
    out := "";
    var rest := text;
    ghost var whole := RewrittenText(db.md5, hashMode, bot, db.bucket, text);
    assert out + whole.1 == whole.1;
    while rest != ""
      invariant var (b, more) := RewrittenText(db.md5, hashMode, bot, db.bucket, rest);
                whole == (b, out + more)
      decreases |rest|
    {
      var code, next := RewriteFront(db, hashMode, bot, rest);
      ghost var more := RewrittenText(db.md5, hashMode, bot, db.bucket, next).1;
      assert out + (code + more) == (out + code) + more;
      out := out + code;
      rest := next;
    }
    assert out + "" == out;
  }

  // ---------------------------------------------------------------- sent messages

  /** What one [CQ:at,qq=d] becomes. */
  function Restored(b: Store, removeBotAtGroup: bool, d: string): string {
    match Retrieved(b, d)
    case Err(_) => MetText(d)
    case Ok(userID) => if removeBotAtGroup && |userID| == 32 then "" else MetText(userID)
  }

  function Restorer(b: Store, removeBotAtGroup: bool): string -> string {
    d => Restored(b, removeBotAtGroup, d)
  }

  function Erase(d: string): string {
    ""
  }

  /** transformMessageTextAt: replies are dropped, then mentions are translated back. */
  function Sent(b: Store, removeBotAtGroup: bool, s: string): string {
    ReplaceRefs(AT_OPEN, CQ_CLOSE, Restorer(b, removeBotAtGroup), ReplaceRefs(REPLY_OPEN, CQ_CLOSE, Erase, s))
  }
}
