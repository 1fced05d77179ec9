/** A received text passes slash, white list, black list, visual prefixes, aliases (handlers/message_parser.go). */
module MessageFilter {
  import opened Wrappers
  import opened Bucket
  import opened Decimal
  import opened IdDatabase
  import opened MentionLaws
  import opened Mentions
  import opened RowId
  import opened Text

  datatype VisualPrefix = VisualPrefix(prefix: string, whiteList: seq<string>, noWhiteResponse: string)

  datatype FilterConfig = FilterConfig(
    removePrefix: bool,
    whiteMode: bool,
    bypassReversed: bool,
    bypass: seq<int>,
    whitePrefixes: seq<string>,
    temporaryCommands: seq<string>,
    noWhiteResponse: string,
    blackMode: bool,
    blackPrefixes: seq<string>,
    visualPrefixes: seq<VisualPrefix>,
    aliases: seq<string>)

  /** Who sent the message and where, and whether the caller wants the outer white list at all. */
  datatype Origin = Origin(vgid: int, vuid: int, whiteEnabled: bool)

  /** A text and the responses sent on the way. */
  datatype Filtered = Filtered(text: string, responses: seq<string>)

  // ---------------------------------------------------------------- the stages

  function SlashRemoved(cfg: FilterConfig, text: string): string {
    if !cfg.removePrefix then text
    else
      match Index(text, "/")
      case None => text
      case Some(i) => text[..i] + text[i + 1..]
  }

  predicate HasAnyPrefix(text: string, prefixes: seq<string>) {
    exists i :: 0 <= i < |prefixes| && prefixes[i] <= text
  }

  predicate Bypassed(cfg: FilterConfig, origin: Origin) {
    var listed := origin.vgid in cfg.bypass || origin.vuid in cfg.bypass;
    if cfg.bypassReversed then !listed else listed
  }

  predicate OuterWhiteApplies(cfg: FilterConfig, origin: Origin) {
    cfg.whiteMode && origin.whiteEnabled && !Bypassed(cfg, origin)
  }

  function WhiteListed(cfg: FilterConfig, origin: Origin, text: string): Filtered {
    if OuterWhiteApplies(cfg, origin) && !HasAnyPrefix(text, cfg.whitePrefixes + cfg.temporaryCommands)
    then Filtered("", [cfg.noWhiteResponse])
    else Filtered(text, [])
  }

  function BlackListed(cfg: FilterConfig, text: string): string {
    if cfg.blackMode && HasAnyPrefix(text, cfg.blackPrefixes) then "" else text
  }

  /** The text after the visual prefixes, the one that was removed, and the special prefix to put back. */
  datatype Visual = Visual(text: string, matched: Option<VisualPrefix>, special: Option<string>)

  predicate IsSpecial(vp: VisualPrefix) {
    "*" <= vp.prefix
  }

  /** Only the first prefix shorter than the text is removed; an equally long special one is merely noted. */
  function VisualStage(vps: seq<VisualPrefix>, text: string, special: Option<string>): Visual {
    if vps == [] then Visual(text, None, special)
    else
      var prefix := TrimPrefix(vps[0].prefix, "*");
      if !(prefix <= text) then VisualStage(vps[1..], text, special)
      else
        var noted := if IsSpecial(vps[0]) then Some(vps[0].prefix) else special;
        if |text| <= |prefix| then VisualStage(vps[1..], text, noted)
        else if text == " " then Visual(text, None, noted)
        else Visual(TrimSpace(text[|prefix|..]), Some(vps[0].(prefix := prefix)), noted)
  }

  /** processMessageText: each pair replaces the first occurrence of its first half; an odd last entry is ignored. */
  function Aliased(text: string, aliases: seq<string>): string
    decreases |aliases|
  {
    if |aliases| < 2 then text else Aliased(ReplaceFirst(text, aliases[0], aliases[1]), aliases[2..])
  }

  function InnerWhiteListed(cfg: FilterConfig, origin: Origin, matched: Option<VisualPrefix>, text: string): Filtered {
    if cfg.whiteMode && matched.Some? && !Bypassed(cfg, origin)
       && !HasAnyPrefix(text, matched.value.whiteList + cfg.temporaryCommands)
    then Filtered("", [matched.value.noWhiteResponse])
    else Filtered(text, [])
  }

  function SpecialRestored(v: Visual, text: string): string {
    if v.special.Some? && v.matched.Some? then TrimPrefix(v.special.value, "*") + text else text
  }

  /** Everything after the outer lists. */
  function AfterLists(cfg: FilterConfig, origin: Origin, text: string): Filtered {
    var v := VisualStage(cfg.visualPrefixes, text, None);
    var inner := InnerWhiteListed(cfg, origin, v.matched, Aliased(v.text, cfg.aliases));
    Filtered(SpecialRestored(v, inner.text), inner.responses)
  }

  /** All stages from the removal of the slash on. */
  function Stages(cfg: FilterConfig, origin: Origin, text: string): Filtered {
    var white := WhiteListed(cfg, origin, SlashRemoved(cfg, text));
    var rest := AfterLists(cfg, origin, BlackListed(cfg, white.text));
    Filtered(rest.text, white.responses + rest.responses)
  }

  /** The text that reaches the stages: trimmed, mentions translated, trimmed again when mentions of the bot go. */
  function Prepared(md5: Md5, hashMode: bool, bot: BotConfig, b: Store, content: string): (Store, string) {
    if content == " " then RewrittenText(md5, hashMode, bot, b, " ")
    else
      var (b', text) := RewrittenText(md5, hashMode, bot, b, TrimSpace(content));
      (b', if bot.removeAt then TrimSpace(text) else text)
  }

  // ---------------------------------------------------------------- the operations

  method MatchesPrefix(text: string, prefixes: seq<string>) returns (matched: bool)
    ensures matched <==> HasAnyPrefix(text, prefixes)
    ensures matched <==> exists prefix :: prefix in prefixes && prefix <= text
  {
    for i := 0 to |prefixes|
      invariant forall j :: 0 <= j < i ==> !(prefixes[j] <= text)
    {
      if prefixes[i] <= text {
        assert prefixes[i] in prefixes;
        return true;
      }
    }
    return false;
  }

  method CheckBypass(cfg: FilterConfig, origin: Origin) returns (bypass: bool)
    ensures bypass == Bypassed(cfg, origin)
    ensures !cfg.bypassReversed ==>
              (bypass <==> exists id :: id in cfg.bypass && (id == origin.vgid || id == origin.vuid))
    ensures cfg.bypassReversed ==>
              (bypass <==> forall id :: id in cfg.bypass ==> id != origin.vgid && id != origin.vuid)
  {
    bypass := cfg.bypassReversed;
    for i := 0 to |cfg.bypass|
      invariant origin.vgid !in cfg.bypass[..i] && origin.vuid !in cfg.bypass[..i]
    {
      var id := cfg.bypass[i];
      if id == origin.vgid || id == origin.vuid {
        return !cfg.bypassReversed;
      }
    }
    assert cfg.bypass[..|cfg.bypass|] == cfg.bypass;
  }

  method RemoveVisualPrefix(vps: seq<VisualPrefix>, text: string) returns (v: Visual)
    ensures v == VisualStage(vps, text, None)
  {
    var special: Option<string> := None;
    for i := 0 to |vps|
      invariant VisualStage(vps, text, None) == VisualStage(vps[i..], text, special)
    {
      assert vps[i..][0] == vps[i] && vps[i..][1..] == vps[i + 1..];
      var prefix := TrimPrefix(vps[i].prefix, "*");
      if prefix <= text {
        if "*" <= vps[i].prefix {
          special := Some(vps[i].prefix);
        }
        if |text| > |prefix| {
          if text != " " {
            return Visual(TrimSpace(text[|prefix|..]), Some(vps[i].(prefix := prefix)), special);
          }
          return Visual(text, None, special);
        }
      }
    }
    return Visual(text, None, special);
  }

  method ProcessMessageText(text: string, aliases: seq<string>) returns (out: string)
    ensures out == Aliased(text, aliases)
  {
    out := text;
    var i := 0;
    while i < |aliases|
      invariant i <= |aliases| + 1
      invariant i <= |aliases| ==> Aliased(out, aliases[i..]) == Aliased(text, aliases)
      invariant i > |aliases| ==> out == Aliased(text, aliases)
    {
      if i + 1 < |aliases| {
        assert aliases[i..][2..] == aliases[i + 2..];
        out := ReplaceFirst(out, aliases[i], aliases[i + 1]);
      }
      i := i + 2;
    }
  }

  method RevertTransformedText(db: Database, hashMode: bool, bot: BotConfig, cfg: FilterConfig, origin: Origin,
                               content: string)
    returns (text: string, responses: seq<string>)
    modifies db
    ensures var (b, prepared) := Prepared(db.md5, hashMode, bot, old(db.bucket), content);
            db.bucket == b && Filtered(text, responses) == Stages(cfg, origin, prepared)
  {
    var menumsg := content == " ";
    text := RewriteMentions(db, hashMode, bot, if menumsg then " " else TrimSpace(content));
    if bot.removeAt && !menumsg {
      text := TrimSpace(text);
    }
    text, responses := ApplyStages(cfg, origin, text);
  }

  method ApplyStages(cfg: FilterConfig, origin: Origin, prepared: string) returns (text: string, responses: seq<string>)
    ensures Filtered(text, responses) == Stages(cfg, origin, prepared)
  {
    text, responses := SlashRemoved(cfg, prepared), [];
    if cfg.whiteMode && origin.whiteEnabled {
      var bypass := CheckBypass(cfg, origin);
      if !bypass {
        var matched := MatchesPrefix(text, cfg.whitePrefixes + cfg.temporaryCommands);
        if !matched {
          text, responses := "", responses + [cfg.noWhiteResponse];
        }
      }
    }
    if cfg.blackMode {
      var blocked := MatchesPrefix(text, cfg.blackPrefixes);
      if blocked {
        text := "";
      }
    }
    var v := RemoveVisualPrefix(cfg.visualPrefixes, text);
    text := ProcessMessageText(v.text, cfg.aliases);
    if cfg.whiteMode && v.matched.Some? {
      var bypass := CheckBypass(cfg, origin);
      if !bypass {
        var matched := MatchesPrefix(text, v.matched.value.whiteList + cfg.temporaryCommands);
        if !matched {
          text, responses := "", responses + [v.matched.value.noWhiteResponse];
        }
      }
    }
    if v.special.Some? && v.matched.Some? {
      text := TrimPrefix(v.special.value, "*") + text;
    }
  }

  // ---------------------------------------------------------------- what the visual prefixes do

  /** The prefix without its star begins the text and leaves something over. */
  predicate Shortens(vp: VisualPrefix, text: string) {
    TrimPrefix(vp.prefix, "*") <= text && |TrimPrefix(vp.prefix, "*")| < |text|
  }

  /** The first entry that begins the text and leaves something over is removed; a lone space is never touched. */
  lemma {:induction false} FirstShorterIsRemoved(vps: seq<VisualPrefix>, text: string, special: Option<string>, i: nat)
    requires i < |vps| && Shortens(vps[i], text) && forall j :: 0 <= j < i ==> !Shortens(vps[j], text)
    ensures var v := VisualStage(vps, text, special); var prefix := TrimPrefix(vps[i].prefix, "*");
            if text == " " then v.text == text && v.matched.None?
            else v.matched == Some(vps[i].(prefix := prefix)) && v.text == TrimSpace(text[|prefix|..])
  {
    if i > 0 {
      assert !Shortens(vps[0], text);
      assert forall j :: 0 <= j < i - 1 ==> vps[1..][j] == vps[j + 1];
      FirstShorterIsRemoved(vps[1..], text, special, i - 1);
      FirstShorterIsRemoved(vps[1..], text, Some(vps[0].prefix), i - 1);
    }
  }

  /** When no entry does, the text stays as it is. */
  lemma {:induction false} NoneShorterKeepsText(vps: seq<VisualPrefix>, text: string, special: Option<string>)
    requires forall j :: 0 <= j < |vps| ==> !Shortens(vps[j], text)
    ensures VisualStage(vps, text, special).text == text && VisualStage(vps, text, special).matched.None?
  {
    if vps != [] {
      assert !Shortens(vps[0], text);
      assert forall j :: 0 <= j < |vps| - 1 ==> vps[1..][j] == vps[j + 1];
      NoneShorterKeepsText(vps[1..], text, special);
      NoneShorterKeepsText(vps[1..], text, Some(vps[0].prefix));
    }
  }

  /** A special entry is noted when its prefix without the star begins the text, even if nothing is left over. */
  predicate Notes(vp: VisualPrefix, text: string) {
    vp.prefix != "" && vp.prefix[0] == '*' && vp.prefix[1..] <= text
  }

  lemma StarTrimmed(prefix: string)
    ensures TrimPrefix(prefix, "*") == if prefix != "" && prefix[0] == '*' then prefix[1..] else prefix
  {
  }

  /** The entries that are looked at: up to the first that shortens the text. */
  ghost predicate StopsAt(vps: seq<VisualPrefix>, text: string, n: nat) {
    && n <= |vps| && (forall j :: 0 <= j < n - 1 ==> !Shortens(vps[j], text))
    && (n < |vps| ==> n > 0 && Shortens(vps[n - 1], text))
  }

  /** The last special entry noted among those looked at is the one to put back. */
  lemma {:induction false} LastNotedIsKept(vps: seq<VisualPrefix>, text: string, special: Option<string>, n: nat)
    requires StopsAt(vps, text, n)
    ensures var v := VisualStage(vps, text, special);
            && (forall j :: 0 <= j < n && Notes(vps[j], text) && (forall k :: j < k < n ==> !Notes(vps[k], text))
                            ==> v.special == Some(vps[j].prefix))
            && ((forall j :: 0 <= j < n ==> !Notes(vps[j], text)) ==> v.special == special)
  {
    if n > 0 {
      var rest, noted := vps[1..], if Notes(vps[0], text) then Some(vps[0].prefix) else special;
      StarTrimmed(vps[0].prefix);
      assert forall j :: 0 <= j < |rest| ==> rest[j] == vps[j + 1];
      if n > 1 || !Shortens(vps[0], text) {
        assert !Shortens(vps[0], text);
        assert StopsAt(rest, text, n - 1);
        LastNotedIsKept(rest, text, noted, n - 1);
        assert VisualStage(vps, text, special) == VisualStage(rest, text, noted);
      }
    }
  }

  // ---------------------------------------------------------------- what the slash and the aliases do

  /** The first slash, and nothing else, is removed if the setting says so. */
  lemma SlashRemovedExactly(cfg: FilterConfig, pre: string, post: string)
    requires '/' !in pre
    ensures SlashRemoved(cfg, pre + "/" + post) == if cfg.removePrefix then pre + post else pre + "/" + post
    ensures SlashRemoved(cfg, pre) == pre
  {
    FirstCharacter(pre, '/', post);
    FoundCharacter(pre, '/');
    assert (pre + "/" + post)[|pre| + 1..] == post;
  }

  /** The first alias replaces the first occurrence of its pattern, keeping what stands before and after it. */
  lemma AliasApplies(pre: string, pattern: string, post: string, replacement: string, rest: seq<string>)
    requires NoEarlier(pre + pattern + post, pattern, |pre|)
    ensures Aliased(pre + pattern + post, [pattern, replacement] + rest) == Aliased(pre + replacement + post, rest)
  {
    ReplaceFirstAt(pre, pattern, post, replacement);
    assert ([pattern, replacement] + rest)[2..] == rest;
  }

  /** An alias whose pattern does not occur does nothing, and neither does an odd last entry. */
  lemma AliasDoesNotApply(text: string, pattern: string, replacement: string, rest: seq<string>)
    requires forall j :: 0 <= j <= |text| ==> !(pattern <= text[j..])
    ensures Aliased(text, [pattern, replacement] + rest) == Aliased(text, rest)
    ensures Aliased(text, [replacement]) == text && Aliased(text, []) == text
  {
    ReplaceNowhere(text, pattern, replacement);
    assert ([pattern, replacement] + rest)[2..] == rest;
  }

  /**
   * The outer white list applies when its mode is on, the caller wants it, and neither group nor user is listed as an
   * exception; with the list reversed, when one of them is.
   */
  lemma WhiteListAppliesExactly(cfg: FilterConfig, origin: Origin)
    ensures var listed := exists id :: id in cfg.bypass && (id == origin.vgid || id == origin.vuid);
            OuterWhiteApplies(cfg, origin) <==> cfg.whiteMode && origin.whiteEnabled && listed == cfg.bypassReversed
  {
  }

  // ---------------------------------------------------------------- texts that no list blocks

  ghost predicate PassesOuterLists(cfg: FilterConfig, origin: Origin, text: string) {
    && (OuterWhiteApplies(cfg, origin) ==> HasAnyPrefix(text, cfg.whitePrefixes + cfg.temporaryCommands))
    && (cfg.blackMode ==> !HasAnyPrefix(text, cfg.blackPrefixes))
  }

  /** Without a visual prefix to remove, a text that passes the outer lists ends as the aliases make it, unanswered. */
  lemma UnprefixedTextPasses(cfg: FilterConfig, origin: Origin, text: string)
    requires PassesOuterLists(cfg, origin, SlashRemoved(cfg, text))
    requires var t := SlashRemoved(cfg, text);
             forall j :: 0 <= j < |cfg.visualPrefixes| ==> !Shortens(cfg.visualPrefixes[j], t)
    ensures Stages(cfg, origin, text) == Filtered(Aliased(SlashRemoved(cfg, text), cfg.aliases), [])
  {
    NoneShorterKeepsText(cfg.visualPrefixes, SlashRemoved(cfg, text), None);
  }

  ghost predicate FirstToShorten(vps: seq<VisualPrefix>, text: string, i: nat) {
    i < |vps| && Shortens(vps[i], text) && forall j :: 0 <= j < i ==> !Shortens(vps[j], text)
  }

  /**
   * With one, the rest of the text goes through the aliases and the prefix's own white list. What passes comes
   * through, and what is blocked is answered and becomes empty; a noted special prefix is put in front of either,
   * without its star.
   */
  lemma PrefixedTextPasses(cfg: FilterConfig, origin: Origin, text: string, i: nat)
    requires PassesOuterLists(cfg, origin, SlashRemoved(cfg, text)) && SlashRemoved(cfg, text) != " "
    requires FirstToShorten(cfg.visualPrefixes, SlashRemoved(cfg, text), i)
    ensures var t, vps := SlashRemoved(cfg, text), cfg.visualPrefixes;
            var prefix := if vps[i].prefix != "" && vps[i].prefix[0] == '*' then vps[i].prefix[1..] else vps[i].prefix;
            var rest := Aliased(TrimSpace(t[|prefix|..]), cfg.aliases);
            var blocked := cfg.whiteMode && !Bypassed(cfg, origin)
                           && !HasAnyPrefix(rest, vps[i].whiteList + cfg.temporaryCommands);
            var special := VisualStage(vps, t, None).special;
            var front := if special.Some? && special.value != "" then special.value[1..] else "";
            Stages(cfg, origin, text)
            == if blocked then Filtered(front, [vps[i].noWhiteResponse]) else Filtered(front + rest, [])
  {
    var t, vps := SlashRemoved(cfg, text), cfg.visualPrefixes;
    StarTrimmed(vps[i].prefix);
    FirstShorterIsRemoved(vps, t, None, i);
    NotedStartsWithStar(vps, t, None);
    var v := VisualStage(vps, t, None);
    if v.special.Some? {
      StarTrimmed(v.special.value);
      assert v.special.value[1..] + "" == v.special.value[1..];
    }
    var inner := InnerWhiteListed(cfg, origin, v.matched, Aliased(v.text, cfg.aliases));
    assert [] + inner.responses == inner.responses && "" + inner.text == inner.text;
  }

  /** A text without a parenthesis is prepared by trimming alone; a lone space is kept. */
  lemma PlainTextPrepared(md5: Md5, hashMode: bool, bot: BotConfig, b: Store, content: string)
    requires '(' !in content
    ensures Prepared(md5, hashMode, bot, b, content) == (b, if content == " " then " " else TrimSpace(content))
  {
    var t := if content == " " then " " else TrimSpace(content);
    TrimmedChars(content, '(');
    RewritingSkips(md5, hashMode, bot, b, t, "");
    assert RewrittenText(md5, hashMode, bot, b, "") == (b, "");
    assert t + "" == t;
    TrimmedOnce(content);
  }

  lemma TrimsFrontSpace(rest: string)
    requires rest != "" && TrimSpace(rest) == rest
    ensures TrimSpace(" " + rest) == rest && !IsSpace(rest[0]) && !IsSpace(rest[|rest| - 1])
  {
    assert (" " + rest)[1..] == rest;
    assert TrimLeft(rest) == rest;
  }

  /** With remove_at on, a mention of the bot in front goes together with the space after it. */
  lemma BotMentionIsPrepared(md5: Md5, hashMode: bool, bot: BotConfig, b: Store, rest: string)
    requires bot.removeAt && bot.botID != "" && AllDigits(bot.botID)
    requires '(' !in rest && rest != "" && TrimSpace(rest) == rest
    ensures Prepared(md5, hashMode, bot, b, "(met)" + bot.botID + "(met) " + rest) == (b, rest)
  {
    var content, spaced := "(met)" + bot.botID + "(met) " + rest, " " + rest;
    TrimsFrontSpace(rest);
    assert content == "(met)" + bot.botID + "(met)" + spaced;
    assert content[0] == '(' && content[|content| - 1] == rest[|rest| - 1];
    assert TrimLeft(content) == content && TrimRight(content) == content;
    MentionIsRewritten(md5, hashMode, bot, b, bot.botID, spaced);
    RewritingSkips(md5, hashMode, bot, b, spaced, "");
    assert RewrittenText(md5, hashMode, bot, b, "") == (b, "") && spaced + "" == spaced && "" + spaced == spaced;
  }

  lemma {:induction false} TrimmedLeft(s: string)
    ensures TrimLeft(s) != "" ==> TrimLeft(TrimLeft(s)) == TrimLeft(s)
    ensures forall c :: c in TrimLeft(s) ==> c in s
  {
    if s != "" && IsSpace(s[0]) {
      TrimmedLeft(s[1..]);
    }
  }

  lemma TrimmedChars(s: string, c: char)
    ensures c in TrimSpace(s) ==> c in s
  {
    TrimmedLeft(s);
    assert TrimSpace(s) <= TrimLeft(s);
  }

  lemma TrimmedOnce(s: string)
    ensures TrimSpace(TrimSpace(s)) == TrimSpace(s)
  {
  }

  // ---------------------------------------------------------------- a block is final

  /** No alias turns the empty text into something: an empty pattern has an empty replacement. */
  predicate AliasesHarmless(aliases: seq<string>)
    decreases |aliases|
  {
    |aliases| < 2 || ((aliases[0] == "" ==> aliases[1] == "") && AliasesHarmless(aliases[2..]))
  }

  lemma ReplaceInEmpty(old_: string, new_: string)
    ensures ReplaceFirst("", old_, new_) == if old_ == "" then new_ else ""
  {
    if old_ == "" {
      ReplacePrefix("", old_, new_);
    } else {
      assert Index("", old_).None?;
    }
  }

  /** The empty text stays empty after every number of alias pairs exactly when no pair has only its pattern empty. */
  lemma {:induction false} EmptyStaysEmptyExactly(aliases: seq<string>)
    ensures AliasesHarmless(aliases) <==> forall n: nat :: 2 * n <= |aliases| ==> Aliased("", aliases[..2 * n]) == ""
    decreases |aliases|
  {
    if |aliases| >= 2 {
      var rest := aliases[2..];
      EmptyStaysEmptyExactly(rest);
      ReplaceInEmpty(aliases[0], aliases[1]);
      forall n: nat | 2 * (n + 1) <= |aliases|
        ensures Aliased("", aliases[..2 * (n + 1)]) == Aliased(ReplaceFirst("", aliases[0], aliases[1]), rest[..2 * n])
      {
        assert aliases[..2 * (n + 1)][2..] == rest[..2 * n];
      }
      if AliasesHarmless(aliases) {
        forall n: nat | 2 * n <= |aliases| ensures Aliased("", aliases[..2 * n]) == "" {
          if n > 0 {
            assert Aliased("", aliases[..2 * ((n - 1) + 1)]) == Aliased("", rest[..2 * (n - 1)]);
          }
        }
      } else if aliases[0] == "" && aliases[1] != "" {
        assert Aliased("", aliases[..2 * (0 + 1)]) == Aliased(aliases[1], rest[..0]);
        assert Aliased("", aliases[..2 * 1]) != "";
      } else {
        var n: nat :| 2 * n <= |rest| && Aliased("", rest[..2 * n]) != "";
        assert Aliased("", aliases[..2 * (n + 1)]) != "";
      }
    }
  }

  /** The visual prefixes leave the empty text alone, so a blocked text reaches the result through the aliases only. */
  lemma {:induction false} NothingVisualInEmpty(vps: seq<VisualPrefix>, special: Option<string>)
    ensures VisualStage(vps, "", special).text == "" && VisualStage(vps, "", special).matched.None?
  {
    if vps != [] {
      var prefix := TrimPrefix(vps[0].prefix, "*");
      NothingVisualInEmpty(vps[1..], special);
      NothingVisualInEmpty(vps[1..], Some(vps[0].prefix));
    }
  }

  lemma BlockedBecomes(cfg: FilterConfig, origin: Origin)
    ensures AfterLists(cfg, origin, "") == Filtered(Aliased("", cfg.aliases), [])
  {
    NothingVisualInEmpty(cfg.visualPrefixes, None);
  }

  lemma HarmlessOnEmpty(aliases: seq<string>)
    requires AliasesHarmless(aliases)
    ensures Aliased("", aliases) == ""
    decreases |aliases|
  {
    if |aliases| >= 2 {
      ReplaceInEmpty(aliases[0], aliases[1]);
      HarmlessOnEmpty(aliases[2..]);
    }
  }

  /** With harmless aliases, whatever comes through non-empty passed both outer lists. */
  lemma PassedTextWasAllowed(cfg: FilterConfig, origin: Origin, text: string)
    requires AliasesHarmless(cfg.aliases) && Stages(cfg, origin, text).text != ""
    ensures var t := SlashRemoved(cfg, text);
            && (OuterWhiteApplies(cfg, origin) ==> HasAnyPrefix(t, cfg.whitePrefixes + cfg.temporaryCommands))
            && (cfg.blackMode ==> !HasAnyPrefix(t, cfg.blackPrefixes))
  {
    BlockedBecomes(cfg, origin);
    HarmlessOnEmpty(cfg.aliases);
  }

  /** A blocked text always ends as what the aliases make of nothing; nothing is answered after the outer lists. */
  lemma BlockIsFinal(cfg: FilterConfig, origin: Origin, text: string)
    requires var t := SlashRemoved(cfg, text);
             || (OuterWhiteApplies(cfg, origin) && !HasAnyPrefix(t, cfg.whitePrefixes + cfg.temporaryCommands))
             || (cfg.blackMode && HasAnyPrefix(t, cfg.blackPrefixes))
    ensures Stages(cfg, origin, text).text == Aliased("", cfg.aliases)
    ensures AliasesHarmless(cfg.aliases) ==> Stages(cfg, origin, text).text == ""
    ensures var t := SlashRemoved(cfg, text);
            Stages(cfg, origin, text).responses
            == if OuterWhiteApplies(cfg, origin) && !HasAnyPrefix(t, cfg.whitePrefixes + cfg.temporaryCommands)
               then [cfg.noWhiteResponse] else []
  {
    BlockedBecomes(cfg, origin);
    if AliasesHarmless(cfg.aliases) {
      HarmlessOnEmpty(cfg.aliases);
    }
  }

  /** What is noted to be put back starts with a star. */
  lemma {:induction false} NotedStartsWithStar(vps: seq<VisualPrefix>, text: string, special: Option<string>)
    requires special.Some? ==> "*" <= special.value
    ensures var v := VisualStage(vps, text, special);
            v.special.Some? ==> "*" <= v.special.value
  {
    if vps != [] {
      NotedStartsWithStar(vps[1..], text, special);
      if IsSpecial(vps[0]) {
        NotedStartsWithStar(vps[1..], text, Some(vps[0].prefix));
      }
    }
  }

  /** The inner white list blocks what the visual prefixes and aliases have made of the text. */
  predicate InnerBlocks(cfg: FilterConfig, origin: Origin, text: string) {
    var v := VisualStage(cfg.visualPrefixes, text, None);
    && v.matched.Some? && cfg.whiteMode && !Bypassed(cfg, origin)
    && !HasAnyPrefix(Aliased(v.text, cfg.aliases), v.matched.value.whiteList + cfg.temporaryCommands)
  }

  /** The inner white list is different: when it blocks, a noted special prefix is still put back. */
  lemma InnerBlockKeepsSpecialPrefix(cfg: FilterConfig, origin: Origin, text: string)
    requires InnerBlocks(cfg, origin, text)
    ensures var v := VisualStage(cfg.visualPrefixes, text, None);
            && (AfterLists(cfg, origin, text).text == "" <==> v.special.None? || v.special.value == "*")
            && (v.special.Some? ==> v.special.value == "*" + AfterLists(cfg, origin, text).text)
  {
    var v := VisualStage(cfg.visualPrefixes, text, None);
    NotedStartsWithStar(cfg.visualPrefixes, text, None);
    if v.special.Some? {
      var p := v.special.value;
      assert TrimPrefix(p, "*") + "" == TrimPrefix(p, "*");
      assert p == "*" + TrimPrefix(p, "*");
    }
  }

  /** With the visual prefix *tool and the white list help, "tool x" is blocked and "tool" comes through. */
  lemma BlockedToolComesThrough(origin: Origin)
    ensures var vp := VisualPrefix("*tool", ["help"], "no");
            var cfg := FilterConfig(false, true, false, [], ["tool"], [], "no", false, [], [vp], []);
            InnerBlocks(cfg, origin, "tool x") && Stages(cfg, origin, "tool x") == Filtered("tool", ["no"])
  {
    var vp := VisualPrefix("*tool", ["help"], "no");
    var cfg := FilterConfig(false, true, false, [], ["tool"], [], "no", false, [], [vp], []);
    assert (["tool"] + [])[0] <= "tool x" && HasAnyPrefix("tool x", ["tool"] + []);
    assert WhiteListed(cfg, origin, "tool x") == Filtered("tool x", []);
    assert "tool x"[4..] == " x" && " x"[1..] == "x";
    assert TrimSpace(" x") == "x";
    assert TrimPrefix("*tool", "*") == "tool";
    var v := VisualStage([vp], "tool x", None);
    assert v == Visual("x", Some(vp.(prefix := "tool")), Some("*tool"));
    assert !HasAnyPrefix("x", ["help"] + []);
  }
}
