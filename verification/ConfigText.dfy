/** Completing a configuration file from the template, and migrating its visual prefixes (config/config.go). */
module ConfigText {
  import opened Wrappers
  import opened Text

  // ---------------------------------------------------------------- keys

  /** The key of a line that has a colon: what stands before the first colon, without surrounding space. */
  function KeyOf(line: string): string {
    TrimSpace(Split(line, ':')[0])
  }

  function KeysOf(lines: seq<string>): set<string> {
    if lines == [] then {}
    else KeysOf(lines[..|lines| - 1]) + if ':' in lines[|lines| - 1] then {KeyOf(lines[|lines| - 1])} else {}
  }

  function Keys(content: string): set<string> {
    KeysOf(Split(content, '\n'))
  }

  function Missing(templateContent: string, config: string): set<string> {
    Keys(templateContent) - Keys(config)
  }

  method ExtractKeysFromString(content: string) returns (keys: set<string>)
    ensures keys == Keys(content)
  {
    keys := {};
    var lines := Split(content, '\n');
    for i := 0 to |lines|
      invariant keys == KeysOf(lines[..i])
    {
      assert lines[..i + 1][..i] == lines[..i];
      if ':' in lines[i] {
        keys := keys + {KeyOf(lines[i])};
      }
    }
    assert lines[..|lines|] == lines;
  }

  method GetMissingSettingsByText(templateContent: string, config: string) returns (missing: set<string>)
    ensures missing == Missing(templateContent, config)
    ensures forall key :: key in missing <==> key in Keys(templateContent) && key !in Keys(config)
  {
    var templateKeys := ExtractKeysFromString(templateContent);
    var currentKeys := ExtractKeysFromString(config);
    missing := templateKeys - currentKeys;
  }

  lemma {:induction false} KeysOfLines(lines: seq<string>, key: string)
    ensures key in KeysOf(lines) <==> exists i :: 0 <= i < |lines| && ':' in lines[i] && KeyOf(lines[i]) == key
  {
    if lines != [] {
      var init := lines[..|lines| - 1];
      KeysOfLines(init, key);
      assert forall i :: 0 <= i < |init| ==> init[i] == lines[i];
    }
  }

  // ---------------------------------------------------------------- finding the template line of a key

  /** \s in Go's regular expressions: fewer characters than unicode.IsSpace has. */
  predicate IsRegexSpace(c: char) {
    c == ' ' || c == '\t' || c == '\n' || c == '\U{0C}' || c == '\r'
  }

  predicate AllRegexSpace(s: string) {
    forall i :: 0 <= i < |s| ==> IsRegexSpace(s[i])
  }

  /** i spaces, the key, j spaces and a colon. */
  predicate MatchesAt(line: string, key: string, i: int, j: int) {
    && 0 <= i && 0 <= j && i + |key| + j < |line|
    && AllRegexSpace(line[..i]) && line[i..i + |key|] == key
    && AllRegexSpace(line[i + |key|..i + |key| + j]) && line[i + |key| + j] == ':'
  }

  /** ^\s*key\s*:\s* with the key quoted. */
  predicate MatchesKey(line: string, key: string) {
    exists i, j :: 0 <= i <= |line| && 0 <= j <= |line| && MatchesAt(line, key, i, j)
  }

  /** The spaces around a line's key are spaces for the regular expression too. */
  predicate RegularLine(line: string) {
    var p := Split(line, ':')[0];
    var t := TrimLeft(p);
    TrimLengths(p);
    AllRegexSpace(p[..|p| - |t|]) && AllRegexSpace(t[|TrimRight(t)|..])
  }

  lemma {:induction false} TrimLengths(p: string)
    ensures |TrimLeft(p)| <= |p| && TrimLeft(p) == p[|p| - |TrimLeft(p)|..]
  {
    if p != "" && IsSpace(p[0]) {
      TrimLengths(p[1..]);
    }
  }

  lemma {:induction false} TrimLeftSkips(space: string, s: string)
    requires AllRegexSpace(space)
    ensures TrimLeft(space + s) == TrimLeft(s)
  {
    if space == "" {
      assert space + s == s;
    } else {
      TrimLeftSkips(space[1..], s);
      assert (space + s)[1..] == space[1..] + s;
    }
  }

  lemma {:induction false} TrimRightSkips(s: string, space: string)
    requires AllRegexSpace(space)
    ensures TrimRight(s + space) == TrimRight(s)
  {
    if space == "" {
      assert s + space == s;
    } else {
      var init := space[..|space| - 1];
      TrimRightSkips(s, init);
      assert (s + space)[..|s + space| - 1] == s + init;
    }
  }

  lemma {:induction false} FirstPart(line: string, sep: char)
    requires sep in line
    ensures var p := Split(line, sep)[0]; |p| < |line| && line[..|p|] == p && line[|p|] == sep && sep !in p
  {
    if line[0] != sep {
      FirstPart(line[1..], sep);
      assert line == [line[0]] + line[1..];
    }
  }

  lemma PartBeforeColon(p: string, rest: string)
    requires ':' !in p
    ensures Split(p + ":" + rest, ':')[0] == p && ':' in p + ":" + rest
  {
    SplitAt(p, ':', rest);
    SplitSingle(p, ':');
    assert (p + ":" + rest)[|p|] == ':';
  }

  predicate IsKey(key: string) {
    ':' !in key && TrimSpace(key) == key
  }

  lemma SpacedTrim(before: string, key: string, after: string)
    requires IsKey(key) && AllRegexSpace(before) && AllRegexSpace(after)
    ensures var p := before + key + after; var t := TrimLeft(p);
            && TrimSpace(p) == key
            && |t| <= |p| && AllRegexSpace(p[..|p| - |t|]) && |key| <= |t| && AllRegexSpace(t[|key|..])
  {
    var p := before + key + after;
    LeftTrimmed(before, key, after);
    TrimRightSkips(key, after);
    TrimmedKey(key);
    if key != "" {
      assert p[..|before|] == before && (key + after)[|key|..] == after;
    }
  }

  lemma LeftTrimmed(before: string, key: string, after: string)
    requires IsKey(key) && AllRegexSpace(before) && AllRegexSpace(after)
    ensures TrimLeft(before + key + after) == if key == "" then "" else key + after
  {
    assert before + key + after == before + (key + after);
    TrimLeftSkips(before, key + after);
    TrimmedKey(key);
    if key == "" {
      TrimLeftSkips(after, "");
      assert key + after == after + "";
    } else {
      assert key[0] == (key + after)[0];
    }
  }

  /** A key, spaces around it and a colon: the key is read off again, and the line is regular. */
  lemma SpacedKey(before: string, key: string, after: string, rest: string)
    requires IsKey(key) && AllRegexSpace(before) && AllRegexSpace(after)
    ensures var line := before + key + after + ":" + rest;
            ':' in line && KeyOf(line) == key && RegularLine(line)
  {
    var p := before + key + after;
    assert ':' !in before && ':' !in after;
    PartBeforeColon(p, rest);
    SpacedTrim(before, key, after);
  }

  lemma TrimmedKey(key: string)
    requires TrimSpace(key) == key
    ensures TrimRight(key) == key && TrimLeft(key) == key
  {
  }

  lemma MatchedIsKey(line: string, key: string, i: int, j: int)
    requires IsKey(key) && MatchesAt(line, key, i, j)
    ensures ':' in line && KeyOf(line) == key && RegularLine(line)
  {
    var before, after := line[..i], line[i + |key|..i + |key| + j];
    var rest := line[i + |key| + j + 1..];
    assert line == before + key + after + ":" + rest;
    SpacedKey(before, key, after, rest);
  }

  lemma ComposedMatches(line: string, p: string, before: string, key: string, after: string)
    requires |p| < |line| && line[..|p|] == p && line[|p|] == ':' && p == before + key + after
    requires AllRegexSpace(before) && AllRegexSpace(after)
    ensures MatchesKey(line, key)
  {
    assert line[..|before|] == p[..|before|] == before;
    assert line[|before|..|before| + |key|] == p[|before|..|before| + |key|] == key;
    assert line[|before| + |key|..|before| + |key| + |after|] == p[|before| + |key|..] == after;
    assert MatchesAt(line, key, |before|, |after|);
  }

  lemma CutAt(s: string, n: nat)
    requires n <= |s|
    ensures s == s[..n] + s[n..]
  {
  }

  lemma ThreePieces(p: string, before: string, t: string, key: string, after: string)
    requires p == before + t && t == key + after
    ensures p == before + key + after
  {
  }

  lemma TrimParts(p: string)
    ensures |TrimLeft(p)| <= |p| && |TrimSpace(p)| <= |TrimLeft(p)|
    ensures p == p[..|p| - |TrimLeft(p)|] + TrimSpace(p) + TrimLeft(p)[|TrimSpace(p)|..]
  {
    TrimLengths(p);
    var t, key := TrimLeft(p), TrimSpace(p);
    var before, after := p[..|p| - |t|], t[|key|..];
    CutAt(p, |p| - |t|);
    CutAt(t, |key|);
    ThreePieces(p, before, t, key, after);
  }

  lemma KeyIsMatched(line: string, key: string)
    requires ':' in line && KeyOf(line) == key && RegularLine(line)
    ensures MatchesKey(line, key)
  {
    FirstPart(line, ':');
    var p := Split(line, ':')[0];
    TrimParts(p);
    ComposedMatches(line, p, p[..|p| - |TrimLeft(p)|], key, TrimLeft(p)[|key|..]);
  }

  /** The expression finds a key on a line exactly when it is the line's key and the line is regular. */
  lemma MatchesKeyExactly(line: string, key: string)
    requires IsKey(key)
    ensures MatchesKey(line, key) <==> ':' in line && KeyOf(line) == key && RegularLine(line)
  {
    if i, j :| 0 <= i <= |line| && 0 <= j <= |line| && MatchesAt(line, key, i, j) {
      MatchedIsKey(line, key, i, j);
    } else if ':' in line && KeyOf(line) == key && RegularLine(line) {
      KeyIsMatched(line, key);
    }
  }

  /** Blanks, tabs, line and form feeds and carriage returns around a key do not hinder the expression. */
  lemma SpacedKeyIsMatched(before: string, key: string, after: string, rest: string)
    requires IsKey(key)
    requires forall c :: c in before + after ==> c == ' ' || c == '\t' || c == '\n' || c == '\r' || c == '\U{0C}'
    ensures MatchesKey(before + key + after + ":" + rest, key)
  {
    assert forall i :: 0 <= i < |before| ==> before[i] in before + after;
    assert forall i :: 0 <= i < |after| ==> after[i] in before + after;
    SpacedKey(before, key, after, rest);
    MatchesKeyExactly(before + key + after + ":" + rest, key);
  }

  /** A vertical tab or a no-break space does: the key is read off the line, but the expression does not find it. */
  lemma OddSpaceHidesKey(c: char, key: string, rest: string)
    requires c == '\U{0B}' || c == '\U{A0}'
    requires IsKey(key) && key != ""
    ensures var line := [c] + key + ":" + rest;
            ':' in line && KeyOf(line) == key && !MatchesKey(line, key)
  {
    var p := [c] + key;
    PartBeforeColon(p, rest);
    TrimmedKey(key);
    assert p[1..] == key && TrimLeft(p) == TrimLeft(key) == key;
    assert p[..1] == [c];
    assert !AllRegexSpace(p[..|p| - |key|]);
    MatchesKeyExactly(p + ":" + rest, key);
  }

  // ---------------------------------------------------------------- extracting and appending

  /** The first line on which the key is found. */
  function LineFor(lines: seq<string>, key: string): Option<string> {
    if lines == [] then None
    else if MatchesKey(lines[0], key) then Some(lines[0])
    else LineFor(lines[1..], key)
  }

  function After(found: seq<string>, r: Result<seq<string>, string>): Result<seq<string>, string> {
    match r
    case Err(key) => Err(key)
    case Ok(rest) => Ok(found + rest)
  }

  lemma AfterNothing(r: Result<seq<string>, string>)
    ensures After([], r) == r
  {
    if r.Ok? {
      assert [] + r.value == r.value;
    }
  }

  lemma AfterAfter(a: seq<string>, line: string, r: Result<seq<string>, string>)
    ensures After(a, After([line], r)) == After(a + [line], r)
  {
    if r.Ok? {
      assert a + ([line] + r.value) == (a + [line]) + r.value;
    }
  }

  /** The lines of the given keys, or the first key without one. */
  function Extracted(lines: seq<string>, keys: seq<string>): Result<seq<string>, string> {
    if keys == [] then Ok([])
    else
      match LineFor(lines, keys[0])
      case None => Err(keys[0])
      case Some(line) =>
        After([line], Extracted(lines, keys[1..]))
  }

  /** `keys` is the order in which the runtime traverses the map of missing settings. */
  method ExtractMissingConfigLines(keys: seq<string>, templateContent: string) returns (r: Result<seq<string>, string>)
    ensures r == Extracted(Split(templateContent, '\n'), keys)
  {
    var lines := Split(templateContent, '\n');
    var missingConfigLines := [];
    AfterNothing(Extracted(lines, keys));
    assert keys[0..] == keys;
    for k := 0 to |keys|
      invariant Extracted(lines, keys) == After(missingConfigLines, Extracted(lines, keys[k..]))
    {
      assert keys[k..][1..] == keys[k + 1..];
      var line := FindLine(lines, keys[k]);
      if line.None? {
        return Err(keys[k]);
      }
      AfterAfter(missingConfigLines, line.value, Extracted(lines, keys[k + 1..]));
      missingConfigLines := missingConfigLines + [line.value];
    }
    assert keys[|keys|..] == [] && missingConfigLines + [] == missingConfigLines;
    return Ok(missingConfigLines);
  }

  method FindLine(lines: seq<string>, key: string) returns (r: Option<string>)
    ensures r == LineFor(lines, key)
  {
    for i := 0 to |lines|
      invariant LineFor(lines, key) == LineFor(lines[i..], key)
    {
      assert lines[i..][1..] == lines[i + 1..];
      if MatchesKey(lines[i], key) {
        return Some(lines[i]);
      }
    }
    return None;
  }

  /** appendToConfigFile: each line goes to the end of the file after a newline. */
  function Appended(config: string, lines: seq<string>): string
    decreases |lines|
  {
    if lines == [] then config else Appended(config + "\n" + lines[0], lines[1..])
  }

  method AppendToConfigFile(config: string, lines: seq<string>) returns (file: string)
    ensures file == Appended(config, lines)
  {
    file := config;
    for i := 0 to |lines|
      invariant Appended(config, lines) == Appended(file, lines[i..])
    {
      assert lines[i..][1..] == lines[i + 1..];
      file := file + "\n" + lines[i];
    }
  }

  // ---------------------------------------------------------------- completion in one pass

  lemma {:induction false} LineForFound(lines: seq<string>, key: string)
    ensures LineFor(lines, key).Some? <==> exists i :: 0 <= i < |lines| && MatchesKey(lines[i], key)
    ensures LineFor(lines, key).Some? ==>
              LineFor(lines, key).value in lines && MatchesKey(LineFor(lines, key).value, key)
    ensures forall i :: 0 <= i < |lines| && MatchesKey(lines[i], key)
                        && (forall j :: 0 <= j < i ==> !MatchesKey(lines[j], key))
                        ==> LineFor(lines, key) == Some(lines[i])
  {
    if lines != [] && !MatchesKey(lines[0], key) {
      LineForFound(lines[1..], key);
      assert forall i :: 0 < i < |lines| ==> lines[i] == lines[1..][i - 1];
    }
  }

  lemma {:induction false} ExtractedFound(lines: seq<string>, keys: seq<string>)
    ensures Extracted(lines, keys).Ok? <==> forall k :: 0 <= k < |keys| ==> LineFor(lines, keys[k]).Some?
    ensures Extracted(lines, keys).Ok? ==>
              && |Extracted(lines, keys).value| == |keys|
              && forall k :: 0 <= k < |keys| ==> Some(Extracted(lines, keys).value[k]) == LineFor(lines, keys[k])
    ensures forall k :: 0 <= k < |keys| && LineFor(lines, keys[k]).None?
                        && (forall j :: 0 <= j < k ==> LineFor(lines, keys[j]).Some?)
                        ==> Extracted(lines, keys) == Err(keys[k])
  {
    if keys != [] {
      ExtractedFound(lines, keys[1..]);
      assert forall k :: 0 < k < |keys| ==> keys[k] == keys[1..][k - 1];
    }
  }

  ghost predicate HasRegularLine(lines: seq<string>, key: string) {
    exists i :: 0 <= i < |lines| && ':' in lines[i] && KeyOf(lines[i]) == key && RegularLine(lines[i])
  }

  /** The keys in some traversal order of the map of missing settings. */
  ghost predicate Enumerates(keys: seq<string>, missing: set<string>) {
    forall key :: key in keys <==> key in missing
  }

  lemma KeysAreKeys(content: string, key: string)
    requires key in Keys(content)
    ensures IsKey(key)
  {
    var lines := Split(content, '\n');
    KeysOfLines(lines, key);
    var i :| 0 <= i < |lines| && ':' in lines[i] && KeyOf(lines[i]) == key;
    FirstPart(lines[i], ':');
    var p := Split(lines[i], ':')[0];
    TrimTwice(p);
    TrimmedWithin(p, ':');
  }

  lemma TrimmedWithin(p: string, c: char)
    ensures c in TrimSpace(p) ==> c in p
  {
    TrimLengths(p);
    assert TrimSpace(p) <= TrimLeft(p);
    assert c in TrimLeft(p) ==> c in p;
  }

  lemma TrimTwice(p: string)
    ensures TrimSpace(TrimSpace(p)) == TrimSpace(p)
  {
  }

  /**
   * Extracting the template lines of the missing keys succeeds, in whatever order, exactly when each of them
   * has a template line whose spacing the regular expression understands.
   */
  lemma ExtractionSucceedsExactly(templateContent: string, config: string, keys: seq<string>)
    requires Enumerates(keys, Missing(templateContent, config))
    ensures var lines := Split(templateContent, '\n');
            Extracted(lines, keys).Ok?
            <==> forall key :: key in Missing(templateContent, config) ==> HasRegularLine(lines, key)
  {
    var lines := Split(templateContent, '\n');
    ExtractedFound(lines, keys);
    forall key | key in Missing(templateContent, config)
      ensures LineFor(lines, key).Some? <==> HasRegularLine(lines, key)
    {
      KeysAreKeys(templateContent, key);
      LineForFound(lines, key);
      forall i | 0 <= i < |lines| {
        MatchesKeyExactly(lines[i], key);
      }
    }
    assert forall k :: 0 <= k < |keys| ==> keys[k] in keys;
  }

  /** In particular a template with ordinary spacing before its colons never fails, whatever the file holds. */
  lemma RegularTemplateNeverFails(templateContent: string, config: string, keys: seq<string>)
    requires Enumerates(keys, Missing(templateContent, config))
    requires forall i :: 0 <= i < |Split(templateContent, '\n')| && ':' in Split(templateContent, '\n')[i]
               ==> RegularLine(Split(templateContent, '\n')[i])
    ensures Extracted(Split(templateContent, '\n'), keys).Ok?
  {
    ExtractionSucceedsExactly(templateContent, config, keys);
    var lines := Split(templateContent, '\n');
    forall key | key in Missing(templateContent, config) ensures HasRegularLine(lines, key) {
      KeysOfLines(lines, key);
    }
  }

  lemma {:induction false} AppendedLines(config: string, lines: seq<string>)
    requires forall i :: 0 <= i < |lines| ==> '\n' !in lines[i]
    ensures Split(Appended(config, lines), '\n') == Split(config, '\n') + lines
    decreases |lines|
  {
    if lines != [] {
      var next := config + "\n" + lines[0];
      assert next == config + ['\n'] + lines[0];
      SplitAt(config, '\n', lines[0]);
      SplitSingle(lines[0], '\n');
      AppendedLines(next, lines[1..]);
    }
  }

  lemma KeysOfMore(lines: seq<string>, more: seq<string>)
    ensures KeysOf(lines) <= KeysOf(lines + more)
    ensures forall i :: 0 <= i < |more| && ':' in more[i] ==> KeyOf(more[i]) in KeysOf(lines + more)
  {
    var all := lines + more;
    forall key | key in KeysOf(lines) ensures key in KeysOf(all) {
      KeysOfLines(lines, key);
      var i :| 0 <= i < |lines| && ':' in lines[i] && KeyOf(lines[i]) == key;
      assert all[i] == lines[i];
      KeysOfLines(all, key);
    }
    forall i | 0 <= i < |more| && ':' in more[i] ensures KeyOf(more[i]) in KeysOf(all) {
      assert all[|lines| + i] == more[i];
      KeysOfLines(all, KeyOf(more[i]));
    }
  }

  /** The line extracted for a key is on one line and has that key. */
  lemma ExtractedLine(templateContent: string, config: string, keys: seq<string>, k: nat)
    requires Enumerates(keys, Missing(templateContent, config)) && k < |keys|
    requires Extracted(Split(templateContent, '\n'), keys).Ok?
    ensures var extracted := Extracted(Split(templateContent, '\n'), keys).value;
            |extracted| == |keys| && '\n' !in extracted[k] && ':' in extracted[k] && KeyOf(extracted[k]) == keys[k]
  {
    var lines := Split(templateContent, '\n');
    ExtractedFound(lines, keys);
    PartsLackSeparator(templateContent, '\n');
    LineForFound(lines, keys[k]);
    assert keys[k] in keys;
    KeysAreKeys(templateContent, keys[k]);
    MatchesKeyExactly(Extracted(lines, keys).value[k], keys[k]);
  }

  /** Every line extracted is a line of the template, and its key is one of the template that the file lacks. */
  lemma OnlyMissingKeysExtracted(templateContent: string, config: string, keys: seq<string>, line: string)
    requires Enumerates(keys, Missing(templateContent, config))
    requires Extracted(Split(templateContent, '\n'), keys).Ok?
    requires line in Extracted(Split(templateContent, '\n'), keys).value
    ensures line in Split(templateContent, '\n')
    ensures KeyOf(line) in Keys(templateContent) && KeyOf(line) !in Keys(config)
  {
    var lines := Split(templateContent, '\n');
    ExtractedFound(lines, keys);
    var k :| 0 <= k < |keys| && Extracted(lines, keys).value[k] == line;
    ExtractedLine(templateContent, config, keys, k);
    LineForFound(lines, keys[k]);
    assert keys[k] in keys;
  }

  /** After one successful pass the file has every key of the template and every key it had before. */
  lemma OnePassCompletes(templateContent: string, config: string, keys: seq<string>)
    requires Enumerates(keys, Missing(templateContent, config))
    requires Extracted(Split(templateContent, '\n'), keys).Ok?
    ensures var completed := Appended(config, Extracted(Split(templateContent, '\n'), keys).value);
            && Keys(templateContent) <= Keys(completed) && Keys(config) <= Keys(completed)
            && Missing(templateContent, completed) == {}
  {
    var extracted := Extracted(Split(templateContent, '\n'), keys).value;
    ExtractedFound(Split(templateContent, '\n'), keys);
    forall i | 0 <= i < |extracted|
      ensures '\n' !in extracted[i] && ':' in extracted[i] && KeyOf(extracted[i]) == keys[i]
    {
      ExtractedLine(templateContent, config, keys, i);
    }
    AppendedLines(config, extracted);
    KeysOfMore(Split(config, '\n'), extracted);
    forall key | key in Missing(templateContent, config) ensures key in Keys(Appended(config, extracted)) {
      var k :| 0 <= k < |keys| && keys[k] == key;
    }
  }

  // ---------------------------------------------------------------- migrating visual prefixes

  /** The comments at the ends of the new lines; only their being on one line matters. */
  datatype Comments = Comments(visual: string, prefix: string, whiteList: string) {
    predicate OneLine() {
      '\n' !in visual && '\n' !in prefix && '\n' !in whiteList
    }
  }

  function VisualLine(comment: string): string {
    "  visual_prefixs :  " + comment
  }

  function PrefixLine(comment: string): string {
    "  - prefix: \"\"" + comment
  }

  function WhiteListLine(comment: string): string {
    "    whiteList: [\"\"]" + comment
  }

  function ResponseLine(): string {
    "    No_White_Response : \"\" "
  }

  /** One empty visual prefix. */
  function PrefixBlock(prefixComment: string, whiteListComment: string): (lines: seq<string>) {
    [PrefixLine(prefixComment), WhiteListLine(whiteListComment), ResponseLine()]
  }

  /** The lines that replace one of the old form. */
  function NewVisualPrefixs(c: Comments): (lines: seq<string>)
    ensures lines != []
  {
    [VisualLine(c.visual)] + PrefixBlock(c.prefix, c.whiteList) + PrefixBlock("", "") + PrefixBlock("", "")
  }

  /** The new form lists three empty prefixes, each with an empty white list and an empty response. */
  lemma NewFormListsThree(c: Comments, i: nat)
    requires i < 3
    ensures var lines := NewVisualPrefixs(c);
            && |lines| == 10 && "  visual_prefixs :" <= lines[0]
            && "  - prefix: \"\"" <= lines[3 * i + 1] && "    whiteList: [\"\"]" <= lines[3 * i + 2]
            && "    No_White_Response : \"\"" <= lines[3 * i + 3]
  {
  }

  predicate IsOldForm(line: string) {
    "visual_prefixs : [" <= TrimSpace(line)
  }

  /** Every line with a newline after it. */
  function Unlines(lines: seq<string>): string {
    if lines == [] then "" else lines[0] + "\n" + Unlines(lines[1..])
  }

  /** The lines after the migration, each line of the old form replaced by the lines of the new one. */
  function Migrated(lines: seq<string>, newForm: seq<string>): seq<string> {
    if lines == [] then []
    else Migrated(lines[..|lines| - 1], newForm)
         + if IsOldForm(lines[|lines| - 1]) then newForm else [lines[|lines| - 1]]
  }

  /** Each line is migrated on its own and in its place: the old form becomes the new lines, any other line stays. */
  lemma MigratedLineByLine(lines: seq<string>, line: string, newForm: seq<string>)
    ensures Migrated([], newForm) == []
    ensures Migrated(lines + [line], newForm)
         == Migrated(lines, newForm) + if "visual_prefixs : [" <= TrimSpace(line) then newForm else [line]
  {
    assert (lines + [line])[..|lines|] == lines;
  }

  predicate HasOldForm(lines: seq<string>) {
    lines != [] && (HasOldForm(lines[..|lines| - 1]) || IsOldForm(lines[|lines| - 1]))
  }

  lemma {:induction false} HasOldFormExactly(lines: seq<string>)
    ensures HasOldForm(lines) <==> !NoOldForm(lines)
  {
    if lines != [] {
      HasOldFormExactly(lines[..|lines| - 1]);
    }
  }

  ghost predicate NoOldForm(lines: seq<string>) {
    forall i :: 0 <= i < |lines| ==> !IsOldForm(lines[i])
  }

  lemma {:induction false} UnlinesConcat(a: seq<string>, b: seq<string>)
    ensures Unlines(a + b) == Unlines(a) + Unlines(b)
  {
    if a == [] {
      assert a + b == b;
    } else {
      UnlinesConcat(a[1..], b);
      assert (a + b)[1..] == a[1..] + b;
    }
  }

  lemma {:induction false} JoinedUnlines(lines: seq<string>)
    requires lines != []
    ensures Join(lines, '\n') + "\n" == Unlines(lines)
  {
    if |lines| > 1 {
      JoinedUnlines(lines[1..]);
      assert lines[0] + ['\n'] + Join(lines[1..], '\n') + "\n" == lines[0] + "\n" + (Join(lines[1..], '\n') + "\n");
    } else {
      assert Unlines(lines[1..]) == "";
    }
  }

  /** What one line contributes to the output. */
  lemma MigratedStep(lines: seq<string>, i: nat, newForm: seq<string>)
    requires i < |lines|
    ensures Unlines(Migrated(lines[..i + 1], newForm))
         == Unlines(Migrated(lines[..i], newForm)) + if IsOldForm(lines[i]) then Unlines(newForm) else lines[i] + "\n"
  {
    var line := lines[i];
    assert lines[..i + 1][..i] == lines[..i];
    UnlinesConcat(Migrated(lines[..i], newForm), if IsOldForm(line) then newForm else [line]);
    assert Unlines([line]) == line + "\n";
  }

  method ReplaceVisualPrefixsLine(config: string, comments: Comments) returns (newConfig: string, replaced: bool)
    ensures newConfig == Unlines(Migrated(Split(config, '\n'), NewVisualPrefixs(comments)))
    ensures replaced <==> !NoOldForm(Split(config, '\n'))
  {
    var newForm := NewVisualPrefixs(comments);
    var newText := Join(newForm, '\n');
    JoinedUnlines(newForm);
    newConfig, replaced := ReplaceOldForm(Split(config, '\n'), newForm, newText);
  }

  method ReplaceOldForm(lines: seq<string>, ghost newForm: seq<string>, newText: string)
    returns (newConfig: string, replaced: bool)
    requires newText + "\n" == Unlines(newForm)
    ensures newConfig == Unlines(Migrated(lines, newForm))
    ensures replaced <==> !NoOldForm(lines)
  {
    newConfig, replaced := "", false;
    for i := 0 to |lines|
      invariant newConfig == Unlines(Migrated(lines[..i], newForm))
      invariant replaced <==> HasOldForm(lines[..i])
    {
      MigratedStep(lines, i, newForm);
      assert lines[..i + 1][..i] == lines[..i];
      var old_ := IsOldForm(lines[i]);
      if old_ {
        newConfig := newConfig + (newText + "\n");
        replaced := true;
      } else {
        newConfig := newConfig + (lines[i] + "\n");
      }
    }
    assert lines[..|lines|] == lines;
    HasOldFormExactly(lines);
  }

  lemma {:induction false} SplitUnlines(lines: seq<string>)
    requires forall i :: 0 <= i < |lines| ==> '\n' !in lines[i]
    ensures Split(Unlines(lines), '\n') == lines + [""]
  {
    if lines != [] {
      SplitUnlines(lines[1..]);
      SplitAt(lines[0], '\n', Unlines(lines[1..]));
      SplitSingle(lines[0], '\n');
      assert Unlines(lines) == lines[0] + ['\n'] + Unlines(lines[1..]);
    }
  }

  /** A line whose text, after the indent, does not begin like the old form. */
  lemma {:induction false} NotOldForm(line: string, indent: nat)
    requires indent < |line| && (forall i :: 0 <= i < indent ==> line[i] == ' ') && !IsSpace(line[indent])
    requires line[indent] != 'v' || (|line| > indent + 17 && line[indent + 17] != '[')
    ensures !IsOldForm(line)
  {
    if indent > 0 {
      NotOldForm(line[1..], indent - 1);
    } else {
      var t := TrimSpace(line);
      assert t <= line;
      assert t != "" ==> t[0] == line[0];
      assert |t| > 17 ==> t[17] == line[17];
    }
  }

  lemma HeadDecides(head: string, tail: string, indent: nat)
    requires indent < |head| && (forall i :: 0 <= i < indent ==> head[i] == ' ') && !IsSpace(head[indent])
    requires head[indent] != 'v' || (|head| > indent + 17 && head[indent + 17] != '[')
    ensures !IsOldForm(head + tail)
  {
    assert forall i :: 0 <= i < |head| ==> (head + tail)[i] == head[i];
    NotOldForm(head + tail, indent);
  }

  lemma VisualLineIsNew(comment: string)
    requires '\n' !in comment
    ensures !IsOldForm(VisualLine(comment)) && '\n' !in VisualLine(comment)
  {
    HeadDecides("  visual_prefixs :  ", comment, 2);
  }

  lemma PrefixLineIsNew(comment: string)
    requires '\n' !in comment
    ensures !IsOldForm(PrefixLine(comment)) && '\n' !in PrefixLine(comment)
  {
    HeadDecides("  - prefix: \"\"", comment, 2);
  }

  lemma WhiteListLineIsNew(comment: string)
    requires '\n' !in comment
    ensures !IsOldForm(WhiteListLine(comment)) && '\n' !in WhiteListLine(comment)
  {
    HeadDecides("    whiteList: [\"\"]", comment, 4);
  }

  lemma ResponseLineIsNew()
    ensures !IsOldForm(ResponseLine()) && '\n' !in ResponseLine()
  {
    NotOldForm(ResponseLine(), 4);
  }

  ghost predicate IsNewForm(lines: seq<string>) {
    NoOldForm(lines) && NoNewlines(lines)
  }

  lemma PrefixBlockIsNew(prefixComment: string, whiteListComment: string)
    requires '\n' !in prefixComment && '\n' !in whiteListComment
    ensures IsNewForm(PrefixBlock(prefixComment, whiteListComment))
  {
    PrefixLineIsNew(prefixComment);
    WhiteListLineIsNew(whiteListComment);
    ResponseLineIsNew();
    NewFormLines(PrefixLine(prefixComment), WhiteListLine(whiteListComment), ResponseLine());
  }

  lemma NewFormLines(a: string, b: string, c: string)
    requires !IsOldForm(a) && !IsOldForm(b) && !IsOldForm(c)
    requires '\n' !in a && '\n' !in b && '\n' !in c
    ensures IsNewForm([a, b, c])
  {
  }

  lemma NewFormConcat(a: seq<string>, b: seq<string>)
    requires IsNewForm(a) && IsNewForm(b)
    ensures IsNewForm(a + b)
  {
  }

  /** None of the new lines is of the old form, and each is one line. */
  lemma NewFormIsNotOld(c: Comments)
    requires c.OneLine()
    ensures IsNewForm(NewVisualPrefixs(c))
  {
    VisualLineIsNew(c.visual);
    PrefixBlockIsNew(c.prefix, c.whiteList);
    PrefixBlockIsNew("", "");
    NewFormConcat([VisualLine(c.visual)], PrefixBlock(c.prefix, c.whiteList));
    NewFormConcat([VisualLine(c.visual)] + PrefixBlock(c.prefix, c.whiteList), PrefixBlock("", ""));
    NewFormConcat([VisualLine(c.visual)] + PrefixBlock(c.prefix, c.whiteList) + PrefixBlock("", ""),
                  PrefixBlock("", ""));
  }

  lemma {:induction false} MigratedHasNoOldForm(lines: seq<string>, newForm: seq<string>)
    requires NoOldForm(newForm)
    ensures NoOldForm(Migrated(lines, newForm))
  {
    if lines != [] {
      MigratedHasNoOldForm(lines[..|lines| - 1], newForm);
    }
  }

  lemma {:induction false} NothingToMigrate(lines: seq<string>, newForm: seq<string>)
    requires NoOldForm(lines)
    ensures Migrated(lines, newForm) == lines
  {
    if lines != [] {
      NothingToMigrate(lines[..|lines| - 1], newForm);
      assert lines == lines[..|lines| - 1] + [lines[|lines| - 1]];
    }
  }

  lemma {:induction false} MigratedLinesWhole(lines: seq<string>, newForm: seq<string>)
    requires NoNewlines(lines) && NoNewlines(newForm)
    ensures NoNewlines(Migrated(lines, newForm))
  {
    if lines != [] {
      MigratedLinesWhole(lines[..|lines| - 1], newForm);
    }
  }

  ghost predicate NoNewlines(lines: seq<string>) {
    forall i :: 0 <= i < |lines| ==> '\n' !in lines[i]
  }

  lemma MigrationTwice(config: string, newForm: seq<string>)
    requires NoOldForm(newForm) && NoNewlines(newForm)
    ensures var once := Unlines(Migrated(Split(config, '\n'), newForm));
            NoOldForm(Split(once, '\n')) && Unlines(Migrated(Split(once, '\n'), newForm)) == once + "\n"
  {
    var lines := Split(config, '\n');
    PartsLackSeparator(config, '\n');
    MigratedHasNoOldForm(lines, newForm);
    MigratedLinesWhole(lines, newForm);
    var migrated := Migrated(lines, newForm);
    SplitUnlines(migrated);
    assert TrimSpace("") == "";
    NothingToMigrate(migrated + [""], newForm);
    UnlinesConcat(migrated, [""]);
    assert Unlines([""]) == "\n";
  }

  /** Applied to its own output the migration replaces nothing; it only adds one more newline at the end. */
  lemma MigrationIsFinal(config: string, c: Comments)
    requires c.OneLine()
    ensures var once := Unlines(Migrated(Split(config, '\n'), NewVisualPrefixs(c)));
            && NoOldForm(Split(once, '\n'))
            && Unlines(Migrated(Split(once, '\n'), NewVisualPrefixs(c))) == once + "\n"
  {
    NewFormIsNotOld(c);
    MigrationTwice(config, NewVisualPrefixs(c));
  }
}
