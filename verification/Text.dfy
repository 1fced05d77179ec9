/** The string functions of Go's standard library that the models rely on. */
module Text {
  import opened Wrappers

  /** strings.Index: the leftmost place where `sub` occurs in `s`. */
  function Index(s: string, sub: string): (r: Option<nat>)
    ensures r.Some? ==> r.value + |sub| <= |s| && s[r.value..r.value + |sub|] == sub
    ensures r.Some? ==> forall j :: 0 <= j < r.value ==> !(sub <= s[j..])
    ensures r.None? ==> forall j :: 0 <= j <= |s| ==> !(sub <= s[j..])
  {
    if sub <= s then Some(0)
    else if s == "" then None
    else
      var rest := Index(s[1..], sub);
      assert forall j :: 0 < j <= |s| ==> s[j..] == s[1..][j - 1..];
      match rest
      case None => None
      case Some(i) => Some(i + 1)
  }

  /** strings.Replace(s, old, new, 1), and replaceFirstOccurrence. */
  function ReplaceFirst(s: string, old_: string, new_: string): string {
    match Index(s, old_)
    case None => s
    case Some(i) => s[..i] + new_ + s[i + |old_|..]
  }

  lemma ReplacePrefix(s: string, old_: string, new_: string)
    requires old_ <= s
    ensures ReplaceFirst(s, old_, new_) == new_ + s[|old_|..]
  {
    assert Index(s, old_) == Some(0);
  }

  predicate NoEarlier(s: string, sub: string, i: nat)
    requires i <= |s|
  {
    forall j :: 0 <= j < i ==> !(sub <= s[j..])
  }

  lemma IndexIs(s: string, sub: string, i: nat)
    requires i <= |s| && sub <= s[i..] && NoEarlier(s, sub, i)
    ensures Index(s, sub) == Some(i)
  {
    var r := Index(s, sub);
    assert r.Some? && s[r.value..r.value + |sub|] == sub;
    assert sub <= s[r.value..];
  }

  /** What stands before the first occurrence and after it is kept. */
  lemma ReplaceFirstAt(pre: string, old_: string, post: string, new_: string)
    requires NoEarlier(pre + old_ + post, old_, |pre|)
    ensures ReplaceFirst(pre + old_ + post, old_, new_) == pre + new_ + post
  {
    var s := pre + old_ + post;
    assert s == pre + (old_ + post);
    assert s[|pre|..] == old_ + post && s[..|pre|] == pre && s[|pre| + |old_|..] == post;
    IndexIs(s, old_, |pre|);
  }

  /** A character that does not occur in what stands before it is first found there, and not at all if it is nowhere. */
  lemma FirstCharacter(pre: string, c: char, post: string)
    requires c !in pre
    ensures NoEarlier(pre + [c] + post, [c], |pre|) && Index(pre + [c] + post, [c]) == Some(|pre|)
  {
    var s := pre + [c] + post;
    forall j | 0 <= j < |pre| ensures !([c] <= s[j..]) {
      assert s[j..][0] == pre[j] && pre[j] in pre;
    }
    assert s[|pre|..] == [c] + post;
    IndexIs(s, [c], |pre|);
  }

  lemma FoundCharacter(s: string, c: char)
    ensures Index(s, [c]).Some? ==> c in s
  {
    var r := Index(s, [c]);
    if r.Some? {
      assert s[r.value..r.value + 1][0] == s[r.value];
    }
  }

  lemma FoundThere(s: string, sub: string)
    ensures Index(s, sub).Some? ==> sub <= s[Index(s, sub).value..]
  {
    var r := Index(s, sub);
    if r.Some? {
      assert s[r.value..][..|sub|] == s[r.value..r.value + |sub|];
    }
  }

  lemma ReplaceNowhere(s: string, old_: string, new_: string)
    requires forall j :: 0 <= j <= |s| ==> !(old_ <= s[j..])
    ensures ReplaceFirst(s, old_, new_) == s
  {
    FoundThere(s, old_);
  }

  /** strings.Split on one character. */
  function Split(s: string, sep: char): (parts: seq<string>)
    ensures |parts| >= 1
  {
    if s == "" then [""] else AddFront(s[0], sep, Split(s[1..], sep))
  }

  /** The parts of c + s, given the parts of s. */
  function AddFront(c: char, sep: char, parts: seq<string>): (r: seq<string>)
    requires |parts| >= 1
    ensures |r| >= 1
  {
    if c == sep then [""] + parts else [[c] + parts[0]] + parts[1..]
  }

  lemma AddFrontConcat(c: char, sep: char, p: seq<string>, q: seq<string>)
    requires |p| >= 1
    ensures AddFront(c, sep, p + q) == AddFront(c, sep, p) + q
  {
    assert (p + q)[1..] == p[1..] + q;
  }

  function Join(parts: seq<string>, sep: char): string {
    if parts == [] then ""
    else if |parts| == 1 then parts[0]
    else parts[0] + [sep] + Join(parts[1..], sep)
  }

  /** Joining the parts gives the string back. */
  lemma {:induction false} JoinSplit(s: string, sep: char)
    ensures Join(Split(s, sep), sep) == s
  {
    if s != "" {
      var parts := Split(s[1..], sep);
      JoinSplit(s[1..], sep);
      assert s == [s[0]] + s[1..];
      JoinAddFront(s[0], sep, parts);
    }
  }

  lemma JoinAddFront(c: char, sep: char, parts: seq<string>)
    requires |parts| >= 1
    ensures Join(AddFront(c, sep, parts), sep) == [c] + Join(parts, sep)
  {
    var r := AddFront(c, sep, parts);
    if c == sep {
      assert r[1..] == parts;
      assert Join(r, sep) == "" + [sep] + Join(parts, sep);
    } else if |parts| > 1 {
      assert r[1..] == parts[1..];
      assert Join(r, sep) == ([c] + parts[0]) + [sep] + Join(parts[1..], sep);
    }
  }

  /** A string without the separator is its own only part, and only such strings have one part. */
  lemma {:induction false} SplitSingle(s: string, sep: char)
    ensures sep !in s <==> Split(s, sep) == [s]
    ensures sep in s ==> |Split(s, sep)| >= 2
  {
    if s != "" {
      SplitSingle(s[1..], sep);
      assert s == [s[0]] + s[1..];
    }
  }

  /** Splitting a concatenation at a separator concatenates the parts. */
  lemma {:induction false} SplitAt(a: string, sep: char, b: string)
    ensures Split(a + [sep] + b, sep) == Split(a, sep) + Split(b, sep)
  {
    var s := a + [sep] + b;
    if a == "" {
      assert s[1..] == b;
    } else {
      SplitAt(a[1..], sep, b);
      assert s[1..] == a[1..] + [sep] + b;
      AddFrontConcat(a[0], sep, Split(a[1..], sep), Split(b, sep));
    }
  }

  /** No part holds the separator. */
  lemma {:induction false} PartsLackSeparator(s: string, sep: char)
    ensures forall p :: p in Split(s, sep) ==> sep !in p
  {
    if s != "" {
      PartsLackSeparator(s[1..], sep);
    }
  }

  /** unicode.IsSpace. */
  predicate IsSpace(c: char) {
    || '\t' <= c <= '\r' || c == ' ' || c == '\U{85}' || c == '\U{A0}' || c == '\U{1680}'
    || '\U{2000}' <= c <= '\U{200A}' || c == '\U{2028}' || c == '\U{2029}' || c == '\U{202F}'
    || c == '\U{205F}' || c == '\U{3000}'
  }

  function TrimLeft(s: string): (t: string)
    ensures t != "" ==> !IsSpace(t[0])
  {
    if s != "" && IsSpace(s[0]) then TrimLeft(s[1..]) else s
  }

  function TrimRight(s: string): (t: string)
    ensures t <= s
    ensures t != "" ==> !IsSpace(t[|t| - 1])
  {
    if s != "" && IsSpace(s[|s| - 1]) then TrimRight(s[..|s| - 1]) else s
  }

  /** strings.TrimSpace. */
  function TrimSpace(s: string): (t: string)
    ensures t != "" ==> !IsSpace(t[0]) && !IsSpace(t[|t| - 1])
  {
    TrimRight(TrimLeft(s))
  }

  /** strings.TrimPrefix. */
  function TrimPrefix(s: string, prefix: string): string {
    if prefix <= s then s[|prefix|..] else s
  }
}
