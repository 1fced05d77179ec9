/** The keys under which message ids are kept for later echoes (echo/echo.go). */
module EchoKeys {
  import opened Decimal

  /** GenerateKey. */
  function Key(appid: string, s: int): string {
    appid + "_" + FormatInt(s)
  }

  /** GenerateKeyv2. */
  function GroupKey(appid: string, groupid: int, userid: int): string {
    appid + "_" + FormatInt(groupid) + "_" + FormatInt(userid)
  }

  lemma NoneAfterLast(x: string, p: string)
    requires '_' !in p
    ensures forall k :: |x| < k < |x + "_" + p| ==> (x + "_" + p)[k] != '_'
  {
  }

  /** A string splits in one way at its last underscore. */
  lemma LastUnderscore(x: string, p: string, y: string, q: string)
    requires '_' !in p && '_' !in q && x + "_" + p == y + "_" + q
    ensures x == y && p == q
  {
    var s := x + "_" + p;
    NoneAfterLast(x, p);
    NoneAfterLast(y, q);
    assert s[|x|] == '_' && s[|y|] == '_';
    assert x == s[..|x|] && y == s[..|y|];
    assert p == s[|x| + 1..] && q == s[|y| + 1..];
  }

  lemma NoUnderscore(n: int)
    ensures '_' !in FormatInt(n)
  {
    FormatIntChars(n);
    assert !IsDigit('_');
  }

  /** Different echoes have different keys, whatever the application ids. */
  lemma KeyInjective(a: string, s: int, b: string, t: int)
    requires Key(a, s) == Key(b, t)
    ensures a == b && s == t
  {
    NoUnderscore(s);
    NoUnderscore(t);
    LastUnderscore(a, FormatInt(s), b, FormatInt(t));
    FormatIntInjective(s, t);
  }

  lemma GroupKeyInjective(a: string, g: int, u: int, b: string, h: int, v: int)
    requires GroupKey(a, g, u) == GroupKey(b, h, v)
    ensures a == b && g == h && u == v
  {
    KeyInjective(Key(a, g), u, Key(b, h), v);
    KeyInjective(a, g, b, h);
  }

  /** The two kinds share one map, and a key of one kind is a key of the other exactly in this case. */
  lemma KindsCollideExactly(a: string, s: int, b: string, g: int, u: int)
    ensures Key(a, s) == GroupKey(b, g, u) <==> s == u && a == b + "_" + FormatInt(g)
  {
    if Key(a, s) == GroupKey(b, g, u) {
      KeyInjective(a, s, Key(b, g), u);
    }
  }

  datatype Entry =
    | EchoEntry(appid: string, s: int)
    | GroupEntry(appid: string, groupid: int, userid: int)

  function KeyOf(e: Entry): string {
    match e
    case EchoEntry(appid, s) => Key(appid, s)
    case GroupEntry(appid, groupid, userid) => GroupKey(appid, groupid, userid)
  }

  datatype Addition = Addition(entry: Entry, msgID: string)

  /** The map after a run of additions. */
  function Added(m: map<string, string>, run: seq<Addition>): map<string, string> {
    if run == [] then m
    else
      var last := run[|run| - 1];
      Added(m, run[..|run| - 1])[KeyOf(last.entry) := last.msgID]
  }

  /** The message id last added for an entry, "" if none was. */
  function LastFor(run: seq<Addition>, e: Entry): string {
    if run == [] then ""
    else if run[|run| - 1].entry == e then run[|run| - 1].msgID
    else LastFor(run[..|run| - 1], e)
  }

  class EchoMapping {
    var msgIDMapping: map<string, string>

    constructor ()
      ensures msgIDMapping == map[]
    {
      msgIDMapping := map[];
    }

    method AddMsgID(appid: string, s: int, msgID: string)
      modifies this
      ensures msgIDMapping == Added(old(msgIDMapping), [Addition(EchoEntry(appid, s), msgID)])
    {
      msgIDMapping := msgIDMapping[Key(appid, s) := msgID];
      assert [Addition(EchoEntry(appid, s), msgID)][..0] == [];
    }

    method AddMsgIDv2(appid: string, groupid: int, userid: int, msgID: string)
      modifies this
      ensures msgIDMapping == Added(old(msgIDMapping), [Addition(GroupEntry(appid, groupid, userid), msgID)])
    {
      msgIDMapping := msgIDMapping[GroupKey(appid, groupid, userid) := msgID];
      assert [Addition(GroupEntry(appid, groupid, userid), msgID)][..0] == [];
    }

    method GetMsgIDByKey(key: string) returns (msgID: string)
      ensures msgID == Lookup(msgIDMapping, key)
    {
      msgID := if key in msgIDMapping then msgIDMapping[key] else "";
    }
  }

  function Lookup(m: map<string, string>, key: string): string {
    if key in m then m[key] else ""
  }

  predicate Collide(e: Entry, f: Entry) {
    match (e, f)
    case (EchoEntry(a, s), GroupEntry(b, g, u)) => s == u && a == b + "_" + FormatInt(g)
    case (GroupEntry(b, g, u), EchoEntry(a, s)) => s == u && a == b + "_" + FormatInt(g)
    case _ => false
  }

  /** Two entries have the same key exactly when they are the same or are the two kinds of a collision. */
  lemma SameKeyExactly(e: Entry, f: Entry)
    ensures KeyOf(e) == KeyOf(f) <==> e == f || Collide(e, f)
  {
    match (e, f)
    case (EchoEntry(a, s), EchoEntry(b, t)) =>
      if Key(a, s) == Key(b, t) {
        KeyInjective(a, s, b, t);
      }
    case (GroupEntry(a, g, u), GroupEntry(b, h, v)) =>
      if GroupKey(a, g, u) == GroupKey(b, h, v) {
        GroupKeyInjective(a, g, u, b, h, v);
      }
    case (EchoEntry(a, s), GroupEntry(b, g, u)) => KindsCollideExactly(a, s, b, g, u);
    case (GroupEntry(b, g, u), EchoEntry(a, s)) => KindsCollideExactly(a, s, b, g, u);
  }

  /** Over every run, an entry no other entry of the run collides with is found as it was last added. */
  lemma {:induction false} FoundAsLastAdded(run: seq<Addition>, e: Entry)
    requires forall i :: 0 <= i < |run| ==> !Collide(run[i].entry, e)
    ensures Lookup(Added(map[], run), KeyOf(e)) == LastFor(run, e)
  {
    if run != [] {
      FoundAsLastAdded(run[..|run| - 1], e);
      SameKeyExactly(run[|run| - 1].entry, e);
    }
  }
}
