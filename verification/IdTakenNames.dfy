/** UpdateKeysWithNewID onto names that are in use (idmap/service.go). */
module IdTakenNames {
  import opened Wrappers
  import opened Bucket
  import opened IdMap
  import opened IdPairs
  import opened IdRename
  import opened Text

  // ---------------------------------------------------------------- what is left behind

  /** The string is the new name of a key in `done`. */
  predicate IsNewName(id: string, newID: string, done: set<string>, x: string) {
    newID <= x && id + x[|newID|..] in done
  }

  /** No pair has both halves under the id, and no new name is under it or paired with a key under it. */
  ghost predicate NamesAside(b: Store, id: string, newID: string) {
    && HalvesApart(b, id)
    && forall k :: Selected(b, id, k) ==>
         var name := NewName(id, newID, k);
         !(id + ":" <= name) && (name in b ==> !Selected(b, id, b[name]))
  }

  /** The entry of `x` once the keys in `done` have been renamed, whatever their new names held before. */
  function EntryAfter(b: Store, id: string, newID: string, done: set<string>, x: string): Option<string>
    requires forall k :: k in done ==> k in b && id + ":" <= k
  {
    if IsNewName(id, newID, done, x) then Some(b[id + x[|newID|..]])
    else if x !in b || x in done then None
    else if ':' in x && b[x] in done then Some(NewName(id, newID, b[x]))
    else Some(b[x])
  }

  ghost predicate IsOverwriting(b: Store, b': Store, id: string, newID: string, done: set<string>)
    requires forall k :: k in done ==> k in b && id + ":" <= k
  {
    forall x :: Entry(b', x) == EntryAfter(b, id, newID, done, x)
  }

  lemma NewNameOf(id: string, newID: string, done: set<string>, k: string)
    requires id + ":" <= k
    ensures var name := NewName(id, newID, k);
            newID <= name && id + name[|newID|..] == k && (IsNewName(id, newID, done, name) <==> k in done)
  {
    assert id == (id + ":")[..|id|] == k[..|id|];
    assert NewName(id, newID, k)[|newID|..] == k[|id|..];
  }

  lemma NewNameFrom(id: string, newID: string, done: set<string>, x: string)
    requires IsNewName(id, newID, done, x) && id + ":" <= id + x[|newID|..]
    ensures NewName(id, newID, id + x[|newID|..]) == x
  {
    assert (id + x[|newID|..])[|id|..] == x[|newID|..];
  }

  /** What is known of a key under the id and of its partner. */
  lemma KeyFacts(b: Store, id: string, newID: string, done: set<string>, key: string)
    requires Involutive(b) && NamesAside(b, id, newID) && Selected(b, id, key) && done <= SelectedKeys(b, id)
    ensures b[key] in b && b[b[key]] == key && ':' in key && ':' in b[key] && !Selected(b, id, b[key])
    ensures !IsNewName(id, newID, done, key) && !IsNewName(id, newID, done, b[key])
    ensures NewName(id, newID, key) !in {key, b[key]}
    ensures ReplaceFirst(key, id, newID) == NewName(id, newID, key)
  {
    ReplaceRenames(id, newID, key);
    assert Paired(b, key) && !SharesHalves(b, id, key);
    forall x | x in {key, b[key]} && IsNewName(id, newID, done, x) ensures false {
      var k := id + x[|newID|..];
      assert Selected(b, id, k);
      NewNameFrom(id, newID, done, x);
    }
  }

  /** The three entries that renaming a key touches. */
  lemma TouchedEntries(b: Store, id: string, newID: string, done: set<string>, key: string)
    requires Involutive(b) && NamesAside(b, id, newID) && done <= SelectedKeys(b, id) && key in done
    ensures EntryAfter(b, id, newID, done, key) == None
    ensures EntryAfter(b, id, newID, done, b[key]) == Some(NewName(id, newID, key))
    ensures EntryAfter(b, id, newID, done, NewName(id, newID, key)) == Some(b[key])
  {
    KeyFacts(b, id, newID, done, key);
    NewNameOf(id, newID, done, key);
  }

  lemma OverwriteStep(b: Store, tx: Store, id: string, newID: string, done: set<string>, key: string)
    requires Involutive(b) && NamesAside(b, id, newID) && done <= SelectedKeys(b, id)
    requires Selected(b, id, key) && key !in done && IsOverwriting(b, tx, id, newID, done)
    ensures var r := RenameOne(tx, id, newID, key, b[key]);
            r.Ok? && IsOverwriting(b, r.value, id, newID, done + {key})
  {
    var partner, name, done' := b[key], NewName(id, newID, key), done + {key};
    KeyFacts(b, id, newID, done, key);
    KeyFacts(b, id, newID, done', key);
    assert Entry(tx, partner) == EntryAfter(b, id, newID, done, partner) == Some(key);
    var tx' := Delete(tx, key)[name := partner][partner := name];
    assert RenameOne(tx, id, newID, key, partner) == Ok(tx');
    TouchedEntries(b, id, newID, done', key);
    forall x ensures Entry(tx', x) == EntryAfter(b, id, newID, done', x) {
      if x != key && x != partner && x != name {
        assert Entry(tx, x) == EntryAfter(b, id, newID, done, x);
        OtherEntrySame(b, id, newID, done, key, x);
      }
    }
  }

  lemma OtherEntrySame(b: Store, id: string, newID: string, done: set<string>, key: string, x: string)
    requires Involutive(b) && NamesAside(b, id, newID) && done <= SelectedKeys(b, id)
    requires Selected(b, id, key) && key !in done
    requires x !in {key, b[key], NewName(id, newID, key)}
    ensures EntryAfter(b, id, newID, done + {key}, x) == EntryAfter(b, id, newID, done, x)
  {
    KeyFacts(b, id, newID, done, key);
    if newID <= x && id + x[|newID|..] == key {
      NewNameFrom(id, newID, {key}, x);
    }
    assert x in b && ':' in x ==> Paired(b, x);
  }

  lemma {:induction false} OverwriteLoop(b: Store, tx: Store, id: string, newID: string, done: set<string>,
                                         order: seq<string>)
    requires Involutive(b) && NamesAside(b, id, newID) && done <= SelectedKeys(b, id)
    requires IsOverwriting(b, tx, id, newID, done)
    requires forall i :: 0 <= i < |order| ==> order[i] in b && Selected(b, id, order[i]) && order[i] !in done
    requires forall i, j :: 0 <= i < j < |order| ==> order[i] != order[j]
    ensures done + Elements(order) <= SelectedKeys(b, id)
    ensures var r := RenameAll(b, tx, id, newID, order);
            r.Ok? && IsOverwriting(b, r.value, id, newID, done + Elements(order))
    decreases |order|
  {
    if order == [] {
      assert done + Elements(order) == done;
    } else {
      var key := order[0];
      OverwriteStep(b, tx, id, newID, done, key);
      var tx' := RenameOne(tx, id, newID, key, b[key]).value;
      OverwriteLoop(b, tx', id, newID, done + {key}, order[1..]);
      assert done + {key} + Elements(order[1..]) == done + Elements(order);
    }
  }

  // ---------------------------------------------------------------- when the pairing survives

  /** Every pair that loses a name to a renamed key loses the other as well. */
  ghost predicate PairsTakenWhole(b: Store, id: string, newID: string) {
    forall k :: Selected(b, id, k) && NewName(id, newID, k) in b
                ==> IsNewName(id, newID, SelectedKeys(b, id), b[NewName(id, newID, k)])
  }

  lemma WholePairsKeepInvolutive(b: Store, b': Store, id: string, newID: string)
    requires Involutive(b) && NamesAside(b, id, newID) && PairsTakenWhole(b, id, newID)
    requires IsOverwriting(b, b', id, newID, SelectedKeys(b, id))
    ensures Involutive(b')
  {
    var done := SelectedKeys(b, id);
    forall x | x in b' && ':' in x ensures Paired(b', x) {
      assert Entry(b', x) == EntryAfter(b, id, newID, done, x);
      assert Entry(b', b'[x]) == EntryAfter(b, id, newID, done, b'[x]);
      if IsNewName(id, newID, done, x) {
        var k := id + x[|newID|..];
        NewNameFrom(id, newID, done, x);
        KeyFacts(b, id, newID, done, k);
      } else {
        assert Paired(b, x);
        if b[x] in done {
          KeyFacts(b, id, newID, done, b[x]);
          NewNameOf(id, newID, done, b[x]);
          ReplaceRenames(id, newID, b[x]);
        } else if IsNewName(id, newID, done, b[x]) {
          NewNameFrom(id, newID, done, b[x]);
        }
      }
    }
  }

  lemma HalfTakenBreaks(b: Store, b': Store, id: string, newID: string, k: string)
    requires Involutive(b) && NamesAside(b, id, newID) && Selected(b, id, k)
    requires IsOverwriting(b, b', id, newID, SelectedKeys(b, id))
    requires NewName(id, newID, k) in b && !IsNewName(id, newID, SelectedKeys(b, id), b[NewName(id, newID, k)])
    ensures !Involutive(b')
  {
    var done, taken := SelectedKeys(b, id), NewName(id, newID, k);
    ReplaceRenames(id, newID, k);
    NewNameOf(id, newID, done, k);
    assert Paired(b, taken) && Paired(b, k);
    assert Entry(b', b[taken]) == EntryAfter(b, id, newID, done, b[taken]) == Some(taken);
    assert Entry(b', taken) == EntryAfter(b, id, newID, done, taken) == Some(b[k]);
    assert !Paired(b', b[taken]);
  }

  /** A pair whose name is taken is lost: the name leads to the renamed key's partner. */
  lemma TakenPairIsLost(b: Store, b': Store, id: string, newID: string, k: string)
    requires Involutive(b) && NamesAside(b, id, newID) && Selected(b, id, k)
    requires IsOverwriting(b, b', id, newID, SelectedKeys(b, id)) && NewName(id, newID, k) in b
    ensures NewName(id, newID, k) in b' && b'[NewName(id, newID, k)] == b[k] != b[NewName(id, newID, k)]
  {
    var taken := NewName(id, newID, k);
    ReplaceRenames(id, newID, k);
    NewNameOf(id, newID, SelectedKeys(b, id), k);
    assert Paired(b, taken) && Paired(b, k);
    assert Entry(b', taken) == EntryAfter(b, id, newID, SelectedKeys(b, id), taken);
  }

  /**
   * With new names aside, used or not, every traversal order succeeds with the same bucket. The pairing is still an
   * involution if and only if every pair that loses a name loses both, and every pair that loses one is lost.
   */
  lemma TakenNamesExactly(b: Store, id: string, newID: string, order: seq<string>)
    requires Involutive(b) && NamesAside(b, id, newID) && IsTraversal(b, id, order)
    ensures var o := Renamed(b, id, newID, order);
            && o.result.Ok? && IsOverwriting(b, o.bucket, id, newID, SelectedKeys(b, id))
            && (Involutive(o.bucket) <==> PairsTakenWhole(b, id, newID))
            && forall k :: Selected(b, id, k) && NewName(id, newID, k) in b ==>
                 Entry(o.bucket, NewName(id, newID, k)) == Some(b[k]) && b[k] != b[NewName(id, newID, k)]
  {
    OverwriteLoop(b, b, id, newID, {}, order);
    TraversalElements(b, id, order);
    assert {} + Elements(order) == SelectedKeys(b, id);
    var b' := Renamed(b, id, newID, order).bucket;
    if PairsTakenWhole(b, id, newID) {
      WholePairsKeepInvolutive(b, b', id, newID);
    } else {
      var k :| Selected(b, id, k) && NewName(id, newID, k) in b
               && !IsNewName(id, newID, SelectedKeys(b, id), b[NewName(id, newID, k)]);
      HalfTakenBreaks(b, b', id, newID, k);
    }
    forall k | Selected(b, id, k) && NewName(id, newID, k) in b
      ensures Entry(b', NewName(id, newID, k)) == Some(b[k]) && b[k] != b[NewName(id, newID, k)]
    {
      TakenPairIsLost(b, b', id, newID, k);
    }
  }

  // ---------------------------------------------------------------- when the order decides

  lemma ReplaceAt(front: string, c: char, back: string, new_: string)
    requires c !in front
    ensures ReplaceFirst(front + [c] + back, [c], new_) == front + new_ + back
  {
    FirstCharacter(front, c, back);
  }

  lemma OneTurn(tx: Store, id: string, newID: string, key: string, partner: string, name: string, value: string,
                tx': Store)
    requires partner in tx && partner != "" && ReplaceFirst(key, id, newID) == name
    requires ReplaceFirst(tx[partner], id, newID) == value && (tx - {key})[name := partner][partner := value] == tx'
    ensures RenameOne(tx, id, newID, key, partner) == Ok(tx')
  {
  }

  lemma TwoTurns(b: Store, id: string, newID: string, first: string, second: string, b1: Store, b2: Store)
    requires first in b && second in b
    requires RenameOne(b, id, newID, first, b[first]) == Ok(b1)
    requires RenameOne(b1, id, newID, second, b[second]) == Ok(b2)
    ensures Renamed(b, id, newID, [first, second]) == Outcome(b2, Ok(()))
  {
    assert [first, second][1..] == [second] && [second][1..] == [];
    assert RenameAll(b, b2, id, newID, []) == Ok(b2);
    assert RenameAll(b, b1, id, newID, [second]) == Ok(b2);
  }

  predicate Apart(k1: string, k2: string, p: string, t: string, n: string) {
    && t != "" && p != "" && k1 != k2 && k1 != p && k1 != t && k2 != p && k2 != t && p != t
    && n != k1 && n != k2 && n != p && n != t
  }

  /** Keys k1 and k2 of a renaming in which k1 gets the name t, the partner of k2; p is the partner of k1. */
  predicate Crossing(id: string, newID: string, k1: string, k2: string, p: string, t: string, n: string, q: string) {
    && Apart(k1, k2, p, t, n)
    && ReplaceFirst(k1, id, newID) == t && ReplaceFirst(k2, id, newID) == n && ReplaceFirst(p, id, newID) == q
  }

  function CrossedPairs(k1: string, k2: string, p: string, t: string): Store {
    map[k1 := p, p := k1, k2 := t, t := k2]
  }

  function LeftBehind(p: string, t: string, n: string, v: string): Store {
    map[p := t, n := t, t := v]
  }

  lemma FirstMaps(k1: string, k2: string, p: string, t: string, n: string, q: string) returns (b1: Store)
    requires Apart(k1, k2, p, t, n)
    ensures Entry(CrossedPairs(k1, k2, p, t), p) == Some(k1)
    ensures (CrossedPairs(k1, k2, p, t) - {k1})[t := p][p := t] == b1
    ensures Entry(b1, t) == Some(p) && (b1 - {k2})[n := t][t := q] == LeftBehind(p, t, n, q)
  {
    b1 := map[k2 := t, t := p, p := t];
  }

  lemma LastMaps(k1: string, k2: string, p: string, t: string, n: string) returns (b1: Store)
    requires Apart(k1, k2, p, t, n)
    ensures Entry(CrossedPairs(k1, k2, p, t), t) == Some(k2)
    ensures (CrossedPairs(k1, k2, p, t) - {k2})[n := t][t := n] == b1
    ensures Entry(b1, p) == Some(k1) && (b1 - {k1})[t := p][p := t] == LeftBehind(p, t, n, p)
  {
    b1 := map[k1 := p, p := k1, n := t, t := n];
  }

  lemma NamedFirst(id: string, newID: string, k1: string, k2: string, p: string, t: string, n: string, q: string)
    requires Crossing(id, newID, k1, k2, p, t, n, q)
    ensures Renamed(CrossedPairs(k1, k2, p, t), id, newID, [k1, k2]) == Outcome(LeftBehind(p, t, n, q), Ok(()))
  {
    var b1 := FirstMaps(k1, k2, p, t, n, q);
    OneTurn(CrossedPairs(k1, k2, p, t), id, newID, k1, p, t, t, b1);
    OneTurn(b1, id, newID, k2, t, n, q, LeftBehind(p, t, n, q));
    TwoTurns(CrossedPairs(k1, k2, p, t), id, newID, k1, k2, b1, LeftBehind(p, t, n, q));
  }

  lemma NamedLast(id: string, newID: string, k1: string, k2: string, p: string, t: string, n: string, q: string)
    requires Crossing(id, newID, k1, k2, p, t, n, q)
    ensures Renamed(CrossedPairs(k1, k2, p, t), id, newID, [k2, k1]) == Outcome(LeftBehind(p, t, n, p), Ok(()))
  {
    var b1 := LastMaps(k1, k2, p, t, n);
    OneTurn(CrossedPairs(k1, k2, p, t), id, newID, k2, t, n, n, b1);
    OneTurn(b1, id, newID, k1, p, t, t, LeftBehind(p, t, n, p));
    TwoTurns(CrossedPairs(k1, k2, p, t), id, newID, k2, k1, b1, LeftBehind(p, t, n, p));
  }

  lemma NoInvolution(p: string, t: string, n: string, v: string)
    requires ':' in n && n !in {p, t, v} && p != t
    ensures !Involutive(LeftBehind(p, t, n, v))
  {
    var b := LeftBehind(p, t, n, v);
    assert b[b[n]] == v;
    assert !Paired(b, n);
  }

  /** The two traversal orders both succeed, leave different buckets, and neither is an involution. */
  ghost predicate OrderMatters(b: Store, id: string, newID: string, k1: string, k2: string) {
    && IsTraversal(b, id, [k1, k2]) && IsTraversal(b, id, [k2, k1])
    && var o1 := Renamed(b, id, newID, [k1, k2]);
      var o2 := Renamed(b, id, newID, [k2, k1]);
      && o1.result.Ok? && o2.result.Ok? && o1.bucket != o2.bucket
      && !Involutive(o1.bucket) && !Involutive(o2.bucket)
  }

  lemma CrossingMatters(id: string, newID: string, k1: string, k2: string, p: string, t: string, n: string, q: string)
    requires Crossing(id, newID, k1, k2, p, t, n, q) && ':' in n && n != q && p != q
    requires var b := CrossedPairs(k1, k2, p, t);
             IsTraversal(b, id, [k1, k2]) && IsTraversal(b, id, [k2, k1])
    ensures OrderMatters(CrossedPairs(k1, k2, p, t), id, newID, k1, k2)
  {
    NamedFirst(id, newID, k1, k2, p, t, n, q);
    NamedLast(id, newID, k1, k2, p, t, n, q);
    assert LeftBehind(p, t, n, q)[t] != LeftBehind(p, t, n, p)[t];
    NoInvolution(p, t, n, q);
    NoInvolution(p, t, n, p);
  }

  /**
   * A new name paired with another key under the id: the map's traversal order, which the runtime chooses at random,
   * decides what is stored, and neither order gives an involution. With a, b and p for the characters: a:1 is paired
   * with pa:1 and a:2 with b:1, and a becomes b.
   */
  lemma OrderDecides(a: char, b: char, p: char)
    requires a != b && a != p && b != p && ':' !in [a, b, p]
    ensures var k1, k2, partner, taken := [a] + ":1", [a] + ":2", [p] + [a] + ":1", [b] + ":1";
            var bucket := CrossedPairs(k1, k2, partner, taken);
            Involutive(bucket) && OrderMatters(bucket, [a], [b], k1, k2)
  {
    var k1, k2, partner, taken := [a] + ":1", [a] + ":2", [p] + [a] + ":1", [b] + ":1";
    var name, other := [b] + ":2", [p] + [b] + ":1";
    Renames(a, b, p);
    assert k1[2] == '1' && k2[2] == '2' && name[2] == '2' && taken[2] == '1' && name[1] == ':';
    assert partner[1] == a && other[1] == b;
    BothTraversals(a, k1, k2, partner, taken);
    CrossingMatters([a], [b], k1, k2, partner, taken, name, other);
  }

  lemma Renames(a: char, b: char, p: char)
    requires a != p
    ensures ReplaceFirst([a] + ":1", [a], [b]) == [b] + ":1" && ReplaceFirst([a] + ":2", [a], [b]) == [b] + ":2"
    ensures ReplaceFirst([p] + [a] + ":1", [a], [b]) == [p] + [b] + ":1"
  {
    ReplacePrefix([a] + ":1", [a], [b]);
    ReplacePrefix([a] + ":2", [a], [b]);
    ReplaceAt([p], a, ":1", [b]);
  }

  lemma BothTraversals(a: char, k1: string, k2: string, p: string, t: string)
    requires |k1| > 1 && |k2| > 1 && k1[0] == k2[0] == a && k1[1] == k2[1] == ':' && k1 != k2
    requires p != "" && t != "" && p[0] != a && t[0] != a && ':' in p && ':' in t && p != t
    ensures var b := CrossedPairs(k1, k2, p, t);
            Involutive(b) && IsTraversal(b, [a], [k1, k2]) && IsTraversal(b, [a], [k2, k1])
  {
    assert [a] + ":" == k1[..2] == k2[..2];
    assert ([a] + ":")[0] == a;
    assert k1 == [k1, k2][0] == [k2, k1][1] && k2 == [k1, k2][1] == [k2, k1][0];
  }
}
