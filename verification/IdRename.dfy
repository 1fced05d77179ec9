/** What UpdateKeysWithNewID does to a bucket of paired entries, for every traversal order (idmap/service.go). */
module IdRename {
  import opened Wrappers
  import opened Bucket
  import opened IdMap
  import opened IdPairs
  import opened Text

  /** A key of the form id:x under its new name. */
  function NewName(id: string, newID: string, k: string): string
    requires id + ":" <= k
  {
    newID + k[|id|..]
  }

  /** The name of a key once the keys in `done` have been renamed. */
  function NameNow(id: string, newID: string, done: set<string>, k: string): string {
    if k in done && id + ":" <= k then NewName(id, newID, k) else k
  }

  /** The key that has the name `x` once the keys in `done` have been renamed. */
  function OriginalName(id: string, newID: string, done: set<string>, x: string): string {
    if newID <= x && id + x[|newID|..] in done then id + x[|newID|..] else x
  }

  function SelectedKeys(b: Store, id: string): (s: set<string>) {
    set k | k in b && Selected(b, id, k)
  }

  function Elements(order: seq<string>): set<string> {
    if order == [] then {} else {order[0]} + Elements(order[1..])
  }

  predicate HasOriginal(b: Store, id: string, newID: string, done: set<string>, x: string) {
    var k := OriginalName(id, newID, done, x);
    k in b && NameNow(id, newID, done, k) == x
  }

  /** The entry of `k` in `b` is found in `b'` under the current name, with its partner's current name as value. */
  predicate EntryRenamed(b: Store, b': Store, id: string, newID: string, done: set<string>, k: string)
    requires k in b
  {
    && NameNow(id, newID, done, k) in b'
    && b'[NameNow(id, newID, done, k)] == if ':' in k then NameNow(id, newID, done, b[k]) else b[k]
  }

  /** `b'` is `b` with the keys in `done` renamed, as keys and as partners, and nothing else changed. */
  ghost predicate IsRenaming(b: Store, b': Store, id: string, newID: string, done: set<string>) {
    && (forall k {:trigger EntryRenamed(b, b', id, newID, done, k)} ::
          k in b ==> EntryRenamed(b, b', id, newID, done, k))
    && (forall x {:trigger HasOriginal(b, id, newID, done, x)} ::
          x in b' ==> HasOriginal(b, id, newID, done, x))
  }

  /** None of the new names is in use. */
  ghost predicate NamesFree(b: Store, id: string, newID: string) {
    forall k :: Selected(b, id, k) ==> NewName(id, newID, k) !in b
  }

  /** A pair with both halves under the id. */
  predicate SharesHalves(b: Store, id: string, k: string) {
    Selected(b, id, k) && Selected(b, id, b[k])
  }

  ghost predicate HalvesApart(b: Store, id: string) {
    forall k :: !SharesHalves(b, id, k)
  }

  lemma ReplaceRenames(id: string, newID: string, k: string)
    requires id + ":" <= k
    ensures ReplaceFirst(k, id, newID) == NewName(id, newID, k)
    ensures ':' in NewName(id, newID, k) && ':' in k
  {
    assert id <= k by {
      assert id == (id + ":")[..|id|] == k[..|id|];
    }
    ReplacePrefix(k, id, newID);
    assert k[|id|] == (id + ":")[|id|] == ':';
    assert NewName(id, newID, k)[|newID|] == ':';
  }

  lemma NewNamesDistinct(id: string, newID: string, j: string, k: string)
    requires id + ":" <= j && id + ":" <= k && NewName(id, newID, j) == NewName(id, newID, k)
    ensures j == k
  {
    assert j[|id|..] == NewName(id, newID, j)[|newID|..] == k[|id|..];
    assert j == id + j[|id|..] && k == id + k[|id|..] by {
      assert id == (id + ":")[..|id|];
      assert j[..|id|] == id && k[..|id|] == id;
    }
  }

  /** Two keys have the same current name only if they are the same key. */
  lemma NamesNowDistinct(b: Store, id: string, newID: string, done: set<string>, j: string, k: string)
    requires NamesFree(b, id, newID) && j in b && k in b
    ensures NameNow(id, newID, done, j) == NameNow(id, newID, done, k) ==> j == k
  {
    var jMoved := j in done && id + ":" <= j;
    var kMoved := k in done && id + ":" <= k;
    assert jMoved ==> Selected(b, id, j);
    assert kMoved ==> Selected(b, id, k);
    if jMoved && kMoved && NewName(id, newID, j) == NewName(id, newID, k) {
      NewNamesDistinct(id, newID, j, k);
    }
  }

  /** One turn of the loop renames one more key. */
  lemma RenameStep(b: Store, tx: Store, id: string, newID: string, done: set<string>, key: string)
    requires Involutive(b) && NamesFree(b, id, newID) && HalvesApart(b, id)
    requires IsRenaming(b, tx, id, newID, done)
    requires done <= SelectedKeys(b, id) && Selected(b, id, key) && key !in done
    ensures var r := RenameOne(tx, id, newID, key, b[key]);
            r.Ok? && IsRenaming(b, r.value, id, newID, done + {key})
  {
    var partner := b[key];
    var done' := done + {key};
    ReplaceRenames(id, newID, key);
    assert Paired(b, key) && !SharesHalves(b, id, key);
    assert EntryRenamed(b, tx, id, newID, done, key) && EntryRenamed(b, tx, id, newID, done, partner);
    assert NameNow(id, newID, done, partner) == partner && NameNow(id, newID, done, key) == key;
    assert tx[partner] == key;
    var moved := NewName(id, newID, key);
    var tx' := Delete(tx, key)[moved := partner][partner := moved];
    assert RenameOne(tx, id, newID, key, partner) == Ok(tx');
    forall k | k in b ensures EntryRenamed(b, tx', id, newID, done', k) {
      if k != key && k != partner {
        OtherKeyKept(b, id, newID, done, key, k);
        assert EntryRenamed(b, tx, id, newID, done, k);
        if ':' in k {
          assert Paired(b, k);
        }
      }
    }
    forall x | x in tx' ensures HasOriginal(b, id, newID, done', x) {
      if x == moved {
        NameHasOriginal(b, id, newID, done', key);
      } else if x == partner {
        NameHasOriginal(b, id, newID, done', partner);
      } else {
        assert HasOriginal(b, id, newID, done, x);
        NameHasOriginal(b, id, newID, done', OriginalName(id, newID, done, x));
      }
    }
  }

  lemma NameHasOriginal(b: Store, id: string, newID: string, done: set<string>, k: string)
    requires NamesFree(b, id, newID) && done <= SelectedKeys(b, id) && k in b
    ensures OriginalName(id, newID, done, NameNow(id, newID, done, k)) == k
  {
    var x := NameNow(id, newID, done, k);
    if k in done {
      assert Selected(b, id, k);
      assert id == (id + ":")[..|id|] == k[..|id|];
      assert x[|newID|..] == k[|id|..] && id + k[|id|..] == k;
    } else if newID <= x {
      var j := id + x[|newID|..];
      assert j[|id|..] == x[|newID|..] && newID + j[|id|..] == x;
      assert j in done ==> Selected(b, id, j);
    }
  }

  /** The entry of a key that is neither renamed now nor the partner is not touched. */
  lemma OtherKeyKept(b: Store, id: string, newID: string, done: set<string>, key: string, k: string)
    requires NamesFree(b, id, newID) && done <= SelectedKeys(b, id)
    requires Selected(b, id, key) && key !in done && k in b && k != key && b[key] in b && k != b[key]
    requires !Selected(b, id, b[key])
    ensures var name := NameNow(id, newID, done, k);
            && name == NameNow(id, newID, done + {key}, k)
            && name != key && name != b[key] && name != NewName(id, newID, key)
  {
    NamesNowDistinct(b, id, newID, done, k, key);
    NamesNowDistinct(b, id, newID, done, k, b[key]);
    NamesNowDistinct(b, id, newID, done + {key}, k, key);
  }

  lemma {:induction false} RenameLoop(b: Store, tx: Store, id: string, newID: string, done: set<string>,
                                      order: seq<string>)
    requires Involutive(b) && NamesFree(b, id, newID) && HalvesApart(b, id)
    requires IsRenaming(b, tx, id, newID, done) && done <= SelectedKeys(b, id)
    requires forall i :: 0 <= i < |order| ==> Selected(b, id, order[i]) && order[i] !in done
    requires forall i, j :: 0 <= i < j < |order| ==> order[i] != order[j]
    ensures var r := RenameAll(b, tx, id, newID, order);
            r.Ok? && IsRenaming(b, r.value, id, newID, done + Elements(order))
    decreases |order|
  {
    if order == [] {
      assert done + Elements(order) == done;
    } else {
      var key := order[0];
      RenameStep(b, tx, id, newID, done, key);
      var tx' := RenameOne(tx, id, newID, key, b[key]).value;
      RenameLoop(b, tx', id, newID, done + {key}, order[1..]);
      assert done + {key} + Elements(order[1..]) == done + Elements(order);
    }
  }

  lemma {:induction false} ElementsOf(order: seq<string>, k: string)
    ensures k in Elements(order) <==> k in order
  {
    if order != [] {
      ElementsOf(order[1..], k);
      assert order == [order[0]] + order[1..];
    }
  }

  lemma TraversalElements(b: Store, id: string, order: seq<string>)
    requires IsTraversal(b, id, order)
    ensures Elements(order) == SelectedKeys(b, id)
  {
    forall k ensures k in Elements(order) <==> k in SelectedKeys(b, id) {
      ElementsOf(order, k);
    }
  }

  /** A bucket has at most one renaming, so the traversal order cannot matter. */
  lemma RenamingUnique(b: Store, b1: Store, b2: Store, id: string, newID: string, done: set<string>)
    requires IsRenaming(b, b1, id, newID, done) && IsRenaming(b, b2, id, newID, done)
    ensures b1 == b2
  {
    forall x ensures x in b1 <==> x in b2 {
      if x in b1 || x in b2 {
        assert HasOriginal(b, id, newID, done, x);
        var k := OriginalName(id, newID, done, x);
        assert EntryRenamed(b, b1, id, newID, done, k) && EntryRenamed(b, b2, id, newID, done, k);
      }
    }
    forall x | x in b1 ensures b1[x] == b2[x] {
      assert HasOriginal(b, id, newID, done, x);
      var k := OriginalName(id, newID, done, x);
      assert EntryRenamed(b, b1, id, newID, done, k) && EntryRenamed(b, b2, id, newID, done, k);
    }
  }

  /** Renaming conjugates the pairing, so it stays an involution. */
  lemma RenamingKeepsInvolutive(b: Store, b': Store, id: string, newID: string)
    requires Involutive(b) && IsRenaming(b, b', id, newID, SelectedKeys(b, id))
    ensures Involutive(b')
  {
    var done := SelectedKeys(b, id);
    forall x | x in b' && ':' in x ensures Paired(b', x) {
      assert HasOriginal(b, id, newID, done, x);
      var k := OriginalName(id, newID, done, x);
      NameKeepsColon(id, newID, done, k);
      assert Paired(b, k);
      NameKeepsColon(id, newID, done, b[k]);
      assert EntryRenamed(b, b', id, newID, done, k) && EntryRenamed(b, b', id, newID, done, b[k]);
    }
  }

  lemma NameKeepsColon(id: string, newID: string, done: set<string>, k: string)
    ensures ':' in NameNow(id, newID, done, k) <==> ':' in k
  {
    if k in done && id + ":" <= k {
      ReplaceRenames(id, newID, k);
    }
  }

  lemma NothingRenamed(b: Store, id: string, newID: string)
    ensures IsRenaming(b, b, id, newID, {})
  {
  }

  /** With free names and halves apart the operation succeeds and is the renaming, in every traversal order. */
  lemma RenameSucceeds(b: Store, id: string, newID: string, order: seq<string>)
    requires Involutive(b) && NamesFree(b, id, newID) && HalvesApart(b, id) && IsTraversal(b, id, order)
    ensures var o := Renamed(b, id, newID, order);
            o.result.Ok? && IsRenaming(b, o.bucket, id, newID, SelectedKeys(b, id)) && Involutive(o.bucket)
  {
    NothingRenamed(b, id, newID);
    RenameLoop(b, b, id, newID, {}, order);
    TraversalElements(b, id, order);
    assert {} + Elements(order) == SelectedKeys(b, id);
    RenamingKeepsInvolutive(b, Renamed(b, id, newID, order).bucket, id, newID);
  }

  // ---------------------------------------------------------------- pairs with both halves under the id

  /** Keys already handled are gone, unless they are their own partner. */
  ghost predicate HandledGone(b: Store, tx: Store, done: set<string>) {
    forall k :: k in done && k in b && b[k] != k ==> k !in tx
  }

  lemma {:induction false} SharedHalvesFail(b: Store, tx: Store, id: string, newID: string, done: set<string>,
                                            order: seq<string>, k: string)
    requires Involutive(b) && NamesFree(b, id, newID) && |order| > 0
    requires HandledGone(b, tx, done)
    requires forall i :: 0 <= i < |order| ==> Selected(b, id, order[i]) && order[i] !in done
    requires SharesHalves(b, id, k) && b[k] != k
    requires (k in order && b[k] in done) || (k in done && b[k] in order) || (k in order && b[k] in order)
    requires forall i, j :: 0 <= i < j < |order| ==> order[i] != order[j]
    ensures RenameAll(b, tx, id, newID, order).Err?
    decreases |order|
  {
    var key := order[0];
    ReplaceRenames(id, newID, k);
    assert Paired(b, k);
    var r := RenameOne(tx, id, newID, key, b[key]);
    if r.Ok? {
      ReplaceRenames(id, newID, key);
      assert Paired(b, key);
      assert order == [key] + order[1..];
      SharedHalvesFail(b, r.value, id, newID, done + {key}, order[1..], k);
    }
  }

  /** If two different halves of a pair start with the id, the operation fails in every order and changes nothing. */
  lemma SharedHalvesAlwaysFail(b: Store, id: string, newID: string, order: seq<string>, k: string)
    requires Involutive(b) && NamesFree(b, id, newID) && IsTraversal(b, id, order)
    requires SharesHalves(b, id, k) && b[k] != k
    ensures var o := Renamed(b, id, newID, order);
            o.result.Err? && o.bucket == b
  {
    SharedHalvesFail(b, b, id, newID, {}, order, k);
  }

  /** Where the loop stands: pairs match, and the keys to come are untouched and their names free. */
  ghost predicate Underway(b: Store, tx: Store, id: string, newID: string, order: seq<string>) {
    && Involutive(tx)
    && (forall k :: k in order ==> Selected(b, id, k) && k in tx && tx[k] == b[k])
    && (forall k :: k in order && id + ":" <= k ==> NewName(id, newID, k) !in tx)
  }

  ghost predicate OnlySelfPairs(b: Store, id: string) {
    forall k :: SharesHalves(b, id, k) ==> b[k] == k
  }

  /** One turn, for a key whose partner is itself or does not start with the id. */
  lemma TurnKeepsPairs(b: Store, tx: Store, id: string, newID: string, order: seq<string>)
    requires order != [] && Involutive(b) && OnlySelfPairs(b, id) && Underway(b, tx, id, newID, order)
    requires order[0] !in order[1..]
    ensures var r := RenameOne(tx, id, newID, order[0], b[order[0]]);
            r.Ok? && Underway(b, r.value, id, newID, order[1..])
  {
    var key, rest := order[0], order[1..];
    assert key in order && forall k :: k in rest ==> k in order;
    ReplaceRenames(id, newID, key);
    var moved, partner := NewName(id, newID, key), b[key];
    assert Paired(b, key) && Paired(tx, key);
    assert partner == key || !Selected(b, id, partner) by {
      assert !SharesHalves(b, id, key) || partner == key;
    }
    var tx' := Delete(tx, key)[moved := partner][partner := moved];
    assert RenameOne(tx, id, newID, key, partner) == Ok(tx');
    forall k | k in rest ensures NewName(id, newID, k) !in tx' {
      NewNameStaysFree(b, tx, id, newID, key, k);
    }
    forall x | x in tx' && ':' in x ensures Paired(tx', x) {
      if x != moved && x != partner {
        assert Paired(tx, x);
      }
    }
  }

  lemma NewNameStaysFree(b: Store, tx: Store, id: string, newID: string, key: string, k: string)
    requires id + ":" <= key && id + ":" <= k && k != key
    requires NewName(id, newID, k) !in tx && key in b && b[key] in tx
    ensures NewName(id, newID, k) !in {NewName(id, newID, key), b[key]}
  {
    if NewName(id, newID, k) == NewName(id, newID, key) {
      NewNamesDistinct(id, newID, k, key);
    }
  }

  lemma {:induction false} LoopKeepsPairs(b: Store, tx: Store, id: string, newID: string, order: seq<string>)
    requires Involutive(b) && OnlySelfPairs(b, id) && Underway(b, tx, id, newID, order)
    requires forall i :: 0 <= i < |order| ==> order[i] in b
    requires forall i, j :: 0 <= i < j < |order| ==> order[i] != order[j]
    ensures var r := RenameAll(b, tx, id, newID, order);
            r.Ok? && Involutive(r.value)
    decreases |order|
  {
    if order != [] {
      TurnKeepsPairs(b, tx, id, newID, order);
      LoopKeepsPairs(b, RenameOne(tx, id, newID, order[0], b[order[0]]).value, id, newID, order[1..]);
    }
  }

  /**
   * Given free names, the operation keeps the pairing an involution in every traversal order, and it fails if
   * and only if two different halves of a pair start with the id. A key paired with itself does no harm.
   */
  lemma RenameFailsExactly(b: Store, id: string, newID: string, order: seq<string>)
    requires Involutive(b) && NamesFree(b, id, newID) && IsTraversal(b, id, order)
    ensures var o := Renamed(b, id, newID, order);
            && Involutive(o.bucket)
            && (o.result.Err? <==> exists k :: SharesHalves(b, id, k) && b[k] != k)
  {
    if k :| SharesHalves(b, id, k) && b[k] != k {
      SharedHalvesAlwaysFail(b, id, newID, order, k);
    } else {
      LoopKeepsPairs(b, b, id, newID, order);
    }
  }

  /** A self-paired key is still there after the loop has handled it. */
  lemma {:induction false} SelfPairStays(b: Store, tx: Store, id: string, newID: string, order: seq<string>, k: string)
    requires NamesFree(b, id, newID) && Selected(b, id, k) && b[k] == k && k in tx
    requires forall i :: 0 <= i < |order| ==> Selected(b, id, order[i])
    ensures RenameAll(b, tx, id, newID, order).Ok? ==> k in RenameAll(b, tx, id, newID, order).value
    decreases |order|
  {
    if order != [] {
      var r := RenameOne(tx, id, newID, order[0], b[order[0]]);
      if r.Ok? {
        SelfPairStays(b, r.value, id, newID, order[1..], k);
      }
    }
  }

  /**
   * Given free names, the operation is the renaming if and only if no pair has both halves under the id;
   * this holds for every traversal order.
   */
  lemma RenameExactly(b: Store, id: string, newID: string, order: seq<string>)
    requires Involutive(b) && NamesFree(b, id, newID) && IsTraversal(b, id, order)
    ensures var o := Renamed(b, id, newID, order);
            o.result.Ok? && IsRenaming(b, o.bucket, id, newID, SelectedKeys(b, id)) <==> HalvesApart(b, id)
  {
    if HalvesApart(b, id) {
      RenameSucceeds(b, id, newID, order);
    } else {
      var k :| SharesHalves(b, id, k);
      if b[k] != k {
        SharedHalvesAlwaysFail(b, id, newID, order, k);
      } else {
        SelfPairStays(b, b, id, newID, order, k);
        var o := Renamed(b, id, newID, order);
        assert o.result.Ok? ==> !HasOriginal(b, id, newID, SelectedKeys(b, id), k);
      }
    }
  }

  // ---------------------------------------------------------------- when the new names are not free

  lemma SelfRenameOne(b: Store, id: string, key: string)
    requires Involutive(b) && Selected(b, id, key)
    ensures RenameOne(b, id, id, key, b[key]) == Ok(b)
  {
    ReplaceRenames(id, id, key);
    assert Paired(b, key);
    assert NewName(id, id, key) == key by {
      assert id == (id + ":")[..|id|] == key[..|id|];
      assert id + key[|id|..] == key;
    }
    assert Delete(b, key)[key := b[key]][b[key] := key] == b;
  }

  lemma {:induction false} SelfRenameLoop(b: Store, id: string, order: seq<string>)
    requires Involutive(b) && forall i :: 0 <= i < |order| ==> order[i] in b && Selected(b, id, order[i])
    ensures RenameAll(b, b, id, id, order) == Ok(b)
    decreases |order|
  {
    if order != [] {
      SelfRenameOne(b, id, order[0]);
      SelfRenameLoop(b, id, order[1..]);
    }
  }

  /** Renaming an id to itself succeeds and changes nothing, although its new names are all in use. */
  lemma RenameToItself(b: Store, id: string, order: seq<string>)
    requires Involutive(b) && IsTraversal(b, id, order)
    ensures Renamed(b, id, id, order) == Outcome(b, Ok(()))
  {
    SelfRenameLoop(b, id, order);
  }

  /** The taken name and its partner, while the keys in `order` are still to be renamed. */
  ghost predicate Crossed(b: Store, tx: Store, taken: string, key: string, order: seq<string>)
    requires key in b && taken in b
  {
    && b[taken] in tx && tx[b[taken]] == taken
    && (key in order || (taken in tx && tx[taken] == b[key]))
  }

  /** Renaming a key never touches the taken name's partner, and the taken name only if the key is the one. */
  lemma TakenNameFacts(b: Store, id: string, newID: string, key: string, k: string)
    requires Involutive(b) && TakenBySettledPair(b, id, newID, key) && Selected(b, id, k)
    ensures var taken := NewName(id, newID, key);
            && b[taken] !in {k, NewName(id, newID, k), b[k]} && taken !in {k, b[k]}
            && (NewName(id, newID, k) == taken ==> k == key)
  {
    var taken := NewName(id, newID, key);
    ReplaceRenames(id, newID, key);
    ReplaceRenames(id, newID, k);
    assert Paired(b, taken) && Paired(b, k);
    if NewName(id, newID, k) == taken {
      NewNamesDistinct(id, newID, k, key);
    }
  }

  lemma TakenNameTurn(b: Store, tx: Store, id: string, newID: string, order: seq<string>, key: string)
    requires Involutive(b) && TakenBySettledPair(b, id, newID, key)
    requires Crossed(b, tx, NewName(id, newID, key), key, order) && order != [] && Selected(b, id, order[0])
    ensures var r := RenameOne(tx, id, newID, order[0], b[order[0]]);
            r.Ok? ==> Crossed(b, r.value, NewName(id, newID, key), key, order[1..])
  {
    TakenNameFacts(b, id, newID, key, order[0]);
    ReplaceRenames(id, newID, order[0]);
    assert order == [order[0]] + order[1..];
  }

  lemma {:induction false} TakenNameLoop(b: Store, tx: Store, id: string, newID: string, order: seq<string>,
                                         key: string)
    requires Involutive(b) && TakenBySettledPair(b, id, newID, key)
    requires Crossed(b, tx, NewName(id, newID, key), key, order)
    requires forall i :: 0 <= i < |order| ==> order[i] in b && Selected(b, id, order[i])
    ensures var r := RenameAll(b, tx, id, newID, order);
            r.Ok? ==> Crossed(b, r.value, NewName(id, newID, key), key, [])
    decreases |order|
  {
    if order != [] {
      TakenNameTurn(b, tx, id, newID, order, key);
      var r := RenameOne(tx, id, newID, order[0], b[order[0]]);
      if r.Ok? {
        TakenNameLoop(b, r.value, id, newID, order[1..], key);
      }
    }
  }

  /** The key's new name belongs to a pair of which no half is selected, and the other half is no new name either. */
  ghost predicate TakenBySettledPair(b: Store, id: string, newID: string, key: string) {
    && Selected(b, id, key)
    && var taken := NewName(id, newID, key);
      && taken in b && !Selected(b, id, taken) && !Selected(b, id, b[taken])
      && forall k :: Selected(b, id, k) ==> NewName(id, newID, k) != b[taken]
  }

  lemma {:induction false} HalvesApartSucceeds(b: Store, tx: Store, id: string, newID: string, order: seq<string>)
    requires Involutive(b) && HalvesApart(b, id)
    requires forall i :: 0 <= i < |order| ==> order[i] in b && Selected(b, id, order[i])
    requires forall k :: k in b && !Selected(b, id, k) ==> k in tx
    ensures RenameAll(b, tx, id, newID, order).Ok?
    decreases |order|
  {
    if order != [] {
      var key := order[0];
      ReplaceRenames(id, newID, key);
      assert Paired(b, key) && !SharesHalves(b, id, key);
      var r := RenameOne(tx, id, newID, key, b[key]);
      HalvesApartSucceeds(b, r.value, id, newID, order[1..]);
    }
  }

  /**
   * A new name that a pair not being renamed uses is overwritten: in every traversal order the operation, if it
   * succeeds, leaves a pairing that is no involution. It does succeed when halves are apart.
   */
  lemma TakenNameBreaksPairing(b: Store, id: string, newID: string, order: seq<string>, key: string)
    requires Involutive(b) && IsTraversal(b, id, order) && TakenBySettledPair(b, id, newID, key)
    ensures var o := Renamed(b, id, newID, order);
            && (o.result.Ok? ==> !Involutive(o.bucket))
            && (HalvesApart(b, id) ==> o.result.Ok?)
  {
    var taken := NewName(id, newID, key);
    ReplaceRenames(id, newID, key);
    assert Paired(b, taken) && Paired(b, key);
    TakenNameLoop(b, b, id, newID, order, key);
    if HalvesApart(b, id) {
      HalvesApartSucceeds(b, b, id, newID, order);
    }
    var o := Renamed(b, id, newID, order);
    assert o.result.Ok? ==> !Paired(o.bucket, b[taken]);
  }
}
