/** The key order of the storage engine, and the prefix scan of FindSubKeysById (idmap/service.go). */
module KeyOrder {
  import opened Text

  /** Lexicographic order, a string coming after its proper prefixes. */
  predicate AtMost(a: string, b: string) {
    a == "" || (b != "" && (a[0] < b[0] || (a[0] == b[0] && AtMost(a[1..], b[1..]))))
  }

  /** The first difference decides, and a prefix comes first. */
  lemma {:induction false} FirstDifferenceDecides(p: string, c: char, x: string, d: char, y: string)
    ensures c != d ==> (AtMost(p + ([c] + x), p + ([d] + y)) <==> c < d)
    ensures AtMost(p, p + x) && (x != "" ==> !AtMost(p + x, p))
  {
    if p == "" {
      assert p + x == x && p + ([c] + x) == [c] + x && p + ([d] + y) == [d] + y;
    } else {
      FirstDifferenceDecides(p[1..], c, x, d, y);
      assert (p + ([c] + x))[1..] == p[1..] + ([c] + x) && (p + ([d] + y))[1..] == p[1..] + ([d] + y);
      assert (p + x)[1..] == p[1..] + x;
    }
  }

  ghost predicate Ascending(keys: seq<string>) {
    forall i, j :: 0 <= i < j < |keys| ==> AtMost(keys[i], keys[j]) && keys[i] != keys[j]
  }

  lemma {:induction false} AtMostTransitive(a: string, b: string, c: string)
    requires AtMost(a, b) && AtMost(b, c)
    ensures AtMost(a, c)
  {
    if a != "" && a[0] == b[0] == c[0] {
      AtMostTransitive(a[1..], b[1..], c[1..]);
    }
  }

  lemma {:induction false} PrefixFirst(p: string, k: string)
    requires p <= k
    ensures AtMost(p, k)
  {
    if p != "" {
      PrefixFirst(p[1..], k[1..]);
    }
  }

  /** Whatever lies between a prefix and a key that has the prefix has it too: such keys are contiguous. */
  lemma {:induction false} PrefixContiguous(p: string, between: string, k: string)
    requires AtMost(p, between) && AtMost(between, k) && p <= k
    ensures p <= between
  {
    if p != "" {
      PrefixContiguous(p[1..], between[1..], k[1..]);
      assert p == [p[0]] + p[1..];
    }
  }

  /** The order of keys with a common prefix is the order of what follows it. */
  lemma {:induction false} SharedPrefixOrder(p: string, a: string, b: string)
    ensures AtMost(p + a, p + b) <==> AtMost(a, b)
  {
    if p == "" {
      assert p + a == a && p + b == b;
    } else {
      assert (p + a)[1..] == p[1..] + a && (p + b)[1..] == p[1..] + b;
      SharedPrefixOrder(p[1..], a, b);
    }
  }

  /** What the scan collects from a key with the prefix id + ":". */
  predicate IsSubKey(id: string, k: string) {
    id + ":" <= k && |Split(k, ':')| == 2
  }

  lemma SubKeyParts(id: string, sub: string)
    ensures IsSubKey(id, id + ":" + sub) <==> ':' !in id && ':' !in sub
    ensures IsSubKey(id, id + ":" + sub) ==> Split(id + ":" + sub, ':') == [id, sub]
  {
    SplitAt(id, ':', sub);
    SplitSingle(id, ':');
    SplitSingle(sub, ':');
  }

  /** The parts after the colon of the first `n` keys that qualify, in key order. */
  ghost function SubKeys(keys: seq<string>, id: string, n: nat): seq<string>
    requires n <= |keys|
  {
    if n == 0 then []
    else if IsSubKey(id, keys[n - 1]) then SubKeys(keys, id, n - 1) + [keys[n - 1][|id| + 1..]]
    else SubKeys(keys, id, n - 1)
  }

  lemma {:induction false} NothingBefore(keys: seq<string>, id: string, n: nat)
    requires n <= |keys| && forall j :: 0 <= j < n ==> !AtMost(id + ":", keys[j])
    ensures SubKeys(keys, id, n) == []
  {
    if n > 0 {
      NothingBefore(keys, id, n - 1);
      if id + ":" <= keys[n - 1] {
        PrefixFirst(id + ":", keys[n - 1]);
      }
    }
  }

  lemma {:induction false} NothingBeyond(keys: seq<string>, id: string, first: nat, stop: nat, n: nat)
    requires Ascending(keys) && first <= stop < |keys| && stop <= n <= |keys|
    requires AtMost(id + ":", keys[first]) && !(id + ":" <= keys[stop])
    ensures SubKeys(keys, id, n) == SubKeys(keys, id, stop)
  {
    if n > stop {
      NothingBeyond(keys, id, first, stop, n - 1);
      var prefix := id + ":";
      if prefix <= keys[n - 1] {
        if first < stop {
          AtMostTransitive(prefix, keys[first], keys[stop]);
        }
        PrefixContiguous(prefix, keys[stop], keys[n - 1]);
      }
    }
  }

  /** The scan finds exactly the colon-free x with id:x in the bucket, provided the id has no colon; else nothing. */
  lemma {:induction false} SubKeysComplete(keys: seq<string>, id: string, n: nat, sub: string)
    requires n <= |keys|
    ensures sub in SubKeys(keys, id, n) <==> ':' !in id && ':' !in sub && id + ":" + sub in keys[..n]
  {
    if n > 0 {
      SubKeysComplete(keys, id, n - 1, sub);
      var k := keys[n - 1];
      assert keys[..n] == keys[..n - 1] + [k];
      SubKeyParts(id, sub);
      if IsSubKey(id, k) {
        assert k == id + ":" + k[|id| + 1..];
        SubKeyParts(id, k[|id| + 1..]);
        assert (id + ":" + sub)[|id| + 1..] == sub;
      }
    }
  }

  /** Each part is found once, and the parts come in ascending order. */
  lemma {:induction false} SubKeysAscending(keys: seq<string>, id: string, n: nat)
    requires Ascending(keys) && n <= |keys|
    ensures Ascending(SubKeys(keys, id, n))
  {
    if n > 0 {
      SubKeysAscending(keys, id, n - 1);
      var k := keys[n - 1];
      var found := SubKeys(keys, id, n - 1);
      if IsSubKey(id, k) {
        var sub := k[|id| + 1..];
        assert k == id + ":" + sub;
        forall i | 0 <= i < |found| ensures AtMost(found[i], sub) && found[i] != sub {
          SubKeysComplete(keys, id, n - 1, found[i]);
          var j :| 0 <= j < n - 1 && keys[..n - 1][j] == id + ":" + found[i];
          assert keys[j] == id + ":" + found[i];
          SharedPrefixOrder(id + ":", found[i], sub);
        }
      }
    }
  }
}
