/** The store of short URLs, called one at a time (url/shorturl.go). */
module ShortUrls {
  import opened Wrappers

  type Bucket = map<string, string>

  /**
   * A request for a short code. The hash of the URL and the random draws are arbitrary, and so is which accesses
   * to the database fail: access 0 looks up the hash, access k + 1 the k-th draw. `enough` numbers a draw that
   * ends the search, without which the original would draw for ever.
   */
  datatype Call = Call(
    longURL: string,
    hash: string,
    draws: nat -> string,
    fails: nat -> bool,
    storeFails: bool,
    ghost enough: nat)

  /** The k-th draw ends the search: its lookup fails, or it is free. */
  predicate Ends(b: Bucket, call: Call, k: nat) {
    call.fails(k + 1) || call.draws(k) !in b
  }

  ghost predicate Answers(b: Bucket, call: Call) {
    call.fails(0) || call.hash !in b || Ends(b, call, call.enough)
  }

  /** The first draw from the k-th on that ends the search. */
  ghost function FirstEnd(b: Bucket, call: Call, k: nat): (n: nat)
    requires k <= call.enough && Ends(b, call, call.enough)
    ensures k <= n <= call.enough && Ends(b, call, n) && forall j :: k <= j < n ==> !Ends(b, call, j)
    decreases call.enough - k
  {
    if Ends(b, call, k) then k else FirstEnd(b, call, k + 1)
  }

  /** The hash if it is free, else the first free draw; nothing if a lookup on the way fails. */
  ghost function Candidate(b: Bucket, call: Call): (r: Option<string>)
    requires Answers(b, call)
    ensures r.Some? ==> r.value !in b
  {
    if call.fails(0) then None
    else if call.hash !in b then Some(call.hash)
    else
      var n := FirstEnd(b, call, 0);
      if call.fails(n + 1) then None else Some(call.draws(n))
  }

  /** The code returned, "" for any failure; the engine refuses an empty key. */
  ghost function CodeFor(b: Bucket, call: Call): (code: string)
    requires Answers(b, call)
    ensures code != "" ==> code !in b
  {
    var candidate := Candidate(b, call);
    if candidate.None? || call.storeFails then "" else candidate.value
  }

  /** The n-th draw is reached: the lookups of the hash and of all draws before it worked and found them taken. */
  ghost predicate ReachesDraw(b: Bucket, call: Call, n: nat) {
    && !call.fails(0) && call.hash in b
    && (forall j: nat :: j < n ==> FoundTaken(b, call, j))
  }

  predicate FoundTaken(b: Bucket, call: Call, k: nat) {
    !call.fails(k + 1) && call.draws(k) in b
  }

  lemma FirstEndIs(b: Bucket, call: Call, n: nat)
    requires Answers(b, call) && ReachesDraw(b, call, n) && Ends(b, call, n)
    ensures Ends(b, call, call.enough) && FirstEnd(b, call, 0) == n
  {
    var m := FirstEnd(b, call, 0);
    assert n < m ==> !Ends(b, call, n);
    assert m < n ==> FoundTaken(b, call, m);
  }

  /** A free hash is the code if it can be looked up and stored, and is not empty. */
  lemma FreeHashIsIssued(b: Bucket, call: Call)
    requires Answers(b, call) && call.hash !in b
    ensures CodeFor(b, call) == if call.fails(0) || call.storeFails then "" else call.hash
  {
  }

  /** When the hash is taken, the first free draw is the code, if all lookups up to it and the store work. */
  lemma FirstFreeDrawIsIssued(b: Bucket, call: Call, n: nat)
    requires Answers(b, call) && ReachesDraw(b, call, n) && call.draws(n) !in b
    ensures CodeFor(b, call) == if call.fails(n + 1) || call.storeFails then "" else call.draws(n)
  {
    FirstEndIs(b, call, n);
  }

  /**
   * A code is issued if and only if the hash is free, or some draw is and the lookups before find all taken; no
   * access on the way fails; and the code is not the empty key.
   */
  lemma IssuedExactly(b: Bucket, call: Call)
    requires Answers(b, call)
    ensures CodeFor(b, call) != "" <==>
              && !call.storeFails
              && (|| (!call.fails(0) && call.hash !in b && call.hash != "")
                  || (exists n: nat ::
                        ReachesDraw(b, call, n) && !call.fails(n + 1) && call.draws(n) !in b && call.draws(n) != ""))
  {
    if call.hash !in b {
      FreeHashIsIssued(b, call);
    } else if !call.fails(0) {
      var n := FirstEnd(b, call, 0);
      forall j: nat | j < n ensures FoundTaken(b, call, j) {
        assert !Ends(b, call, j);
      }
      assert ReachesDraw(b, call, n);
      forall m: nat | ReachesDraw(b, call, m) && !call.fails(m + 1) && call.draws(m) !in b ensures m == n {
        FirstEndIs(b, call, m);
      }
    }
  }

  class UrlDatabase {
    var bucket: Bucket

    constructor ()
      ensures bucket == map[]
    {
      bucket := map[];
    }

    /** Nothing when the database cannot be read. */
    method ExistsInDB(code: string, fails: bool) returns (r: Option<bool>)
      ensures r == if fails then None else Some(code in bucket)
    {
      if fails {
        return None;
      }
      return Some(code in bucket);
    }

    /** The engine refuses an empty key; storing can fail for other reasons as well. */
    method StoreURL(code: string, longURL: string, fails: bool) returns (ok: bool)
      modifies this
      ensures ok <==> !fails && code != ""
      ensures bucket == if ok then old(bucket)[code := longURL] else old(bucket)
    {
      ok := !fails && code != "";
      if ok {
        bucket := bucket[code := longURL];
      }
    }

    method GetLongURLFromDB(code: string) returns (r: Option<string>)
      ensures r == if code in bucket then Some(bucket[code]) else None
    {
      r := if code in bucket then Some(bucket[code]) else None;
    }

    /** Draws until a lookup fails or a draw is free. */
    method DrawFree(call: Call) returns (r: Option<string>)
      requires Ends(bucket, call, call.enough)
      ensures var n := FirstEnd(bucket, call, 0);
              r == if call.fails(n + 1) then None else Some(call.draws(n))
    {
      var n := 0;
      while true
        invariant n <= call.enough
        invariant FirstEnd(bucket, call, 0) == FirstEnd(bucket, call, n)
        decreases call.enough - n
      {
        var code := call.draws(n);
        var exists_ := ExistsInDB(code, call.fails(n + 1));
        if exists_.None? {
          return None;
        }
        if !exists_.value {
          return Some(code);
        }
        n := n + 1;
      }
    }

    /** Returns "" when any access fails, and otherwise a code that was free and now leads to the URL. */
    method GenerateShortURL(call: Call) returns (code: string)
      requires Answers(bucket, call)
      modifies this
      ensures code == CodeFor(old(bucket), call)
      ensures bucket == if code == "" then old(bucket) else old(bucket)[code := call.longURL]
    {
      code := call.hash;
      var exists_ := ExistsInDB(code, call.fails(0));
      if exists_.None? {
        return "";
      }
      if exists_.value {
        var drawn := DrawFree(call);
        if drawn.None? {
          return "";
        }
        code := drawn.value;
      }
      var ok := StoreURL(code, call.longURL, call.storeFails);
      if !ok {
        return "";
      }
    }
  }

  /** One call after the other is a run of the model. */
  method GenerateAll(db: UrlDatabase, calls: seq<Call>) returns (codes: seq<string>)
    requires CallsAnswered(db.bucket, calls)
    modifies db
    ensures (codes, db.bucket) == Issued(old(db.bucket), calls)
    decreases |calls|
  {
    if calls == [] {
      return [];
    }
    var code := db.GenerateShortURL(calls[0]);
    var rest := GenerateAll(db, calls[1..]);
    return [code] + rest;
  }

  // ---------------------------------------------------------------- runs

  ghost predicate CallsAnswered(b: Bucket, calls: seq<Call>)
    decreases |calls|
  {
    calls == [] || (
      && Answers(b, calls[0])
      && CallsAnswered(After(b, calls[0]), calls[1..]))
  }

  /** The bucket after one call. */
  ghost function After(b: Bucket, call: Call): Bucket
    requires Answers(b, call)
  {
    var code := CodeFor(b, call);
    if code == "" then b else b[code := call.longURL]
  }

  /** The codes a run of calls returns, and the bucket it leaves. */
  ghost function Issued(b: Bucket, calls: seq<Call>): (r: (seq<string>, Bucket))
    requires CallsAnswered(b, calls)
    ensures |r.0| == |calls|
    decreases |calls|
  {
    if calls == [] then ([], b)
    else
      var call := calls[0];
      var (codes, final) := Issued(After(b, call), calls[1..]);
      ([CodeFor(b, call)] + codes, final)
  }

  /** No entry is ever rebound, and no code in use is issued; "" only reports a failure. */
  lemma {:induction false} EntriesStay(b: Bucket, calls: seq<Call>, code: string)
    requires CallsAnswered(b, calls) && code in b
    ensures code in Issued(b, calls).1 && Issued(b, calls).1[code] == b[code]
    ensures code != "" ==> code !in Issued(b, calls).0
    decreases |calls|
  {
    if calls != [] {
      EntriesStay(After(b, calls[0]), calls[1..], code);
    }
  }

  /**
   * Over every sequential run, whatever the hashes, draws and failures: a code once issued leads for good to the URL
   * it was issued for, and no two calls are given the same code.
   */
  lemma {:induction false} IssuedCodesHold(b: Bucket, calls: seq<Call>, i: nat, j: nat)
    requires CallsAnswered(b, calls) && i < |calls| && j < |calls|
    requires Issued(b, calls).0[i] != ""
    ensures var (codes, final) := Issued(b, calls);
            && codes[i] in final && final[codes[i]] == calls[i].longURL
            && (i != j ==> codes[i] != codes[j])
    decreases |calls|
  {
    var b1 := After(b, calls[0]);
    var first := CodeFor(b, calls[0]);
    if i > 0 && j > 0 {
      IssuedCodesHold(b1, calls[1..], i - 1, j - 1);
    } else if i > 0 {
      IssuedCodesHold(b1, calls[1..], i - 1, i - 1);
    }
    if first != "" {
      EntriesStay(b1, calls[1..], first);
    }
  }
}
