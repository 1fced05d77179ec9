/** Row ids derived from the digits of an id's hash (idmap/service.go). */
module RowId {
  import opened Wrappers
  import opened Decimal

  const MIN_INT64: int := -0x8000_0000_0000_0000
  const MAX_INT64: int := 0x7fff_ffff_ffff_ffff

  datatype RowError =
    | NotEnoughDigits
    | NotAnInt64

  /** MD5 in hexadecimal; nothing about it is assumed. */
  type Md5 = string -> string

  /** The digits of a hexadecimal hash, in order. */
  function DigitsOf(hash: string): (d: string)
    ensures AllDigits(d)
  {
    if hash == "" then ""
    else
      var init := DigitsOf(hash[..|hash| - 1]);
      if IsDigit(hash[|hash| - 1]) then init + [hash[|hash| - 1]] else init
  }

  /** The row id a hash gives at a given length. */
  function RowOf(hash: string, length: nat): (r: Result<int, RowError>) {
    var digits := DigitsOf(hash);
    if |digits| < length then Err(NotEnoughDigits)
    else if length == 0 || Value(digits[..length]) > MAX_INT64 then Err(NotAnInt64)
    else Ok(Value(digits[..length]))
  }

  /** Whether a value differs from the row that its own printed length gives for the id. */
  predicate IsRebound(md5: Md5, id: string, value: int) {
    var generated := RowOf(md5(id), |FormatInt(value)|);
    generated.Ok? && generated.value != value
  }

  method GenerateRowID(md5: Md5, id: string, length: nat) returns (r: Result<int, RowError>)
    ensures r == RowOf(md5(id), length)
  {
    var hash := md5(id);
    var digits := "";
    for i := 0 to |hash|
      invariant digits == DigitsOf(hash[..i])
    {
      assert hash[..i + 1][..i] == hash[..i];
      if IsDigit(hash[i]) {
        digits := digits + [hash[i]];
      }
    }
    assert hash[..|hash|] == hash;
    if |digits| < length {
      return Err(NotEnoughDigits);
    }
    var rowID := ParseInt(digits[..length]);
    return rowID;
  }

  /** strconv.ParseInt on a string of digits: the empty string and values above int64 are errors. */
  method ParseInt(s: string) returns (r: Result<int, RowError>)
    requires AllDigits(s)
    ensures r == if s == "" || Value(s) > MAX_INT64 then Err(NotAnInt64) else Ok(Value(s))
  {
    if s == "" {
      return Err(NotAnInt64);
    }
    var n := 0;
    for i := 0 to |s|
      invariant n == Value(s[..i])
    {
      assert s[..i + 1][..i] == s[..i];
      n := 10 * n + DigitValue(s[i]);
    }
    assert s[..|s|] == s;
    return if n > MAX_INT64 then Err(NotAnInt64) else Ok(n);
  }

  /** Returns false on a hash that is too short, and otherwise whether the generated row differs. */
  method CheckValue(md5: Md5, id: string, value: int) returns (differs: bool)
    ensures differs == IsRebound(md5, id, value)
  {
    var generated := GenerateRowID(md5, id, |FormatInt(value)|);
    match generated
    case Err(_) => return false;
    case Ok(v) => return v != value;
  }

  // ---------------------------------------------------------------- the digits of a hash

  function DigitPlaces(hash: string): set<nat> {
    set i: nat | i < |hash| && IsDigit(hash[i])
  }

  lemma {:induction false} DigitCount(hash: string)
    ensures |DigitsOf(hash)| == |DigitPlaces(hash)|
  {
    if hash != "" {
      var n := |hash| - 1;
      var init := hash[..n];
      DigitCount(init);
      assert DigitPlaces(hash) == DigitPlaces(init) + if IsDigit(hash[n]) then {n} else {};
      assert n !in DigitPlaces(init);
    }
  }

  lemma {:induction false} DigitsOfPrefix(hash: string, n: nat)
    requires n <= |hash|
    ensures DigitsOf(hash[..n]) <= DigitsOf(hash)
  {
    if n < |hash| {
      DigitsOfPrefix(hash[..|hash| - 1], n);
      assert hash[..|hash| - 1][..n] == hash[..n];
    } else {
      assert hash[..n] == hash;
    }
  }

  /**
   * Every digit of the hash is found at the place given by the number of digits before it, and there are no other
   * characters: the digits are kept in their order.
   */
  lemma DigitsInOrder(hash: string, i: nat)
    requires i < |hash|
    ensures |DigitsOf(hash)| == |DigitPlaces(hash)|
    ensures var place := |DigitPlaces(hash[..i])|;
            IsDigit(hash[i]) ==> place < |DigitsOf(hash)| && DigitsOf(hash)[place] == hash[i]
  {
    DigitCount(hash);
    DigitCount(hash[..i]);
    DigitsOfPrefix(hash, i + 1);
    assert hash[..i + 1][..i] == hash[..i];
  }

  /** The row of a length is the number that the first digits of the hash spell, if there are enough and it fits. */
  lemma RowExactly(hash: string, length: nat)
    requires length > 0
    ensures var digits := DigitsOf(hash);
            if |digits| < length then RowOf(hash, length) == Err(NotEnoughDigits)
            else
              var n := Value(digits[..length]);
              RowOf(hash, length) == if n > 0x7fff_ffff_ffff_ffff then Err(NotAnInt64) else Ok(n)
  {
  }

  /**
   * A value of at most 18 digits counts as rebound if and only if the hash has at least as many digits as the value
   * and starts, among its digits, with other ones.
   */
  lemma ReboundExactly(md5: Md5, id: string, value: nat)
    requires |FormatNat(value)| <= 18
    ensures var digits, printed := DigitsOf(md5(id)), FormatNat(value);
            IsRebound(md5, id, value) <==> |digits| >= |printed| && !(printed <= digits)
  {
    var digits, printed := DigitsOf(md5(id)), FormatNat(value);
    ReadsBackNat(value);
    UsualLengthsFit(md5(id), |printed|);
    assert FormatInt(value) == printed;
    if |digits| >= |printed| {
      SameNumeral(digits[..|printed|], value);
    }
  }

  /** A numeral as long as the printed number stands for the number only if it is the printed one. */
  lemma SameNumeral(s: string, value: nat)
    requires AllDigits(s) && |s| == |FormatNat(value)|
    ensures Value(s) == value <==> s == FormatNat(value)
  {
    var printed := FormatNat(value);
    ReadsBackNat(value);
    SmallNumeral(value);
    if |s| > 1 && s[0] == '0' {
      ZeroLedBound(s);
      LeadingDigit(printed);
    } else {
      PrintsBack(s);
    }
  }

  /** A number printed with more than one digit is not zero. */
  lemma SmallNumeral(n: nat)
    ensures |FormatNat(n)| > 1 ==> n > 0
  {
  }

  /** A generated row is a non-negative int64 with at most `length` digits. */
  lemma RowBounds(hash: string, length: nat)
    requires RowOf(hash, length).Ok?
    ensures 0 <= RowOf(hash, length).value < Pow10(length)
    ensures RowOf(hash, length).value <= MAX_INT64
  {
    ValueBound(DigitsOf(hash)[..length]);
  }

  /** Shorter rows are the leading digits of longer ones: the fallback row extends the preferred one. */
  lemma RowExtends(hash: string, length: nat)
    requires length > 0 && RowOf(hash, length + 1).Ok?
    ensures RowOf(hash, length) == Ok(RowOf(hash, length + 1).value / 10)
  {
    var long := DigitsOf(hash)[..length + 1];
    assert long[..length] == DigitsOf(hash)[..length];
  }

  /** Nine and ten digits always fit an int64, so the only failure is a hash with too few digits. */
  lemma UsualLengthsFit(hash: string, length: nat)
    requires 0 < length <= 18
    ensures RowOf(hash, length).Ok? <==> |DigitsOf(hash)| >= length
  {
    if |DigitsOf(hash)| >= length {
      ValueBound(DigitsOf(hash)[..length]);
      Pow10Monotone(length, 18);
      assert Pow10(6) == 1_000_000;
      assert Pow10(12) == 1_000_000_000_000;
      assert Pow10(18) == 1_000_000_000_000_000_000;
    }
  }

  /**
   * A value the generator produced is recognised as generated exactly when printing it did not
   * drop digits: the first digit is non-zero, or the row is zero altogether.
   */
  lemma GeneratedRowRecognised(md5: Md5, id: string, length: nat)
    requires RowOf(md5(id), length).Ok?
    ensures var digits := DigitsOf(md5(id))[..length];
            !IsRebound(md5, id, RowOf(md5(id), length).value)
            <==> digits[0] != '0' || forall i :: 0 <= i < length ==> digits[i] == '0'
  {
    var all := DigitsOf(md5(id));
    var digits := all[..length];
    var v := Value(digits);
    ZeroValue(digits);
    if digits[0] != '0' {
      PrintsBack(digits);
    } else if v == 0 {
      assert FormatInt(v) == "0";
      var first := all[..1];
      assert first == [digits[0]] && first[..0] == "";
      assert Value(first) == 0;
    } else {
      var printed := FormatNat(v);
      ReadsBackNat(v);
      LeadingDigit(printed);
      PrintedIsShorter(digits);
      var prefix := all[..|printed|];
      assert prefix == digits[..|printed|];
      ZeroLedBound(prefix);
    }
  }

  /** Printing the value of a zero-led numeral never gives more characters than the numeral has. */
  lemma PrintedIsShorter(s: string)
    requires s != "" && AllDigits(s) && Value(s) > 0
    ensures |FormatNat(Value(s))| <= |s|
  {
  }

  lemma {:induction false} ZeroLedBound(s: string)
    requires s != "" && AllDigits(s) && s[0] == '0'
    ensures Value(s) < Pow10(|s| - 1)
  {
    if |s| == 1 {
      assert s[..0] == "";
    } else {
      ZeroLedBound(s[..|s| - 1]);
    }
  }
}
