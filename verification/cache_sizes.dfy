/** Cache sizes as the cache benchmark writes them ("N KiB") and the byte
    counts the plotting script orders them by. */
module CacheSizes {
  import opened Outcomes
  import opened Text

  /** BinaryUnitSize: the text it was read from and the size in bytes. */
  datatype BinaryUnitSize = BinaryUnitSize(fullString: string, numberOfBytes: int)

  /** BinaryUnitSize.parse_from_string: the text before the first space is
      the value and the rest the unit, which must be exactly "KiB". */
  function ParseFromString(s: string): (r: Result<BinaryUnitSize>)
    ensures r.Err? ==> r.error.ValueError?
    ensures r.Ok? ==> r.value.fullString == s && r.value.numberOfBytes % 1024 == 0
  {
    match SplitOnce(s, ' ')
    case None => Err(ValueError("not enough values to unpack (expected 2, got 1)"))
    case Some((value, unit)) =>
      if unit == "KiB" then
        var n :- ParseInt(value);
        Ok(BinaryUnitSize(s, KiBBytes(n)))
      else Err(ValueError("unexpected unit (expected KiB): " + unit))
  }

  /** n KiB in bytes. */
  function KiBBytes(n: int): (bytes: int)
    ensures bytes % 1024 == 0 && bytes / 1024 == n
  {
    n * 1024
  }

  /** `s` is `value` followed by " KiB", and `value` holds no space. */
  predicate KiBForm(s: string, value: string) {
    ' ' !in value && s == value + [' '] + "KiB"
  }

  /** Every accepted string has that form with an int() literal as value,
      and its size is that value times 1024. */
  lemma AcceptedHasKiBForm(s: string)
    requires ParseFromString(s).Ok?
    ensures SplitOnce(s, ' ').Some?
    ensures var value := SplitOnce(s, ' ').value.0;
      KiBForm(s, value) && ParseInt(value).Ok?
      && ParseFromString(s).value.numberOfBytes == ParseInt(value).value * 1024
  {
  }

  /** Conversely every string of that form with an int() literal as value is
      accepted. */
  lemma KiBFormAccepted(s: string, value: string)
    requires KiBForm(s, value) && ParseInt(value).Ok?
    ensures ParseFromString(s) == Ok(BinaryUnitSize(s, ParseInt(value).value * 1024))
  {
    SplitOnceAt(value, ' ', "KiB");
  }

  /** A string without a space is rejected. */
  lemma NoSpaceRejected(s: string)
    requires ' ' !in s
    ensures ParseFromString(s) == Err(ValueError("not enough values to unpack (expected 2, got 1)"))
  {
  }

  /** How a size of n KiB is written. */
  function KiB(n: int): string {
    IntToString(n) + " KiB"
  }

  /** A written size reads back as n * 1024 bytes, keeping its text. */
  lemma ParseKiB(n: int)
    ensures ParseFromString(KiB(n)) == Ok(BinaryUnitSize(KiB(n), n * 1024))
  {
    var digits := IntToString(n);
    assert ' ' !in digits;
    assert KiB(n) == digits + [' '] + "KiB";
    ParseIntToString(n);
    KiBFormAccepted(KiB(n), digits);
  }

  /** A unit other than exactly "KiB" is rejected, naming the unit. */
  lemma OtherUnitRejected(value: string, unit: string)
    requires ' ' !in value && unit != "KiB"
    ensures ParseFromString(value + [' '] + unit) == Err(ValueError("unexpected unit (expected KiB): " + unit))
  {
    SplitOnceAt(value, ' ', unit);
  }

  /** "4 KiB x", for one, is rejected: the unit is everything after the
      first space. */
  lemma LongerUnitRejected()
    ensures ParseFromString("4 KiB x") == Err(ValueError("unexpected unit (expected KiB): " + "KiB x"))
  {
    var unit := "KiB x";
    assert "4 KiB x" == "4" + [' '] + unit;
    assert unit[3] == ' ';
    OtherUnitRejected("4", unit);
  }

  const L1CacheSizes: seq<string> := ["1 KiB", "2 KiB", "4 KiB", "8 KiB"]
  const L2CacheSizes: seq<string> := ["32 KiB", "64 KiB"]

  /** The byte counts are strictly increasing along the list. */
  predicate AscendingBytes(sizes: seq<BinaryUnitSize>) {
    forall i, j :: 0 <= i < j < |sizes| ==> sizes[i].numberOfBytes < sizes[j].numberOfBytes
  }

  /** Parses every string of a list, stopping at the first error. */
  function ParseAll(strings: seq<string>): (r: Result<seq<BinaryUnitSize>>)
    ensures r.Ok? ==> (|r.value| == |strings|
      && forall i :: 0 <= i < |strings| ==> ParseFromString(strings[i]) == Ok(r.value[i]))
  {
    if |strings| == 0 then Ok([])
    else
      var head :- ParseFromString(strings[0]);
      var tail :- ParseAll(strings[1..]);
      Ok([head] + tail)
  }

  /** The strings "n KiB" for each n of `ns`. */
  function KiBStrings(ns: seq<int>): (r: seq<string>)
    ensures |r| == |ns| && forall i :: 0 <= i < |ns| ==> r[i] == KiB(ns[i])
  {
    if |ns| == 0 then [] else [KiB(ns[0])] + KiBStrings(ns[1..])
  }

  /** A list of "n KiB" strings reads back as the sizes n * 1024, in order. */
  lemma {:induction false} ParseAllKiB(ns: seq<int>)
    ensures ParseAll(KiBStrings(ns)).Ok?
    ensures |ParseAll(KiBStrings(ns)).value| == |ns|
    ensures forall i :: 0 <= i < |ns| ==> ParseAll(KiBStrings(ns)).value[i] == BinaryUnitSize(KiB(ns[i]), ns[i] * 1024)
  {
    if |ns| > 0 {
      ParseKiB(ns[0]);
      ParseAllKiB(ns[1..]);
      assert KiBStrings(ns)[1..] == KiBStrings(ns[1..]);
    }
  }

  lemma SmallKiB()
    ensures KiB(1) == "1 KiB" && KiB(2) == "2 KiB" && KiB(4) == "4 KiB" && KiB(8) == "8 KiB"
    ensures KiB(32) == "32 KiB" && KiB(64) == "64 KiB"
  {
    assert DigitChar(1) == '1' && DigitChar(2) == '2' && DigitChar(4) == '4' && DigitChar(8) == '8';
    assert DigitChar(3) == '3' && DigitChar(6) == '6';
    assert NatToString(32) == NatToString(3) + [DigitChar(2)];
    assert NatToString(64) == NatToString(6) + [DigitChar(4)];
  }

  /** Sizes written with increasing n read back in increasing byte order, so
      sorting them by byte count keeps the listed order. */
  lemma ParseAllAscending(ns: seq<int>)
    requires forall i, j :: 0 <= i < j < |ns| ==> ns[i] < ns[j]
    ensures ParseAll(KiBStrings(ns)).Ok? && AscendingBytes(ParseAll(KiBStrings(ns)).value)
  {
    ParseAllKiB(ns);
  }

  /** The configured lists are written with n = 1, 2, 4, 8 and n = 32, 64. */
  lemma ConfiguredSizeLists()
    ensures L1CacheSizes == KiBStrings([1, 2, 4, 8])
    ensures L2CacheSizes == KiBStrings([32, 64])
  {
    SmallKiB();
    var l1 := KiBStrings([1, 2, 4, 8]);
    assert l1[0] == "1 KiB" && l1[1] == "2 KiB" && l1[2] == "4 KiB" && l1[3] == "8 KiB";
    var l2 := KiBStrings([32, 64]);
    assert l2[0] == "32 KiB" && l2[1] == "64 KiB";
  }
}
