/**
 * The byte conversions of the status embeds: `b // (1024**2)` megabytes and
 * `b // (1024**3)` gigabytes, Python floor division on non-negative counts.
 */
module Units {

  const BytesPerMB: nat := 1048576     // 1024**2
  const BytesPerGB: nat := 1073741824  // 1024**3

  /** Whole megabytes in `b` bytes: the largest `mb` with `mb * 1024**2 <= b`. */
  function ToMB(b: nat): (mb: nat)
    ensures mb * BytesPerMB <= b < (mb + 1) * BytesPerMB
  {
    b / BytesPerMB
  }

  /** Whole gigabytes in `b` bytes: the largest `gb` with `gb * 1024**3 <= b`. */
  function ToGB(b: nat): (gb: nat)
    ensures gb * BytesPerGB <= b < (gb + 1) * BytesPerGB
  {
    b / BytesPerGB
  }

  /** The two bounds of `ToMB` pin down its value: the conversion truncates. */
  lemma ToMBUnique(b: nat, q: nat)
    requires q * BytesPerMB <= b < (q + 1) * BytesPerMB
    ensures ToMB(b) == q
  {
  }

  lemma ToGBUnique(b: nat, q: nat)
    requires q * BytesPerGB <= b < (q + 1) * BytesPerGB
    ensures ToGB(b) == q
  {
  }

  /** A used amount no larger than the total is never shown larger than it. */
  lemma UsedNotAboveTotal(used: nat, total: nat)
    requires used <= total
    ensures ToMB(used) <= ToMB(total)
    ensures ToGB(used) <= ToGB(total)
  {
  }

  /** Gigabytes are whole megabytes truncated again by 1024. */
  lemma GBFromMB(b: nat)
    ensures ToGB(b) == ToMB(b) / 1024
  {
    var mb := ToMB(b);
    var q := mb / 1024;
    assert q * 1024 <= mb < (q + 1) * 1024;
    assert q * BytesPerGB == q * 1024 * BytesPerMB;
    assert q * BytesPerGB <= mb * BytesPerMB;
    assert (mb + 1) * BytesPerMB <= (q + 1) * 1024 * BytesPerMB;
    ToGBUnique(b, q);
  }

  /** One byte short of a megabyte shows as 0 MB: truncation, not rounding. */
  lemma ExampleTruncates()
    ensures ToMB(BytesPerMB - 1) == 0 && ToMB(BytesPerMB) == 1
    ensures ToGB(BytesPerGB - 1) == 0 && ToGB(3 * BytesPerGB + BytesPerGB / 2) == 3
  {
  }
}
