/**
 * Pure string formatting of the relay: the decimal rendering of a length,
 * the log preview of a posted identifier and the identifier fragment shown
 * on the status page.
 */
module Format {
  import opened Wrappers

  const Ellipsis := "..."
  const Placeholder := "Waiting for game instance..."

  /** Text around the character count on the status page. */
  const NoteHead := "<br><small style='color: #8b949e;'>(Full length: "
  const NoteTail := " chars)</small>"

  predicate IsDigit(c: char) {
    '0' <= c <= '9'
  }

  predicate AllDigits(s: string) {
    forall i :: 0 <= i < |s| ==> IsDigit(s[i])
  }

  function DigitChar(d: nat): (c: char)
    requires d < 10
    ensures IsDigit(c)
  {
    ('0' as int + d) as char
  }

  function DigitValue(c: char): nat
    requires IsDigit(c)
  {
    c as int - '0' as int
  }

  /** Python's `str(n)` for a non-negative integer: decimal digits, no leading zero. */
  function Decimal(n: nat): (s: string)
    ensures |s| >= 1
    ensures AllDigits(s)
    ensures s[0] == '0' ==> n == 0
    decreases n
  {
    if n < 10 then [DigitChar(n)] else Decimal(n / 10) + [DigitChar(n % 10)]
  }

  /** Reads a string of decimal digits back as a number; the reference for `Decimal`. */
  function DecimalValue(s: string): nat
    requires AllDigits(s)
  {
    if s == [] then 0 else 10 * DecimalValue(s[..|s| - 1]) + DigitValue(s[|s| - 1])
  }

  lemma {:induction false} DecimalRoundTrip(n: nat)
    ensures DecimalValue(Decimal(n)) == n
    decreases n
  {
    var s := Decimal(n);
    if n >= 10 {
      DecimalRoundTrip(n / 10);
      assert s[..|s| - 1] == Decimal(n / 10);
      assert DigitValue(DigitChar(n % 10)) == n % 10;
    } else {
      assert DigitValue(DigitChar(n)) == n;
    }
  }

  /** The secondary line of the status page that reports the full character count `n`. */
  function LengthNote(n: nat): (r: string)
    ensures |r| > |NoteHead| + |NoteTail|
    ensures r[..|NoteHead|] == NoteHead
    ensures r[|r| - |NoteTail|..] == NoteTail
    ensures AllDigits(r[|NoteHead|..|r| - |NoteTail|])
    ensures DecimalValue(r[|NoteHead|..|r| - |NoteTail|]) == n
    ensures r[|NoteHead|] == '0' ==> n == 0
  {
    DecimalRoundTrip(n);
    var r := NoteHead + Decimal(n) + NoteTail;
    assert r[|NoteHead|..|r| - |NoteTail|] == Decimal(n);
    r
  }

  /**
   * The log preview of a posted identifier: its first 20 characters, followed
   * by an ellipsis exactly when the identifier is longer than 20.
   */
  function Preview(id: string): (r: string)
    ensures |r| <= 23
    ensures |id| <= 20 ==> r == id
    ensures |id| > 20 ==> |r| == 23 && r[..20] == id[..20] && r[20..] == Ellipsis
  {
    id[..if |id| < 20 then |id| else 20] + (if |id| > 20 then Ellipsis else "")
  }

  /** A long value on the status page: first 20 characters, "...", last 20, then the length line. */
  function Elided(x: string): (r: string)
    requires |x| > 40
    ensures |r| == 43 + |LengthNote(|x|)|
    ensures r[..20] == x[..20] && r[20..23] == Ellipsis && r[23..43] == x[|x| - 20..]
    ensures r[43..] == LengthNote(|x|)
  {
    var head, tail, note := x[..20] + Ellipsis, x[|x| - 20..], LengthNote(|x|);
    var r := head + (tail + note);
    assert |head| == 23 && |tail| == 20;
    assert r[..23] == head && r[23..] == tail + note;
    assert head[..20] == x[..20] && head[20..] == Ellipsis;
    assert (tail + note)[..20] == tail && (tail + note)[20..] == note;
    r
  }

  /**
   * The identifier fragment of the status page for the stored value `v`.
   * Python's truthiness makes an empty string behave like an absent value.
   */
  function Display(v: Option<string>): (r: string)
    ensures v == None || v == Some("") ==> r == Placeholder
    ensures v.Some? && 0 < |v.value| <= 40 ==> r == v.value
    ensures v.Some? && |v.value| > 40 ==>
              && |r| == 43 + |LengthNote(|v.value|)|
              && r[..20] == v.value[..20]
              && r[20..23] == Ellipsis
              && r[23..43] == v.value[|v.value| - 20..]
              && r[43..] == LengthNote(|v.value|)
  {
    if v.Some? && |v.value| > 40 then
      Elided(v.value)
    else if v.Some? && v.value != "" then
      v.value
    else
      Placeholder
  }

  /** A value longer than 40 shows as its first 20 characters, "...", its last 20 and the length line. */
  lemma DisplayLong(x: string)
    requires |x| > 40
    ensures |Display(Some(x))| > 43
    ensures Display(Some(x))[..43] == x[..20] + Ellipsis + x[|x| - 20..]
    ensures Display(Some(x))[43..] == LengthNote(|x|)
  {
    var d := Display(Some(x));
    assert d[..43] == d[..20] + d[20..23] + d[23..43];
  }

  /** The count reported on the status page reads back as the stored value's length. */
  lemma DisplayReportsLength(x: string)
    requires |x| > 40
    ensures var note := Display(Some(x))[43..];
            && note[..|NoteHead|] == NoteHead
            && AllDigits(note[|NoteHead|..|note| - |NoteTail|])
            && DecimalValue(note[|NoteHead|..|note| - |NoteTail|]) == |x|
  {
  }

  lemma DecimalSeventy()
    ensures Decimal(70) == "70"
  {
    assert DigitChar(7) == '7' && DigitChar(0) == '0';
    assert Decimal(70) == Decimal(7) + [DigitChar(0)];
  }

  lemma LengthNoteSeventy()
    ensures LengthNote(70) == "<br><small style='color: #8b949e;'>(Full length: 70 chars)</small>"
  {
    DecimalSeventy();
    assert NoteHead + "70" + NoteTail == "<br><small style='color: #8b949e;'>(Full length: 70 chars)</small>";
  }

  /** The worked example of a 70-character value. */
  lemma DisplaySeventy(x: string)
    requires |x| == 70
    ensures Display(Some(x)) ==
              x[..20] + "..." + x[50..] + "<br><small style='color: #8b949e;'>(Full length: 70 chars)</small>"
  {
    var d := Display(Some(x));
    DisplayLong(x);
    LengthNoteSeventy();
    assert d == d[..43] + d[43..];
  }
}
