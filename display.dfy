/** Text shown in the admin list pages: the fixed-width preview of long texts and the decimal
    rendering of counts. */
module Display {

  /** Characters kept by a preview before the ellipsis. */
  const PreviewWidth: nat := 50

  const Ellipsis := "..."

  /** `text[:50] + "..." if len(text) > 50 else text`. */
  function Preview(text: string): (r: string)
    ensures |text| <= PreviewWidth ==> r == text
    ensures |text| > PreviewWidth ==> r == text[..PreviewWidth] + Ellipsis
    ensures |r| <= PreviewWidth + |Ellipsis|
  {
    if |text| > PreviewWidth then text[..PreviewWidth] + Ellipsis else text
  }

  /** A preview never hides the start of the text: it begins with the text itself, or with its
      first fifty characters. */
  lemma PreviewKeepsPrefix(text: string)
    ensures var kept := if |text| <= PreviewWidth then |text| else PreviewWidth;
            kept <= |Preview(text)| && Preview(text)[..kept] == text[..kept]
  {
  }

  /** A preview shows the text unchanged exactly when the text is at most fifty characters
      long, or is itself fifty characters followed by an ellipsis. */
  lemma PreviewIsTextIff(text: string)
    ensures Preview(text) == text <==>
      |text| <= PreviewWidth || (|text| == PreviewWidth + |Ellipsis| && text[PreviewWidth..] == Ellipsis)
  {
    if |text| > PreviewWidth && Preview(text) == text {
      assert text[PreviewWidth..] == Preview(text)[PreviewWidth..];
    }
    if |text| == PreviewWidth + |Ellipsis| && text[PreviewWidth..] == Ellipsis {
      assert text == text[..PreviewWidth] + text[PreviewWidth..];
    }
  }

  predicate IsDigit(c: char)
  {
    '0' <= c <= '9'
  }

  function DigitChar(d: nat): (c: char)
    requires d < 10
    ensures IsDigit(c)
  {
    ('0' as int + d) as char
  }

  function DigitValue(c: char): (d: nat)
    requires IsDigit(c)
    ensures d < 10
  {
    c as int - '0' as int
  }

  /** Python's `str(n)` (and `format`'s `{}`) for a non-negative integer. */
  function NatToString(n: nat): (r: string)
    ensures |r| >= 1
    ensures forall i :: 0 <= i < |r| ==> IsDigit(r[i])
    ensures r[0] == '0' ==> n == 0
  {
    if n < 10 then [DigitChar(n)] else NatToString(n / 10) + [DigitChar(n % 10)]
  }

  /** Reading a string of decimal digits back as a number. */
  function ParseNat(s: string): nat
    requires forall i :: 0 <= i < |s| ==> IsDigit(s[i])
  {
    if s == [] then 0 else ParseNat(s[..|s| - 1]) * 10 + DigitValue(s[|s| - 1])
  }

  /** The decimal rendering loses nothing: it reads back as the same number. */
  lemma {:induction false} ParseNatToString(n: nat)
    ensures ParseNat(NatToString(n)) == n
  {
    var s := NatToString(n);
    if n >= 10 {
      ParseNatToString(n / 10);
      assert s[..|s| - 1] == NatToString(n / 10);
    }
  }

  /** Hence distinct counts are rendered differently. */
  lemma NatToStringInjective(m: nat, n: nat)
    requires NatToString(m) == NatToString(n)
    ensures m == n
  {
    ParseNatToString(m);
    ParseNatToString(n);
  }

  /** The message of a related field whose primary key names no row. */
  function InvalidPk(pk: nat): string
  {
    "Invalid pk \"" + NatToString(pk) + "\" - object does not exist."
  }

  /** Different keys give different messages, so the message names the key. */
  lemma InvalidPkNamesKey(m: nat, n: nat)
    requires InvalidPk(m) == InvalidPk(n)
    ensures m == n
  {
    var pre := "Invalid pk \"";
    var post := "\" - object does not exist.";
    var a := NatToString(m);
    var b := NatToString(n);
    assert |pre + a + post| == |pre + b + post|;
    assert a == (pre + a + post)[|pre|..|pre| + |a|];
    assert b == (pre + b + post)[|pre|..|pre| + |b|];
    NatToStringInjective(m, n);
  }
}
