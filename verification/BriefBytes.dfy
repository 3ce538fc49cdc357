/** The byte count of the brief's ceiling is that of UTF-8. */
module BriefBytes {
  import Brief
  import Encodings

  /** A text's bytes, character by character. */
  function BytesOf(s: string): Encodings.Bytes { if s == "" then [] else BytesOf(s[..|s| - 1]) + Encodings.EncodePoint(s[|s| - 1] as int) }

  lemma WidthIsUtf8(c: char)
    ensures Brief.Width(c) == |Encodings.EncodePoint(c as int)|
  {
  }

  lemma {:induction false} BytesAreCounted(s: string)
    ensures Brief.ByteLength(s) == |BytesOf(s)|
  {
    hide Brief.Width, Encodings.EncodePoint;
    if s == "" {
    } else {
      BytesAreCounted(s[..|s| - 1]);
      WidthIsUtf8(s[|s| - 1]);
    }
  }

  /** What the clip keeps of a text: whole characters, as many as fit, and one replacement character where it cuts one apart. */
  lemma ClipIs(s: string, bytes: nat)
    ensures var clipped := Brief.ClipUtf8(s, bytes);
      if |BytesOf(s)| <= bytes then clipped == s
      else exists n :: 0 <= n < |s| && |BytesOf(s[..n])| <= bytes < |BytesOf(s[..n + 1])|
                       && clipped == if |BytesOf(s[..n])| == bytes then s[..n] else s[..n] + ['\U{FFFD}']
  {
    hide Brief.Width, Encodings.EncodePoint, Brief.ByteLength;
    var n := Brief.Fitting(s, bytes);
    BytesAreCounted(s);
    BytesAreCounted(s[..n]);
    assert s[..|s|] == s;
    if n < |s| {
      BytesAreCounted(s[..n + 1]);
      assert s[..n + 1] == s[..n] + [s[n]];
      Brief.ByteLengthPlus(s[..n], s[n]);
      BytesGrow(s, n + 1);
    }
  }

  lemma {:induction false} BytesGrow(s: string, n: nat)
    requires n <= |s|
    ensures |BytesOf(s[..n])| <= |BytesOf(s)|
    decreases |s|
  {
    hide Encodings.EncodePoint;
    if n == |s| {
      assert s[..n] == s;
    } else {
      BytesGrow(s[..|s| - 1], n);
      assert s[..|s| - 1][..n] == s[..n];
    }
  }
}
