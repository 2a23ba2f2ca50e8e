/**
 * The two string helpers of the site script: the `String.prototype.trim`
 * polyfill (whitespace, BOM and no-break space stripped at both ends) and the
 * label shown on the table-of-contents button for the active section.
 */
module Text {
  import opened Common

  /** The characters matched by `[\s\uFEFF\xA0]`: ECMAScript WhiteSpace and LineTerminator. */
  predicate IsSpace(c: char) {
    || c == '\t' || c == '\n' || c == '\U{000B}' || c == '\U{000C}' || c == '\r'
    || c == ' ' || c == '\U{00A0}' || c == '\U{1680}'
    || ('\U{2000}' <= c <= '\U{200A}')
    || c == '\U{2028}' || c == '\U{2029}' || c == '\U{202F}' || c == '\U{205F}'
    || c == '\U{3000}' || c == '\U{FEFF}'
  }

  /** Length of the longest all-space prefix: what `^[\s\uFEFF\xA0]+` removes. */
  function LeadingSpaces(s: string): (n: nat)
    ensures n <= |s|
    ensures forall k :: 0 <= k < n ==> IsSpace(s[k])
    ensures n < |s| ==> !IsSpace(s[n])
  {
    if |s| > 0 && IsSpace(s[0]) then 1 + LeadingSpaces(s[1..]) else 0
  }

  /** Length of the longest all-space suffix: what `[\s\uFEFF\xA0]+$` removes. */
  function TrailingSpaces(s: string): (n: nat)
    ensures n <= |s|
    ensures forall k :: |s| - n <= k < |s| ==> IsSpace(s[k])
    ensures n < |s| ==> !IsSpace(s[|s| - 1 - n])
  {
    if |s| > 0 && IsSpace(s[|s| - 1]) then 1 + TrailingSpaces(s[..|s| - 1]) else 0
  }

  predicate AllSpace(s: string) {
    forall k :: 0 <= k < |s| ==> IsSpace(s[k])
  }

  /** Neither the first nor the last character is a space. */
  predicate IsTrimmed(s: string) {
    |s| == 0 || (!IsSpace(s[0]) && !IsSpace(s[|s| - 1]))
  }

  /**
   * The trim polyfill: the input with its leading and trailing space runs
   * removed. The result is the middle piece of a split of `s` into an
   * all-space prefix, the result and an all-space suffix.
   */
  function Trim(s: string): (r: string)
    ensures IsTrimmed(r)
    ensures LeadingSpaces(s) + |r| <= |s|
    ensures r == s[LeadingSpaces(s)..LeadingSpaces(s) + |r|]
    ensures forall k :: 0 <= k < LeadingSpaces(s) ==> IsSpace(s[k])
    ensures forall k :: LeadingSpaces(s) + |r| <= k < |s| ==> IsSpace(s[k])
  {
    var t := s[LeadingSpaces(s)..];
    t[..|t| - TrailingSpaces(t)]
  }

  /** Trim is characterised by the split: any all-space/trimmed/all-space split of `s` has `Trim(s)` in the middle. */
  lemma {:induction false} TrimUnique(p: string, r: string, q: string)
    requires AllSpace(p) && AllSpace(q) && IsTrimmed(r)
    ensures Trim(p + r + q) == r
  {
    var s := p + r + q;
    var n := LeadingSpaces(s);
    assert forall k :: 0 <= k < |p| ==> s[k] == p[k];
    assert forall k :: |p| + |r| <= k < |s| ==> s[k] == q[k - |p| - |r|];
    if |r| == 0 {
      assert n == |s|;
    } else {
      assert s[|p|] == r[0];
      assert n == |p|;
      var t := s[n..];
      assert t == r + q;
      assert t[|r| - 1] == r[|r| - 1];
      var m := TrailingSpaces(t);
      assert m == |q|;
      assert t[..|t| - m] == r;
    }
  }

  /** Trimming twice is the same as trimming once. */
  lemma TrimIdempotent(s: string)
    ensures Trim(Trim(s)) == Trim(s)
  {
    var r := Trim(s);
    TrimUnique([], r, []);
    assert [] + r + [] == r;
  }

  const PageTop := "Page Top"
  const JumpTo := "Jump to..."
  const Viewing := "Viewing: "
  const Ellipsis := "..."
  /** The longest section title shown before it is cut. */
  const MaxShown := 30
  /** The markup the button carries after its label. */
  const Caret := " <span class=\"caret\"></span><span class=\"sr-only\">Table of Contents</span>"

  /** A title longer than 30 characters is cut to its first 30 and marked with an ellipsis. */
  function Shorten(text: string): (r: string)
    ensures |text| <= MaxShown ==> r == text
    ensures |text| > MaxShown ==>
      |r| == MaxShown + |Ellipsis| && r[..MaxShown] == text[..MaxShown] && r[MaxShown..] == Ellipsis
  {
    if |text| > MaxShown then text[..MaxShown] + Ellipsis else text
  }

  /**
   * The button label for the active table-of-contents link, given the raw
   * text of that link, or `None` when no link is active.
   */
  function SectionLabel(active: Option<string>): (r: string)
    ensures r == JumpTo <==> active.None? || Trim(active.value) == PageTop
    ensures r != JumpTo ==>
      |r| >= |Viewing| && r[..|Viewing|] == Viewing && r[|Viewing|..] == Shorten(Trim(active.value))
  {
    if active.None? then JumpTo
    else
      var text := Trim(active.value);
      if text == PageTop then JumpTo
      else
        assert (Viewing + Shorten(text))[1] != JumpTo[1];
        Viewing + Shorten(text)
  }

  /** The markup written into the button. */
  function ButtonHtml(active: Option<string>): string
  {
    SectionLabel(active) + Caret
  }

  lemma SpacesConcat(a: string, b: string)
    requires AllSpace(a) && AllSpace(b)
    ensures AllSpace(a + b)
  {
    forall k | 0 <= k < |a + b| ensures IsSpace((a + b)[k]) {
      if k >= |a| { assert (a + b)[k] == b[k - |a|]; }
    }
  }

  lemma Regroup(p: string, a: string, b: string, c: string, q: string)
    ensures p + (a + b + c) + q == (p + a) + b + (c + q)
  {
  }

  /** Padding a string with spaces on either side does not change its trimmed form. */
  lemma TrimIgnoresPadding(p: string, text: string, q: string)
    requires AllSpace(p) && AllSpace(q)
    ensures Trim(p + text + q) == Trim(text)
  {
    var n, r := LeadingSpaces(text), Trim(text);
    var lead, trail := text[..n], text[n + |r|..];
    assert text == lead + r + trail;
    assert AllSpace(lead);
    assert AllSpace(trail) by {
      forall k | 0 <= k < |trail| ensures IsSpace(trail[k]) {
        assert trail[k] == text[n + |r| + k];
      }
    }
    SpacesConcat(p, lead);
    SpacesConcat(trail, q);
    var pre, post := p + lead, trail + q;
    Regroup(p, lead, r, trail, q);
    TrimUnique(pre, r, post);
  }

  /** Surrounding whitespace in the link text never changes the label. */
  lemma LabelIgnoresPadding(p: string, text: string, q: string)
    requires AllSpace(p) && AllSpace(q)
    ensures SectionLabel(Some(p + text + q)) == SectionLabel(Some(text))
  {
    TrimIgnoresPadding(p, text, q);
  }
}
