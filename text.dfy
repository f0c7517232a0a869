/** The two string operations the layout engine performs on a cell: the parenthesis
    test and Python's `str.split()[0]` (first whitespace-separated word). */
module Text {
  import opened Wrappers

  /** The characters Python's `str.split()` without arguments treats as separators. */
  predicate IsSpace(c: char) {
    || ('\U{9}' <= c <= '\U{D}')
    || ('\U{1C}' <= c <= '\U{20}')
    || c == '\U{85}'
    || c == '\U{A0}'
    || c == '\U{1680}'
    || ('\U{2000}' <= c <= '\U{200A}')
    || c == '\U{2028}'
    || c == '\U{2029}'
    || c == '\U{202F}'
    || c == '\U{205F}'
    || c == '\U{3000}'
  }

  predicate AllSpace(s: string) {
    forall i :: 0 <= i < |s| ==> IsSpace(s[i])
  }

  predicate NoSpace(s: string) {
    forall i :: 0 <= i < |s| ==> !IsSpace(s[i])
  }

  /** The longest prefix of `s` without a separator. */
  function LeadingWord(s: string): (w: string)
    ensures w <= s
  {
    if s == [] || IsSpace(s[0]) then [] else [s[0]] + LeadingWord(s[1..])
  }

  /** `s.split()[0]`, or None where Python raises IndexError because `s` has no word. */
  function FirstWord(s: string): (r: Option<string>)
    ensures r.Some? ==> 0 < |r.value| <= |s| && !IsSpace(r.value[0])
  {
    if s == [] then None
    else if IsSpace(s[0]) then FirstWord(s[1..])
    else Some(LeadingWord(s))
  }

  lemma {:induction false} LeadingWordIsMaximal(s: string)
    ensures NoSpace(LeadingWord(s))
    ensures |LeadingWord(s)| <= |s| && s[..|LeadingWord(s)|] == LeadingWord(s)
    ensures |LeadingWord(s)| == |s| || IsSpace(s[|LeadingWord(s)|])
    ensures s != [] && !IsSpace(s[0]) ==> LeadingWord(s) != []
  {
    if s != [] && !IsSpace(s[0]) {
      LeadingWordIsMaximal(s[1..]);
      var w := LeadingWord(s[1..]);
      assert LeadingWord(s) == [s[0]] + w;
      assert s[..1 + |w|] == [s[0]] + s[1..][..|w|];
    }
  }

  lemma {:induction false} AllSpaceCons(s: string)
    requires s != []
    ensures AllSpace(s) <==> IsSpace(s[0]) && AllSpace(s[1..])
  {
    if IsSpace(s[0]) && AllSpace(s[1..]) {
      forall i | 0 <= i < |s| ensures IsSpace(s[i]) {
        if i > 0 { assert s[i] == s[1..][i - 1]; }
      }
    }
  }

  /** The first word is absent exactly when the cell is blank (empty or separators only). */
  lemma {:induction false} FirstWordAbsentIffBlank(s: string)
    ensures FirstWord(s).None? <==> AllSpace(s)
  {
    if s != [] {
      AllSpaceCons(s);
      if IsSpace(s[0]) {
        FirstWordAbsentIffBlank(s[1..]);
      }
    }
  }

  /** `w` occurs in `s` at `i`, preceded only by separators and followed by a separator
      or by the end of `s`. */
  predicate WordAt(s: string, i: nat, w: string) {
    && i + |w| <= |s|
    && AllSpace(s[..i])
    && s[i..i + |w|] == w
    && (i + |w| == |s| || IsSpace(s[i + |w|]))
  }

  lemma {:induction false} WordAtShift(s: string, i: nat, w: string)
    requires s != [] && IsSpace(s[0]) && WordAt(s[1..], i, w)
    ensures WordAt(s, i + 1, w)
  {
    var t := s[1..];
    assert s[..i + 1] == [s[0]] + t[..i];
    AllSpaceCons(s[..i + 1]);
    assert s[..i + 1][1..] == t[..i];
    assert s[i + 1..i + 1 + |w|] == t[i..i + |w|];
    assert i + |w| < |t| ==> s[i + 1 + |w|] == t[i + |w|];
  }

  /** A first word is a non-empty run of non-separators that follows only separators
      and ends at a separator or at the end of the cell. */
  lemma {:induction false} FirstWordLocated(s: string)
    requires FirstWord(s).Some?
    ensures FirstWord(s).value != [] && NoSpace(FirstWord(s).value)
    ensures exists i: nat :: WordAt(s, i, FirstWord(s).value)
  {
    var w := FirstWord(s).value;
    if IsSpace(s[0]) {
      FirstWordLocated(s[1..]);
      var i: nat :| WordAt(s[1..], i, w);
      WordAtShift(s, i, w);
    } else {
      LeadingWordIsMaximal(s);
      assert s[..0] == [];
      assert s[0..0 + |w|] == w;
      assert WordAt(s, 0, w);
    }
  }
}
