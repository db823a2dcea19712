/**
 The cuts of free text, on bytes: utf8Prefix, cutText, cutTokens and
 AppendReason.
 */
module FreeText {

  newtype byte = x: int | 0 <= x < 256

  type Text = seq<byte>

  const MAX_STRING_BYTES := 16 * 1024
  const MAX_REASON_BYTES := 64 * 1024

  /** " …(cut)", in UTF-8. */
  const CUT_MARK: Text := [0x20, 0xE2, 0x80, 0xA6, 0x28, 0x63, 0x75, 0x74, 0x29]

  /** "; " */
  const SEP: Text := [0x3B, 0x20]

  const COMMA: byte := 0x2C
  const SPACE: byte := 0x20

  /** The byte is not a continuation byte. */
  predicate RuneStart(b: byte) {
    !(0x80 <= b < 0xC0)
  }

  /** A character boundary of s. */
  predicate Boundary(s: Text, k: nat)
    requires k <= |s|
  {
    k == 0 || k == |s| || RuneStart(s[k])
  }

  /** The longest prefix of at most n bytes that ends at a character boundary. */
  function PrefixLength(s: Text, n: nat): (k: nat)
    ensures k <= |s| && k <= n && Boundary(s, k)
    ensures forall j :: k < j <= n && j <= |s| ==> !Boundary(s, j)
    decreases n
  {
    if |s| <= n then |s| else if n == 0 || RuneStart(s[n]) then n else PrefixLength(s, n - 1)
  }

  method Utf8Prefix(s: Text, n: nat) returns (r: Text)
    ensures r == s[..PrefixLength(s, n)]
  {
    if |s| <= n {
      return s;
    }
    var k: nat := n;
    while k > 0 && !RuneStart(s[k])
      invariant k <= n < |s| && PrefixLength(s, n) == PrefixLength(s, k)
    {
      k := k - 1;
    }
    return s[..k];
  }

  /** cutText, with the text itself when it fits. */
  function Cut(s: Text, max: nat): (r: Text)
    requires max >= |CUT_MARK|
    ensures |r| <= max
    ensures |s| <= max ==> r == s
  {
    if |s| <= max then s else s[..PrefixLength(s, max - |CUT_MARK|)] + CUT_MARK
  }

  /** Without the commas and spaces at its end. */
  function TrimRight(s: Text): (r: Text)
    ensures r <= s && (r == [] || (r[|r| - 1] != COMMA && r[|r| - 1] != SPACE))
    ensures forall i :: |r| <= i < |s| ==> s[i] == COMMA || s[i] == SPACE
  {
    if s != [] && (s[|s| - 1] == COMMA || s[|s| - 1] == SPACE) then TrimRight(s[..|s| - 1]) else s
  }

  /** The index after the last comma among the first n bytes, 0 for none. */
  function LastComma(s: Text, n: nat): (i: nat)
    requires n <= |s|
    ensures i <= n && (i > 0 ==> s[i - 1] == COMMA)
    ensures forall j :: i <= j < n ==> s[j] != COMMA
  {
    if n == 0 then 0 else if s[n - 1] == COMMA then n else LastComma(s, n - 1)
  }

  /** cutTokens, with the list itself when it fits. */
  function CutTokens(s: Text, max: nat): (r: Text)
    ensures |r| <= max && r <= s
    ensures |s| <= max ==> r == s
  {
    if |s| <= max then s
    else
      var i := LastComma(s, max + 1);
      if i == 0 then [] else TrimRight(s[..i - 1])
  }

  /** r is the text, or its longest prefix of whole characters that leaves room for
      the mark, marked. */
  ghost predicate IsCut(s: Text, max: nat, r: Text) {
    if |s| <= max then r == s else exists k: nat :: CutAfter(s, max, k) && r == s[..k] + CUT_MARK
  }

  ghost predicate CutAfter(s: Text, max: nat, k: nat) {
    && k <= |s| && Boundary(s, k) && k + |CUT_MARK| <= max
    && forall j :: k < j <= |s| && Boundary(s, j) ==> j + |CUT_MARK| > max
  }

  lemma {:induction false} CutIs(s: Text, max: nat)
    requires max >= |CUT_MARK|
    ensures IsCut(s, max, Cut(s, max))
  {
    if |s| > max {
      assert CutAfter(s, max, PrefixLength(s, max - |CUT_MARK|));
    }
  }

  /** Commas and spaces apart, r is what precedes the last comma within the limit. */
  ghost predicate TokensTo(s: Text, max: nat, r: Text, i: nat)
    requires |r| <= i <= max < |s|
  {
    && s[i] == COMMA && (forall j :: i < j <= max ==> s[j] != COMMA)
    && (forall j :: |r| <= j < i ==> s[j] in {COMMA, SPACE})
    && (r == [] || r[|r| - 1] !in {COMMA, SPACE})
  }

  /** A list that fits is kept; of one that does not the tokens that fit whole are,
      and nothing where not even one does. */
  ghost predicate IsTokenCut(s: Text, max: nat, r: Text) {
    if |s| <= max then r == s
    else
      r <= s && if COMMA in s[..max + 1] then exists i :: |r| <= i <= max && TokensTo(s, max, r, i) else r == []
  }

  /** A cut list ends where a token of the whole list does: no token is cut. */
  lemma {:induction false} TokensWhole(s: Text, max: nat)
    ensures IsTokenCut(s, max, CutTokens(s, max))
  {
    if |s| > max {
      var i := LastComma(s, max + 1);
      if i != 0 {
        var r := TrimRight(s[..i - 1]);
        assert forall j :: |r| <= j < i - 1 ==> s[..i - 1][j] == s[j];
        assert s[..max + 1][i - 1] == COMMA;
        assert TokensTo(s, max, r, i - 1);
      }
    }
  }

  predicate EndsWith(t: Text, end: Text) {
    |end| <= |t| && t[|t| - |end|..] == end
  }

  /** A note after a reason. */
  function WithNote(reason: Text, note: Text): Text {
    (if reason == [] then [] else reason + SEP) + note
  }

  predicate NoteFits(reason: Text, note: Text) {
    |note| + (if reason == [] then 0 else |reason| + |SEP|) <= MAX_REASON_BYTES
  }

  /** No note of the code's own reads as cut. */
  predicate PlainNote(note: Text) {
    |note| >= |CUT_MARK| && !EndsWith(note, CUT_MARK)
  }

  lemma {:induction false} EndsShorter(t: Text, a: Text, b: Text)
    requires EndsWith(t, a) && EndsWith(t, b) && |a| <= |b|
    ensures EndsWith(b, a)
  {
    forall i | 0 <= i < |a|
      ensures b[|b| - |a| + i] == a[i]
    {
      assert t[|t| - |b|..][|b| - |a| + i] == t[|t| - |a|..][i];
    }
  }

  /** A reason cut after a note is added still ends with the note if and only if
      both fit: the cut is made at the end. */
  lemma {:induction false} NoteSurvives(reason: Text, note: Text)
    requires PlainNote(note)
    ensures var r := Cut(WithNote(reason, note), MAX_REASON_BYTES);
            (EndsWith(r, note) <==> NoteFits(reason, note)) && (NoteFits(reason, note) ==> r == WithNote(reason, note))
  {
    var whole := WithNote(reason, note);
    var r := Cut(whole, MAX_REASON_BYTES);
    assert EndsWith(whole, note);
    if !NoteFits(reason, note) {
      assert EndsWith(r, CUT_MARK);
      if EndsWith(r, note) {
        EndsShorter(r, CUT_MARK, note);
      }
    }
  }

  /** A reason that fills the limit loses every note. */
  lemma {:induction false} NoteLost(note: Text)
    requires PlainNote(note)
    ensures var reason: Text := seq(MAX_REASON_BYTES, _ => 0x61);
            !EndsWith(Cut(WithNote(Cut(reason, MAX_REASON_BYTES), note), MAX_REASON_BYTES), note)
  {
    var reason: Text := seq(MAX_REASON_BYTES, _ => 0x61);
    NoteSurvives(reason, note);
  }

  /** Where a reason that does not fit before added is cut: the last character
      boundary that leaves room for the mark. */
  ghost predicate KeptTo(reason: Text, added: Text, k: nat) {
    var rest := |CUT_MARK| + |SEP| + |added|;
    && k <= |reason| && Boundary(reason, k) && k + rest <= MAX_REASON_BYTES
    && forall j :: k < j <= |reason| && Boundary(reason, j) ==> j + rest > MAX_REASON_BYTES
  }

  /** What becomes of a reason that does not fit: a marked prefix, or nothing
      where not even the mark fits. */
  ghost predicate GivesWay(reason: Text, added: Text, r: Text) {
    if |CUT_MARK| + |SEP| + |added| > MAX_REASON_BYTES then r == added
    else exists k: nat :: KeptTo(reason, added, k) && r == reason[..k] + CUT_MARK + SEP + added
  }

  /** AppendReason: the addition whole after the reason, which gives way. */
  function AppendReason(reason: Text, addition: Text): (r: Text)
    ensures |r| <= MAX_REASON_BYTES
    ensures |addition| <= MAX_REASON_BYTES ==> |addition| <= |r| && addition == r[|r| - |addition|..]
    ensures reason != [] && |reason| + |SEP| + |addition| <= MAX_REASON_BYTES ==> r == reason + SEP + addition
    ensures reason == [] ==> r == Cut(addition, MAX_REASON_BYTES)
    ensures var added := Cut(addition, MAX_REASON_BYTES);
            reason != [] && |reason| + |SEP| + |added| > MAX_REASON_BYTES ==> GivesWay(reason, added, r)
  {
    var added := Cut(addition, MAX_REASON_BYTES);
    if reason == [] then added
    else
      var room := MAX_REASON_BYTES - |added| - |SEP|;
      if |reason| > room then
        if room < |CUT_MARK| then added
        else
          assert KeptTo(reason, added, PrefixLength(reason, room - |CUT_MARK|));
          reason[..PrefixLength(reason, room - |CUT_MARK|)] + CUT_MARK + SEP + added
      else reason + SEP + added
  }
}
