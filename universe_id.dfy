/** The "use current game" helper: the universe id is read back out of the
    current-game text ("<game name> (Universe: <id>)" or "Universe: <id>")
    with the regular expression `Universe:\s*(\d+)` under `re.search`,
    which takes the leftmost match. */
module UniverseId {
  import opened Values

  const Label := "Universe:"

  /** `\s` of a `str` pattern: the characters `str.isspace()` accepts. */
  predicate IsSpace(c: char)
  {
    var n := c as int;
    n == 0x20 || 0x09 <= n <= 0x0d || 0x1c <= n <= 0x1f || n == 0x85 || n == 0xa0
    || n == 0x1680 || 0x2000 <= n <= 0x200a || n == 0x2028 || n == 0x2029
    || n == 0x202f || n == 0x205f || n == 0x3000
  }

  /** Length of the run of whitespace starting at `i` (greedy `\s*`). */
  function SpaceRun(text: string, i: nat): (n: nat)
    requires i <= |text|
    ensures i + n <= |text|
    decreases |text| - i
  {
    if i < |text| && IsSpace(text[i]) then 1 + SpaceRun(text, i + 1) else 0
  }

  /** Length of the run of digits starting at `i` (greedy `\d+`). */
  function DigitRun(text: string, i: nat): (n: nat)
    requires i <= |text|
    ensures i + n <= |text|
    decreases |text| - i
  {
    if i < |text| && IsDigitChar(text[i]) then 1 + DigitRun(text, i + 1) else 0
  }

  /** The whitespace run is maximal: all whitespace, then a non-space or the end. */
  lemma {:induction false} SpaceRunMaximal(text: string, i: nat)
    requires i <= |text|
    ensures forall k :: i <= k < i + SpaceRun(text, i) ==> IsSpace(text[k])
    ensures i + SpaceRun(text, i) == |text| || !IsSpace(text[i + SpaceRun(text, i)])
    decreases |text| - i
  {
    if i < |text| && IsSpace(text[i]) {
      SpaceRunMaximal(text, i + 1);
    }
  }

  /** The digit run is maximal: all digits, then a non-digit or the end. */
  lemma {:induction false} DigitRunMaximal(text: string, i: nat)
    requires i <= |text|
    ensures forall k :: i <= k < i + DigitRun(text, i) ==> IsDigitChar(text[k])
    ensures i + DigitRun(text, i) == |text| || !IsDigitChar(text[i + DigitRun(text, i)])
    decreases |text| - i
  {
    if i < |text| && IsDigitChar(text[i]) {
      DigitRunMaximal(text, i + 1);
    }
  }

  predicate LabelAt(text: string, p: nat)
  {
    p + |Label| <= |text| && text[p..p + |Label|] == Label
  }

  /** Where the digits of a match starting at `p` begin. */
  function DigitsStart(text: string, p: nat): nat
    requires LabelAt(text, p)
  {
    p + |Label| + SpaceRun(text, p + |Label|)
  }

  /** The pattern matches at `p`. */
  predicate MatchAt(text: string, p: nat)
  {
    LabelAt(text, p) && DigitRun(text, DigitsStart(text, p)) > 0
  }

  /** `match.group(1)` for the match at `p`. */
  function GroupAt(text: string, p: nat): (g: string)
    requires MatchAt(text, p)
    ensures IsDigits(g)
  {
    var q := DigitsStart(text, p);
    DigitRunMaximal(text, q);
    text[q..q + DigitRun(text, q)]
  }

  /** Any way the pattern can match at `p` (label, whitespace, a maximal run
      of digits) is the match the greedy search finds, with that digit run
      as its group. */
  lemma MatchAtMeaning(text: string, p: nat, w: nat, n: nat)
    requires LabelAt(text, p)
    requires p + |Label| + w + n <= |text| && n >= 1
    requires forall k :: p + |Label| <= k < p + |Label| + w ==> IsSpace(text[k])
    requires forall k :: p + |Label| + w <= k < p + |Label| + w + n ==> IsDigitChar(text[k])
    requires p + |Label| + w + n == |text| || !IsDigitChar(text[p + |Label| + w + n])
    ensures MatchAt(text, p)
    ensures GroupAt(text, p) == text[p + |Label| + w..p + |Label| + w + n]
  {
    var s := p + |Label|;
    var sr := SpaceRun(text, s);
    SpaceRunMaximal(text, s);
    DigitRunMaximal(text, s + w);
    assert !IsSpace(text[s + w]) by { assert IsDigitChar(text[s + w]); }
    assert sr == w;
    var dr := DigitRun(text, s + w);
    assert dr == n;
  }

  /** The leftmost match at or after `p`. */
  function FirstMatchFrom(text: string, p: nat): (r: Option<nat>)
    requires p <= |text|
    ensures r.Some? ==> p <= r.value <= |text| && MatchAt(text, r.value)
                        && forall q :: p <= q < r.value ==> !MatchAt(text, q)
    ensures r.None? ==> forall q :: p <= q <= |text| ==> !MatchAt(text, q)
    decreases |text| - p
  {
    if MatchAt(text, p) then Some(p)
    else if p == |text| then None
    else FirstMatchFrom(text, p + 1)
  }

  /** `re.search(r'Universe:\s*(\d+)', text)` followed by `group(1)`. */
  function ExtractUniverseId(text: string): (r: Option<string>)
    ensures r.Some? <==> exists p :: 0 <= p <= |text| && MatchAt(text, p)
  {
    match FirstMatchFrom(text, 0)
    case None => None
    case Some(p) => Some(GroupAt(text, p))
  }

  /** The extracted id is the group of the leftmost match. */
  lemma ExtractIsLeftmost(text: string, p: nat)
    requires p <= |text| && MatchAt(text, p)
    requires forall q :: 0 <= q < p ==> !MatchAt(text, q)
    ensures ExtractUniverseId(text) == Some(GroupAt(text, p))
  {
    var r := FirstMatchFrom(text, 0);
    assert r == Some(p);
  }

  /** The rightmost match at or before `p`. */
  function LastMatchUpTo(text: string, p: nat): (r: Option<nat>)
    requires p <= |text|
    ensures r.Some? ==> r.value <= p && MatchAt(text, r.value)
                        && forall q :: r.value < q <= p ==> !MatchAt(text, q)
    ensures r.None? ==> forall q :: 0 <= q <= p ==> !MatchAt(text, q)
  {
    if MatchAt(text, p) then Some(p)
    else if p == 0 then None
    else LastMatchUpTo(text, p - 1)
  }

  /** The intended reading: the id in the trailing "(Universe: <id>)" that
      the current-game text ends with, i.e. the rightmost match. */
  function ExtractTrailingUniverseId(text: string): (r: Option<string>)
    ensures r.Some? <==> exists p :: 0 <= p <= |text| && MatchAt(text, p)
  {
    match LastMatchUpTo(text, |text|)
    case None => None
    case Some(p) => Some(GroupAt(text, p))
  }

  /** The corrected extraction yields the group of the rightmost match. */
  lemma ExtractIsRightmost(text: string, p: nat)
    requires p <= |text| && MatchAt(text, p)
    requires forall q :: p < q <= |text| ==> !MatchAt(text, q)
    ensures ExtractTrailingUniverseId(text) == Some(GroupAt(text, p))
  {
    var r := LastMatchUpTo(text, |text|);
    assert r == Some(p);
  }

  /** The current-game text for a game with a name. */
  function GameText(name: string, id: nat): string
  {
    name + " (Universe: " + NatToString(id) + ")"
  }

  /** The current-game text when the game has no name. */
  function BareText(id: nat): string
  {
    "Universe: " + NatToString(id)
  }

  /** A match can only start at a 'U': where no 'U' follows `lo`, nothing
      matches. */
  lemma NoMatchWithoutU(text: string, lo: nat)
    requires forall k :: lo <= k < |text| ==> text[k] != 'U'
    ensures forall q :: lo <= q <= |text| ==> !MatchAt(text, q)
  {
    forall q | lo <= q <= |text| ensures !LabelAt(text, q) {
      if q < |text| {
        LabelChar(text, q, q);
      }
    }
  }

  /** Where the label occurs at `q`, the character at `j` is the label's. */
  lemma LabelChar(text: string, q: nat, j: nat)
    requires q <= j < |text| && j < q + |Label|
    ensures LabelAt(text, q) ==> text[j] == Label[j - q]
  {
    if q + |Label| <= |text| {
      assert text[q..q + |Label|][j - q] == text[j];
    }
  }

  /** Inside a prefix, the label occurs exactly where it occurs in the prefix. */
  lemma LabelInPrefix(text: string, name: string, q: nat)
    requires |name| <= |text| && text[..|name|] == name && q + |Label| <= |name|
    ensures LabelAt(text, q) == LabelAt(name, q)
  {
    var a, b := text[q..q + |Label|], name[q..q + |Label|];
    forall i | 0 <= i < |Label| ensures a[i] == b[i] {
      assert name[q + i] == text[..|name|][q + i];
    }
    assert a == b;
  }

  /** "Universe: " followed by digits and then a non-digit (or the end) is a
      match whose group is those digits. */
  lemma LabelledDigits(text: string, p: nat, s: string)
    requires p + |Label| + 1 + |s| <= |text|
    requires text[p..p + |Label|] == Label && text[p + |Label|] == ' '
    requires text[p + |Label| + 1..p + |Label| + 1 + |s|] == s && IsDigits(s)
    requires p + |Label| + 1 + |s| == |text| || !IsDigitChar(text[p + |Label| + 1 + |s|])
    ensures MatchAt(text, p) && GroupAt(text, p) == s
  {
    var d := p + |Label| + 1;
    forall k | d <= k < d + |s| ensures IsDigitChar(text[k]) {
      assert text[k] == s[k - d];
    }
    MatchAtMeaning(text, p, 1, |s|);
  }

  /** The digits and the closing parenthesis hold no 'U'. */
  lemma TailHasNoU(s: string)
    requires IsDigits(s)
    ensures forall k :: 0 <= k < |"niverse: " + s + ")"| ==> ("niverse: " + s + ")")[k] != 'U'
  {
    var u := "niverse: " + s + ")";
    forall k | 0 <= k < |u| ensures u[k] != 'U' {
      if k < 9 {
        assert u[k] == "niverse: "[k];
      } else if k < 9 + |s| {
        assert u[k] == s[k - 9];
      }
    }
  }

  lemma GameTextShape(name: string, id: nat)
    ensures var p, s := |name| + 2, NatToString(id);
      && |GameText(name, id)| == p + |Label| + 2 + |s|
      && GameText(name, id)[p..p + |Label|] == Label && GameText(name, id)[p + |Label|] == ' '
      && GameText(name, id)[p + |Label| + 1..p + |Label| + 1 + |s|] == s
      && GameText(name, id)[p + |Label| + 1 + |s|] == ')'
    ensures forall k :: |name| + 3 <= k < |GameText(name, id)| ==> GameText(name, id)[k] != 'U'
  {
    var text, s, p := GameText(name, id), NatToString(id), |name| + 2;
    var u := "niverse: " + s + ")";
    assert text == name + " (U" + u;
    TailHasNoU(s);
    forall k | p + 1 <= k < |text| ensures text[k] != 'U' {
      assert text[k] == u[k - p - 1];
    }
  }

  /** The match that starts at the label of the trailing "(Universe: <id>)". */
  lemma GameTextTrailingMatch(name: string, id: nat)
    ensures MatchAt(GameText(name, id), |name| + 2)
    ensures GroupAt(GameText(name, id), |name| + 2) == NatToString(id)
    ensures forall q :: |name| + 2 < q <= |GameText(name, id)| ==> !MatchAt(GameText(name, id), q)
  {
    GameTextShape(name, id);
    LabelledDigits(GameText(name, id), |name| + 2, NatToString(id));
    NoMatchWithoutU(GameText(name, id), |name| + 3);
  }

  /** The corrected extraction reads back the id the current-game text was
      built with, whatever the game's name. */
  lemma TrailingRoundTrip(name: string, id: nat)
    ensures ExtractTrailingUniverseId(GameText(name, id)) == Some(NatToString(id))
    ensures DigitsValue(ExtractTrailingUniverseId(GameText(name, id)).value) == id
  {
    GameTextTrailingMatch(name, id);
    ExtractIsRightmost(GameText(name, id), |name| + 2);
    NatToStringRoundTrip(id);
  }

  lemma BareTextShape(id: nat)
    ensures |Label| + 1 + |NatToString(id)| == |BareText(id)|
    ensures BareText(id)[..|Label|] == Label && BareText(id)[|Label|] == ' '
    ensures BareText(id)[|Label| + 1..] == NatToString(id)
    ensures forall k :: 1 <= k < |BareText(id)| ==> BareText(id)[k] != 'U'
  {
    var text, s := BareText(id), NatToString(id);
    forall k | 1 <= k < |text| ensures text[k] != 'U' {
      if k < |Label| + 1 {
        assert text[k] == "Universe: "[k];
      } else {
        assert text[k] == s[k - |Label| - 1];
      }
    }
  }

  /** Both extractions read back the id of a game without a name. */
  lemma BareRoundTrip(id: nat)
    ensures ExtractUniverseId(BareText(id)) == Some(NatToString(id))
    ensures ExtractTrailingUniverseId(BareText(id)) == Some(NatToString(id))
  {
    var text := BareText(id);
    BareTextShape(id);
    LabelledDigits(text, 0, NatToString(id));
    ExtractIsLeftmost(text, 0);
    NoMatchWithoutU(text, 1);
    ExtractIsRightmost(text, 0);
  }

  lemma GameTextStartsWithName(name: string, id: nat)
    ensures |name| + 2 <= |GameText(name, id)| && GameText(name, id)[..|name|] == name
    ensures GameText(name, id)[|name|] == ' ' && GameText(name, id)[|name| + 1] == '('
  {
    assert GameText(name, id) == name + (" (Universe: " + NatToString(id) + ")");
  }

  /** No match starts in a label-free name or in the " (" after it. */
  lemma NoLabelBeforeParen(text: string, name: string)
    requires |name| + 2 <= |text| && text[..|name|] == name
    requires text[|name|] == ' ' && text[|name| + 1] == '('
    requires forall q: nat :: q <= |name| ==> !LabelAt(name, q)
    ensures forall q :: 0 <= q < |name| + 2 ==> !MatchAt(text, q)
  {
    forall q | 0 <= q < |name| + 2 ensures !LabelAt(text, q) {
      if q + |Label| <= |name| {
        LabelInPrefix(text, name, q);
      } else if q < |name| {
        LabelChar(text, q, |name|);
      } else {
        LabelChar(text, q, q);
      }
    }
  }

  /** The leftmost extraction also reads back the id when the name does not
      contain the label. */
  lemma LeftmostRoundTripPlainName(name: string, id: nat)
    requires forall q: nat :: q <= |name| ==> !LabelAt(name, q)
    ensures ExtractUniverseId(GameText(name, id)) == Some(NatToString(id))
  {
    var text := GameText(name, id);
    GameTextTrailingMatch(name, id);
    GameTextStartsWithName(name, id);
    NoLabelBeforeParen(text, name);
    ExtractIsLeftmost(text, |name| + 2);
  }

  /** As written, a game whose name itself contains "Universe: 1" yields the
      name's digits instead of the game's id. */
  lemma LeftmostPicksNameDigits()
    ensures ExtractUniverseId(GameText("Universe: 1", 555)) == Some("1")
    ensures ExtractTrailingUniverseId(GameText("Universe: 1", 555)) == Some("555")
  {
    var text := GameText("Universe: 1", 555);
    assert NatToString(555) == "555";
    assert text == "Universe: 1 (Universe: 555)";
    assert text[..|Label|] == Label && text[|Label|] == ' ';
    assert text[|Label| + 1..|Label| + 2] == "1" && text[|Label| + 2] == ' ';
    LabelledDigits(text, 0, "1");
    ExtractIsLeftmost(text, 0);
    TrailingRoundTrip("Universe: 1", 555);
  }
}
