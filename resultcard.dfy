/**
 * The result card: the bold-markdown segmentation of a prompt's text, and
 * the guard in front of a refinement request.
 *
 * `formatText` splits the text with the regular expression `(\*\*.*?\*\*)`
 * and emphasises every part that starts and ends with `**`. The split is
 * modelled as ECMAScript's `RegExp.prototype[@@split]` (section 22.2.6.14
 * of ECMA-262) runs it: a sticky match is tried at each index in turn; a
 * match emits the text since the previous match and then the capture (here
 * the whole match), and the text after the last match closes the list.
 */
module ResultCard {
  import opened Wrappers
  import opened Strings

  const Stars: string := "**"

  /** `**` begins at index `m` of `s`. */
  predicate StarsAt(s: string, m: int)
  {
    0 <= m && m + 2 <= |s| && s[m] == '*' && s[m + 1] == '*'
  }

  /**
   * The lazy `.*?\*\*` from index `j`: the end of the first `**` at or after
   * `j` that no line terminator precedes, since `.` matches none.
   */
  function CloseFrom(s: string, j: nat): (r: Option<nat>)
    decreases |s| - j
    ensures r.Some? ==> j + 2 <= r.value <= |s| && StarsAt(s, r.value - 2)
  {
    if j + 2 > |s| then None
    else if StarsAt(s, j) then Some(j + 2)
    else if IsLineTerminator(s[j]) then None
    else CloseFrom(s, j + 1)
  }

  /**
   * The closing `**` found is the first one, and no line terminator comes
   * before it; when none is found, every later `**` lies beyond a line
   * terminator.
   */
  lemma {:induction false} CloseFromFirst(s: string, j: nat)
    decreases |s| - j
    ensures CloseFrom(s, j).Some? ==>
      forall k :: j <= k < CloseFrom(s, j).value - 2 ==> !IsLineTerminator(s[k]) && !StarsAt(s, k)
    ensures CloseFrom(s, j).None? ==>
      forall m :: j <= m && StarsAt(s, m) ==> exists k :: j <= k < m && IsLineTerminator(s[k])
  {
    if j + 2 <= |s| && !StarsAt(s, j) && !IsLineTerminator(s[j]) {
      CloseFromFirst(s, j + 1);
    }
  }

  /** The end of the match of `\*\*.*?\*\*` anchored at index `q`, if the expression matches there. */
  function MatchAt(s: string, q: nat): (r: Option<nat>)
    ensures r.Some? ==> q + 4 <= r.value <= |s| && StarsAt(s, q) && StarsAt(s, r.value - 2)
  {
    if StarsAt(s, q) then CloseFrom(s, q + 2) else None
  }

  /** A text the expression matches as a whole: `**`, characters other than line terminators, `**`. */
  predicate Delimited(t: string)
  {
    |t| >= 4 && t[..2] == Stars && t[|t| - 2..] == Stars &&
    forall k :: 2 <= k < |t| - 2 ==> !IsLineTerminator(t[k])
  }

  /** What the expression matches is delimited. */
  lemma MatchDelimited(s: string, q: nat)
    requires MatchAt(s, q).Some?
    ensures Delimited(s[q..MatchAt(s, q).value])
  {
    var e := MatchAt(s, q).value;
    var t := s[q..e];
    CloseFromFirst(s, q + 2);
    forall k | 2 <= k < |t| - 2
      ensures !IsLineTerminator(t[k])
    {
      assert t[k] == s[q + k];
    }
    assert t[..2] == s[q..q + 2];
    assert t[|t| - 2..] == s[e - 2..e];
  }

  /**
   * The split loop from the end `p` of the previous match, trying index `q`
   * next: the text since the last match and each match, in turn, then the
   * rest of the text.
   */
  function SplitFrom(s: string, p: nat, q: nat): (r: seq<string>)
    requires p <= q <= |s|
    decreases |s| - q
    ensures |r| % 2 == 1
  {
    if q == |s| then [s[p..]]
    else match MatchAt(s, q) {
      case None => SplitFrom(s, p, q + 1)
      case Some(e) => [s[p..q], s[q..e]] + SplitFrom(s, e, e)
    }
  }

  /** Together the parts are the rest of the text. */
  lemma {:induction false} SplitFromConcat(s: string, p: nat, q: nat)
    requires p <= q <= |s|
    decreases |s| - q
    ensures Concat(SplitFrom(s, p, q)) == s[p..]
  {
    if q == |s| {
      assert Concat([s[p..]]) == s[p..] + "";
    } else if MatchAt(s, q).None? {
      SplitFromConcat(s, p, q + 1);
    } else {
      var e := MatchAt(s, q).value;
      SplitFromConcat(s, e, e);
      ConcatAppend([s[p..q], s[q..e]], SplitFrom(s, e, e));
      ConcatTwo(s[p..q], s[q..e]);
      assert s[p..q] + s[q..e] + s[e..] == s[p..];
    }
  }

  /** The parts at odd positions are the matches. */
  lemma {:induction false} SplitFromMatches(s: string, p: nat, q: nat)
    requires p <= q <= |s|
    decreases |s| - q
    ensures forall i :: 0 <= i < |SplitFrom(s, p, q)| && i % 2 == 1 ==> Delimited(SplitFrom(s, p, q)[i])
  {
    if q < |s| && MatchAt(s, q).None? {
      SplitFromMatches(s, p, q + 1);
    } else if q < |s| {
      var e := MatchAt(s, q).value;
      var rest := SplitFrom(s, e, e);
      var r := [s[p..q], s[q..e]] + rest;
      SplitFromMatches(s, e, e);
      MatchDelimited(s, q);
      assert forall i :: 2 <= i < |r| ==> r[i] == rest[i - 2];
    }
  }

  /** `text.split(/(\*\*.*?\*\*)/g)`. The empty text gives `[""]`, as the algorithm's own empty-input branch does. */
  function Split(s: string): (r: seq<string>)
    ensures |r| % 2 == 1
  {
    SplitFrom(s, 0, 0)
  }

  /** The split loses nothing: its parts concatenate back to the text, and every odd-positioned part is a match. */
  lemma SplitRoundTrip(s: string)
    ensures Concat(Split(s)) == s
    ensures forall i :: 0 <= i < |Split(s)| && i % 2 == 1 ==> Delimited(Split(s)[i])
  {
    SplitFromConcat(s, 0, 0);
    SplitFromMatches(s, 0, 0);
  }

  // ---------------------------------------------------------------------------
  // Classification

  /** A rendered span: emphasised or verbatim, with the text it shows. */
  datatype Segment = Emphasised(text: string) | Verbatim(text: string)

  /** JavaScript `t.slice(2, -2)`: empty when fewer than five characters remain to cut from. */
  function Inner(t: string): (r: string)
    ensures Delimited(t) ==> Stars + r + Stars == t
    ensures |t| < 4 ==> r == ""
  {
    if |t| < 4 then ""
    else
      assert t == t[..2] + t[2..|t| - 2] + t[|t| - 2..];
      t[2..|t| - 2]
  }

  /**
   * One part of the split, as `formatText` renders it: emphasised exactly
   * when it starts and ends with `**`, showing what lies between them, and
   * otherwise shown as it is.
   */
  function Classify(part: string): (r: Segment)
    ensures r.Emphasised? <==> StartsWith(part, Stars) && EndsWith(part, Stars)
    ensures r.Emphasised? ==> r.text == Inner(part)
    ensures r.Verbatim? ==> r.text == part
  {
    if StartsWith(part, Stars) && EndsWith(part, Stars) then Emphasised(Inner(part)) else Verbatim(part)
  }

  /**
   * `formatText`: one segment per part of the split, each classified by its
   * own shape, whether or not the expression matched it.
   */
  function FormatText(s: string): (r: seq<Segment>)
    ensures |r| == |Split(s)|
    ensures forall i :: 0 <= i < |r| ==>
      (r[i].Emphasised? <==> StartsWith(Split(s)[i], Stars) && EndsWith(Split(s)[i], Stars))
    ensures forall i :: 0 <= i < |r| ==>
      r[i].text == if r[i].Emphasised? then Inner(Split(s)[i]) else Split(s)[i]
  {
    var parts := Split(s);
    seq(|parts|, i requires 0 <= i < |parts| => Classify(parts[i]))
  }

  /** Every match of the expression is shown emphasised, its delimiters removed. */
  lemma MatchesAreEmphasised(s: string, i: nat)
    requires i < |Split(s)| && i % 2 == 1
    ensures FormatText(s)[i].Emphasised?
    ensures Stars + FormatText(s)[i].text + Stars == Split(s)[i]
  {
    var t := Split(s)[i];
    SplitRoundTrip(s);
    assert Delimited(t);
    assert t == t[..2] + t[2..|t| - 2] + t[|t| - 2..];
  }

  /** The text a rendered list shows, writing the delimiters back around emphasised spans. */
  function Source(segments: seq<Segment>): string
  {
    if segments == [] then ""
    else
      var head := match segments[0] {
        case Emphasised(t) => Stars + t + Stars
        case Verbatim(t) => t
      };
      head + Source(segments[1..])
  }

  const BoldExample: string := "x **A** y **B** z"

  /** An index where the expression does not match is skipped. */
  lemma SplitSkips(s: string, p: nat, q: nat)
    requires p <= q < |s| && MatchAt(s, q).None?
    ensures SplitFrom(s, p, q) == SplitFrom(s, p, q + 1)
  {
  }

  /** A match at `q` emits the text since `p` and the match, and the loop resumes after it. */
  lemma SplitTakes(s: string, p: nat, q: nat, e: nat)
    requires p <= q < |s| && MatchAt(s, q) == Some(e)
    ensures SplitFrom(s, p, q) == [s[p..q], s[q..e]] + SplitFrom(s, e, e)
  {
  }

  /** Where the expression matches in the example: at indices 2 and 10 only, up to the second match. */
  lemma ExampleMatches()
    ensures MatchAt(BoldExample, 0).None? && MatchAt(BoldExample, 1).None? && MatchAt(BoldExample, 2) == Some(7)
    ensures MatchAt(BoldExample, 7).None? && MatchAt(BoldExample, 8).None? && MatchAt(BoldExample, 9).None?
    ensures MatchAt(BoldExample, 10) == Some(15)
  {
  }

  /** The example splits around its two matches, `s[2..7]` and `s[10..15]`. */
  lemma ExampleSplitAt()
    ensures Split(BoldExample) == [BoldExample[..2], BoldExample[2..7], BoldExample[7..10], BoldExample[10..15], BoldExample[15..]]
  {
    var s := BoldExample;
    ExampleMatches();
    SplitSkips(s, 0, 0);
    SplitSkips(s, 0, 1);
    SplitTakes(s, 0, 2, 7);
    SplitSkips(s, 7, 7);
    SplitSkips(s, 7, 8);
    SplitSkips(s, 7, 9);
    SplitTakes(s, 7, 10, 15);
  }

  lemma ExampleParts()
    ensures BoldExample[..2] == "x " && BoldExample[2..7] == "**A**" && BoldExample[7..10] == " y "
    ensures BoldExample[10..15] == "**B**" && BoldExample[15..] == " z"
  {
  }

  /** The parts of the example's split. */
  lemma ExampleSplit()
    ensures Split(BoldExample) == ["x ", "**A**", " y ", "**B**", " z"]
  {
    ExampleSplitAt();
    ExampleParts();
  }

  /** How each part of the example is rendered. */
  lemma ExampleClassified()
    ensures Classify("x ") == Verbatim("x ") && Classify(" y ") == Verbatim(" y ") && Classify(" z") == Verbatim(" z")
    ensures Classify("**A**") == Emphasised("A") && Classify("**B**") == Emphasised("B")
  {
    assert "**A**"[2..3] == "A";
    assert "**B**"[2..3] == "B";
  }

  /** Two bold phrases on a line: exactly two emphasised segments, the surrounding text untouched. */
  lemma TwoBoldPhrases()
    ensures FormatText(BoldExample) ==
      [Verbatim("x "), Emphasised("A"), Verbatim(" y "), Emphasised("B"), Verbatim(" z")]
  {
    ExampleSplit();
    ExampleClassified();
  }

  // ---------------------------------------------------------------------------
  // Parts that only look like matches

  /**
   * As written: a text the expression never matches (a lone `**`) still
   * starts and ends with `**`, so it is shown as an empty emphasised span
   * and its two characters vanish from the card.
   */
  lemma LoneStarsVanish()
    ensures Split(Stars) == [Stars]
    ensures FormatText(Stars) == [Emphasised("")]
    ensures Source(FormatText(Stars)) != Stars
  {
    assert MatchAt(Stars, 0).None?;
    assert MatchAt(Stars, 1).None?;
    assert SplitFrom(Stars, 0, 2) == [Stars];
  }

  /** Corrected: a part is emphasised exactly when it is a match, that is at an odd position of the split. */
  function FormatMatches(s: string): (r: seq<Segment>)
    ensures |r| == |Split(s)|
    ensures forall i :: 0 <= i < |r| ==> (r[i].Emphasised? <==> i % 2 == 1)
  {
    var parts := Split(s);
    seq(|parts|, i requires 0 <= i < |parts| => if i % 2 == 1 then Emphasised(Inner(parts[i])) else Verbatim(parts[i]))
  }

  /** With the correction every character of the text is shown, delimiters aside: the rendering loses nothing. */
  lemma FormatMatchesRestores(s: string)
    ensures Source(FormatMatches(s)) == s
  {
    var parts := Split(s);
    SplitRoundTrip(s);
    RestoreParts(parts, FormatMatches(s), 0);
  }

  lemma {:induction false} RestoreParts(parts: seq<string>, segments: seq<Segment>, offset: nat)
    requires |segments| == |parts|
    requires forall i :: 0 <= i < |parts| && (offset + i) % 2 == 1 ==> Delimited(parts[i])
    requires forall i :: 0 <= i < |parts| ==>
      segments[i] == if (offset + i) % 2 == 1 then Emphasised(Inner(parts[i])) else Verbatim(parts[i])
    ensures Source(segments) == Concat(parts)
  {
    if parts != [] {
      RestoreParts(parts[1..], segments[1..], offset + 1);
      if offset % 2 == 1 {
        var t := parts[0];
        assert Delimited(t);
        assert t == t[..2] + t[2..|t| - 2] + t[|t| - 2..];
      }
    }
  }

  // ---------------------------------------------------------------------------
  // Refinement request

  const EmptyRefinementMessage: string := "กรุณาใส่คำสั่งในการแก้ไข"

  /** The refinement box under the result: its text field, whether it is open, and the error notices shown. */
  class RefineBox {
    var refinementText: string
    var showRefineInput: bool
    var notices: seq<string>

    constructor ()
      ensures refinementText == "" && !showRefineInput && notices == []
    {
      refinementText := "";
      showRefineInput := false;
      notices := [];
    }

    /**
     * `handleRefine`. A blank instruction only shows a notice. Otherwise, when
     * the card has a refine handler (`hasHandler`), the instruction goes to it
     * untrimmed (`sent`), and the box is cleared and closed; without a handler
     * nothing happens.
     */
    method HandleRefine(hasHandler: bool) returns (sent: Option<string>)
      modifies this
      ensures sent.Some? ==> !Blank(sent.value)
      ensures Blank(old(refinementText)) ==>
        sent.None? && notices == old(notices) + [EmptyRefinementMessage] &&
        refinementText == old(refinementText) && showRefineInput == old(showRefineInput)
      ensures !Blank(old(refinementText)) && hasHandler ==>
        sent == Some(old(refinementText)) && refinementText == "" && !showRefineInput && notices == old(notices)
      ensures !Blank(old(refinementText)) && !hasHandler ==>
        sent.None? && refinementText == old(refinementText) && showRefineInput == old(showRefineInput) &&
        notices == old(notices)
    {
      if Blank(refinementText) {
        notices := notices + [EmptyRefinementMessage];
        return None;
      }
      sent := None;
      if hasHandler {
        sent := Some(refinementText);
        refinementText := "";
        showRefineInput := false;
      }
    }
  }
}
