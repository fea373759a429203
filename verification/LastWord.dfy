/** The last record to write a field decides what it shows; and the fixed texts the reducers show are
    shown as they are. */
module LastWord {
  import opened Text
  import opened Splitting
  import opened SummaryModel

  /** `value` is the last one written, or `first` if none was. */
  predicate Latest<T(==)>(value: T, first: T, written: seq<Option<T>>) {
    && (forall i :: 0 <= i < |written| && IsLast(written, i) ==> value == written[i].value)
    && ((forall i :: 0 <= i < |written| ==> written[i].None?) ==> value == first)
  }

  predicate IsLast<T>(written: seq<Option<T>>, i: nat) {
    i < |written| && written[i].Some? && forall j :: i < j < |written| ==> written[j].None?
  }

  lemma LatestNext<T>(was: T, first: T, written: seq<Option<T>>, next: Option<T>)
    requires Latest(was, first, written)
    ensures Latest(if next.Some? then next.value else was, first, written + [next])
  {
    var n, all := |written|, written + [next];
    assert all[n] == next && forall i :: 0 <= i < n ==> all[i] == written[i];
    forall i: nat | i < n ensures IsLast(all, i) <==> next.None? && IsLast(written, i) {
    }
  }

  /** There is a last one if there is any. */
  lemma {:induction false} SomeIsLast<T>(written: seq<Option<T>>, i: nat) returns (last: nat)
    requires i < |written| && written[i].Some?
    ensures IsLast(written, last) && i <= last
  {
    if forall j :: i < j < |written| ==> written[j].None? {
      last := i;
    } else {
      var j :| i < j < |written| && written[j].Some?;
      last := SomeLater(written, i, j);
    }
  }

  lemma {:induction false} SomeLater<T>(written: seq<Option<T>>, i: nat, j: nat) returns (last: nat)
    requires i < j < |written| && written[j].Some?
    ensures IsLast(written, last) && i <= last
    decreases |written| - j
  {
    if k :| j < k < |written| && written[k].Some? {
      last := SomeLater(written, i, k);
    } else {
      last := j;
    }
  }

  // ----- Claims -----

  /** A text as it is shown, or the reason why nothing of it is. */
  function Said(text: string, kind: Kind, id: Option<string>): Claim {
    var shown := SanitizeText(text);
    if shown == "" then Claim(None, Unknown, None, None, Some(NoDisplayableText(kind)))
    else Claim(Some(shown), Exact, Some(kind), id, None)
  }

  /** A fact known without any text. */
  function Known(kind: Kind, id: Option<string>): Claim {
    Claim(None, Structural, Some(kind), id, None)
  }

  function State(text: string, kind: Kind, id: Option<string>): Claim {
    Claim(Some(text), Structural, Some(kind), id, None)
  }

  lemma SaidIs(text: string, kind: Kind, id: Option<string>)
    ensures ExactClaim(text, kind, id) == Said(text, kind, id)
    ensures StructuralClaim(text, kind, id) == State(SanitizeText(text), kind, id) && Quiet(kind, id) == Known(kind, id)
  {
  }

  // ----- Fixed texts -----

  lemma JoinTwo(a: string, b: string)
    ensures Join([a, b], " ") == a + " " + b
  {
    assert [a, b][1..] == [b];
  }

  lemma JoinThree(a: string, b: string, c: string)
    ensures Join([a, b, c], " ") == a + " " + b + " " + c
  {
    assert [a, b, c][1..] == [b, c];
    JoinTwo(b, c);
  }

  lemma TwoWordsShown(a: string, b: string)
    requires IsPlainWord(a) && IsPlainWord(b) && |a| + |b| < 200
    ensures SanitizeText(a + " " + b) == a + " " + b
  {
    hide SanitizeText;
    JoinTwo(a, b);
    PlainIsShown([a, b]);
  }

  lemma ThreeWordsShown(a: string, b: string, c: string)
    requires IsPlainWord(a) && IsPlainWord(b) && IsPlainWord(c) && |a| + |b| + |c| < 200
    ensures SanitizeText(a + " " + b + " " + c) == a + " " + b + " " + c
  {
    hide SanitizeText;
    JoinThree(a, b, c);
    PlainIsShown([a, b, c]);
  }

  lemma FourWordsShown(a: string, b: string, c: string, d: string)
    requires IsPlainWord(a) && IsPlainWord(b) && IsPlainWord(c) && IsPlainWord(d) && |a| + |b| + |c| + |d| < 200
    ensures SanitizeText(a + " " + b + " " + c + " " + d) == a + " " + b + " " + c + " " + d
  {
    hide SanitizeText;
    JoinThree(b, c, d);
    assert [a, b, c, d][1..] == [b, c, d];
    PlainIsShown([a, b, c, d]);
    assert a + " " + (b + " " + c + " " + d) == a + " " + b + " " + c + " " + d;
  }

  lemma FiveWordsShown(a: string, b: string, c: string, d: string, e: string)
    requires IsPlainWord(a) && IsPlainWord(b) && IsPlainWord(c) && IsPlainWord(d) && IsPlainWord(e)
    requires |a| + |b| + |c| + |d| + |e| < 200
    ensures SanitizeText(a + " " + b + " " + c + " " + d + " " + e) == a + " " + b + " " + c + " " + d + " " + e
  {
    hide SanitizeText;
    JoinThree(c, d, e);
    assert [b, c, d, e][1..] == [c, d, e] && [a, b, c, d, e][1..] == [b, c, d, e];
    PlainIsShown([a, b, c, d, e]);
    assert a + " " + (b + " " + (c + " " + d + " " + e)) == a + " " + b + " " + c + " " + d + " " + e;
  }

  lemma OpenShown()
    ensures SanitizeText("Agent turn open") == "Agent turn open"
  {
    hide SanitizeText;
    ThreeWordsShown("Agent", "turn", "open");
    assert "Agent" + " " + "turn" + " " + "open" == "Agent turn open";
  }

  lemma AwaitingShown()
    ensures SanitizeText("Awaiting explicit answer") == "Awaiting explicit answer"
  {
    hide SanitizeText;
    ThreeWordsShown("Awaiting", "explicit", "answer");
    assert "Awaiting" + " " + "explicit" + " " + "answer" == "Awaiting explicit answer";
  }

  lemma ReturnedShown()
    ensures SanitizeText("Turn returned to human") == "Turn returned to human"
  {
    hide SanitizeText;
    FourWordsShown("Turn", "returned", "to", "human");
    assert "Turn" + " " + "returned" + " " + "to" + " " + "human" == "Turn returned to human";
  }

  lemma AbortedShown()
    ensures SanitizeText("Turn aborted") == "Turn aborted"
  {
    hide SanitizeText;
    TwoWordsShown("Turn", "aborted");
    assert "Turn" + " " + "aborted" == "Turn aborted";
  }

  lemma CompactedShown()
    ensures SanitizeText("Context compacted") == "Context compacted"
  {
    hide SanitizeText;
    TwoWordsShown("Context", "compacted");
    assert "Context" + " " + "compacted" == "Context compacted";
  }

  lemma FixedTextsShown()
    ensures SanitizeText("Agent turn open") == "Agent turn open"
    ensures SanitizeText("Awaiting explicit answer") == "Awaiting explicit answer"
    ensures SanitizeText("Turn returned to human") == "Turn returned to human"
    ensures SanitizeText("Turn aborted") == "Turn aborted"
    ensures SanitizeText("Context compacted") == "Context compacted"
  {
    hide SanitizeText;
    OpenShown();
    AwaitingShown();
    ReturnedShown();
    AbortedShown();
    CompactedShown();
  }

  lemma StatusFailedShown()
    ensures SanitizeText("Command status failed this turn") == "Command status failed this turn"
  {
    hide SanitizeText;
    FiveWordsShown("Command", "status", "failed", "this", "turn");
    assert "Command" + " " + "status" + " " + "failed" + " " + "this" + " " + "turn"
           == "Command status failed this turn";
  }

  lemma PatchFailedShown()
    ensures SanitizeText("Patch failed this turn") == "Patch failed this turn"
  {
    hide SanitizeText;
    FourWordsShown("Patch", "failed", "this", "turn");
    assert "Patch" + " " + "failed" + " " + "this" + " " + "turn" == "Patch failed this turn";
  }

  lemma SourceErrorShown()
    ensures SanitizeText("Source error this turn") == "Source error this turn"
  {
    hide SanitizeText;
    FourWordsShown("Source", "error", "this", "turn");
    assert "Source" + " " + "error" + " " + "this" + " " + "turn" == "Source error this turn";
  }

  lemma ToolFailedShown()
    ensures SanitizeText("Tool failed this turn") == "Tool failed this turn"
  {
    hide SanitizeText;
    FourWordsShown("Tool", "failed", "this", "turn");
    assert "Tool" + " " + "failed" + " " + "this" + " " + "turn" == "Tool failed this turn";
  }
}
