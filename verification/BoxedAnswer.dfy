/** The boxed answer of a response: finding the last box, matching its braces and unboxing it. */
module BoxedAnswer {
  import opened Wrappers

  const MARK := "\\boxed{"

  // ---------------------------------------------------------------- braces

  // Opening braces minus closing braces.
  function Depth(s: string): int {
    if |s| == 0 then 0 else Depth(s[..|s| - 1]) + Brace(s[|s| - 1])
  }

  function Brace(c: char): int {
    if c == '{' then 1 else if c == '}' then -1 else 0
  }

  // Every closing brace has an earlier opening one, and none stays open.
  ghost predicate Balanced(s: string) {
    Depth(s) == 0 && forall k :: 0 <= k <= |s| ==> Depth(s[..k]) >= 0
  }

  lemma {:induction false} DepthConcat(a: string, b: string)
    ensures Depth(a + b) == Depth(a) + Depth(b)
  {
    if |b| == 0 {
      assert a + b == a;
    } else {
      DepthConcat(a, b[..|b| - 1]);
      assert (a + b)[..|a + b| - 1] == a + b[..|b| - 1];
    }
  }

  lemma DepthSnoc(s: string, lo: nat, i: nat)
    requires lo <= i < |s|
    ensures Depth(s[lo..i + 1]) == Depth(s[lo..i]) + Brace(s[i])
  {
    assert s[lo..i + 1][..i - lo] == s[lo..i];
  }

  // ---------------------------------------------------------------- rfind

  predicate MarkAt(s: string, i: nat) {
    i + |MARK| <= |s| && s[i..i + |MARK|] == MARK
  }

  // The last position of the mark up to position n.
  function LastMark(s: string, n: nat): (r: Option<nat>)
    ensures r.None? ==> forall i :: 0 <= i <= n ==> !MarkAt(s, i)
    ensures r.Some? ==> r.value <= n && MarkAt(s, r.value) && forall i :: r.value < i <= n ==> !MarkAt(s, i)
  {
    if MarkAt(s, n) then Some(n)
    else if n == 0 then None
    else LastMark(s, n - 1)
  }

  // ---------------------------------------------------------------- the loop

  // The brace at j closes the box that starts at lo.
  predicate ClosesAt(s: string, lo: nat, j: nat) {
    lo <= j < |s| && s[j] == '}' && Depth(s[lo..j + 1]) == 0
  }

  // The first position from i on that closes the box.
  function FirstClose(s: string, lo: nat, i: nat): (r: Option<nat>)
    ensures r.None? ==> forall j :: i <= j < |s| ==> !ClosesAt(s, lo, j)
    ensures r.Some? ==> i <= r.value && ClosesAt(s, lo, r.value) && forall j :: i <= j < r.value ==> !ClosesAt(s, lo, j)
    decreases |s| - i
  {
    if i >= |s| then None
    else if ClosesAt(s, lo, i) then Some(i)
    else FirstClose(s, lo, i + 1)
  }

  // The last box with its content, when there is one and it closes.
  function LastBoxed(s: string): Option<string> {
    var mark := LastMark(s, |s|);
    if mark.None? then None
    else
      var close := FirstClose(s, mark.value, mark.value);
      if close.None? then None else Some(s[mark.value..close.value + 1])
  }

  // There is no mark, or the last one is never closed.
  ghost predicate NoClosedBox(s: string) {
    forall i :: 0 <= i <= |s| && MarkAt(s, i) ==>
      (exists k :: i < k <= |s| && MarkAt(s, k)) || (forall j :: i <= j < |s| ==> !ClosesAt(s, i, j))
  }

  method LastBoxedOnlyString(s: string) returns (r: Option<string>)
    ensures r == LastBoxed(s)
    ensures r.None? <==> NoClosedBox(s)
  {
    var mark := LastMark(s, |s|);
    if mark.None? {
      return None;
    }
    var idx := mark.value;
    var i, open := idx, 0;
    var rightBrace: Option<nat> := None;
    while i < |s| && rightBrace.None?
      invariant idx <= i <= |s|
      invariant rightBrace.None? ==> open == Depth(s[idx..i]) && FirstClose(s, idx, idx) == FirstClose(s, idx, i)
      invariant rightBrace.Some? ==> FirstClose(s, idx, idx) == rightBrace
      decreases |s| - i, rightBrace.None?
    {
      DepthSnoc(s, idx, i);
      if s[i] == '{' {
        open := open + 1;
      }
      if s[i] == '}' {
        open := open - 1;
        if open == 0 {
          rightBrace := Some(i);
        }
      }
      if rightBrace.None? {
        i := i + 1;
      }
    }
    return if rightBrace.Some? then Some(s[idx..rightBrace.value + 1]) else None;
  }

  // ---------------------------------------------------------------- unboxing

  // remove_boxed; None where its assertions fail. The mark does not end with a closing brace, so
  // text that passes both is longer than the mark.
  function RemoveBoxed(s: string): Option<string> {
    if |s| > |MARK| && s[..|MARK|] == MARK && s[|s| - 1] == '}' then Some(s[|MARK|..|s| - 1]) else None
  }

  // What is extracted can always be unboxed, and its content is balanced.
  lemma ExtractedUnboxes(s: string)
    requires LastBoxed(s).Some?
    ensures RemoveBoxed(LastBoxed(s).value).Some? && Balanced(RemoveBoxed(LastBoxed(s).value).value)
  {
    var lo := LastMark(s, |s|).value;
    var close := FirstClose(s, lo, lo).value;
    hide Depth, LastMark, FirstClose, Brace;
    BoxIsLong(s, lo, close);
    BoxShape(s, lo, close);
    var content := s[lo + |MARK|..close];
    forall k | 0 <= k <= |content| ensures Depth(content[..k]) >= 0 && (k == |content| ==> Depth(content[..k]) == 0) {
      ContentDepth(s, lo, close, k);
    }
    assert content[..|content|] == content;
  }

  lemma UnboxedText(s: string)
    requires RemoveBoxed(s).Some?
    ensures s == "\\boxed{" + RemoveBoxed(s).value + "}"
  {
    assert s == s[..|MARK|] + s[|MARK|..|s| - 1] + [s[|s| - 1]];
  }

  lemma BoxShape(s: string, lo: nat, close: nat)
    requires MarkAt(s, lo) && ClosesAt(s, lo, close) && close >= lo + |MARK|
    ensures RemoveBoxed(s[lo..close + 1]) == Some(s[lo + |MARK|..close])
  {
    hide Depth;
    var box := s[lo..close + 1];
    assert box[..|MARK|] == s[lo..lo + |MARK|];
    assert box[|MARK|..|box| - 1] == s[lo + |MARK|..close];
  }

  lemma ContentDepth(s: string, lo: nat, close: nat, k: nat)
    requires MarkAt(s, lo) && ClosesAt(s, lo, close) && lo + |MARK| + k <= close
    requires forall j :: lo <= j < close ==> !ClosesAt(s, lo, j)
    ensures Depth(s[lo + |MARK|..close][..k]) >= 0
    ensures lo + |MARK| + k == close ==> Depth(s[lo + |MARK|..close][..k]) == 0
  {
    PrefixStaysOpen(s, lo, close, |MARK| + k);
    MarkDepth();
    DepthSnoc(s, lo, close);
    hide Depth;
    assert s[lo..lo + |MARK| + k] == MARK + s[lo + |MARK|..close][..k];
    DepthConcat(MARK, s[lo + |MARK|..close][..k]);
  }

  lemma BoxIsLong(s: string, lo: nat, close: nat)
    requires MarkAt(s, lo) && ClosesAt(s, lo, close)
    ensures close >= lo + |MARK|
  {
    if close < lo + |MARK| {
      NoClosingInMark(s, lo, close);
    }
  }

  lemma NoClosingInMark(s: string, lo: nat, j: nat)
    requires MarkAt(s, lo) && lo <= j < lo + |MARK|
    ensures s[j] != '}'
  {
    assert s[j] == s[lo..lo + |MARK|][j - lo] == MARK[j - lo];
  }

  // Before its closing brace a box has at least one open brace.
  lemma {:induction false} PrefixStaysOpen(s: string, lo: nat, close: nat, k: nat)
    requires MarkAt(s, lo) && ClosesAt(s, lo, close) && |MARK| <= k <= close - lo
    requires forall j :: lo <= j < close ==> !ClosesAt(s, lo, j)
    ensures Depth(s[lo..lo + k]) >= 1
  {
    if k == |MARK| {
      MarkDepth();
    } else {
      PrefixStaysOpen(s, lo, close, k - 1);
      DepthSnoc(s, lo, lo + k - 1);
      assert !ClosesAt(s, lo, lo + k - 1);
    }
  }

  lemma MarkDepth()
    ensures Depth(MARK) == 1
    ensures forall k :: 0 <= k < |MARK| ==> Depth(MARK[..k]) == 0
  {
    assert MARK == ['\\', 'b', 'o', 'x', 'e', 'd', '{'];
    forall k | 0 <= k <= |MARK| ensures Depth(MARK[..k]) == if k == |MARK| then 1 else 0 {
      PrefixDepth(k);
    }
    assert MARK[..|MARK|] == MARK;
  }

  lemma {:induction false} PrefixDepth(k: nat)
    requires k <= |MARK|
    ensures Depth(MARK[..k]) == if k == |MARK| then 1 else 0
  {
    if k > 0 {
      PrefixDepth(k - 1);
      assert MARK[..k][..k - 1] == MARK[..k - 1];
    }
  }

  // ---------------------------------------------------------------- round trip

  function Boxed(content: string): string {
    MARK + content + "}"
  }

  lemma BoxedDepth(content: string, k: nat)
    requires Balanced(content) && 0 < k <= |Boxed(content)|
    ensures k < |Boxed(content)| && Boxed(content)[k - 1] == '}' ==> Depth(Boxed(content)[..k]) != 0
    ensures k == |Boxed(content)| ==> Depth(Boxed(content)[..k]) == 0
  {
    var box := Boxed(content);
    MarkDepth();
    if k <= |MARK| {
      assert box[k - 1] == MARK[k - 1];
    } else if k < |box| {
      assert box[..k] == MARK + content[..k - |MARK|];
      DepthConcat(MARK, content[..k - |MARK|]);
    } else {
      assert box[..k] == (MARK + content) + "}";
      DepthConcat(MARK, content);
      DepthConcat(MARK + content, "}");
      assert "}"[..0] == "";
    }
  }

  // No mark starts after position n.
  ghost predicate NoMarkAfter(s: string, n: nat) {
    forall i :: n < i <= |s| ==> !MarkAt(s, i)
  }

  // Extracting finds a balanced box that no later mark follows, and unboxing it gives the content.
  lemma BoxRoundTrip(before: string, content: string, after: string)
    requires Balanced(content) && NoMarkAfter(before + Boxed(content) + after, |before|)
    ensures LastBoxed(before + Boxed(content) + after) == Some(Boxed(content))
    ensures RemoveBoxed(Boxed(content)) == Some(content)
    ensures Boxed(content) == "\\boxed{" + content + "}"
  {
    var s, lo := before + Boxed(content) + after, |before|;
    var box := Boxed(content);
    var end := lo + |box| - 1;
    assert box == "\\boxed{" + content + "}";
    hide Depth, Balanced, Boxed;
    BoxedShape(content);
    assert s[lo..lo + |MARK|] == box[..|MARK|];
    assert MarkAt(s, lo);
    forall j | lo <= j <= end ensures ClosesAt(s, lo, j) <==> j == end {
      assert s[lo..j + 1] == box[..j + 1 - lo];
      assert s[j] == box[j - lo];
      BoxedDepth(content, j + 1 - lo);
    }
    assert LastMark(s, |s|) == Some(lo);
    assert ClosesAt(s, lo, end);
    assert s[lo..end + 1] == box;
  }

  lemma BoxedShape(content: string)
    ensures |Boxed(content)| == |MARK| + |content| + 1
    ensures Boxed(content)[..|MARK|] == MARK && Boxed(content)[|Boxed(content)| - 1] == '}'
    ensures Boxed(content)[|MARK|..|Boxed(content)| - 1] == content
  {
    var box := Boxed(content);
    assert box == (MARK + content) + "}";
    assert box[..|box| - 1] == MARK + content;
    assert box[|MARK|..|box| - 1] == (MARK + content)[|MARK|..];
  }

  // ---------------------------------------------------------------- the strict check

  const WINDOW := 100

  // Python's s[start:]: a negative start counts from the end, and slices are cut to the string.
  function SliceFrom(s: string, start: int): (r: string)
    ensures |r| <= |s| && r == s[|s| - |r|..]
    ensures start >= 0 ==> |r| == (if start < |s| then |s| - start else 0)
    ensures start < 0 ==> |r| == (if -start < |s| then -start else |s|)
  {
    if start < 0 then s[if |s| + start < 0 then 0 else |s| + start..]
    else s[if start > |s| then |s| else start..]
  }

  // The score and the extracted answer; None where the assertion on the indices fails.
  method IsCorrectStrictBox(pred: string, gt: string, pauseTokens: Option<seq<int>>)
    returns (r: Option<(int, Option<string>)>)
    ensures r.Some? <==> pauseTokens.None? || |pauseTokens.value| == 4
    ensures r.Some? ==>
              var part := SliceFrom(pred, if pauseTokens.Some? then pauseTokens.value[3] - 100 else -100);
              && r.value == StrictBox(part, gt)
              && (r.value.1.None? <==> NoClosedBox(part))
              && (r.value.1.Some? ==> LastBoxed(part) == Some("\\boxed{" + r.value.1.value + "}"))
              && r.value.0 == if r.value.1 == Some(gt) then 1 else -1
  {
    var part := SliceFrom(pred, -WINDOW);
    if pauseTokens.Some? {
      if |pauseTokens.value| != 4 {
        return None;
      }
      part := SliceFrom(pred, pauseTokens.value[3] - WINDOW);
    }
    var boxedPred := LastBoxedOnlyString(part);
    var extracted: Option<string> := None;
    if boxedPred.Some? {
      ExtractedUnboxes(part);
      extracted := RemoveBoxed(boxedPred.value);
      UnboxedText(boxedPred.value);
    }
    return Some((if extracted == Some(gt) then 1 else -1, extracted));
  }

  function StrictBox(part: string, gt: string): (r: (int, Option<string>))
    ensures r.0 == 1 <==> r.1 == Some(gt)
    ensures r.0 == 1 || r.0 == -1
  {
    var boxed := LastBoxed(part);
    var extracted := if boxed.Some? then RemoveBoxed(boxed.value) else None;
    (if extracted == Some(gt) then 1 else -1, extracted)
  }

  // Marks of a suffix are marks of the whole.
  lemma SuffixMark(s: string, n: nat, i: nat)
    requires n <= |s| && MarkAt(s[n..], i)
    ensures MarkAt(s, n + i)
  {
    assert s[n..][i..i + |MARK|] == s[n + i..n + i + |MARK|];
  }

  // A response whose last box holds the balanced ground truth scores 1 exactly when that box starts
  // within the last hundred characters.
  lemma StrictBoxWindow(before: string, gt: string, after: string)
    requires Balanced(gt) && NoMarkAfter(before + Boxed(gt) + after, |before|)
    ensures StrictBox(SliceFrom(before + Boxed(gt) + after, -100), gt).0 == 1
       <==> |Boxed(gt)| + |after| <= 100
  {
    var s := before + Boxed(gt) + after;
    var n := if |s| <= WINDOW then 0 else |s| - WINDOW;
    var part := SliceFrom(s, -WINDOW);
    assert part == s[n..];
    hide Balanced, Boxed, StrictBox, LastBoxed, SliceFrom;
    if n <= |before| {
      InWindow(before, gt, after, n);
    } else {
      PastWindow(before, gt, after, n);
    }
  }

  lemma InWindow(before: string, gt: string, after: string, n: nat)
    requires Balanced(gt) && NoMarkAfter(before + Boxed(gt) + after, |before|) && n <= |before|
    ensures StrictBox((before + Boxed(gt) + after)[n..], gt).0 == 1
  {
    hide Balanced, Boxed, LastBoxed;
    var s := before + Boxed(gt) + after;
    var part := before[n..] + Boxed(gt) + after;
    assert s[n..] == part;
    forall i | |before[n..]| < i <= |part| ensures !MarkAt(part, i) {
      if MarkAt(part, i) {
        SuffixMark(s, n, i);
      }
    }
    BoxRoundTrip(before[n..], gt, after);
  }

  lemma PastWindow(before: string, gt: string, after: string, n: nat)
    requires NoMarkAfter(before + Boxed(gt) + after, |before|)
    requires |before| < n <= |before + Boxed(gt) + after|
    ensures StrictBox((before + Boxed(gt) + after)[n..], gt).0 == -1
  {
    hide Boxed;
    var s := before + Boxed(gt) + after;
    var part := s[n..];
    forall i | 0 <= i <= |part| ensures !MarkAt(part, i) {
      if MarkAt(part, i) {
        SuffixMark(s, n, i);
      }
    }
  }
}
