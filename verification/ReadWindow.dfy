/** The line windows of `read_file` in `backend/builtin_tools.py`, and reading a file by following `next_offset`. */
module ReadWindow {
  import opened Common

  const MAX_READ_LINES := 2_000
  const MAX_READ_BYTES := 8_000
  const DEFAULT_READ_LINES := 2_000
  const MAX_COMPLETE_PROGRAMMATIC_BYTES := 1_000_000
  const MAX_COMPLETE_ARTIFACT_BYTES := 16_000_000

  // ---- text and bytes -------------------------------------------------------------------------------

  /** Bytes of one character in UTF-8. */
  function Width(c: char): (n: nat)
    ensures 1 <= n <= 4
  {
    if c as int < 0x80 then 1 else if c as int < 0x800 then 2 else if c as int < 0x10000 then 3 else 4
  }

  /** Bytes of the first `n` characters. */
  function BytesTo(s: string, n: nat): nat
    requires n <= |s|
  {
    if n == 0 then 0 else BytesTo(s, n - 1) + Width(s[n - 1])
  }

  function Bytes(s: string): nat {
    BytesTo(s, |s|)
  }

  /** How many of the first `n` characters fit `budget` bytes. */
  function Fitting(s: string, n: nat, budget: nat): (k: nat)
    requires n <= |s|
    ensures k <= n && BytesTo(s, k) <= budget
    ensures k < n ==> BytesTo(s, k + 1) > budget
  {
    if BytesTo(s, n) <= budget then n else Fitting(s, n - 1, budget)
  }

  /** The longest prefix of `s` within `budget` bytes. */
  function Prefix(s: string, budget: nat): string {
    s[..Fitting(s, |s|, budget)]
  }

  lemma {:induction false} BytesOfPrefix(s: string, k: nat, n: nat)
    requires n <= k <= |s|
    ensures BytesTo(s[..k], n) == BytesTo(s, n)
  {
    if n > 0 {
      BytesOfPrefix(s, k, n - 1);
    }
  }

  lemma PrefixIsLongest(s: string, budget: nat)
    ensures Prefix(s, budget) <= s && Bytes(Prefix(s, budget)) <= budget
    ensures Bytes(s) <= budget ==> Prefix(s, budget) == s
    ensures Bytes(s) > budget ==>
              |Prefix(s, budget)| < |s| && BytesTo(s, |Prefix(s, budget)| + 1) > budget
  {
    var k := Fitting(s, |s|, budget);
    BytesOfPrefix(s, k, k);
  }

  // ---- lines ------------------------------------------------------------------------------------------

  /** A line, its bytes, and what a window can show of it. */
  datatype Line = Line(text: string, bytes: nat, clip: string)

  function Measured(s: string): Line {
    Line(s, Bytes(s), Prefix(s, MAX_READ_BYTES))
  }

  predicate Short(line: Line) {
    line.bytes <= MAX_READ_BYTES
  }

  /** Only a line over the byte ceiling is clipped. */
  predicate Proper(line: Line) {
    |line.text| > 0 && if Short(line) then line.clip == line.text else |line.clip| < |line.text|
  }

  predicate AllProper(lines: seq<Line>) {
    forall i :: 0 <= i < |lines| ==> ProperAt(lines, i)
  }

  predicate ProperAt(lines: seq<Line>, i: nat)
    requires i < |lines|
  {
    Proper(lines[i])
  }

  /** Characters up to and with the first line break: LF, CR LF or a CR alone. */
  function FirstLine(text: string): (n: nat)
    requires text != ""
    ensures 1 <= n <= |text|
  {
    if text[0] == '\n' then 1
    else if text[0] == '\r' then (if |text| > 1 && text[1] == '\n' then 2 else 1)
    else if |text| == 1 then 1
    else 1 + FirstLine(text[1..])
  }

  /** The text cut after each line break, the breaks kept. */
  function Lines(text: string): seq<Line>
    decreases |text|
  {
    if text == "" then [] else [Measured(text[..FirstLine(text)])] + Lines(text[FirstLine(text)..])
  }

  /** The lines from `i` up to `j`, joined. */
  function Join(lines: seq<Line>, i: nat, j: nat): string
    requires i <= j <= |lines|
    decreases j
  {
    if i == j then "" else Join(lines, i, j - 1) + lines[j - 1].text
  }

  /** Their bytes. */
  function Size(lines: seq<Line>, i: nat, j: nat): nat
    requires i <= j <= |lines|
    decreases j
  {
    if i == j then 0 else Size(lines, i, j - 1) + lines[j - 1].bytes
  }

  /** The lines from `i` up to `j`, each clipped, joined. */
  function Shown(lines: seq<Line>, i: nat, j: nat): string
    requires i <= j <= |lines|
    decreases j
  {
    if i == j then "" else Shown(lines, i, j - 1) + lines[j - 1].clip
  }

  function JoinAll(parts: seq<string>, n: nat): string
    requires n <= |parts|
  {
    if n == 0 then "" else JoinAll(parts, n - 1) + parts[n - 1]
  }

  lemma {:induction false} JoinFirst(line: Line, lines: seq<Line>, j: nat)
    requires j <= |lines|
    ensures Join([line] + lines, 0, j + 1) == line.text + Join(lines, 0, j)
  {
    if j > 0 {
      JoinFirst(line, lines, j - 1);
    }
  }

  lemma {:induction false} JoinSplits(lines: seq<Line>, i: nat, j: nat, k: nat)
    requires i <= j <= k <= |lines|
    ensures Join(lines, i, k) == Join(lines, i, j) + Join(lines, j, k)
    decreases k
  {
    if j < k {
      JoinSplits(lines, i, j, k - 1);
    }
  }

  lemma {:induction false} ShownSplits(lines: seq<Line>, i: nat, j: nat, k: nat)
    requires i <= j <= k <= |lines|
    ensures Shown(lines, i, k) == Shown(lines, i, j) + Shown(lines, j, k)
    decreases k
  {
    if j < k {
      ShownSplits(lines, i, j, k - 1);
    }
  }

  lemma {:induction false} JoinOfClips(selected: seq<string>, lines: seq<Line>, i: nat, n: nat)
    requires n <= |selected| && i + n <= |lines|
    requires forall k :: 0 <= k < n ==> selected[k] == lines[i + k].clip
    ensures JoinAll(selected, n) == Shown(lines, i, i + n)
    decreases n
  {
    if n > 0 {
      JoinOfClips(selected, lines, i, n - 1);
      assert selected[n - 1] == lines[i + (n - 1)].clip;
    }
  }

  lemma MeasuredIsProper(s: string)
    requires |s| > 0
    ensures Proper(Measured(s)) && Measured(s).text == s
  {
    PrefixIsLongest(s, MAX_READ_BYTES);
  }

  lemma ProperFirst(line: Line, rest: seq<Line>)
    requires Proper(line) && AllProper(rest)
    ensures AllProper([line] + rest)
  {
    forall i | 0 <= i <= |rest| ensures ProperAt([line] + rest, i) {
      assert i > 0 ==> ProperAt(rest, i - 1);
    }
  }

  lemma NextLine(text: string) returns (line: Line, tail: string)
    requires text != ""
    ensures Lines(text) == [line] + Lines(tail)
    ensures Proper(line) && line.text + tail == text && |tail| < |text|
  {
    var n := FirstLine(text);
    line, tail := Measured(text[..n]), text[n..];
    MeasuredIsProper(text[..n]);
  }

  /** Cutting a text into lines loses nothing, and no line is empty. */
  lemma {:induction false} LinesCover(text: string)
    ensures AllProper(Lines(text)) && Join(Lines(text), 0, |Lines(text)|) == text
    decreases |text|
  {
    if text != "" {
      var line, tail := NextLine(text);
      LinesCover(tail);
      ProperFirst(line, Lines(tail));
      JoinFirst(line, Lines(tail), |Lines(tail)|);
    }
  }

  lemma {:induction false} SizeBounds(lines: seq<Line>, i: nat, j: nat, k: nat)
    requires i <= k < j <= |lines|
    ensures lines[k].bytes <= Size(lines, i, j)
    decreases j
  {
    if k < j - 1 {
      SizeBounds(lines, i, j - 1, k);
    }
  }

  lemma {:induction false} ShortIsKept(lines: seq<Line>, i: nat, j: nat)
    requires AllProper(lines) && i <= j <= |lines| && forall k :: i <= k < j ==> Short(lines[k])
    ensures Shown(lines, i, j) == Join(lines, i, j)
    decreases j
  {
    if i < j {
      ShortIsKept(lines, i, j - 1);
      assert ProperAt(lines, j - 1);
    }
  }

  lemma {:induction false} ShownIsNoLonger(lines: seq<Line>, i: nat, j: nat)
    requires AllProper(lines) && i <= j <= |lines|
    ensures |Shown(lines, i, j)| <= |Join(lines, i, j)|
    decreases j
  {
    if i < j {
      assert ProperAt(lines, j - 1);
      ShownIsNoLonger(lines, i, j - 1);
    }
  }

  lemma {:induction false} LongIsCut(lines: seq<Line>, i: nat, j: nat, k: nat)
    requires AllProper(lines) && i <= k < j <= |lines| && !Short(lines[k])
    ensures |Shown(lines, i, j)| < |Join(lines, i, j)|
    decreases j
  {
    assert ProperAt(lines, j - 1);
    if k < j - 1 {
      LongIsCut(lines, i, j - 1, k);
    } else {
      ShownIsNoLonger(lines, i, j - 1);
    }
  }

  /** What is shown joins to the text exactly when no line is too long. */
  lemma ShownIsWhole(lines: seq<Line>, i: nat, j: nat)
    requires AllProper(lines) && i <= j <= |lines|
    ensures Shown(lines, i, j) == Join(lines, i, j) <==> forall k :: i <= k < j ==> Short(lines[k])
  {
    if k :| i <= k < j && !Short(lines[k]) {
      LongIsCut(lines, i, j, k);
    } else {
      ShortIsKept(lines, i, j);
    }
  }

  // ---- one window -----------------------------------------------------------------------------------

  /** A refusal, an explicit window with lines numbered from 1, or a whole file, inline or as an artifact. */
  datatype Read =
    | Refused
    | Whole(text: string, inline: bool)
    | Window(text: string, first: nat, end: nat, total: nat, complete: bool, next: Option<nat>)

  /** The lines from `i` up to `j` are as many as both limits allow, and at least one. */
  ghost predicate Greedy(lines: seq<Line>, i: nat, j: nat, limit: nat) {
    && i < j <= |lines| && j - i <= limit
    && (Size(lines, i, j) <= MAX_READ_BYTES || j == i + 1)
    && (j - i == limit || j == |lines| || Size(lines, i, j + 1) > MAX_READ_BYTES)
  }

  lemma {:induction false} SizeGrows(lines: seq<Line>, i: nat, j: nat, k: nat)
    requires i <= j <= k <= |lines|
    ensures Size(lines, i, j) <= Size(lines, i, k)
    decreases k
  {
    if j < k {
      SizeGrows(lines, i, j, k - 1);
    }
  }

  /** No other number of lines fits both limits so well. */
  lemma GreedyIsUnique(lines: seq<Line>, i: nat, j: nat, k: nat, limit: nat)
    requires Greedy(lines, i, j, limit) && Greedy(lines, i, k, limit)
    ensures j == k
  {
    if j < k {
      SizeGrows(lines, i, j + 1, k);
    } else if k < j {
      SizeGrows(lines, i, k + 1, j);
    }
  }

  /** The selection loop over all lines: the text shown, its last line, and whether bytes cut the window. */
  method Select(lines: seq<Line>, offset: nat, limit: nat) returns (text: string, end: nat, byteLimited: bool)
    requires AllProper(lines) && 1 <= offset <= |lines| && 1 <= limit
    ensures Greedy(lines, offset - 1, end, limit) && text == Shown(lines, offset - 1, end)
    ensures end == |lines| ==> (byteLimited <==> !Short(lines[offset - 1]))
  {
    var selected: seq<string> := [];
    var selectedBytes, oversized, from := 0, false, offset - 1;
    byteLimited := false;
    var i := 0;
    while i < |lines|
      invariant 0 <= i <= |lines| && from + |selected| <= |lines| && |selected| <= limit
      invariant i <= from ==> |selected| == 0 && !byteLimited && !oversized && selectedBytes == 0
      invariant i > from ==> 1 <= |selected| <= i - from
      invariant !oversized ==> selectedBytes == Size(lines, from, from + |selected|) <= MAX_READ_BYTES
      invariant forall k :: 0 <= k < |selected| ==> selected[k] == lines[from + k].clip
      invariant i > from && !byteLimited && |selected| < limit ==> from + |selected| == i
      invariant byteLimited && !oversized ==>
                  from + |selected| < |lines| && Size(lines, from, from + |selected| + 1) > MAX_READ_BYTES
      invariant oversized ==> byteLimited && |selected| == 1
      invariant oversized <==> i > from && !Short(lines[from])
    {
      var line := lines[i];
      if i + 1 < offset || |selected| >= limit || byteLimited {
        i := i + 1;
        continue;
      }
      assert i == from + |selected| && ProperAt(lines, i);
      if selectedBytes + line.bytes > MAX_READ_BYTES {
        if |selected| == 0 {
          selected := [line.clip];
          oversized := true;
        }
        byteLimited := true;
      } else {
        selected := selected + [line.text];
        selectedBytes := selectedBytes + line.bytes;
      }
      i := i + 1;
    }
    end := from + |selected|;
    JoinOfClips(selected, lines, from, |selected|);
    text := JoinAll(selected, |selected|);
  }

  /** Does the requested window begin in this file? The empty file has the one window at line 1. */
  predicate Begins(lines: seq<Line>, offset: int) {
    1 <= offset && (offset <= |lines| || offset == 1)
  }

  /** The line limit in force: zero and nothing mean the default. */
  function LimitOf(limit: Option<int>): (n: nat)
    ensures 1 <= n <= MAX_READ_LINES
  {
    var asked := if limit.None? || limit.value == 0 then DEFAULT_READ_LINES else limit.value;
    if asked > MAX_READ_LINES then MAX_READ_LINES else if asked < 1 then 1 else asked
  }

  function OffsetOf(offset: Option<int>): int {
    if offset.None? || offset.value == 0 then 1 else offset.value
  }

  lemma PartIsShorter(lines: seq<Line>, j: nat)
    requires AllProper(lines) && j < |lines|
    ensures |Join(lines, 0, j)| < |Join(lines, 0, |lines|)|
  {
    JoinSplits(lines, 0, j, |lines|);
    assert ProperAt(lines, |lines| - 1);
    assert Join(lines, j, |lines|) == Join(lines, j, |lines| - 1) + lines[|lines| - 1].text;
  }

  /** A window from line 1 shows everything exactly when it ends at the last line and no line of it was cut. */
  lemma WholeOnlyWhenComplete(lines: seq<Line>, j: nat, limit: nat)
    requires AllProper(lines) && Greedy(lines, 0, j, limit)
    ensures Shown(lines, 0, j) == Join(lines, 0, |lines|) <==> j == |lines| && Short(lines[0])
  {
    ShownIsNoLonger(lines, 0, j);
    ShownIsWhole(lines, 0, j);
    if j < |lines| {
      PartIsShorter(lines, j);
    } else if Size(lines, 0, j) <= MAX_READ_BYTES {
      forall k | 0 <= k < j ensures Short(lines[k]) {
        SizeBounds(lines, 0, j, k);
      }
    }
  }

  /** What `r` must be for a window of these lines. */
  ghost predicate Answers(lines: seq<Line>, offset: int, limit: nat, r: Read) {
    && (if Begins(lines, offset) then r.Window? else r.Refused?)
    && (r.Window? ==>
          && r.first == offset && r.total == |lines| && (r.next == if r.end >= r.total then None else Some(r.end + 1))
          && (r.complete <==> r.first == 1 && r.text == Join(lines, 0, |lines|))
          && (if |lines| == 0 then r.text == "" && r.end == 0
              else r.end >= r.first && Greedy(lines, r.first - 1, r.end, limit)
                   && r.text == Shown(lines, r.first - 1, r.end)))
  }

  method ReadLines(lines: seq<Line>, offset: int, limit: nat) returns (r: Read)
    requires AllProper(lines) && limit >= 1
    ensures Answers(lines, offset, limit, r)
  {
    if offset < 1 { return Refused; }
    if |lines| == 0 {
      return if offset == 1 then Window("", 1, 0, 0, true, None) else Refused;
    }
    if offset > |lines| { return Refused; }
    var text, end, byteLimited := Select(lines, offset, limit);
    var complete := offset == 1 && end == |lines| && !byteLimited;
    if offset == 1 {
      WholeOnlyWhenComplete(lines, end, limit);
    }
    r := Window(text, offset, end, |lines|, complete, if end >= |lines| then None else Some(end + 1));
  }

  // ---- the byte ceiling ----------------------------------------------------------------------------------

  predicate AllMeasured(lines: seq<Line>) {
    forall i :: 0 <= i < |lines| ==> lines[i] == Measured(lines[i].text)
  }

  lemma {:induction false} LinesMeasured(text: string)
    ensures AllMeasured(Lines(text))
    decreases |text|
  {
    if text != "" {
      LinesMeasured(text[FirstLine(text)..]);
    }
  }

  lemma {:induction false} BytesAdd(a: string, b: string, n: nat)
    requires n <= |b|
    ensures BytesTo(a + b, |a| + n) == Bytes(a) + BytesTo(b, n)
  {
    if n == 0 {
      assert (a + b)[..|a|] == a;
      BytesOfPrefix(a + b, |a|, |a|);
    } else {
      BytesAdd(a, b, n - 1);
    }
  }

  lemma {:induction false} ShownBytes(lines: seq<Line>, i: nat, j: nat)
    requires AllMeasured(lines) && i <= j <= |lines|
    ensures Bytes(Shown(lines, i, j)) <= Size(lines, i, j)
    decreases j
  {
    if i < j {
      ShownBytes(lines, i, j - 1);
      var before, clip := Shown(lines, i, j - 1), lines[j - 1].clip;
      BytesAdd(before, clip, |clip|);
      PrefixIsLongest(lines[j - 1].text, MAX_READ_BYTES);
      assert lines[j - 1] == Measured(lines[j - 1].text);
    }
  }

  /** No window shows more bytes than the ceiling. */
  lemma WindowFits(lines: seq<Line>, i: nat, j: nat, limit: nat)
    requires AllMeasured(lines) && Greedy(lines, i, j, limit)
    ensures Bytes(Shown(lines, i, j)) <= MAX_READ_BYTES
  {
    if Size(lines, i, j) <= MAX_READ_BYTES {
      ShownBytes(lines, i, j);
    } else {
      PrefixIsLongest(lines[i].text, MAX_READ_BYTES);
      assert Shown(lines, i, i) == "";
      assert Shown(lines, i, j) == "" + lines[i].clip == lines[i].clip;
      assert lines[i] == Measured(lines[i].text);
    }
  }

  /**
  `read_file` on the decoded text of a file of `rawSize` bytes. With an offset or a limit it answers with a
  window; with neither it never cuts: the value is the whole text, or there is none. A file that changed while it
  was read is refused.
  */
  method ReadFile(text: string, rawSize: nat, changed: bool, offset: Option<int>, limit: Option<int>)
    returns (r: Read)
    ensures changed ==> r == Refused
    ensures !changed && (offset.Some? || limit.Some?) ==> Answers(Lines(text), OffsetOf(offset), LimitOf(limit), r)
    ensures r.Window? ==> Bytes(r.text) <= MAX_READ_BYTES && (r.complete <==> r.first == 1 && r.text == text)
    ensures !changed && offset.None? && limit.None? ==>
              if rawSize <= MAX_COMPLETE_ARTIFACT_BYTES && Bytes(text) <= MAX_COMPLETE_ARTIFACT_BYTES
              then r == Whole(text, Bytes(text) <= MAX_COMPLETE_PROGRAMMATIC_BYTES)
              else r == Refused
  {
    var whole := offset.None? && limit.None?;
    if whole && rawSize > MAX_COMPLETE_ARTIFACT_BYTES { return Refused; }
    if changed { return Refused; }
    if whole {
      if Bytes(text) > MAX_COMPLETE_ARTIFACT_BYTES { return Refused; }
      return Whole(text, Bytes(text) <= MAX_COMPLETE_PROGRAMMATIC_BYTES);
    }
    r := ReadExplicit(text, OffsetOf(offset), LimitOf(limit));
  }

  method ReadExplicit(text: string, offset: int, limit: nat) returns (r: Read)
    requires limit >= 1
    ensures Answers(Lines(text), offset, limit, r)
    ensures r.Window? ==> Bytes(r.text) <= MAX_READ_BYTES && (r.complete <==> r.first == 1 && r.text == text)
  {
    var lines := Lines(text);
    LinesCover(text);
    r := ReadLines(lines, offset, limit);
    AnswersFit(text, offset, limit, r);
  }

  lemma AnswersFit(text: string, offset: int, limit: nat, r: Read)
    requires Answers(Lines(text), offset, limit, r)
    ensures r.Window? ==> Bytes(r.text) <= MAX_READ_BYTES
  {
    LinesMeasured(text);
    if r.Window? && |Lines(text)| > 0 {
      WindowFits(Lines(text), r.first - 1, r.end, limit);
    }
  }

  // ---- following next_offset ---------------------------------------------------------------------------

  /** Page `i` is a window that answers at its limit, where page `i - 1` said the next one begins. */
  ghost predicate IsPage(lines: seq<Line>, limits: nat -> Option<int>, pages: seq<Read>, i: nat)
    requires i < |pages|
  {
    && pages[i].Window? && Answers(lines, pages[i].first, LimitOf(limits(i)), pages[i])
    && (if i == 0 then pages[i].first == 1 else pages[i - 1].Window? && pages[i - 1].next == Some(pages[i].first))
  }

  /** A reading from line 1 in which every page follows the one before. */
  ghost predicate Follows(lines: seq<Line>, limits: nat -> Option<int>, pages: seq<Read>) {
    forall i :: 0 <= i < |pages| ==> IsPage(lines, limits, pages, i)
  }

  /** The texts of the first `n` pages, joined. */
  function PageTexts(pages: seq<Read>, n: nat): string
    requires n <= |pages| && forall i :: 0 <= i < |pages| ==> pages[i].Window?
  {
    if n == 0 then "" else PageTexts(pages, n - 1) + pages[n - 1].text
  }

  /**
  Any reading from line 1 that follows `next_offset`, whatever the limits: `n` pages show the lines up to
  the last page's end, every page at least one line, and each line once.
  */
  lemma {:induction false} PagesShowLines(lines: seq<Line>, limits: nat -> Option<int>, pages: seq<Read>, n: nat)
    requires AllProper(lines) && |lines| > 0 && Follows(lines, limits, pages) && n <= |pages|
    requires forall i :: 0 <= i < |pages| ==> pages[i].Window?
    ensures n > 0 ==> n <= pages[n - 1].end <= |lines|
    ensures n > 0 ==> pages[n - 1].next == if pages[n - 1].end < |lines| then Some(pages[n - 1].end + 1) else None
    ensures PageTexts(pages, n) == Shown(lines, 0, if n == 0 then 0 else pages[n - 1].end)
  {
    if n > 0 {
      PagesShowLines(lines, limits, pages, n - 1);
      assert IsPage(lines, limits, pages, n - 1);
      ShownSplits(lines, 0, pages[n - 1].first - 1, pages[n - 1].end);
    }
  }

  lemma FollowsAppend(lines: seq<Line>, limits: nat -> Option<int>, pages: seq<Read>, page: Read)
    requires Follows(lines, limits, pages)
    requires IsPage(lines, limits, pages + [page], |pages|)
    ensures Follows(lines, limits, pages + [page])
  {
    var more := pages + [page];
    forall i | 0 <= i < |more| ensures IsPage(lines, limits, more, i) {
      assert i < |pages| ==> IsPage(lines, limits, pages, i);
    }
  }

  /** The empty file has one page. */
  lemma EmptyReading(limits: nat -> Option<int>, pages: seq<Read>)
    requires Follows([], limits, pages) && |pages| > 0
    ensures |pages| == 1 && pages[0].Window? && pages[0].text == ""
  {
    forall i | 0 <= i < |pages|
      ensures IsPage([], limits, pages, i) && pages[i].next.None? && pages[i].text == ""
    {
      assert IsPage([], limits, pages, i);
    }
    assert |pages| > 1 ==> IsPage([], limits, pages, 1);
  }

  /** A finished reading shows every line once, and the whole text exactly when no line is too long. */
  lemma FinishedReading(text: string, limits: nat -> Option<int>, pages: seq<Read>)
    requires Follows(Lines(text), limits, pages) && |pages| > 0 && pages[|pages| - 1].Window?
    requires pages[|pages| - 1].next.None?
    requires forall i :: 0 <= i < |pages| ==> pages[i].Window?
    ensures |pages| <= |Lines(text)| || (text == "" && |pages| == 1)
    ensures PageTexts(pages, |pages|) == Shown(Lines(text), 0, |Lines(text)|)
    ensures PageTexts(pages, |pages|) == text <==> forall k :: 0 <= k < |Lines(text)| ==> Short(Lines(text)[k])
  {
    var lines := Lines(text);
    LinesCover(text);
    ShownIsWhole(lines, 0, |lines|);
    if text == "" {
      EmptyReading(limits, pages);
      assert PageTexts(pages, 1) == PageTexts(pages, 0) + pages[0].text;
    } else {
      PagesShowLines(lines, limits, pages, |pages|);
    }
  }

  /** The pages so far, and where the next one begins. */
  ghost predicate Reading(text: string, limits: nat -> Option<int>, pages: seq<Read>, offset: Option<nat>, end: nat) {
    && Follows(Lines(text), limits, pages)
    && (forall i :: 0 <= i < |pages| ==> pages[i].Window? && Bytes(pages[i].text) <= MAX_READ_BYTES)
    && (if |pages| == 0 then offset == Some(1) && end == 0
        else offset == pages[|pages| - 1].next && end == pages[|pages| - 1].end)
    && end <= |Lines(text)| && (offset.Some? ==> offset.value == end + 1)
    && (|pages| > 0 && offset.Some? ==> end < |Lines(text)|)
  }

  method NextPage(text: string, rawSize: nat, limits: nat -> Option<int>, pages: seq<Read>, offset: nat, ghost end: nat)
    returns (page: Read)
    requires Reading(text, limits, pages, Some(offset), end)
    ensures page.Window? && Reading(text, limits, pages + [page], page.next, page.end)
    ensures end < page.end || (|Lines(text)| == 0 && page.next.None?)
  {
    page := ReadFile(text, rawSize, false, Some(offset), limits(|pages|));
    assert OffsetOf(Some(offset)) == offset;
    FollowsAppend(Lines(text), limits, pages, page);
  }

  /**
  Reading a file by following `next_offset` from line 1, with any limit at each page: it ends, the pages
  adjoin, none exceeds the byte ceiling, and together they show every line once, clipped only where one
  line exceeds the ceiling. They join to the text exactly when no line does.
  */
  method ReadByPages(text: string, rawSize: nat, limits: nat -> Option<int>) returns (pages: seq<Read>)
    ensures |pages| > 0 && Follows(Lines(text), limits, pages)
    ensures forall i :: 0 <= i < |pages| ==> pages[i].Window? && Bytes(pages[i].text) <= MAX_READ_BYTES
    ensures pages[|pages| - 1].next.None? && (|pages| <= |Lines(text)| || (text == "" && |pages| == 1))
    ensures PageTexts(pages, |pages|) == Shown(Lines(text), 0, |Lines(text)|)
    ensures PageTexts(pages, |pages|) == text <==> forall k :: 0 <= k < |Lines(text)| ==> Short(Lines(text)[k])
  {
    pages := [];
    var offset: Option<nat> := Some(1);
    ghost var end := 0;
    while offset.Some?
      invariant Reading(text, limits, pages, offset, end)
      invariant |pages| == 0 ==> offset.Some?
      decreases offset.Some?, |Lines(text)| - end
    {
      var page := NextPage(text, rawSize, limits, pages, offset.value, end);
      pages, offset, end := pages + [page], page.next, page.end;
    }
    FinishedReading(text, limits, pages);
  }
}
