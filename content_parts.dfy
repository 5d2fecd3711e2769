/** How one message is taken apart for display: its text is split into
    ordered text and code segments on triple-backtick fences (the regular
    expression /```(?:\w*\n)?([\s\S]*?)```/g, used both to collect the code
    blocks and to split the text between them), and for an audio reply the
    one line holding the generated file's path is picked out. */
module ContentParts {
  import opened Util
  import opened Text

  datatype Part = TextPart(value: string) | CodePart(value: string)

  const Fence: string := "```"
  const GeneratedPrefix: string := "/generated/"

  /** A fence starts at index `i` of `s`. */
  predicate FenceAt(s: string, i: nat)
  {
    i + 3 <= |s| && s[i] == '`' && s[i + 1] == '`' && s[i + 2] == '`'
  }

  /** `s` holds a fence somewhere. */
  ghost predicate HasFence(s: string)
  {
    exists q: nat :: FenceAt(s, q)
  }

  /** The first fence at or after `from`. */
  function FindFence(s: string, from: nat): (r: Option<nat>)
    ensures r.Some? ==> from <= r.value && FenceAt(s, r.value)
    decreases |s| - from
  {
    if from + 3 > |s| then None
    else if FenceAt(s, from) then Some(from)
    else FindFence(s, from + 1)
  }

  /** FindFence finds the first fence, and finds none only when there is none. */
  lemma {:induction false} FindFenceFirst(s: string, from: nat)
    ensures var r := FindFence(s, from);
      && (r.Some? ==> forall q: nat :: from <= q < r.value ==> !FenceAt(s, q))
      && (r.None? ==> forall q: nat :: from <= q ==> !FenceAt(s, q))
    decreases |s| - from
  {
    if from + 3 <= |s| && !FenceAt(s, from) {
      FindFenceFirst(s, from + 1);
    }
  }

  /** `\w`: an ASCII letter, digit or underscore. */
  predicate WordChar(c: char)
  {
    ('a' <= c <= 'z') || ('A' <= c <= 'Z') || ('0' <= c <= '9') || c == '_'
  }

  /** The end of the run of word characters that starts at `j`. */
  function WordRun(s: string, j: nat): (k: nat)
    requires j <= |s|
    ensures j <= k <= |s|
    decreases |s| - j
  {
    if j < |s| && WordChar(s[j]) then WordRun(s, j + 1) else j
  }

  lemma {:induction false} WordRunSpec(s: string, j: nat)
    requires j <= |s|
    ensures forall q :: j <= q < WordRun(s, j) ==> WordChar(s[q])
    ensures WordRun(s, j) < |s| ==> !WordChar(s[WordRun(s, j)])
    decreases |s| - j
  {
    if j < |s| && WordChar(s[j]) {
      WordRunSpec(s, j + 1);
    }
  }

  /** Where the code of a fence opened just before `j` begins: after the
      optional language tag `\w*\n`, which is taken only when a newline
      follows the word characters directly. */
  function TagEnd(s: string, j: nat): (e: nat)
    requires j <= |s|
    ensures j <= e <= |s|
  {
    var k := WordRun(s, j);
    if k < |s| && s[k] == '\n' then k + 1 else j
  }

  /** The skipped tag is a language tag and holds no backtick. */
  lemma TagEndSpec(s: string, j: nat)
    requires j <= |s|
    ensures IsTag(s[j..TagEnd(s, j)])
    ensures forall q :: j <= q < TagEnd(s, j) ==> s[q] != '`'
  {
    WordRunSpec(s, j);
  }

  /** A language tag: empty, or word characters followed by one newline. */
  predicate IsTag(t: string)
  {
    t == [] || (t[|t| - 1] == '\n' && forall q :: 0 <= q < |t| - 1 ==> WordChar(t[q]))
  }

  /** One match of the fence expression: the opening fence at `start`, the
      code (the capture group) from `codeStart` to `codeEnd`, and the closing
      fence at `codeEnd`. */
  datatype Match = Match(start: nat, codeStart: nat, codeEnd: nat)

  /** Where the text piece before match `n` begins: at `from`, or just after
      the closing fence of match `n - 1`. */
  function PieceStart(from: nat, ms: seq<Match>, n: nat): nat
    requires n <= |ms|
  {
    if n == 0 then from else ms[n - 1].codeEnd + 3
  }

  /** Where the text piece `n` ends: at match `n`, or at the end of `s`. */
  function PieceEnd(s: string, ms: seq<Match>, n: nat): nat
    requires n <= |ms|
  {
    if n == |ms| then |s| else ms[n].start
  }

  /** The matches lie inside the first `bound` characters, in order,
      without overlapping. */
  predicate Placed(bound: nat, from: nat, ms: seq<Match>)
  {
    && from <= bound
    && (forall n {:trigger PieceStart(from, ms, n)} :: 0 <= n < |ms| ==> PieceStart(from, ms, n) <= ms[n].start)
    && (forall n :: 0 <= n < |ms| ==> ms[n].start + 3 <= ms[n].codeStart <= ms[n].codeEnd && ms[n].codeEnd + 3 <= bound)
  }

  /** The leftmost match of the fence expression at or after `from` (one
      `exec` of the global expression): the first opening fence, its optional
      language tag, and the first closing fence after the tag. */
  function NextMatch(s: string, from: nat): (r: Option<Match>)
    ensures r.Some? ==>
      && from <= r.value.start && r.value.start + 3 <= r.value.codeStart <= r.value.codeEnd
      && r.value.codeEnd + 3 <= |s|
      && FenceAt(s, r.value.start) && FenceAt(s, r.value.codeEnd)
      && r.value.codeStart == TagEnd(s, r.value.start + 3)
  {
    match FindFence(s, from)
    case None => None
    case Some(i) =>
      var j := TagEnd(s, i + 3);
      match FindFence(s, j)
      case None => None
      case Some(k) => Some(Match(i, j, k))
  }

  /** No fence starts between `from` and the match, nor inside its code. */
  lemma NextMatchLeftmost(s: string, from: nat)
    requires NextMatch(s, from).Some?
    ensures var m := NextMatch(s, from).value;
      && (forall q: nat :: from <= q < m.start ==> !FenceAt(s, q))
      && (forall q: nat :: m.codeStart <= q < m.codeEnd ==> !FenceAt(s, q))
  {
    FindFenceFirst(s, from);
    FindFenceFirst(s, NextMatch(s, from).value.codeStart);
  }

  /** There is no next match exactly when no opening fence from `from` on
      is ever closed. */
  lemma NextMatchNone(s: string, from: nat)
    ensures NextMatch(s, from).None? <==>
      forall i: nat :: from <= i && FenceAt(s, i) ==> FindFence(s, TagEnd(s, i + 3)).None?
  {
    FindFenceFirst(s, from);
    match FindFence(s, from)
    case None =>
    case Some(i) =>
      var j := TagEnd(s, i + 3);
      if FindFence(s, j).None? {
        forall i': nat | from <= i' && FenceAt(s, i')
          ensures FindFence(s, TagEnd(s, i' + 3)).None?
        {
          if i' > i {
            UnclosedEndsScan(s, i, i');
          }
        }
      }
  }

  /** `regex.exec` on `s` with the search starting at the given index. */
  function Exec(s: string): (next: nat -> Option<Match>)
    ensures Searches(next, |s|)
  {
    (from: nat) => NextMatch(s, from)
  }

  /** `next` finds matches at or after where it starts, inside the first
      `bound` characters. */
  ghost predicate Searches(next: nat -> Option<Match>, bound: nat)
  {
    forall x: nat :: next(x).Some? ==>
      && x <= next(x).value.start && next(x).value.start + 3 <= next(x).value.codeStart
      && next(x).value.codeStart <= next(x).value.codeEnd && next(x).value.codeEnd + 3 <= bound
  }

  /** Searching again just after each match found, until nothing is found. */
  function Iterate(next: nat -> Option<Match>, bound: nat, from: nat): (ms: seq<Match>)
    requires Searches(next, bound) && from <= bound
    ensures Placed(bound, from, ms)
    decreases bound - from
  {
    match next(from)
    case None => []
    case Some(m) =>
      var rest := Iterate(next, bound, m.codeEnd + 3);
      var ms := [m] + rest;
      assert forall n | 1 <= n < |ms| :: PieceStart(from, ms, n) == PieceStart(m.codeEnd + 3, rest, n - 1);
      ms
  }

  /** Each match of the iteration is what the search finds right after the
      previous one. */
  lemma {:induction false} IterateAreNext(next: nat -> Option<Match>, bound: nat, from: nat, n: nat)
    requires Searches(next, bound) && from <= bound && n < |Iterate(next, bound, from)|
    ensures next(PieceStart(from, Iterate(next, bound, from), n)) == Some(Iterate(next, bound, from)[n])
    decreases n
  {
    if n > 0 {
      var m := next(from).value;
      var rest := Iterate(next, bound, m.codeEnd + 3);
      IterateAreNext(next, bound, m.codeEnd + 3, n - 1);
      PieceStartCons(from, m, rest, n - 1);
      assert Iterate(next, bound, from)[n] == rest[n - 1];
    }
  }

  /** After the last match of the iteration, the search finds nothing. */
  lemma {:induction false} IterateExhaustive(next: nat -> Option<Match>, bound: nat, from: nat)
    requires Searches(next, bound) && from <= bound
    ensures var ms := Iterate(next, bound, from); next(PieceStart(from, ms, |ms|)).None?
    decreases bound - from
  {
    if next(from).Some? {
      var m := next(from).value;
      var rest := Iterate(next, bound, m.codeEnd + 3);
      IterateExhaustive(next, bound, m.codeEnd + 3);
      PieceStartCons(from, m, rest, |rest|);
    }
  }

  /** Piece starts after the first match are those of the remaining matches. */
  lemma PieceStartCons(from: nat, m: Match, rest: seq<Match>, n: nat)
    requires n <= |rest|
    ensures PieceStart(from, [m] + rest, n + 1) == PieceStart(m.codeEnd + 3, rest, n)
  {
    if n > 0 {
      assert ([m] + rest)[n] == rest[n - 1];
    }
  }

  /** `content.matchAll(regex)`: the matches from `from` on, each found by
      the next `exec` after the previous one. */
  function Matches(s: string, from: nat): (ms: seq<Match>)
    requires from <= |s|
    ensures Placed(|s|, from, ms)
  {
    Iterate(Exec(s), |s|, from)
  }

  /** Match `n` is what `exec` finds right after match `n - 1`. */
  lemma MatchesAreNext(s: string, from: nat, n: nat)
    requires from <= |s| && n < |Matches(s, from)|
    ensures NextMatch(s, PieceStart(from, Matches(s, from), n)) == Some(Matches(s, from)[n])
  {
    IterateAreNext(Exec(s), |s|, from, n);
  }

  /** After the last match, `exec` finds nothing more. */
  lemma MatchesExhaustive(s: string, from: nat)
    requires from <= |s|
    ensures var ms := Matches(s, from); NextMatch(s, PieceStart(from, ms, |ms|)).None?
  {
    IterateExhaustive(Exec(s), |s|, from);
  }

  /** The raw text of a match, its language tag and its code. */
  function Raw(s: string, m: Match): string
    requires m.start <= m.codeEnd + 3 <= |s|
  {
    s[m.start..m.codeEnd + 3]
  }

  function Tag(s: string, m: Match): string
    requires m.start + 3 <= m.codeStart <= |s|
  {
    s[m.start + 3..m.codeStart]
  }

  function Code(s: string, m: Match): string
    requires m.codeStart <= m.codeEnd <= |s|
  {
    s[m.codeStart..m.codeEnd]
  }

  /** `content.split(regex)`: the text pieces between the matches (with no
      capture group spliced in, the last piece after the last match). */
  function SplitParts(s: string): (texts: seq<string>)
    ensures |texts| == |Matches(s, 0)| + 1
  {
    var ms := Matches(s, 0);
    seq(|ms| + 1, n requires 0 <= n <= |ms| => s[PieceStart(0, ms, n)..PieceEnd(s, ms, n)])
  }

  /** The raw matches of the fence expression. */
  function Raws(s: string): (raws: seq<string>)
    ensures |raws| == |Matches(s, 0)|
  {
    var ms := Matches(s, 0);
    seq(|ms|, n requires 0 <= n < |ms| => Raw(s, ms[n]))
  }

  /** `codeBlocks`: the captured code of every match, trimmed. */
  function CodeBlocks(s: string): (codes: seq<string>)
    ensures |codes| == |Matches(s, 0)|
  {
    var ms := Matches(s, 0);
    seq(|ms|, n requires 0 <= n < |ms| => Trim(Code(s, ms[n])))
  }

  /** `s[a..c]` is `s[a..b]` followed by `s[b..c]`. */
  lemma SliceConcat(s: string, a: nat, b: nat, c: nat)
    requires a <= b <= c <= |s|
    ensures s[a..c] == s[a..b] + s[b..c]
  {
  }

  /** A fence at `a`, a tag up to `c`, code up to `d` and a fence at `d`
      make up the text from `a` to `d + 3`. */
  lemma FencedShape(s: string, a: nat, c: nat, d: nat)
    requires FenceAt(s, a) && FenceAt(s, d) && a + 3 <= c <= d && c == TagEnd(s, a + 3)
    ensures s[a..d + 3] == Fence + s[a + 3..c] + s[c..d] + Fence
    ensures IsTag(s[a + 3..c])
  {
    TagEndSpec(s, a + 3);
    SliceConcat(s, a, d, d + 3);
    SliceConcat(s, a, c, d);
    SliceConcat(s, a, a + 3, c);
    assert s[a..a + 3] == Fence;
    assert s[d..d + 3] == Fence;
  }

  /** A match is an opening fence, a language tag, the code and a closing fence. */
  lemma MatchParts(s: string, m: Match)
    requires FenceAt(s, m.start) && FenceAt(s, m.codeEnd)
    requires m.start + 3 <= m.codeStart <= m.codeEnd && m.codeStart == TagEnd(s, m.start + 3)
    ensures Raw(s, m) == Fence + Tag(s, m) + Code(s, m) + Fence
    ensures IsTag(Tag(s, m))
  {
    FencedShape(s, m.start, m.codeStart, m.codeEnd);
  }

  /** Every match is an opening fence, a language tag, the code and a
      closing fence. */
  lemma MatchShape(s: string, n: nat)
    requires n < |Matches(s, 0)|
    ensures var m := Matches(s, 0)[n]; Raws(s)[n] == Fence + Tag(s, m) + Code(s, m) + Fence
  {
    MatchFences(s, n);
    MatchParts(s, Matches(s, 0)[n]);
  }

  /** The tag skipped after an opening fence is a language tag. */
  lemma MatchTag(s: string, n: nat)
    requires n < |Matches(s, 0)|
    ensures IsTag(Tag(s, Matches(s, 0)[n]))
  {
    MatchFences(s, n);
    MatchParts(s, Matches(s, 0)[n]);
  }

  /** Match `n` starts and ends with a fence and its code starts after the tag. */
  lemma MatchFences(s: string, n: nat)
    requires n < |Matches(s, 0)|
    ensures var m := Matches(s, 0)[n];
      FenceAt(s, m.start) && FenceAt(s, m.codeEnd) && m.codeStart == TagEnd(s, m.start + 3)
  {
    var ms := Matches(s, 0);
    MatchesAreNext(s, 0, n);
    NextMatchFacts(s, PieceStart(0, ms, n), ms[n]);
  }

  lemma NextMatchFacts(s: string, from: nat, m: Match)
    requires from <= |s| && NextMatch(s, from) == Some(m)
    ensures FenceAt(s, m.start) && FenceAt(s, m.codeEnd) && m.codeStart == TagEnd(s, m.start + 3)
  {
  }

  /** The lazy capture stops at the first closing fence: no code holds a fence. */
  lemma CodeHasNoFence(s: string, n: nat)
    requires n < |Matches(s, 0)|
    ensures !HasFence(Code(s, Matches(s, 0)[n]))
  {
    var ms := Matches(s, 0);
    MatchesAreNext(s, 0, n);
    NextMatchLeftmost(s, PieceStart(0, ms, n));
    NoFenceInside(s, ms[n].codeStart, ms[n].codeEnd);
  }

  /** The match is leftmost: no text piece before a match holds a fence. */
  lemma TextHasNoFence(s: string, n: nat)
    requires n < |Matches(s, 0)|
    ensures !HasFence(SplitParts(s)[n])
  {
    var ms := Matches(s, 0);
    MatchesAreNext(s, 0, n);
    NextMatchLeftmost(s, PieceStart(0, ms, n));
    NoFenceInside(s, PieceStart(0, ms, n), ms[n].start);
  }

  /** A stretch of `s` in which no fence starts holds no fence. */
  lemma NoFenceInside(s: string, a: nat, b: nat)
    requires a <= b <= |s|
    requires forall q: nat :: a <= q < b ==> !FenceAt(s, q)
    ensures !HasFence(s[a..b])
  {
    forall q: nat | FenceAt(s[a..b], q)
      ensures false
    {
      assert FenceAt(s, a + q);
    }
  }

  /** The regular expression tries the openers left to right; when the
      leftmost opener has no closing fence after it, every later opener lacks
      one too. So stopping there agrees with the expression. */
  lemma UnclosedEndsScan(s: string, i: nat, i': nat)
    requires FenceAt(s, i) && i + 3 <= |s|
    requires FindFence(s, TagEnd(s, i + 3)) == None
    requires i < i' && FenceAt(s, i')
    ensures FindFence(s, TagEnd(s, i' + 3)) == None
  {
    FindFenceFirst(s, TagEnd(s, i + 3));
    TagEndSpec(s, i + 3);
    if i' < i + 3 {
      // The later opener overlaps the first one, so a backtick follows the
      // first opener and it has no tag.
      assert s[i + 3] == '`';
    }
  }

  /** `t[n] + r[n] + t[n + 1] + ... + t[last]`: the pieces and the matches in turn. */
  function Interleave(texts: seq<string>, raws: seq<string>, n: nat): string
    requires |texts| == |raws| + 1 && n <= |raws|
    decreases |raws| - n
  {
    if n == |raws| then texts[n] else texts[n] + raws[n] + Interleave(texts, raws, n + 1)
  }

  lemma {:induction false} InterleaveFrom(s: string, n: nat)
    requires n <= |Matches(s, 0)|
    ensures Interleave(SplitParts(s), Raws(s), n) == s[PieceStart(0, Matches(s, 0), n)..]
    decreases |Matches(s, 0)| - n
  {
    var ms := Matches(s, 0);
    var texts, raws := SplitParts(s), Raws(s);
    var a := PieceStart(0, ms, n);
    if n < |ms| {
      var b, c := ms[n].start, ms[n].codeEnd + 3;
      InterleaveFrom(s, n + 1);
      assert PieceStart(0, ms, n + 1) == c;
      assert texts[n] == s[a..b];
      assert raws[n] == s[b..c];
      assert Interleave(texts, raws, n) == s[a..b] + s[b..c] + s[c..];
      SuffixConcat(s, a, b, c);
    } else {
      assert texts[n] == s[a..|s|];
    }
  }

  /** `s[a..]` is `s[a..b]`, then `s[b..c]`, then `s[c..]`. */
  lemma SuffixConcat(s: string, a: nat, b: nat, c: nat)
    requires a <= b <= c <= |s|
    ensures s[a..] == s[a..b] + s[b..c] + s[c..]
  {
  }

  /** The text pieces and the raw matches tile the message exactly: nothing
      is lost, duplicated or reordered. */
  lemma Tiling(s: string)
    ensures Interleave(SplitParts(s), Raws(s), 0) == s
  {
    InterleaveFrom(s, 0);
  }

  /** The `forEach` pushes the trimmed text piece unless it is blank ... */
  function PushText(acc: seq<Part>, piece: string): seq<Part>
  {
    if Trim(piece) != "" then acc + [TextPart(Trim(piece))] else acc
  }

  /** ... then the code block of the same index unless it is empty or
      there is none. */
  function PushCode(acc: seq<Part>, codes: seq<string>, n: nat): seq<Part>
  {
    if n < |codes| && codes[n] != "" then acc + [CodePart(codes[n])] else acc
  }

  /** The parts pushed for the first `n` pieces. */
  function PartsUpTo(texts: seq<string>, codes: seq<string>, n: nat): seq<Part>
    requires n <= |texts|
  {
    if n == 0 then [] else PushCode(PushText(PartsUpTo(texts, codes, n - 1), texts[n - 1]), codes, n - 1)
  }

  /** The segments of a message's text. */
  function Parts(s: string): seq<Part>
  {
    PartsUpTo(SplitParts(s), CodeBlocks(s), |SplitParts(s)|)
  }

  /** `contentParts`: loop over the split pieces, pushing each non-blank
      piece (trimmed) and then the code block of the same index if it is
      non-empty. */
  method ContentParts(content: string) returns (parts: seq<Part>)
    ensures parts == Parts(content)
  {
    var codeBlocks := CodeBlocks(content);
    var splitParts := SplitParts(content);
    parts := [];
    var i := 0;
    while i < |splitParts|
      invariant 0 <= i <= |splitParts|
      invariant parts == PartsUpTo(splitParts, codeBlocks, i)
    {
      ghost var before := parts;
      var piece := Trim(splitParts[i]);
      if piece != "" {
        parts := parts + [TextPart(piece)];
      }
      assert parts == PushText(before, splitParts[i]);
      if i < |codeBlocks| && codeBlocks[i] != "" {
        parts := parts + [CodePart(codeBlocks[i])];
      }
      assert parts == PushCode(PushText(before, splitParts[i]), codeBlocks, i);
      i := i + 1;
    }
  }

  /** Segments are never blank and never carry outer whitespace. */
  predicate WellFormed(p: Part)
  {
    p.value != "" && Trimmed(p.value)
  }

  predicate AllWellFormed(ps: seq<Part>)
  {
    forall k :: 0 <= k < |ps| ==> WellFormed(ps[k])
  }

  lemma PushTextWellFormed(acc: seq<Part>, piece: string)
    requires AllWellFormed(acc)
    ensures AllWellFormed(PushText(acc, piece))
  {
    TrimmedIff(piece);
    if Trim(piece) != "" {
      var r := acc + [TextPart(Trim(piece))];
      assert forall k :: 0 <= k < |acc| ==> r[k] == acc[k];
    }
  }

  lemma PushCodeWellFormed(acc: seq<Part>, codes: seq<string>, n: nat)
    requires AllWellFormed(acc)
    requires forall m :: 0 <= m < |codes| ==> Trimmed(codes[m])
    ensures AllWellFormed(PushCode(acc, codes, n))
  {
    if n < |codes| && codes[n] != "" {
      var r := acc + [CodePart(codes[n])];
      assert forall k :: 0 <= k < |acc| ==> r[k] == acc[k];
    }
  }

  /** One step of the loop keeps every segment well formed. */
  lemma PushWellFormed(acc: seq<Part>, piece: string, codes: seq<string>, n: nat)
    requires AllWellFormed(acc)
    requires forall m :: 0 <= m < |codes| ==> Trimmed(codes[m])
    ensures AllWellFormed(PushCode(PushText(acc, piece), codes, n))
  {
    PushTextWellFormed(acc, piece);
    PushCodeWellFormed(PushText(acc, piece), codes, n);
  }

  lemma {:induction false} PartsUpToWellFormed(texts: seq<string>, codes: seq<string>, n: nat)
    requires n <= |texts|
    requires forall m :: 0 <= m < |codes| ==> Trimmed(codes[m])
    ensures AllWellFormed(PartsUpTo(texts, codes, n))
  {
    if n > 0 {
      PartsUpToWellFormed(texts, codes, n - 1);
      PartsStepWellFormed(texts, codes, n);
    }
  }

  lemma PartsStepWellFormed(texts: seq<string>, codes: seq<string>, n: nat)
    requires 0 < n <= |texts|
    requires forall m :: 0 <= m < |codes| ==> Trimmed(codes[m])
    requires AllWellFormed(PartsUpTo(texts, codes, n - 1))
    ensures AllWellFormed(PartsUpTo(texts, codes, n))
  {
    PushWellFormed(PartsUpTo(texts, codes, n - 1), texts[n - 1], codes, n - 1);
  }

  /** Every segment of every message is non-empty and trimmed: blank text
      and empty code are dropped. */
  lemma PartsWellFormed(s: string)
    ensures forall k :: 0 <= k < |Parts(s)| ==> WellFormed(Parts(s)[k])
  {
    var cs := CodeBlocks(s);
    forall m | 0 <= m < |cs|
      ensures Trimmed(cs[m])
    {
      TrimmedIff(Code(s, Matches(s, 0)[m]));
    }
    PartsUpToWellFormed(SplitParts(s), cs, |SplitParts(s)|);
  }

  /** When `exec` finds nothing, the whole text is one piece. */
  lemma NoMatchOnePiece(s: string)
    requires NextMatch(s, 0).None?
    ensures Parts(s) == PushText([], s)
  {
    assert Matches(s, 0) == [];
    var texts, codes := SplitParts(s), CodeBlocks(s);
    assert texts[0] == s[0..|s|] == s;
    assert |texts| == 1 && |codes| == 0;
    assert PartsUpTo(texts, codes, 1) == PushCode(PushText([], texts[0]), codes, 0);
  }

  /** Text with no fence is one trimmed text segment, or nothing if blank. */
  lemma PartsWithoutFence(s: string)
    requires !HasFence(s)
    ensures Parts(s) == if Trim(s) == "" then [] else [TextPart(Trim(s))]
  {
    assert FindFence(s, 0).None?;
    NoMatchOnePiece(s);
  }

  /** A lone fence with nothing to close it is not a code block: the whole
      text, backticks included, is one trimmed text segment. */
  lemma PartsUnclosedFence(s: string, i: nat)
    requires FenceAt(s, i)
    requires forall q: nat :: FenceAt(s, q) ==> q == i
    ensures Parts(s) == [TextPart(Trim(s))]
  {
    FindFenceFirst(s, 0);
    assert FindFence(s, 0) == Some(i);
    FindFenceFirst(s, TagEnd(s, i + 3));
    assert FindFence(s, TagEnd(s, i + 3)).None?;
    NoMatchOnePiece(s);
    TrimEnds(s);
    assert !JsSpace(s[i]);
  }

  /** A line that names a generated asset, once trimmed. */
  predicate IsAssetLine(line: string)
  {
    StartsWith(Trim(line), GeneratedPrefix)
  }

  /** The first asset line at or after index `i` (`Array.prototype.find`). */
  function FirstAssetLine(lines: seq<string>, i: nat): (r: Option<nat>)
    requires i <= |lines|
    ensures r.None? <==> forall n :: i <= n < |lines| ==> !IsAssetLine(lines[n])
    ensures r.Some? ==> i <= r.value < |lines| && IsAssetLine(lines[r.value])
    ensures r.Some? ==> forall n :: i <= n < r.value ==> !IsAssetLine(lines[n])
    decreases |lines| - i
  {
    if i == |lines| then None
    else if IsAssetLine(lines[i]) then Some(i)
    else FirstAssetLine(lines, i + 1)
  }

  /** `audioPath`: for a message with audio, the first line of the audio
      field that starts (after trimming) with "/generated/", trimmed; ""
      when there is no audio or no such line. */
  function AudioPath(audio: Option<string>): (r: string)
    ensures r == "" <==> audio.None? || forall n :: 0 <= n < |Split(audio.value, '\n')| ==> !IsAssetLine(Split(audio.value, '\n')[n])
    ensures r != "" ==> StartsWith(r, GeneratedPrefix)
    ensures r != "" ==> audio.Some? && exists n :: (0 <= n < |Split(audio.value, '\n')|
      && r == Trim(Split(audio.value, '\n')[n])
      && forall n' :: 0 <= n' < n ==> !IsAssetLine(Split(audio.value, '\n')[n']))
  {
    if audio.None? || audio.value == "" then ""
    else
      var lines := Split(audio.value, '\n');
      match FirstAssetLine(lines, 0)
      case None => ""
      case Some(n) => Trim(lines[n])
  }

  /** For audio made of lines without line breaks, audioPath is the first
      asset line, trimmed, whatever log lines come before or after it. */
  lemma AudioPathFindsFirst(lines: seq<string>, n: nat)
    requires n < |lines|
    requires forall k :: 0 <= k < |lines| ==> '\n' !in lines[k]
    requires IsAssetLine(lines[n]) && forall k :: 0 <= k < n ==> !IsAssetLine(lines[k])
    ensures AudioPath(Some(Join(lines, '\n'))) == Trim(lines[n])
  {
    SplitUnique(Join(lines, '\n'), '\n', lines);
    AudioPathOfFirst(Join(lines, '\n'), lines, n);
  }

  lemma AudioPathOfFirst(audio: string, lines: seq<string>, n: nat)
    requires lines == Split(audio, '\n') && n < |lines|
    requires IsAssetLine(lines[n]) && forall k :: 0 <= k < n ==> !IsAssetLine(lines[k])
    ensures AudioPath(Some(audio)) == Trim(lines[n])
  {
    assert FirstAssetLine(lines, 0) == Some(n);
  }
}
