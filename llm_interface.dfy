/**
 * The text side of the language-model interface (src/llm_interface.py):
 * how retrieved chunks become the context of a prompt, how a raw model
 * response is cleaned, the rule-based fallback answer, and the choice
 * between the local model and the fallback.
 *
 * The gpt4all model itself is a function from a prompt and a token budget
 * to a response (`None` when generation raises). Python's iteration order
 * of a set of titles is a function from the set to its listing.
 */
module Llm {
  import opened Wrappers
  import opened Text

  /** `MAX_TOKENS` default of the configuration. */
  const MaxTokens: nat := 500
  /** The cleaned response stops growing once its joined length exceeds this. */
  const CleanLimit: nat := 300
  /** The fallback preview keeps this many characters before the ellipsis. */
  const PreviewLimit: nat := 200

  const NoContextMessage := "No relevant context found."
  const UnclearAnswerMessage := "I couldn't generate a clear answer based on the provided context."
  const NoInformationMessage :=
    "I don't have enough information to answer your question. Please make sure you've added video transcripts to the database."
  const PromptHead :=
    "Based on the following video transcript excerpts, please answer the question. Be specific and cite which video the information comes from when possible.\n\nContext from video transcripts:\n"
  const QuestionLead := "\n\nQuestion: "
  const AnswerLead := "\n\nAnswer: "

  /**
   * One item of the context list: a retrieved chunk with the metadata keys
   * the interface reads. A key missing from the metadata is `None`.
   */
  datatype ContextItem = ContextItem(document: string, title: Option<string>, uploader: Option<string>, startTime: Option<real>)

  /** `self.model_type`: the local model, or rule-based answers when it could not be loaded. */
  datatype ModelKind = Local | Fallback

  /** `self.device` */
  datatype Device = Cuda | Cpu

  function Take<T>(s: seq<T>, n: nat): (r: seq<T>)
    ensures |r| <= n && |r| <= |s| && r == s[..|r|]
    ensures |s| <= n ==> r == s
  {
    if n <= |s| then s[..n] else s
  }

  predicate EndsWith(s: string, p: string) {
    |p| <= |s| && s[|s| - |p|..] == p
  }

  // ---------------------------------------------------------------------
  // Context formatting

  /** `int(start_time // 60)` */
  function Minutes(t: real): int {
    (t / 60.0).Floor
  }

  /** `int(start_time % 60)` */
  function Seconds(t: real): (s: nat)
    ensures s < 60
  {
    (t - 60.0 * Minutes(t) as real).Floor
  }

  /**
   * The minutes and seconds shown are the whole seconds of `t`, split at
   * sixty: `t` lies in the second `60 * minutes + seconds`.
   */
  lemma TimestampSplits(t: real)
    ensures 0 <= Seconds(t) < 60
    ensures (60 * Minutes(t) + Seconds(t)) as real <= t < (60 * Minutes(t) + Seconds(t) + 1) as real
  {
  }

  /** `f" (at {minutes}:{seconds:02d})"` when the chunk has a start time, else nothing. */
  function Stamp(item: ContextItem): (r: string)
    ensures r == [] <==> item.startTime.None?
  {
    match item.startTime
    case None => ""
    case Some(t) => " (at " + IntToString(Minutes(t)) + ":" + Pad2(Seconds(t)) + ")"
  }

  /** `f"Source {i}: {video_title} by {uploader}{timestamp_info}"` */
  function SourceLine(i: nat, item: ContextItem): string {
    "Source " + NatToString(i) + ": " + item.title.GetOr("Unknown Video") + " by " + item.uploader.GetOr("Unknown") + Stamp(item)
  }

  /** The source block for item number `i`. */
  function Block(i: nat, item: ContextItem): string {
    SourceLine(i, item) + "\n" + ("Content: " + item.document + "\n")
  }

  /** The blocks of the items, numbered from 1 in input order. */
  function Blocks(items: seq<ContextItem>): (bs: seq<string>)
    ensures |bs| == |items|
  {
    seq(|items|, k requires 0 <= k < |items| => Block(k + 1, items[k]))
  }

  /** One more item adds its own block, numbered after the others. */
  lemma BlocksSnoc(items: seq<ContextItem>, i: nat)
    requires i < |items|
    ensures Blocks(items[..i + 1]) == Blocks(items[..i]) + [Block(i + 1, items[i])]
  {
    var a, b := Blocks(items[..i]), Blocks(items[..i + 1]);
    forall k | 0 <= k < i + 1 ensures b[k] == (a + [Block(i + 1, items[i])])[k] {
      assert items[..i + 1][k] == items[k];
      if k < i {
        assert items[..i][k] == items[k];
      }
    }
  }

  /** `_format_context(context)` */
  function ContextText(items: seq<ContextItem>): string {
    if items == [] then NoContextMessage else Join("\n", Blocks(items))
  }

  lemma AppendStarts(a: string, b: string)
    ensures StartsWith(a + b, a)
  {
    assert (a + b)[..|a|] == a;
  }

  lemma AppendEnds(a: string, b: string)
    ensures EndsWith(a + b, b)
  {
    assert (a + b)[|a + b| - |b|..] == b;
  }

  lemma PrefixOfPrefix(p: string, q: string, s: string)
    requires StartsWith(q, p) && StartsWith(s, q)
    ensures StartsWith(s, p)
  {
    assert s[..|p|] == q[..|p|];
  }

  /**
   * Block `k` opens with its number `k + 1` and the video's title (or
   * "Unknown Video"), carries a time stamp exactly when the chunk has a
   * start time, and closes with the chunk's text.
   */
  lemma BlockLayout(items: seq<ContextItem>, k: nat)
    requires k < |items|
    ensures StartsWith(Blocks(items)[k], "Source " + NatToString(k + 1) + ": " + TitleOf(items[k]))
    ensures EndsWith(Blocks(items)[k], "Content: " + items[k].document + "\n")
    ensures items[k].startTime.Some? <==>
      |Blocks(items)[k]| > |Block(k + 1, items[k].(startTime := None))|
  {
    var item := items[k];
    var title := "Source " + NatToString(k + 1) + ": " + TitleOf(item);
    var byline := title + " by " + item.uploader.GetOr("Unknown");
    var line := SourceLine(k + 1, item);
    assert line == byline + Stamp(item);
    AppendStarts(title, " by " + item.uploader.GetOr("Unknown"));
    AppendStarts(byline, Stamp(item));
    PrefixOfPrefix(title, byline, line);
    AppendStarts(line, "\n");
    PrefixOfPrefix(title, line, line + "\n");
    AppendStarts(line + "\n", "Content: " + item.document + "\n");
    PrefixOfPrefix(title, line + "\n", Block(k + 1, item));
    AppendEnds(line + "\n", "Content: " + item.document + "\n");
  }

  /** No context gives the fixed message; otherwise the text starts with the first source. */
  lemma ContextTextStart(items: seq<ContextItem>)
    ensures items == [] ==> ContextText(items) == NoContextMessage
    ensures items != [] ==> StartsWith(ContextText(items), "Source 1: ")
  {
    if items != [] {
      var bs := Blocks(items);
      var first := "Source " + NatToString(1) + ": ";
      SourceOne();
      BlockLayout(items, 0);
      AppendStarts(first, TitleOf(items[0]));
      PrefixOfPrefix(first, first + TitleOf(items[0]), bs[0]);
      JoinFirst("\n", bs);
      PrefixOfPrefix(first, bs[0], Join("\n", bs));
    }
  }

  lemma SourceOne()
    ensures "Source " + NatToString(1) + ": " == "Source 1: "
  {
    assert NatToString(1) == "1";
  }

  lemma JoinFirst(sep: string, parts: seq<string>)
    requires parts != []
    ensures |parts[0]| <= |Join(sep, parts)| && Join(sep, parts)[..|parts[0]|] == parts[0]
  {
    if |parts| > 1 {
      var j := Join(sep, parts);
      assert j == parts[0] + (sep + Join(sep, parts[1..]));
    }
  }

  // ---------------------------------------------------------------------
  // Response cleaning

  /** `response.replace("<|endoftext|>", "").replace("<pad>", "")` */
  function Scrub(response: string): string {
    RemoveAll(RemoveAll(response, "<|endoftext|>"), "<pad>")
  }

  /** A stripped line is kept when it is not empty and is not a prompt heading. */
  predicate Keeps(line: string) {
    line != [] && !StartsWith(line, "Question:") && !StartsWith(line, "Context:") && !StartsWith(line, "Answer:")
  }

  /** The stripped lines that are kept, in order. */
  function KeptLines(lines: seq<string>): seq<string>
    decreases |lines|
  {
    if lines == [] then []
    else
      var line := Strip(lines[|lines| - 1]);
      KeptLines(lines[..|lines| - 1]) + (if Keeps(line) then [line] else [])
  }

  /**
   * The number of kept lines the loop takes: up to and including the first
   * line whose join with the earlier ones is longer than the limit, or all.
   */
  function CutAt(ks: seq<string>): (m: nat)
    ensures m <= |ks|
  {
    CutFrom(ks, 0)
  }

  function CutFrom(ks: seq<string>, j: nat): (m: nat)
    ensures m <= |ks|
    decreases |ks| - j
  {
    if j >= |ks| then |ks|
    else if |Join(" ", ks[..j])| > CleanLimit then j
    else CutFrom(ks, j + 1)
  }

  /** `_clean_response(response)` */
  function Cleaned(response: string): string {
    var ks := KeptLines(Split(Scrub(response), '\n'));
    Join(" ", ks[..CutAt(ks)])
  }

  /** Every kept line passes `Keeps` and, when the lines have no newline, holds none. */
  lemma {:induction false} KeptLinesKeep(lines: seq<string>)
    requires forall k :: 0 <= k < |lines| ==> '\n' !in lines[k]
    ensures forall l :: l in KeptLines(lines) ==> Keeps(l) && '\n' !in l
    ensures |KeptLines(lines)| <= |lines|
    decreases |lines|
  {
    if lines != [] {
      var init, last := lines[..|lines| - 1], lines[|lines| - 1];
      KeptLinesKeep(init);
      StripKeepsOut(last, '\n');
    }
  }

  /** Every line whose stripped form passes `Keeps` is kept, stripped. */
  lemma {:induction false} KeptLineIn(lines: seq<string>, l: string)
    requires l in lines && Keeps(Strip(l))
    ensures Strip(l) in KeptLines(lines)
    decreases |lines|
  {
    var init := lines[..|lines| - 1];
    if l != lines[|lines| - 1] {
      assert l in init by {
        var k :| 0 <= k < |lines| && lines[k] == l;
        assert init[k] == l;
      }
      KeptLineIn(init, l);
    }
  }

  /** Stripping cannot bring in a character the line does not have. */
  lemma StripKeepsOut(s: string, c: char)
    requires c !in s
    ensures c !in Strip(s)
  {
    StripIsSlice(s);
    var a :| OccursAt(Strip(s), s, a);
    assert Strip(s) == s[a..a + |Strip(s)|];
  }

  /** Looking at one more line keeps its stripped form when it passes `Keeps`. */
  lemma KeptLinesSnoc(lines: seq<string>, i: nat)
    requires i < |lines|
    ensures KeptLines(lines[..i + 1]) ==
      KeptLines(lines[..i]) + (if Keeps(Strip(lines[i])) then [Strip(lines[i])] else [])
  {
    assert lines[..i + 1][..i] == lines[..i];
  }

  /** The kept lines of a prefix of the lines are a prefix of the kept lines. */
  lemma {:induction false} KeptLinesPrefix(lines: seq<string>, n: nat)
    requires n <= |lines|
    ensures |KeptLines(lines[..n])| <= |KeptLines(lines)|
    ensures KeptLines(lines[..n]) == KeptLines(lines)[..|KeptLines(lines[..n])|]
    decreases |lines|
  {
    if n < |lines| {
      var init := lines[..|lines| - 1];
      assert init[..n] == lines[..n];
      KeptLinesPrefix(init, n);
      var a, b := KeptLines(init), if Keeps(Strip(lines[|lines| - 1])) then [Strip(lines[|lines| - 1])] else [];
      assert KeptLines(lines) == a + b;
      PrefixOfAppend(a, b, |KeptLines(lines[..n])|);
    } else {
      assert lines[..n] == lines;
    }
  }

  lemma PrefixOfAppend<T>(a: seq<T>, b: seq<T>, n: nat)
    requires n <= |a|
    ensures (a + b)[..n] == a[..n]
  {
  }

  /** `CutFrom` finds the least index from `j` on whose prefix is over the limit. */
  lemma {:induction false} CutFromLeast(ks: seq<string>, j: nat, m: nat)
    requires j <= m <= |ks|
    requires forall i :: j <= i < m ==> |Join(" ", ks[..i])| <= CleanLimit
    requires m < |ks| ==> |Join(" ", ks[..m])| > CleanLimit
    ensures CutFrom(ks, j) == m
    decreases |ks| - j
  {
    if j < |ks| && j < m {
      CutFromLeast(ks, j + 1, m);
    }
  }

  /**
   * The cut is `m` when the first `m - 1` kept lines join to at most the
   * limit and, unless `m` takes them all, the first `m` join to more.
   */
  lemma CutAtIs(ks: seq<string>, m: nat)
    requires 0 < m <= |ks|
    requires |Join(" ", ks[..m - 1])| <= CleanLimit
    requires m < |ks| ==> |Join(" ", ks[..m])| > CleanLimit
    ensures CutAt(ks) == m
  {
    forall i | 0 <= i < m ensures |Join(" ", ks[..i])| <= CleanLimit {
      JoinPrefixLength(" ", ks[..m - 1], i);
      assert ks[..m - 1][..i] == ks[..i];
    }
    CutFromLeast(ks, 0, m);
  }

  /**
   * The cut keeps at least one line when there is one; every shorter
   * prefix joins to at most the limit, and a cut before the end is one
   * whose join is over the limit.
   */
  lemma {:induction false} CutFacts(ks: seq<string>, j: nat)
    requires j <= |ks|
    requires forall i :: 0 <= i < j ==> |Join(" ", ks[..i])| <= CleanLimit
    ensures j <= CutFrom(ks, j)
    ensures forall i :: 0 <= i < CutFrom(ks, j) ==> |Join(" ", ks[..i])| <= CleanLimit
    ensures CutFrom(ks, j) < |ks| ==> |Join(" ", ks[..CutFrom(ks, j)])| > CleanLimit
    decreases |ks| - j
  {
    if j < |ks| && |Join(" ", ks[..j])| <= CleanLimit {
      CutFacts(ks, j + 1);
    }
  }

  /**
   * The cleaned response has no newline; it is the join of the first kept
   * lines, and all of them but the last join to at most 300 characters.
   * When lines were left out, the kept ones join to more than 300.
   */
  lemma CleanedFacts(response: string)
    ensures '\n' !in Cleaned(response)
    ensures var ks := KeptLines(Split(Scrub(response), '\n'));
      && Cleaned(response) == Join(" ", ks[..CutAt(ks)])
      && (CutAt(ks) > 0 ==> |Join(" ", ks[..CutAt(ks) - 1])| <= CleanLimit)
      && (CutAt(ks) < |ks| ==> |Cleaned(response)| > CleanLimit)
      && forall l :: l in ks ==> Keeps(l)
  {
    var lines := Split(Scrub(response), '\n');
    KeptLinesKeep(lines);
    CutJoinFacts(KeptLines(lines));
  }

  /** The join of the cut of lines without newlines: no newline, and the limit facts. */
  lemma CutJoinFacts(ks: seq<string>)
    requires forall l :: l in ks ==> '\n' !in l
    ensures '\n' !in Join(" ", ks[..CutAt(ks)])
    ensures CutAt(ks) > 0 ==> |Join(" ", ks[..CutAt(ks) - 1])| <= CleanLimit
    ensures CutAt(ks) < |ks| ==> |Join(" ", ks[..CutAt(ks)])| > CleanLimit
  {
    CutFacts(ks, 0);
    var m := CutAt(ks);
    forall k | 0 <= k < m ensures '\n' !in ks[..m][k] {
      assert ks[..m][k] in ks;
    }
    JoinAvoids(" ", ks[..m], '\n');
  }

  /**
   * When the loop stops at the first kept line that takes the join past
   * the limit, what it has collected is the cut of all the kept lines.
   */
  lemma CutOfPrefix(ks: seq<string>, cleaned: seq<string>)
    requires cleaned != [] && |cleaned| <= |ks| && cleaned == ks[..|cleaned|]
    requires |Join(" ", cleaned[..|cleaned| - 1])| <= CleanLimit
    requires |Join(" ", cleaned)| > CleanLimit
    ensures ks[..CutAt(ks)] == cleaned
  {
    assert ks[..|cleaned| - 1] == cleaned[..|cleaned| - 1];
    CutAtIs(ks, |cleaned|);
  }

  /** One turn of the cleaning loop over line `i`. */
  lemma KeptLinesStep(lines: seq<string>, i: nat, before: seq<string>, line: string, after: seq<string>)
    requires i < |lines| && before == KeptLines(lines[..i]) && line == Strip(lines[i])
    requires after == if Keeps(line) then before + [line] else before
    ensures after == KeptLines(lines[..i + 1])
  {
    KeptLinesSnoc(lines, i);
  }

  /** The loop breaks on the first kept line past the limit: it has the cut of all kept lines. */
  lemma CleanBreak(lines: seq<string>, n: nat, before: seq<string>, after: seq<string>)
    requires n <= |lines| && after == KeptLines(lines[..n])
    requires |Join(" ", before)| <= CleanLimit < |Join(" ", after)|
    requires after == before || (after != [] && after[..|after| - 1] == before)
    ensures KeptLines(lines)[..CutAt(KeptLines(lines))] == after
  {
    KeptLinesPrefix(lines, n);
    CutOfPrefix(KeptLines(lines), after);
  }

  /** When all the kept lines join to at most the limit, the cut takes them all. */
  lemma CutOfAll(ks: seq<string>)
    requires |Join(" ", ks)| <= CleanLimit
    ensures ks[..CutAt(ks)] == ks
  {
    if ks != [] {
      JoinPrefixLength(" ", ks, |ks| - 1);
      CutAtIs(ks, |ks|);
    }
  }

  /** `replace` makes one pass: removing a token can join the halves of another. */
  lemma ScrubIsSinglePass()
    ensures Scrub("<<pad>pad>") == "<pad>"
  {
    assert RemoveAll("<<pad>pad>", "<|endoftext|>") == "<<pad>pad>";
    assert RemoveAll("pad>", "<pad>") == "pad>";
    assert RemoveAll("<<pad>pad>", "<pad>") == "<" + RemoveAll("<pad>pad>", "<pad>");
  }

  // ---------------------------------------------------------------------
  // Prompt

  /** `_create_prompt(question, context)` */
  function Prompt(question: string, context: string): string {
    PromptHead + context + QuestionLead + question + AnswerLead
  }

  /** The prompt gives the context first, then the question, and ends asking for the answer. */
  lemma PromptLayout(question: string, context: string)
    ensures OccursAt(context, Prompt(question, context), |PromptHead|)
    ensures OccursAt(question, Prompt(question, context), |PromptHead| + |context| + |QuestionLead|)
    ensures EndsWith(Prompt(question, context), AnswerLead)
  {
    FiveLayout(PromptHead, context, QuestionLead, question, AnswerLead);
  }

  /** Where the second and fourth of five joined pieces lie, and how the join ends. */
  lemma FiveLayout(a: string, b: string, c: string, d: string, e: string)
    ensures OccursAt(b, a + b + c + d + e, |a|)
    ensures OccursAt(d, a + b + c + d + e, |a| + |b| + |c|)
    ensures EndsWith(a + b + c + d + e, e)
  {
    var s := a + b + c + d + e;
    assert s[|a|..|a| + |b|] == b;
    assert s[|a| + |b| + |c|..|a| + |b| + |c| + |d|] == d;
    assert s[|s| - |e|..] == e;
  }

  /** `f"Original question: {original_question}\nFollow-up: {followup_question}"` */
  function FollowupQuestion(original: string, followup: string): string {
    "Original question: " + original + "\nFollow-up: " + followup
  }

  /** The combined question carries the original question and then the follow-up. */
  lemma FollowupLayout(original: string, followup: string)
    ensures OccursAt(original, FollowupQuestion(original, followup), 19)
    ensures EndsWith(FollowupQuestion(original, followup), "\nFollow-up: " + followup)
  {
    var q := FollowupQuestion(original, followup);
    assert q[19..19 + |original|] == original;
    var tail := "\nFollow-up: " + followup;
    assert q == "Original question: " + original + tail;
    assert q[|q| - |tail|..] == tail;
  }

  // ---------------------------------------------------------------------
  // Fallback answer

  /** `metadata.get('video_title', 'Unknown Video')` */
  function TitleOf(item: ContextItem): string {
    item.title.GetOr("Unknown Video")
  }

  /** `videos`: the set of the items' titles. */
  function TitleSet(items: seq<ContextItem>): set<string> {
    set k | 0 <= k < |items| :: TitleOf(items[k])
  }

  /** `document.split('.')[:2]` */
  function FirstSentences(document: string): (r: seq<string>)
    ensures 1 <= |r| <= 2
  {
    Take(Split(document, '.'), 2)
  }

  /** `content_snippets`: the first two sentences of each document, in order. */
  function Snippets(items: seq<ContextItem>): seq<string>
    decreases |items|
  {
    if items == [] then []
    else Snippets(items[..|items| - 1]) + FirstSentences(items[|items| - 1].document)
  }

  /** `'. '.join(content_snippets[:3])[:200] + "..."` */
  function Preview(snippets: seq<string>): string {
    Take(Join(". ", Take(snippets, 3)), PreviewLimit) + "..."
  }

  /** One more item adds its title to the set and its first sentences to the snippets. */
  lemma FallbackStep(items: seq<ContextItem>, i: nat)
    requires i < |items|
    ensures TitleSet(items[..i + 1]) == TitleSet(items[..i]) + {TitleOf(items[i])}
    ensures Snippets(items[..i + 1]) == Snippets(items[..i]) + FirstSentences(items[i].document)
  {
    var a, b := items[..i], items[..i + 1];
    assert b[..i] == a && b[i] == items[i];
    forall t | t in TitleSet(b) ensures t in TitleSet(a) + {TitleOf(items[i])} {
      var k :| 0 <= k < |b| && TitleOf(b[k]) == t;
      if k < i {
        assert a[k] == b[k];
      }
    }
    forall t | t in TitleSet(a) ensures t in TitleSet(b) {
      var k :| 0 <= k < |a| && TitleOf(a[k]) == t;
      assert b[k] == a[k];
    }
  }

  /** `_generate_fallback_answer(question, context)`, given how the title set is listed. */
  function FallbackText(listTitles: set<string> -> string, question: string, items: seq<ContextItem>): string {
    if items == [] then NoInformationMessage
    else FallbackMessage(listTitles(TitleSet(items)), Preview(Snippets(items)), question)
  }

  /** The fallback answer's template, filled with the title list, the preview and the question. */
  function FallbackMessage(videoList: string, preview: string, question: string): string {
    "Based on the video transcripts from: " + videoList
      + "\n\nHere's relevant content I found: " + preview
      + "\n\nI found this information related to your question: \"" + question
      + "\". For more detailed analysis, consider using a local language model."
  }

  /** Every document gives one or two snippets, none containing a full stop. */
  lemma {:induction false} SnippetsFacts(items: seq<ContextItem>)
    ensures |items| <= |Snippets(items)| <= 2 * |items|
    ensures forall s :: s in Snippets(items) ==> '.' !in s
    decreases |items|
  {
    if items != [] {
      SnippetsFacts(items[..|items| - 1]);
      var ps := Split(items[|items| - 1].document, '.');
      forall s | s in Take(ps, 2) ensures '.' !in s {
        var k :| 0 <= k < |Take(ps, 2)| && Take(ps, 2)[k] == s;
        assert s == ps[k];
      }
    }
  }

  /**
   * The preview is at most 203 characters and ends with "..."; before the
   * ellipsis it is the start of the first three snippets joined, and all
   * of that join when it fits in 200 characters.
   */
  lemma PreviewFacts(snippets: seq<string>)
    ensures |Preview(snippets)| <= PreviewLimit + 3
    ensures EndsWith(Preview(snippets), "...")
    ensures var joined := Join(". ", Take(snippets, 3));
      var body := Preview(snippets)[..|Preview(snippets)| - 3];
      && StartsWith(joined, body)
      && (|joined| <= PreviewLimit ==> body == joined)
  {
    var joined := Join(". ", Take(snippets, 3));
    var body := Take(joined, PreviewLimit);
    assert Preview(snippets) == body + "...";
    assert Preview(snippets)[..|Preview(snippets)| - 3] == body;
  }

  /** The title set holds exactly the items' titles, "Unknown Video" standing for a missing one. */
  lemma TitleSetFacts(items: seq<ContextItem>)
    ensures forall t :: t in TitleSet(items) <==> exists item :: item in items && TitleOf(item) == t
    ensures |TitleSet(items)| <= |items|
  {
    forall t ensures t in TitleSet(items) <==> exists item :: item in items && TitleOf(item) == t {
      if exists item :: item in items && TitleOf(item) == t {
        var item :| item in items && TitleOf(item) == t;
        var k :| 0 <= k < |items| && items[k] == item;
      }
    }
    TitleSetSize(items);
  }

  lemma {:induction false} TitleSetSize(items: seq<ContextItem>)
    ensures |TitleSet(items)| <= |items|
    decreases |items|
  {
    if items != [] {
      var init := items[..|items| - 1];
      TitleSetSize(init);
      assert TitleSet(items) == TitleSet(init) + {TitleOf(items[|items| - 1])};
    }
  }

  // ---------------------------------------------------------------------
  // Loading the model and answering

  /**
   * `__init__`: the model type and device after loading. The requested
   * model type is ignored; loading first tries the detected device, then
   * the CPU, and only when both fail are answers rule-based.
   */
  function LoadOutcome(cudaAvailable: bool, firstLoadOk: bool, cpuRetryOk: bool): (r: (ModelKind, Device))
    ensures r.0 == Fallback <==> !firstLoadOk && !cpuRetryOk
    ensures r.1 == Cuda ==> cudaAvailable
    ensures r.1 == Cpu && cudaAvailable ==> !firstLoadOk && cpuRetryOk
  {
    var detected := if cudaAvailable then Cuda else Cpu;
    if firstLoadOk then (Local, detected)
    else if cpuRetryOk then (Local, Cpu)
    else (Fallback, detected)
  }

  /**
   * `_generate_local_answer(question, context_text, max_tokens)`: the
   * cleaned response, a fixed message when nothing is left of it, and the
   * fallback over the context text when generation raises.
   */
  function LocalAnswer(generate: (string, nat) -> Option<string>, listTitles: set<string> -> string,
                       question: string, contextText: string, tokens: nat): string {
    match generate(Prompt(question, contextText), tokens)
    case None => FallbackText(listTitles, question, [ContextItem(contextText, None, None, None)])
    case Some(response) =>
      var answer := Cleaned(response);
      if answer != [] then answer else UnclearAnswerMessage
  }

  /** `generate_answer(question, context, max_tokens)` for a given model type. */
  function Answer(kind: ModelKind, generate: (string, nat) -> Option<string>, listTitles: set<string> -> string,
                  question: string, items: seq<ContextItem>, tokens: nat): string {
    if kind == Local then LocalAnswer(generate, listTitles, question, ContextText(items), tokens)
    else FallbackText(listTitles, question, items)
  }

  /** An answer is never empty, whichever path produced it. */
  lemma AnswerNonEmpty(kind: ModelKind, generate: (string, nat) -> Option<string>, listTitles: set<string> -> string,
                       question: string, items: seq<ContextItem>, tokens: nat)
    ensures Answer(kind, generate, listTitles, question, items, tokens) != []
  {
    if kind == Local {
      LocalAnswerNonEmpty(generate, listTitles, question, ContextText(items), tokens);
    } else {
      FallbackNonEmpty(listTitles, question, items);
    }
  }

  lemma LocalAnswerNonEmpty(generate: (string, nat) -> Option<string>, listTitles: set<string> -> string,
                            question: string, contextText: string, tokens: nat)
    ensures |LocalAnswer(generate, listTitles, question, contextText, tokens)| > 0
  {
    FallbackNonEmpty(listTitles, question, [ContextItem(contextText, None, None, None)]);
    assert |UnclearAnswerMessage| > 0;
  }

  /** The fallback answer is never empty. */
  lemma FallbackNonEmpty(listTitles: set<string> -> string, question: string, items: seq<ContextItem>)
    ensures |FallbackText(listTitles, question, items)| > 0
  {
    if items == [] {
      assert |NoInformationMessage| > 0;
    } else {
      var lead := "Based on the video transcripts from: ";
      assert |FallbackMessage(listTitles(TitleSet(items)), Preview(Snippets(items)), question)| >= |lead|;
    }
  }

  /**
   * The rule-based path never consults the model; the local path answers
   * with the cleaned response whenever that is not empty.
   */
  lemma AnswerDispatch(kind: ModelKind, generate: (string, nat) -> Option<string>, other: (string, nat) -> Option<string>,
                       listTitles: set<string> -> string, question: string, items: seq<ContextItem>, tokens: nat)
    ensures kind == Fallback ==>
      Answer(kind, generate, listTitles, question, items, tokens) == Answer(kind, other, listTitles, question, items, tokens)
    ensures kind == Local ==>
      match generate(Prompt(question, ContextText(items)), tokens)
      case Some(response) =>
        Answer(kind, generate, listTitles, question, items, tokens) ==
          if Cleaned(response) == [] then UnclearAnswerMessage else Cleaned(response)
      case None =>
        Answer(kind, generate, listTitles, question, items, tokens) ==
          FallbackText(listTitles, question, [ContextItem(ContextText(items), None, None, None)])
  {
  }

  class LlmInterface {
    var modelType: ModelKind
    var device: Device
    /** The loaded model's `generate(prompt, max_tokens=…)`, `None` when it raises. */
    const generate: (string, nat) -> Option<string>
    /** `', '.join(videos)`: Python lists a set in an order of its own. */
    const listTitles: set<string> -> string

    /**
     * `LLMInterface(model_type)`, where the flags say whether the device
     * has CUDA and whether the first load and the CPU retry succeed.
     */
    constructor (requested: string, cudaAvailable: bool, firstLoadOk: bool, cpuRetryOk: bool,
                 generate: (string, nat) -> Option<string>, listTitles: set<string> -> string)
      ensures (modelType, device) == LoadOutcome(cudaAvailable, firstLoadOk, cpuRetryOk)
      ensures this.generate == generate && this.listTitles == listTitles
    {
      modelType := Local;
      device := if cudaAvailable then Cuda else Cpu;
      this.generate := generate;
      this.listTitles := listTitles;
      if !firstLoadOk {
        if cpuRetryOk {
          device := Cpu;
        } else {
          modelType := Fallback;
        }
      }
    }

    /** `_format_context(context)` */
    method FormatContext(context: seq<ContextItem>) returns (text: string)
      ensures text == ContextText(context)
    {
      if context == [] {
        return NoContextMessage;
      }
      var formatted: seq<string> := [];
      for i := 0 to |context|
        invariant formatted == Blocks(context[..i])
      {
        BlocksSnoc(context, i);
        formatted := formatted + [Block(i + 1, context[i])];
      }
      assert context[..|context|] == context;
      text := Join("\n", formatted);
    }

    /** `_clean_response(response)` */
    method CleanResponse(response: string) returns (answer: string)
      ensures answer == Cleaned(response)
    {
      var lines := Split(Scrub(response), '\n');
      var cleaned := CollectLines(lines);
      answer := Join(" ", cleaned);
    }

    /** The loop of `_clean_response`: collect kept lines until their join passes the limit. */
    method CollectLines(lines: seq<string>) returns (cleaned: seq<string>)
      ensures cleaned == KeptLines(lines)[..CutAt(KeptLines(lines))]
    {
      cleaned := [];
      for i := 0 to |lines|
        invariant cleaned == KeptLines(lines[..i])
        invariant |Join(" ", cleaned)| <= CleanLimit
      {
        var line := Strip(lines[i]);
        ghost var before := cleaned;
        if Keeps(line) {
          cleaned := cleaned + [line];
        }
        KeptLinesStep(lines, i, before, line, cleaned);
        if |Join(" ", cleaned)| > CleanLimit {
          CleanBreak(lines, i + 1, before, cleaned);
          return;
        }
      }
      assert lines[..|lines|] == lines;
      CutOfAll(cleaned);
    }

    /** `_generate_fallback_answer(question, context)` */
    method FallbackAnswer(question: string, context: seq<ContextItem>) returns (answer: string)
      ensures answer == FallbackText(listTitles, question, context)
    {
      if context == [] {
        return NoInformationMessage;
      }
      var videos: set<string> := {};
      var snippets: seq<string> := [];
      for i := 0 to |context|
        invariant videos == TitleSet(context[..i])
        invariant snippets == Snippets(context[..i])
      {
        FallbackStep(context, i);
        videos := videos + {TitleOf(context[i])};
        snippets := snippets + FirstSentences(context[i].document);
      }
      assert context[..|context|] == context;
      var videoList := listTitles(videos);
      var preview := Preview(snippets);
      answer := FallbackMessage(videoList, preview, question);
    }

    /** `_generate_local_answer(question, context_text, max_tokens)` */
    method GenerateLocalAnswer(question: string, contextText: string, tokens: nat) returns (answer: string)
      ensures answer == LocalAnswer(generate, listTitles, question, contextText, tokens)
    {
      var prompt := Prompt(question, contextText);
      var response := generate(prompt, tokens);
      if response.None? {
        answer := FallbackAnswer(question, [ContextItem(contextText, None, None, None)]);
        return;
      }
      answer := CleanResponse(response.value);
      if answer == [] {
        answer := UnclearAnswerMessage;
      }
    }

    /** `generate_answer(question, context, max_tokens)`; the budget defaults to `MAX_TOKENS`. */
    method GenerateAnswer(question: string, context: seq<ContextItem>, maxTokens: Option<nat>) returns (answer: string)
      ensures answer == Answer(modelType, generate, listTitles, question, context, maxTokens.GetOr(MaxTokens))
      ensures answer != []
    {
      AnswerNonEmpty(modelType, generate, listTitles, question, context, maxTokens.GetOr(MaxTokens));
      var tokens := maxTokens.GetOr(MaxTokens);
      var contextText := FormatContext(context);
      if modelType == Local {
        answer := GenerateLocalAnswer(question, contextText, tokens);
      } else {
        answer := FallbackAnswer(question, context);
      }
    }

    /** `ask_followup(original_question, followup_question, context)` */
    method AskFollowup(original: string, followup: string, context: seq<ContextItem>) returns (answer: string)
      ensures answer == Answer(modelType, generate, listTitles, FollowupQuestion(original, followup), context, MaxTokens)
    {
      answer := GenerateAnswer(FollowupQuestion(original, followup), context, None);
    }
  }
}
