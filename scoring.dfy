/**
 * The relevance scorer (`score_section`) and the snippet extractor
 * (`extract_top_snippet`): both count which keyword entries occur in a
 * text, the first in a section's title and content, the second line by
 * line.
 */
module Scoring {
  import opened Wrappers
  import opened Text
  import opened Sections

  /** How many entries of `patterns` occur in `text` (Python's
      `sum(1 for p in patterns if p in text)`). Each entry counts 0 or 1,
      and equal entries count separately. */
  function Matches(patterns: seq<string>, text: string): (r: nat)
    ensures r <= |patterns|
  {
    if patterns == [] then 0
    else (if IsSubstring(patterns[0], text) then 1 else 0) + Matches(patterns[1..], text)
  }

  /** `[k.lower() for k in keywords]`. */
  function LowerEach(ss: seq<string>): (r: seq<string>)
    ensures |r| == |ss|
    ensures forall i :: 0 <= i < |ss| ==> r[i] == Lower(ss[i])
  {
    seq(|ss|, i requires 0 <= i < |ss| => Lower(ss[i]))
  }

  /** Counting over a concatenation adds the counts of the parts. */
  lemma {:induction false} MatchesAppend(a: seq<string>, b: seq<string>, text: string)
    ensures Matches(a + b, text) == Matches(a, text) + Matches(b, text)
  {
    if a != [] {
      assert (a + b)[1..] == a[1..] + b;
      MatchesAppend(a[1..], b, text);
    } else {
      assert a + b == b;
    }
  }

  /** The count is zero exactly when no entry occurs. */
  lemma {:induction false} MatchesZero(patterns: seq<string>, text: string)
    ensures Matches(patterns, text) == 0 <==> forall i :: 0 <= i < |patterns| ==> !IsSubstring(patterns[i], text)
  {
    if patterns != [] {
      MatchesZero(patterns[1..], text);
      assert forall i :: 1 <= i < |patterns| ==> patterns[i] == patterns[1..][i - 1];
    }
  }

  /** The count is the number of entries exactly when every entry occurs. */
  lemma {:induction false} MatchesAll(patterns: seq<string>, text: string)
    ensures Matches(patterns, text) == |patterns| <==> forall i :: 0 <= i < |patterns| ==> IsSubstring(patterns[i], text)
  {
    if patterns != [] {
      MatchesAll(patterns[1..], text);
      assert forall i :: 1 <= i < |patterns| ==> patterns[i] == patterns[1..][i - 1];
    }
  }

  /** `f"{title} {content}".lower()`. */
  function CombinedText(sec: Section): string {
    Lower(sec.title + " " + sec.content)
  }

  /** The persona's expertise mentions "advanced" in any case. */
  predicate WantsAdvanced(expertise: string) {
    IsSubstring("advanced", Lower(expertise))
  }

  function KeywordScore(sec: Section, keywords: seq<string>): nat {
    Matches(LowerEach(keywords), CombinedText(sec))
  }

  /** Advanced terms are matched as given, without lower-casing them. */
  function AdvancedScore(sec: Section, expertise: string, terms: seq<string>): nat {
    if WantsAdvanced(expertise) && |terms| > 0 then Matches(terms, CombinedText(sec)) else 0
  }

  /** `score_section`: keyword hits plus, for an advanced persona, hits of
      the advanced terms. */
  function ScoreSection(sec: Section, keywords: seq<string>, expertise: string, terms: seq<string>): (r: nat)
    ensures r <= |keywords| + |terms|
  {
    KeywordScore(sec, keywords) + AdvancedScore(sec, expertise, terms)
  }

  /** Appending a keyword entry adds exactly 1 when its lower-cased form
      occurs in the lower-cased title and content and 0 otherwise, so a
      keyword listed twice counts twice. */
  lemma KeywordEntry(sec: Section, keywords: seq<string>, k: string)
    ensures KeywordScore(sec, keywords + [k]) ==
      KeywordScore(sec, keywords) + (if IsSubstring(Lower(k), CombinedText(sec)) then 1 else 0)
  {
    assert LowerEach(keywords + [k]) == LowerEach(keywords) + [Lower(k)];
    MatchesAppend(LowerEach(keywords), [Lower(k)], CombinedText(sec));
  }

  /** Keyword matching ignores case on both sides: lower-casing the title,
      the content or the keywords leaves the keyword score unchanged. */
  lemma KeywordScoreIgnoresCase(sec: Section, keywords: seq<string>)
    ensures KeywordScore(Section(Lower(sec.title), sec.level, sec.page, Lower(sec.content)), LowerEach(keywords))
         == KeywordScore(sec, keywords)
  {
    var low := Section(Lower(sec.title), sec.level, sec.page, Lower(sec.content));
    LowerConcat(sec.title + " ", sec.content);
    LowerConcat(sec.title, " ");
    LowerConcat(Lower(sec.title) + " ", Lower(sec.content));
    LowerConcat(Lower(sec.title), " ");
    LowerIdempotent(sec.title);
    LowerIdempotent(sec.content);
    assert CombinedText(low) == CombinedText(sec);
    forall i | 0 <= i < |keywords| ensures LowerEach(LowerEach(keywords))[i] == LowerEach(keywords)[i] {
      LowerIdempotent(keywords[i]);
    }
    assert LowerEach(LowerEach(keywords)) == LowerEach(keywords);
  }

  /** Without an "advanced" expertise, or without advanced terms, the score
      is the keyword score alone. */
  lemma AdvancedGate(sec: Section, keywords: seq<string>, expertise: string, terms: seq<string>)
    requires !WantsAdvanced(expertise) || terms == []
    ensures ScoreSection(sec, keywords, expertise, terms) == KeywordScore(sec, keywords)
  {
  }

  /** An advanced term holding an upper-case letter never contributes,
      because it is compared against lower-cased text. */
  lemma UpperTermNeverCounts(sec: Section, expertise: string, terms: seq<string>, t: string, k: nat)
    requires k < |t| && IsUpperChar(t[k])
    ensures AdvancedScore(sec, expertise, terms + [t]) == AdvancedScore(sec, expertise, terms)
  {
    var text := CombinedText(sec);
    LowerHasNoUpper(sec.title + " " + sec.content);
    UpperNotInCaseless(t, text, k);
    MatchesAppend(terms, [t], text);
    if terms == [] {
      assert Matches([t], text) == 0;
    }
  }

  /** An advanced term that counts for a section is already lower case,
      since the text it is found in is lower-cased. */
  lemma CountedTermIsLower(sec: Section, t: string)
    requires IsSubstring(t, CombinedText(sec))
    ensures Lower(t) == t
  {
    SubstringOfLowerIsLower(t, sec.title + " " + sec.content);
  }

  /** Per line of a section: how many keywords occur in it, ignoring case. */
  function LineScore(line: string, keywords: seq<string>): nat {
    Matches(LowerEach(keywords), Lower(line))
  }

  function LineScores(lines: seq<string>, keywords: seq<string>): (scores: seq<nat>)
    ensures |scores| == |lines|
    ensures forall i :: 0 <= i < |lines| ==> scores[i] == LineScore(lines[i], keywords)
  {
    seq(|lines|, i requires 0 <= i < |lines| => LineScore(lines[i], keywords))
  }

  /** The position Python's `max(..., key=...)` picks among the positive
      scores: the first of the highest, or nothing if no score is positive. */
  function BestLine(scores: seq<nat>): (r: Option<nat>)
    ensures r.None? <==> forall i :: 0 <= i < |scores| ==> scores[i] == 0
    ensures r.Some? ==>
      r.value < |scores| && scores[r.value] > 0
      && (forall j :: 0 <= j < |scores| ==> scores[j] <= scores[r.value])
      && (forall j :: 0 <= j < r.value ==> scores[j] < scores[r.value])
  {
    if |scores| == 0 then None
    else
      var last := |scores| - 1;
      var prev := BestLine(scores[..last]);
      assert forall j :: 0 <= j < last ==> scores[..last][j] == scores[j];
      if scores[last] > 0 && (prev.None? || scores[last] > scores[prev.value]) then Some(last) else prev
  }

  /** `extract_top_snippet`: the best line of the content split on `\n`, or
      the empty string when no line matches. */
  function TopSnippet(content: string, keywords: seq<string>): string {
    var lines := SplitLines(content);
    match BestLine(LineScores(lines, keywords))
    case None => ""
    case Some(i) => lines[i]
  }

  /** The snippet is the empty string when no line contains a keyword;
      otherwise it is the first of the lines with the most keyword matches. */
  lemma TopSnippetChoice(content: string, keywords: seq<string>)
    ensures var lines := SplitLines(content);
      ((forall i :: 0 <= i < |lines| ==> LineScore(lines[i], keywords) == 0) ==> TopSnippet(content, keywords) == "")
      && ((exists i :: 0 <= i < |lines| && LineScore(lines[i], keywords) > 0) ==>
        exists i :: 0 <= i < |lines| && TopSnippet(content, keywords) == lines[i]
          && LineScore(lines[i], keywords) > 0
          && (forall j :: 0 <= j < |lines| ==> LineScore(lines[j], keywords) <= LineScore(lines[i], keywords))
          && (forall j :: 0 <= j < i ==> LineScore(lines[j], keywords) < LineScore(lines[i], keywords)))
  {
    var lines := SplitLines(content);
    var scores := LineScores(lines, keywords);
    var best := BestLine(scores);
    if best.Some? {
      var i := best.value;
      assert scores[i] == LineScore(lines[i], keywords);
      assert TopSnippet(content, keywords) == lines[i];
      forall j | 0 <= j < |lines| ensures LineScore(lines[j], keywords) <= LineScore(lines[i], keywords) {
        assert scores[j] == LineScore(lines[j], keywords);
      }
      forall j | 0 <= j < i ensures LineScore(lines[j], keywords) < LineScore(lines[i], keywords) {
        assert scores[j] == LineScore(lines[j], keywords);
      }
    } else {
      assert TopSnippet(content, keywords) == "";
      forall j | 0 <= j < |lines| ensures LineScore(lines[j], keywords) == 0 {
        assert scores[j] == LineScore(lines[j], keywords);
      }
    }
  }

  /** With no empty keyword, the snippet is empty exactly when no line
      matches: only the empty keyword can match an empty line. */
  lemma EmptySnippetIff(content: string, keywords: seq<string>)
    requires forall k :: 0 <= k < |keywords| ==> keywords[k] != ""
    ensures TopSnippet(content, keywords) == "" ==>
      forall i :: 0 <= i < |SplitLines(content)| ==> LineScore(SplitLines(content)[i], keywords) == 0
    ensures (forall i :: 0 <= i < |SplitLines(content)| ==> LineScore(SplitLines(content)[i], keywords) == 0)
      ==> TopSnippet(content, keywords) == ""
  {
    var lines := SplitLines(content);
    var scores := LineScores(lines, keywords);
    var best := BestLine(scores);
    if best.Some? {
      var i := best.value;
      var low := LowerEach(keywords);
      assert scores[i] == LineScore(lines[i], keywords);
      MatchesZero(low, Lower(lines[i]));
      var k :| 0 <= k < |low| && IsSubstring(low[k], Lower(lines[i]));
      assert |low[k]| == |keywords[k]| > 0;
      assert |lines[i]| > 0;
      assert TopSnippet(content, keywords) == lines[i];
      assert TopSnippet(content, keywords) != "";
      assert LineScore(lines[i], keywords) > 0;
      assert !(forall j :: 0 <= j < |lines| ==> LineScore(lines[j], keywords) == 0);
    } else {
      forall j | 0 <= j < |lines| ensures LineScore(lines[j], keywords) == 0 {
        assert scores[j] == 0;
      }
      assert TopSnippet(content, keywords) == "";
    }
    assert TopSnippet(content, keywords) == "" ==>
      forall i :: 0 <= i < |SplitLines(content)| ==> LineScore(SplitLines(content)[i], keywords) == 0;
    assert (forall i :: 0 <= i < |SplitLines(content)| ==> LineScore(SplitLines(content)[i], keywords) == 0)
      ==> TopSnippet(content, keywords) == "";
  }

  /** A first line that holds every keyword (ignoring case) is the
      snippet, whatever lines follow it: no line can score more, and ties
      go to the first line. */
  lemma FirstFullLineWins(first: string, rest: string, keywords: seq<string>)
    requires |keywords| > 0 && '\n' !in first
    requires forall k :: 0 <= k < |keywords| ==> IsSubstring(Lower(keywords[k]), Lower(first))
    ensures TopSnippet(first + "\n" + rest, keywords) == first
  {
    var lines := SplitLines(first + "\n" + rest);
    SplitAfterLine(first, rest);
    assert lines[0] == first;
    var low := LowerEach(keywords);
    MatchesAll(low, Lower(first));
    var scores := LineScores(lines, keywords);
    assert scores[0] == |keywords|;
    var best := BestLine(scores);
    assert best.Some?;
    assert scores[best.value] <= |keywords|;
    assert best.value == 0;
  }

  /** An empty keyword occurs in every line. */
  lemma EmptyKeywordMatchesEveryLine(line: string, keywords: seq<string>, k: nat)
    requires k < |keywords| && keywords[k] == ""
    ensures LineScore(line, keywords) >= 1
  {
    var low := LowerEach(keywords);
    assert low[k] == "";
    EmptyIsSubstring(Lower(line));
    MatchesZero(low, Lower(line));
  }

  /** So with an empty keyword, empty content yields the empty snippet even
      though its one line matches. */
  lemma EmptySnippetDespiteMatch(keywords: seq<string>, k: nat)
    requires k < |keywords| && keywords[k] == ""
    ensures LineScore("", keywords) >= 1
    ensures TopSnippet("", keywords) == ""
  {
    EmptyKeywordMatchesEveryLine("", keywords, k);
    assert SplitLines("") == [""];
  }
}
