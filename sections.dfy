/**
 * The section builder (`extract_sections`): each header opens a section
 * whose content is the text of every token after it up to the next header
 * or the end of the document.
 */
module Sections {
  import opened Text
  import opened Headers

  /** A section before it is attached to a document and scored. */
  datatype Section = Section(title: string, level: Level, page: int, content: string)

  /** The end (exclusive) of the token span of section `i`: the next
      header's token, or the end of the document for the last section. */
  function SpanEnd(tags: seq<HeaderTag>, i: nat, n: nat): nat
    requires i < |tags|
  {
    if i + 1 < |tags| then tags[i + 1].index else n
  }

  /** A section's span starts right after its header and stays inside the
      document. */
  lemma SpanBounds(tags: seq<HeaderTag>, n: nat, i: nat)
    requires WellFormed(tags, n) && i < |tags|
    ensures tags[i].index + 1 <= SpanEnd(tags, i, n) <= n
  {
    if i + 1 < |tags| {
      assert tags[i].index < tags[i + 1].index < n;
    }
  }

  /** The raw (unstripped) texts of tokens `start` up to `end`. */
  function TokenTexts(tokens: seq<Token>, start: nat, end: nat): (texts: seq<string>)
    requires start <= end <= |tokens|
    ensures |texts| == end - start
    ensures forall k :: 0 <= k < end - start ==> texts[k] == tokens[start + k].text
  {
    seq(end - start, k requires 0 <= k < end - start => tokens[start + k].text)
  }

  /** The section opened by header `i`. */
  function SectionAt(tokens: seq<Token>, tags: seq<HeaderTag>, i: nat): Section
    requires WellFormed(tags, |tokens|) && i < |tags|
  {
    SpanBounds(tags, |tokens|, i);
    var h := tags[i];
    Section(h.title, h.level, h.page, JoinLines(TokenTexts(tokens, h.index + 1, SpanEnd(tags, i, |tokens|))))
  }

  /** One section per header, in header order. */
  function BuildSections(tokens: seq<Token>, tags: seq<HeaderTag>): (sections: seq<Section>)
    requires WellFormed(tags, |tokens|)
    ensures |sections| == |tags|
  {
    seq(|tags|, i requires 0 <= i < |tags| => SectionAt(tokens, tags, i))
  }

  /** The sections `extract_sections` returns for a document. */
  function SectionsOf(tokens: seq<Token>): seq<Section> {
    HeadersOfProperties(tokens);
    BuildSections(tokens, HeadersOf(tokens))
  }

  /** The sections of a document: one per header, in header order, with
      the header's title, level and page, and as content the raw texts of
      the tokens strictly between this header and the next (or the end of
      the document), joined with newlines. */
  lemma SectionsOfMeaning(tokens: seq<Token>)
    ensures var tags := HeadersOf(tokens);
      var sections := SectionsOf(tokens);
      |sections| == |tags|
      && forall i :: 0 <= i < |tags| ==>
        tags[i].index + 1 <= SpanEnd(tags, i, |tokens|) <= |tokens|
        && sections[i].title == tags[i].title
        && sections[i].level == tags[i].level
        && sections[i].page == tags[i].page
        && sections[i].content == JoinLines(TokenTexts(tokens, tags[i].index + 1, SpanEnd(tags, i, |tokens|)))
  {
    var tags := HeadersOf(tokens);
    HeadersOfProperties(tokens);
    forall i | 0 <= i < |tags|
      ensures tags[i].index + 1 <= SpanEnd(tags, i, |tokens|) <= |tokens|
      ensures SectionsOf(tokens)[i] == SectionAt(tokens, tags, i)
    {
      SpanBounds(tags, |tokens|, i);
    }
  }

  /** The loop of `extract_sections`: walks the headers in order,
      appending the section each one opens. */
  method SectionsFrom(tokens: seq<Token>, headers: seq<HeaderTag>) returns (sections: seq<Section>)
    requires WellFormed(headers, |tokens|)
    ensures sections == BuildSections(tokens, headers)
  {
    sections := [];
    var i := 0;
    while i < |headers|
      invariant 0 <= i <= |headers|
      invariant |sections| == i
      invariant forall k :: 0 <= k < i ==> sections[k] == SectionAt(tokens, headers, k)
    {
      var idx := headers[i].index;
      var start := idx + 1;
      var end := if i + 1 < |headers| then headers[i + 1].index else |tokens|;
      SpanBounds(headers, |tokens|, i);
      var content := JoinLines(TokenTexts(tokens, start, end));
      sections := sections + [Section(headers[i].title, headers[i].level, headers[i].page, content)];
      i := i + 1;
    }
  }

  /** `extract_sections`: runs the classifier, then builds one section per
      header. */
  method ExtractSections(tokens: seq<Token>) returns (sections: seq<Section>)
    ensures sections == SectionsOf(tokens)
  {
    var headers := DetectSectionHeaders(tokens);
    sections := SectionsFrom(tokens, headers);
  }

  /** Spans never overlap: section `i`'s span ends at or before the header
      of every later section `j`, and so before `j`'s own span begins. */
  lemma SpansDisjoint(tags: seq<HeaderTag>, n: nat, i: nat, j: nat)
    requires WellFormed(tags, n) && i < j < |tags|
    ensures SpanEnd(tags, i, n) <= tags[j].index
  {
    if i + 1 < j {
      assert tags[i + 1].index < tags[j].index;
    }
  }

  /** Token `k` is header `i`'s own token or lies in its span. */
  predicate Owns(tags: seq<HeaderTag>, n: nat, i: nat, k: nat)
    requires i < |tags|
  {
    tags[i].index <= k < SpanEnd(tags, i, n)
  }

  /** From the first header on, every token is a header or belongs to the
      span of exactly one header: headers and spans tile
      `[tags[0].index, n)`. */
  lemma SpansCover(tags: seq<HeaderTag>, n: nat, k: nat)
    requires WellFormed(tags, n) && |tags| > 0 && tags[0].index <= k < n
    ensures exists i :: 0 <= i < |tags| && Owns(tags, n, i, k)
    ensures forall i, j :: 0 <= i < |tags| && 0 <= j < |tags| && Owns(tags, n, i, k) && Owns(tags, n, j, k) ==> i == j
  {
    CoverFrom(tags, n, k, 0);
    forall i, j | 0 <= i < |tags| && 0 <= j < |tags| && Owns(tags, n, i, k) && Owns(tags, n, j, k)
      ensures i == j
    {
      if i < j {
        SpansDisjoint(tags, n, i, j);
      } else if j < i {
        SpansDisjoint(tags, n, j, i);
      }
    }
  }

  lemma {:induction false} CoverFrom(tags: seq<HeaderTag>, n: nat, k: nat, i: nat)
    requires WellFormed(tags, n) && i < |tags| && tags[i].index <= k < n
    ensures exists j :: i <= j < |tags| && Owns(tags, n, j, k)
    decreases |tags| - i
  {
    if k >= SpanEnd(tags, i, n) {
      CoverFrom(tags, n, k, i + 1);
    } else {
      assert Owns(tags, n, i, k);
    }
  }

  /** Tokens before the first header are in no section: neither a header
      nor inside any span. */
  lemma BeforeFirstHeaderDropped(tags: seq<HeaderTag>, n: nat, k: nat)
    requires WellFormed(tags, n) && |tags| > 0 && k < tags[0].index
    ensures forall i :: 0 <= i < |tags| ==> !Owns(tags, n, i, k)
  {
    forall i | 0 <= i < |tags| ensures !Owns(tags, n, i, k) {
      if i > 0 {
        assert tags[0].index < tags[i].index;
      }
    }
  }

  /** When no token text holds a newline, splitting a section's content on
      newlines gives back the token texts of its span, one per line (an
      empty span gives the one empty line). */
  lemma ContentLines(tokens: seq<Token>, start: nat, end: nat)
    requires start <= end <= |tokens|
    requires forall k :: start <= k < end ==> '\n' !in tokens[k].text
    ensures start < end ==> SplitLines(JoinLines(TokenTexts(tokens, start, end))) == TokenTexts(tokens, start, end)
    ensures start == end ==> SplitLines(JoinLines(TokenTexts(tokens, start, end))) == [""]
  {
    var texts := TokenTexts(tokens, start, end);
    if start < end {
      SplitJoin(texts);
    }
  }
}
