/**
 * The header classifier (`detect_section_headers`): every token of a
 * document is tested against a first-match-wins chain of rules that may
 * tag it as a Title, H1, H2 or H3 heading.
 */
module Headers {
  import opened Wrappers
  import opened Text

  /** One positioned word of a PDF page. Font sizes are exact reals; `page`
      is 1-based. The font name and the offsets are carried but never read. */
  datatype Token = Token(text: string, size: real, fontname: string, x0: real, top: real, page: int)

  datatype Level = Title | H1 | H2 | H3

  /** A header found at position `index` of the token sequence. */
  datatype HeaderTag = HeaderTag(index: nat, level: Level, title: string, page: int)

  /** The largest font size of a non-empty document (Python's `max`). */
  function LargestSize(tokens: seq<Token>): (m: real)
    requires |tokens| > 0
    ensures exists i :: 0 <= i < |tokens| && tokens[i].size == m
    ensures forall i :: 0 <= i < |tokens| ==> tokens[i].size <= m
  {
    if |tokens| == 1 then tokens[0].size
    else
      var rest := LargestSize(tokens[1..]);
      assert forall i :: 1 <= i < |tokens| ==> tokens[i] == tokens[1..][i - 1];
      if tokens[0].size >= rest then tokens[0].size else rest
  }

  /** Number of ASCII digits at the start of `s`. */
  function LeadingDigits(s: string): (n: nat)
    ensures n <= |s|
    ensures forall i :: 0 <= i < n ==> IsDigit(s[i])
    ensures n == |s| || !IsDigit(s[n])
  {
    if s != [] && IsDigit(s[0]) then 1 + LeadingDigits(s[1..]) else 0
  }

  /** `s` starts with the regular expression `\d+(\.\d+){groups-1}`, so
      `DottedNumber(s, 3)` is `re.match(r'^\d+\.\d+\.\d+', s)` and
      `DottedNumber(s, 2)` is `re.match(r'^\d+\.\d+', s)`. A run of digits
      followed by a dot in the pattern can only match a maximal run, which
      is why the leading-digit count decides each group. */
  predicate DottedNumber(s: string, groups: nat)
    decreases groups
  {
    var n := LeadingDigits(s);
    n >= 1 && (groups <= 1 || (n < |s| && s[n] == '.' && DottedNumber(s[n + 1..], groups - 1)))
  }

  /** `re.match(r'^\d+\.', s)`. */
  predicate NumberDot(s: string) {
    var n := LeadingDigits(s);
    1 <= n < |s| && s[n] == '.'
  }

  predicate AllDigits(s: string) {
    forall i :: 0 <= i < |s| ==> IsDigit(s[i])
  }

  /** `NumberDot` agrees with the regular expression `^\d+\.` read
      literally: some non-empty run of digits followed by a dot. */
  lemma NumberDotMeaning(s: string)
    ensures NumberDot(s) <==> exists j :: 1 <= j < |s| && AllDigits(s[..j]) && s[j] == '.'
  {
    var n := LeadingDigits(s);
    if NumberDot(s) {
      assert AllDigits(s[..n]);
    }
    if exists j :: 1 <= j < |s| && AllDigits(s[..j]) && s[j] == '.' {
      var j :| 1 <= j < |s| && AllDigits(s[..j]) && s[j] == '.';
      DigitRunEnds(s, j);
    }
  }

  /** `DottedNumber(s, 2)` agrees with `^\d+\.\d+` read literally. */
  lemma TwoGroupsMeaning(s: string)
    ensures DottedNumber(s, 2) <==>
      exists j :: 1 <= j && j + 1 < |s| && AllDigits(s[..j]) && s[j] == '.' && IsDigit(s[j + 1])
  {
    var n := LeadingDigits(s);
    if DottedNumber(s, 2) {
      assert AllDigits(s[..n]);
      assert s[n + 1..][0] == s[n + 1];
    }
    if exists j :: 1 <= j && j + 1 < |s| && AllDigits(s[..j]) && s[j] == '.' && IsDigit(s[j + 1]) {
      var j :| 1 <= j && j + 1 < |s| && AllDigits(s[..j]) && s[j] == '.' && IsDigit(s[j + 1]);
      DigitRunEnds(s, j);
      assert s[n + 1..][0] == s[n + 1];
    }
  }

  /** `^\d+\.\d+\.\d+` read literally, matching with the first dot at `j`
      and the second at `k`. */
  predicate ThreeGroupsAt(s: string, j: int, k: int) {
    1 <= j && j + 1 < k && k + 1 < |s| && AllDigits(s[..j]) && s[j] == '.'
    && AllDigits(s[j + 1..k]) && s[k] == '.' && IsDigit(s[k + 1])
  }

  /** `DottedNumber(s, 3)` agrees with `^\d+\.\d+\.\d+` read literally:
      digits, a dot, digits, a dot and a digit at the start of `s`. */
  lemma ThreeGroupsMeaning(s: string)
    ensures DottedNumber(s, 3) <==> exists j, k :: ThreeGroupsAt(s, j, k)
  {
    if DottedNumber(s, 3) {
      ThreeGroupsSound(s);
    }
    if exists j, k :: ThreeGroupsAt(s, j, k) {
      var j, k :| ThreeGroupsAt(s, j, k);
      ThreeGroupsComplete(s, j, k);
    }
  }

  lemma ThreeGroupsSound(s: string)
    requires DottedNumber(s, 3)
    ensures exists j, k :: ThreeGroupsAt(s, j, k)
  {
    var n := LeadingDigits(s);
    var t := s[n + 1..];
    assert DottedNumber(t, 2);
    var m := LeadingDigits(t);
    var u := t[m + 1..];
    assert LeadingDigits(u) >= 1;
    assert IsDigit(u[0]) && u[0] == t[m + 1];
    var k := n + 1 + m;
    assert s[n + 1..k] == t[..m];
    assert s[k] == t[m] && s[k + 1] == t[m + 1];
    assert AllDigits(s[..n]);
    assert ThreeGroupsAt(s, n, k);
  }

  lemma ThreeGroupsComplete(s: string, j: int, k: int)
    requires ThreeGroupsAt(s, j, k)
    ensures DottedNumber(s, 3)
  {
    DigitRunEnds(s, j);
    var t := s[j + 1..];
    var m := k - j - 1;
    assert t[..m] == s[j + 1..k];
    assert t[m] == s[k] && t[m + 1] == s[k + 1];
    TwoGroupsMeaning(t);
    assert DottedNumber(t, 2);
  }

  /** A digit run ending in a non-digit is the whole leading digit run. */
  lemma DigitRunEnds(s: string, j: nat)
    requires j < |s| && AllDigits(s[..j]) && !IsDigit(s[j])
    ensures LeadingDigits(s) == j
  {
    forall i | 0 <= i < j ensures IsDigit(s[i]) {
      assert s[..j][i] == s[i];
    }
  }

  /** A longer dotted-number pattern implies every shorter one. */
  lemma {:induction false} DottedNumberShorter(s: string, groups: nat)
    requires groups >= 2 && DottedNumber(s, groups)
    ensures DottedNumber(s, groups - 1)
  {
    var n := LeadingDigits(s);
    if groups > 2 {
      DottedNumberShorter(s[n + 1..], groups - 1);
    }
  }

  /** `^\d+\.\d+` implies `^\d+\.`: the H1 number rule would also accept
      H2 and H3 numbers, which is why its place in the chain matters. */
  lemma TwoGroupsHasNumberDot(s: string)
    requires DottedNumber(s, 2)
    ensures NumberDot(s)
  {
  }

  predicate IsTitleToken(t: Token, largest: real) {
    t.size == largest && t.page == 1
  }

  /** Upper-case text longer than three characters in a font at most 1.5
      points below the largest. */
  predicate IsCapsHeading(text: string, size: real, largest: real) {
    IsUpper(text) && size >= largest - 1.5 && |text| > 3
  }

  /** The rule chain for one token, first match wins. */
  function Classify(t: Token, largest: real): Option<Level> {
    var text := Strip(t.text);
    if IsTitleToken(t, largest) then Some(Title)
    else if DottedNumber(text, 3) then Some(H3)
    else if DottedNumber(text, 2) then Some(H2)
    else if NumberDot(text) then Some(H1)
    else if IsCapsHeading(text, t.size, largest) then Some(H1)
    else None
  }

  /** What each tag means, in terms of the rules alone: a token is a Title
      exactly when the title rule holds; an H3 exactly when the title rule
      fails and the three-group number matches; an H2 exactly when the
      two-group number matches but neither earlier rule; an H1 exactly when
      neither the title rule nor the two-group number applies and either
      the one-group number or the caps rule does; and untagged exactly when
      no rule applies at all. */
  lemma ClassifyMeaning(t: Token, largest: real)
    ensures var text := Strip(t.text);
      (Classify(t, largest) == Some(Title) <==> IsTitleToken(t, largest))
      && (Classify(t, largest) == Some(H3) <==> !IsTitleToken(t, largest) && DottedNumber(text, 3))
      && (Classify(t, largest) == Some(H2) <==>
            !IsTitleToken(t, largest) && !DottedNumber(text, 3) && DottedNumber(text, 2))
      && (Classify(t, largest) == Some(H1) <==>
            !IsTitleToken(t, largest) && !DottedNumber(text, 2)
            && (NumberDot(text) || IsCapsHeading(text, t.size, largest)))
      && (Classify(t, largest) == None <==>
            !IsTitleToken(t, largest) && !NumberDot(text) && !IsCapsHeading(text, t.size, largest))
  {
    var text := Strip(t.text);
    if DottedNumber(text, 3) {
      DottedNumberShorter(text, 3);
    }
    if DottedNumber(text, 2) {
      TwoGroupsHasNumberDot(text);
    }
  }

  /** The tag token `i` gets under the rule chain, if any. */
  function Candidate(t: Token, largest: real, i: nat): Option<HeaderTag> {
    match Classify(t, largest)
    case Some(level) => Some(HeaderTag(i, level, Strip(t.text), t.page))
    case None => None
  }

  /** The candidate tag of every token of a document. */
  function CandidatesOf(tokens: seq<Token>, largest: real): (cands: seq<Option<HeaderTag>>)
    ensures |cands| == |tokens|
  {
    seq(|tokens|, i requires 0 <= i < |tokens| => Candidate(tokens[i], largest, i))
  }

  /** Each present candidate names its own position. */
  predicate Indexed(cands: seq<Option<HeaderTag>>) {
    forall i :: 0 <= i < |cands| && cands[i].Some? ==> cands[i].value.index == i
  }

  /** The present candidates among the first `n`, in order. */
  function TagsBefore(cands: seq<Option<HeaderTag>>, n: nat): seq<HeaderTag>
    requires n <= |cands|
  {
    if n == 0 then []
    else TagsBefore(cands, n - 1) + (if cands[n - 1].Some? then [cands[n - 1].value] else [])
  }

  /** The tags `detect_section_headers` yields for a whole document. */
  function HeadersOf(tokens: seq<Token>): seq<HeaderTag> {
    if |tokens| == 0 then [] else TagsBefore(CandidatesOf(tokens, LargestSize(tokens)), |tokens|)
  }

  /** Tags refer to tokens below `n` and are strictly ascending. */
  predicate WellFormed(tags: seq<HeaderTag>, n: nat) {
    (forall i :: 0 <= i < |tags| ==> tags[i].index < n)
    && (forall i, j :: 0 <= i < j < |tags| ==> tags[i].index < tags[j].index)
  }

  /** Token `k` has a tag in `tags`. */
  predicate Tagged(tags: seq<HeaderTag>, k: nat) {
    exists i :: 0 <= i < |tags| && tags[i].index == k
  }

  lemma {:induction false} TagsBeforeWellFormed(cands: seq<Option<HeaderTag>>, n: nat)
    requires Indexed(cands) && n <= |cands|
    ensures WellFormed(TagsBefore(cands, n), n)
  {
    if n > 0 {
      TagsBeforeWellFormed(cands, n - 1);
      var prev := TagsBefore(cands, n - 1);
      var tags := TagsBefore(cands, n);
      forall i | 0 <= i < |tags| ensures tags[i].index < n && (i < |prev| ==> tags[i] == prev[i]) {
        if i < |prev| {
          assert tags[i] == prev[i];
        }
      }
    }
  }

  lemma {:induction false} TagsBeforeFromCandidates(cands: seq<Option<HeaderTag>>, n: nat)
    requires Indexed(cands) && n <= |cands|
    ensures forall i :: 0 <= i < |TagsBefore(cands, n)| ==>
      TagsBefore(cands, n)[i].index < n && cands[TagsBefore(cands, n)[i].index] == Some(TagsBefore(cands, n)[i])
  {
    if n > 0 {
      TagsBeforeFromCandidates(cands, n - 1);
      var prev := TagsBefore(cands, n - 1);
      var tags := TagsBefore(cands, n);
      forall i | 0 <= i < |tags| && i < |prev| ensures tags[i] == prev[i] {
      }
    }
  }

  lemma {:induction false} TagsBeforeComplete(cands: seq<Option<HeaderTag>>, n: nat, k: nat)
    requires Indexed(cands) && k < n <= |cands|
    ensures cands[k].Some? <==> Tagged(TagsBefore(cands, n), k)
  {
    var prev := TagsBefore(cands, n - 1);
    var tags := TagsBefore(cands, n);
    TagsBeforeWellFormed(cands, n - 1);
    if k < n - 1 {
      TagsBeforeComplete(cands, n - 1, k);
      if cands[k].Some? {
        var i :| 0 <= i < |prev| && prev[i].index == k;
        assert tags[i] == prev[i];
      } else {
        forall i | 0 <= i < |tags| ensures tags[i].index != k {
          if i < |prev| {
            assert tags[i] == prev[i];
          }
        }
      }
    } else if cands[k].Some? {
      assert tags[|prev|].index == k;
    } else {
      assert tags == prev;
    }
  }

  /** The classifier yields nothing for an empty document. For any other
      document its tags point at existing tokens in strictly ascending
      order (so no token gets two tags); each tag is the one the rule chain
      gives its token under the document's largest size (level from the
      chain, title the stripped token text, page the token's page); and a
      token gets a tag exactly when some rule applies to it. */
  lemma HeadersOfProperties(tokens: seq<Token>)
    ensures |tokens| == 0 ==> HeadersOf(tokens) == []
    ensures WellFormed(HeadersOf(tokens), |tokens|)
    ensures |tokens| > 0 ==> forall i :: 0 <= i < |HeadersOf(tokens)| ==>
      var tag := HeadersOf(tokens)[i];
      var t := tokens[tag.index];
      Classify(t, LargestSize(tokens)) == Some(tag.level)
      && tag.title == Strip(t.text) && tag.page == t.page
    ensures |tokens| > 0 ==> forall k :: 0 <= k < |tokens| ==>
      (Classify(tokens[k], LargestSize(tokens)).Some? <==> Tagged(HeadersOf(tokens), k))
  {
    if |tokens| > 0 {
      var largest := LargestSize(tokens);
      var cands := CandidatesOf(tokens, largest);
      assert Indexed(cands);
      TagsBeforeWellFormed(cands, |tokens|);
      TagsBeforeFromCandidates(cands, |tokens|);
      forall k | 0 <= k < |tokens|
        ensures Classify(tokens[k], largest).Some? <==> Tagged(HeadersOf(tokens), k)
      {
        TagsBeforeComplete(cands, |tokens|, k);
        assert cands[k] == Candidate(tokens[k], largest, k);
      }
    }
  }

  /** One step of the walk: token `idx` adds its tag, if it has one. */
  lemma CandidateStep(tokens: seq<Token>, largest: real, idx: nat)
    requires idx < |tokens|
    ensures var t := tokens[idx];
      TagsBefore(CandidatesOf(tokens, largest), idx + 1) ==
        TagsBefore(CandidatesOf(tokens, largest), idx)
        + match Classify(t, largest)
          case Some(level) => [HeaderTag(idx, level, Strip(t.text), t.page)]
          case None => []
  {
    assert CandidatesOf(tokens, largest)[idx] == Candidate(tokens[idx], largest, idx);
  }

  /** `detect_section_headers`: computes the largest size once, then walks
      the tokens in order, yielding the tag of each classified token. */
  method DetectSectionHeaders(tokens: seq<Token>) returns (tags: seq<HeaderTag>)
    ensures tags == HeadersOf(tokens)
    ensures WellFormed(tags, |tokens|)
  {
    tags := [];
    if |tokens| == 0 {
      return;
    }
    var largest := LargestSize(tokens);
    ghost var cands := CandidatesOf(tokens, largest);
    var idx := 0;
    while idx < |tokens|
      invariant 0 <= idx <= |tokens|
      invariant tags == TagsBefore(cands, idx)
    {
      CandidateStep(tokens, largest, idx);
      var token := tokens[idx];
      var text := Strip(token.text);
      if token.size == largest && token.page == 1 {
        tags := tags + [HeaderTag(idx, Title, text, token.page)];
      } else if DottedNumber(text, 3) {
        tags := tags + [HeaderTag(idx, H3, text, token.page)];
      } else if DottedNumber(text, 2) {
        tags := tags + [HeaderTag(idx, H2, text, token.page)];
      } else if NumberDot(text) {
        tags := tags + [HeaderTag(idx, H1, text, token.page)];
      } else if IsUpper(text) && token.size >= largest - 1.5 && |text| > 3 {
        tags := tags + [HeaderTag(idx, H1, text, token.page)];
      }
      idx := idx + 1;
    }
    assert Indexed(cands);
    TagsBeforeWellFormed(cands, |tokens|);
  }

  /** A token in the largest font on page 1 is a Title whatever its text,
      even a numbered or upper-case one. */
  lemma TitleWins(t: Token, largest: real)
    requires t.size == largest && t.page == 1
    ensures Classify(t, largest) == Some(Title)
  {
  }

  /** "2.1 Methods" outside the title rule is an H2: the three-group rule is
      tried first and fails, the two-group rule matches. */
  lemma TwoGroupExample(t: Token, largest: real)
    requires t.text == "2.1 Methods" && !IsTitleToken(t, largest)
    ensures Classify(t, largest) == Some(H2)
  {
    var s := t.text;
    StripProperties(s);
    assert Strip(s) == s;
    DigitRunEnds(s, 1);
    assert s[2..][..1] == "1" && s[2..][1] == ' ';
    DigitRunEnds(s[2..], 1);
    assert s[2..][2..] == s[4..];
  }

  /** "1.2.3 x" outside the title rule is an H3. */
  lemma ThreeGroupExample(t: Token, largest: real)
    requires t.text == "1.2.3 x" && !IsTitleToken(t, largest)
    ensures Classify(t, largest) == Some(H3)
  {
    var s := t.text;
    StripProperties(s);
    assert Strip(s) == s;
    DigitRunEnds(s, 1);
    var s1 := s[2..];
    assert s1 == "2.3 x";
    assert s1[..1] == "2";
    DigitRunEnds(s1, 1);
    var s2 := s1[2..];
    assert s2 == "3 x";
    assert s2[..1] == "3";
    DigitRunEnds(s2, 1);
    assert DottedNumber(s2, 1);
    assert DottedNumber(s1, 2);
  }

  /** The caps rule: "RESULTS" at 16.5 points under a largest size of 18 is
      an H1 on any page; at 16.4 points it falls below the threshold and
      gets no tag. */
  lemma CapsExample(t: Token)
    requires t.text == "RESULTS" && (t.size == 16.5 || t.size == 16.4)
    ensures Classify(t, 18.0) == if t.size == 16.5 then Some(H1) else None
  {
    var s := t.text;
    StripProperties(s);
    assert Strip(s) == s;
    assert s[..0] == "";
    DigitRunEnds(s, 0);
    assert IsUpperChar(s[0]);
    assert IsUpper(s);
  }

  /** No text of three characters or fewer is a caps heading, whatever
      its case or size. */
  lemma ShortNeverCaps(text: string, size: real, largest: real)
    requires |text| <= 3
    ensures !IsCapsHeading(text, size, largest)
  {
  }

  /** A short upper-case word such as "ABC" is never a caps heading. */
  lemma ShortCapsExample(t: Token, largest: real)
    requires t.text == "ABC" && !IsTitleToken(t, largest)
    ensures Classify(t, largest) == None
  {
    var s := t.text;
    StripProperties(s);
    assert Strip(s) == s;
    assert s[..0] == "";
    DigitRunEnds(s, 0);
  }
}
