/**
 * The ranking part of the pipeline's entry point: gather the sections of
 * every document, score them, keep the positive ones, order them by score
 * (highest first, ties in production order), number them 1..n and collect
 * the sorted, distinct names of the documents they come from.
 */
module Ranking {
  import opened Wrappers
  import opened Text
  import opened Headers
  import opened Sections
  import opened Scoring

  /** A PDF file as the ranking sees it: its file name and its tokens. */
  datatype Document = Document(name: string, tokens: seq<Token>)

  /** A section tagged with the document it was found in. */
  datatype Located = Located(document: string, section: Section)

  /** A located section with its relevance score. */
  datatype Scored = Scored(document: string, section: Section, score: nat)

  /** One entry of the report's result list. */
  datatype RankedResult = RankedResult(
    document: string, page: int, sectionTitle: string, sectionLevel: Level,
    relevanceRank: nat, relevanceScore: nat, snippet: string)

  /** The persona is kept as given (a string-keyed record) and echoed back. */
  type Persona = map<string, string>

  datatype Metadata = Metadata(persona: Persona, job: string, timestamp: string, pdfs: seq<string>)

  datatype Report = Report(metadata: Metadata, results: seq<RankedResult>)

  /** `persona.get('expertise', '')`. */
  function Expertise(persona: Persona): (e: string)
    ensures "expertise" in persona ==> e == persona["expertise"]
    ensures "expertise" !in persona ==> e == ""
  {
    if "expertise" in persona then persona["expertise"] else ""
  }

  /** Only the `expertise` entry of the persona matters: setting any other
      entry leaves the expertise as it was. */
  lemma ExpertiseOtherKeys(persona: Persona, k: string, v: string)
    requires k != "expertise"
    ensures Expertise(persona[k := v]) == Expertise(persona)
  {
  }

  /** A persona without an `expertise` entry gets no advanced bonus: each
      section scores its keyword hits only. */
  lemma NoExpertiseNoBonus(persona: Persona, sec: Section, keywords: seq<string>, terms: seq<string>)
    requires "expertise" !in persona
    ensures ScoreSection(sec, keywords, Expertise(persona), terms) == KeywordScore(sec, keywords)
  {
    assert Lower("") == "";
    assert !WantsAdvanced("");
    AdvancedGate(sec, keywords, "", terms);
  }

  // ---------------------------------------------------------------------
  // Collecting the sections of every document

  /** The document names, in the given order. */
  function Names(docs: seq<Document>): (r: seq<string>)
    ensures |r| == |docs|
    ensures forall j :: 0 <= j < |docs| ==> r[j] == docs[j].name
  {
    seq(|docs|, j requires 0 <= j < |docs| => docs[j].name)
  }

  /** The sections `extract_sections` finds in each document. */
  function Extracted(docs: seq<Document>): (r: seq<seq<Section>>)
    ensures |r| == |docs|
    ensures forall j :: 0 <= j < |docs| ==> r[j] == SectionsOf(docs[j].tokens)
  {
    seq(|docs|, j requires 0 <= j < |docs| => SectionsOf(docs[j].tokens))
  }

  /** Sections tagged with the name of the document they come from. */
  function Tag(name: string, secs: seq<Section>): (r: seq<Located>)
    ensures |r| == |secs|
    ensures forall i :: 0 <= i < |r| ==> r[i] == Located(name, secs[i])
  {
    seq(|secs|, i requires 0 <= i < |secs| => Located(name, secs[i]))
  }

  /** Group after group, each group tagged with its name. */
  function Gather(names: seq<string>, groups: seq<seq<Section>>): seq<Located>
    requires |names| == |groups|
  {
    if names == [] then []
    else Gather(names[..|names| - 1], groups[..|groups| - 1]) + Tag(names[|names| - 1], groups[|groups| - 1])
  }

  lemma GatherStep(names: seq<string>, groups: seq<seq<Section>>, i: nat)
    requires |names| == |groups| && i < |names|
    ensures Gather(names[..i + 1], groups[..i + 1]) == Gather(names[..i], groups[..i]) + Tag(names[i], groups[i])
  {
    assert names[..i + 1][..i] == names[..i] && groups[..i + 1][..i] == groups[..i];
  }

  /** All sections, document by document in the given order, each
      document's sections in their own order. */
  function AllSections(docs: seq<Document>): seq<Located> {
    Gather(Names(docs), Extracted(docs))
  }

  lemma TagMembers(name: string, secs: seq<Section>, x: Located)
    ensures x in Tag(name, secs) <==> x.document == name && x.section in secs
  {
    if x.document == name && x.section in secs {
      var i :| 0 <= i < |secs| && secs[i] == x.section;
      assert Tag(name, secs)[i] == x;
    }
  }

  lemma {:induction false} GatherSound(names: seq<string>, groups: seq<seq<Section>>, x: Located)
    requires |names| == |groups| && x in Gather(names, groups)
    ensures exists j :: 0 <= j < |names| && x.document == names[j] && x.section in groups[j]
  {
    var n := |names| - 1;
    TagMembers(names[n], groups[n], x);
    if x !in Tag(names[n], groups[n]) {
      GatherSound(names[..n], groups[..n], x);
      var j :| 0 <= j < n && x.document == names[..n][j] && x.section in groups[..n][j];
      assert names[j] == names[..n][j] && groups[j] == groups[..n][j];
    }
  }

  lemma {:induction false} GatherComplete(names: seq<string>, groups: seq<seq<Section>>, j: nat, x: Located)
    requires |names| == |groups| && j < |names| && x.document == names[j] && x.section in groups[j]
    ensures x in Gather(names, groups)
  {
    var n := |names| - 1;
    if j == n {
      TagMembers(names[n], groups[n], x);
    } else {
      assert names[..n][j] == names[j] && groups[..n][j] == groups[j];
      GatherComplete(names[..n], groups[..n], j, x);
    }
  }

  lemma GatherMembers(names: seq<string>, groups: seq<seq<Section>>, x: Located)
    requires |names| == |groups|
    ensures x in Gather(names, groups) <==>
      exists j :: 0 <= j < |names| && x.document == names[j] && x.section in groups[j]
  {
    if x in Gather(names, groups) {
      GatherSound(names, groups, x);
    }
    if exists j :: 0 <= j < |names| && x.document == names[j] && x.section in groups[j] {
      var j :| 0 <= j < |names| && x.document == names[j] && x.section in groups[j];
      GatherComplete(names, groups, j, x);
    }
  }

  /** Every collected section comes from some document, under that
      document's name, and every section of every document is collected. */
  lemma AllSectionsMembers(docs: seq<Document>, x: Located)
    ensures x in AllSections(docs) <==>
      exists j :: 0 <= j < |docs| && x.document == docs[j].name && x.section in Extracted(docs)[j]
  {
    GatherMembers(Names(docs), Extracted(docs), x);
  }

  /** The inner loop of the collection: tags each section of one file
      with the file name and appends it. */
  method AppendTagged(all: seq<Located>, name: string, sections: seq<Section>) returns (all': seq<Located>)
    ensures all' == all + Tag(name, sections)
  {
    all' := all;
    var j := 0;
    while j < |sections|
      invariant 0 <= j <= |sections|
      invariant all' == all + Tag(name, sections)[..j]
    {
      all' := all' + [Located(name, sections[j])];
      j := j + 1;
    }
  }

  /** The collecting loop: for each file in order, extract its sections and
      append them tagged with the file name. */
  method CollectSections(docs: seq<Document>) returns (all: seq<Located>)
    ensures all == AllSections(docs)
  {
    ghost var names, groups := Names(docs), Extracted(docs);
    all := [];
    var i := 0;
    while i < |docs|
      invariant 0 <= i <= |docs|
      invariant all == Gather(names[..i], groups[..i])
    {
      var sections := ExtractSections(docs[i].tokens);
      GatherStep(names, groups, i);
      all := AppendTagged(all, docs[i].name, sections);
      i := i + 1;
    }
    assert names[..|docs|] == names && groups[..|docs|] == groups;
  }

  // ---------------------------------------------------------------------
  // Scoring

  /** The score of every section, in the same order. */
  function ScoreEach(xs: seq<Located>, keywords: seq<string>, expertise: string, terms: seq<string>): (r: seq<Scored>)
    ensures |r| == |xs|
    ensures forall i :: 0 <= i < |xs| ==>
      r[i].document == xs[i].document && r[i].section == xs[i].section
      && r[i].score == ScoreSection(xs[i].section, keywords, expertise, terms)
  {
    seq(|xs|, i requires 0 <= i < |xs| => Scored(xs[i].document, xs[i].section, ScoreSection(xs[i].section, keywords, expertise, terms)))
  }

  /** The scoring loop: every section gets its score, nothing else changes,
      and no score exceeds the number of keywords plus advanced terms. */
  method ScoreAll(xs: seq<Located>, keywords: seq<string>, expertise: string, terms: seq<string>) returns (scored: seq<Scored>)
    ensures scored == ScoreEach(xs, keywords, expertise, terms)
    ensures forall i :: 0 <= i < |scored| ==> scored[i].score <= |keywords| + |terms|
  {
    scored := [];
    var i := 0;
    while i < |xs|
      invariant 0 <= i <= |xs|
      invariant scored == ScoreEach(xs, keywords, expertise, terms)[..i]
    {
      var s := ScoreSection(xs[i].section, keywords, expertise, terms);
      scored := scored + [Scored(xs[i].document, xs[i].section, s)];
      i := i + 1;
    }
  }

  // ---------------------------------------------------------------------
  // Filtering and the stable sort

  /** `[s for s in all_sections if s['score'] > 0]`. */
  function Positive(xs: seq<Scored>): (r: seq<Scored>)
    ensures forall i :: 0 <= i < |r| ==> r[i].score > 0
  {
    if xs == [] then []
    else (if xs[0].score > 0 then [xs[0]] else []) + Positive(xs[1..])
  }

  /** The entries with score `k`, in their order. */
  function WithScore(xs: seq<Scored>, k: nat): seq<Scored> {
    if xs == [] then []
    else (if xs[0].score == k then [xs[0]] else []) + WithScore(xs[1..], k)
  }

  lemma {:induction false} WithScoreAppend(a: seq<Scored>, b: seq<Scored>, k: nat)
    ensures WithScore(a + b, k) == WithScore(a, k) + WithScore(b, k)
  {
    if a == [] {
      assert a + b == b;
    } else {
      assert a + b == [a[0]] + (a[1..] + b);
      assert a == [a[0]] + a[1..];
      WithScoreCons(a[0], a[1..] + b, k);
      WithScoreCons(a[0], a[1..], k);
      WithScoreAppend(a[1..], b, k);
    }
  }

  lemma WithScoreSnoc(xs: seq<Scored>, x: Scored, k: nat)
    ensures WithScore(xs + [x], k) == WithScore(xs, k) + (if x.score == k then [x] else [])
  {
    WithScoreAppend(xs, [x], k);
    assert [x][1..] == [];
  }

  lemma WithScoreCons(y: Scored, t: seq<Scored>, k: nat)
    ensures WithScore([y] + t, k) == (if y.score == k then [y] else []) + WithScore(t, k)
  {
    assert ([y] + t)[1..] == t;
  }

  lemma {:induction false} WithScoreNone(xs: seq<Scored>, k: nat)
    requires forall i :: 0 <= i < |xs| ==> xs[i].score != k
    ensures WithScore(xs, k) == []
  {
    if xs != [] {
      WithScoreNone(xs[1..], k);
    }
  }

  /** Filtering keeps, in order, every entry with a positive score: for
      every positive score the entries with that score are unchanged, and
      none with score 0 is left. */
  lemma {:induction false} PositiveKeeps(xs: seq<Scored>, k: nat)
    ensures k > 0 ==> WithScore(Positive(xs), k) == WithScore(xs, k)
    ensures k == 0 ==> WithScore(Positive(xs), k) == []
  {
    if xs != [] {
      PositiveKeeps(xs[1..], k);
      var head := if xs[0].score > 0 then [xs[0]] else [];
      WithScoreAppend(head, Positive(xs[1..]), k);
    }
  }

  /** Membership in the filtered list. */
  lemma {:induction false} PositiveMembers(xs: seq<Scored>, x: Scored)
    ensures x in Positive(xs) <==> x in xs && x.score > 0
  {
    if xs != [] {
      PositiveMembers(xs[1..], x);
      assert xs == [xs[0]] + xs[1..];
    }
  }

  /** The filter keeps the input order: filtering a concatenation filters
      each part and concatenates the results. */
  lemma {:induction false} PositiveAppend(a: seq<Scored>, b: seq<Scored>)
    ensures Positive(a + b) == Positive(a) + Positive(b)
  {
    if a == [] {
      assert a + b == b;
    } else {
      assert (a + b)[1..] == a[1..] + b;
      PositiveAppend(a[1..], b);
    }
  }

  /** Scores never increase along the sequence. */
  predicate NonIncreasing(xs: seq<Scored>) {
    forall i, j :: 0 <= i < j < |xs| ==> xs[i].score >= xs[j].score
  }

  lemma TailNonIncreasing(s: seq<Scored>)
    requires NonIncreasing(s) && s != []
    ensures NonIncreasing(s[1..])
  {
    forall i, j | 0 <= i < j < |s[1..]| ensures s[1..][i].score >= s[1..][j].score {
      assert s[1..][i] == s[i + 1] && s[1..][j] == s[j + 1];
    }
  }

  /** Puts `x` after every entry whose score is at least `x`'s. */
  function InsertByScore(x: Scored, s: seq<Scored>): seq<Scored> {
    if s == [] then [x]
    else if s[0].score >= x.score then [s[0]] + InsertByScore(x, s[1..])
    else [x] + s
  }

  /** Inserting adds `x` and loses nothing. */
  lemma {:induction false} InsertPermutes(x: Scored, s: seq<Scored>)
    ensures multiset(InsertByScore(x, s)) == multiset(s) + multiset{x}
  {
    if s != [] && s[0].score >= x.score {
      InsertPermutes(x, s[1..]);
      assert s == [s[0]] + s[1..];
    }
  }

  /** `sorted(..., key=score, reverse=True)`: a stable sort, highest score
      first, here as an insertion sort that inserts each entry, in order,
      after the entries already placed with at least its score. */
  function SortByScore(xs: seq<Scored>): seq<Scored> {
    if xs == [] then []
    else InsertByScore(xs[|xs| - 1], SortByScore(xs[..|xs| - 1]))
  }

  /** The sort is a permutation of its input. */
  lemma {:induction false} SortPermutes(xs: seq<Scored>)
    ensures multiset(SortByScore(xs)) == multiset(xs)
  {
    if xs != [] {
      SortPermutes(xs[..|xs| - 1]);
      InsertPermutes(xs[|xs| - 1], SortByScore(xs[..|xs| - 1]));
      assert xs == xs[..|xs| - 1] + [xs[|xs| - 1]];
    }
  }

  /** Inserting below a bound stays below it. */
  lemma {:induction false} InsertBounded(x: Scored, s: seq<Scored>, b: nat)
    requires x.score <= b && forall i :: 0 <= i < |s| ==> s[i].score <= b
    ensures forall i :: 0 <= i < |InsertByScore(x, s)| ==> InsertByScore(x, s)[i].score <= b
  {
    if s != [] && s[0].score >= x.score {
      InsertBounded(x, s[1..], b);
      var t := InsertByScore(x, s[1..]);
      assert forall i :: 1 <= i < |[s[0]] + t| ==> ([s[0]] + t)[i] == t[i - 1];
    }
  }

  lemma {:induction false} InsertKeepsOrder(x: Scored, s: seq<Scored>)
    requires NonIncreasing(s)
    ensures NonIncreasing(InsertByScore(x, s))
  {
    if s == [] {
    } else if s[0].score >= x.score {
      var t := InsertByScore(x, s[1..]);
      TailNonIncreasing(s);
      InsertKeepsOrder(x, s[1..]);
      forall i | 0 <= i < |s[1..]| ensures s[1..][i].score <= s[0].score {
        assert s[1..][i] == s[i + 1];
      }
      InsertBounded(x, s[1..], s[0].score);
      var r := [s[0]] + t;
      forall i, j | 0 <= i < j < |r| ensures r[i].score >= r[j].score {
        assert r[j] == t[j - 1];
        if i > 0 {
          assert r[i] == t[i - 1];
        }
      }
    } else {
      var r := [x] + s;
      forall i, j | 0 <= i < j < |r| ensures r[i].score >= r[j].score {
        assert r[j] == s[j - 1];
        if i > 0 {
          assert r[i] == s[i - 1];
        }
      }
    }
  }

  /** Inserting `x` appends it to the entries of its own score and leaves
      the entries of every other score as they were. */
  lemma {:induction false} InsertStable(x: Scored, s: seq<Scored>, k: nat)
    requires NonIncreasing(s)
    ensures WithScore(InsertByScore(x, s), k) == WithScore(s, k) + (if x.score == k then [x] else [])
  {
    if s == [] {
      WithScoreCons(x, [], k);
    } else if s[0].score >= x.score {
      TailNonIncreasing(s);
      InsertStable(x, s[1..], k);
      InsertStableBehind(x, s, k);
    } else {
      InsertStableAhead(x, s, k);
    }
  }

  /** `x` goes behind the head of `s`. */
  lemma InsertStableBehind(x: Scored, s: seq<Scored>, k: nat)
    requires s != [] && s[0].score >= x.score
    requires WithScore(InsertByScore(x, s[1..]), k) == WithScore(s[1..], k) + (if x.score == k then [x] else [])
    ensures WithScore(InsertByScore(x, s), k) == WithScore(s, k) + (if x.score == k then [x] else [])
  {
    var t := InsertByScore(x, s[1..]);
    assert InsertByScore(x, s) == [s[0]] + t;
    WithScoreCons(s[0], t, k);
    WithScoreCons(s[0], s[1..], k);
    assert s == [s[0]] + s[1..];
  }

  /** `x` goes in front of `s`, whose scores are all below `x`'s. */
  lemma InsertStableAhead(x: Scored, s: seq<Scored>, k: nat)
    requires NonIncreasing(s) && s != [] && s[0].score < x.score
    ensures WithScore(InsertByScore(x, s), k) == WithScore(s, k) + (if x.score == k then [x] else [])
  {
    assert InsertByScore(x, s) == [x] + s;
    if x.score == k {
      forall i | 0 <= i < |s| ensures s[i].score != k {
        if i > 0 {
          assert s[0].score >= s[i].score;
        }
      }
      WithScoreNone(s, k);
    }
    WithScoreCons(x, s, k);
  }

  lemma {:induction false} SortNonIncreasing(xs: seq<Scored>)
    ensures NonIncreasing(SortByScore(xs))
  {
    if xs != [] {
      SortNonIncreasing(xs[..|xs| - 1]);
      InsertKeepsOrder(xs[|xs| - 1], SortByScore(xs[..|xs| - 1]));
    }
  }

  /** Stability: for every score, the entries with that score come out in
      the order they went in. */
  lemma {:induction false} SortStable(xs: seq<Scored>, k: nat)
    ensures WithScore(SortByScore(xs), k) == WithScore(xs, k)
  {
    if xs != [] {
      var init, last := xs[..|xs| - 1], xs[|xs| - 1];
      SortStable(init, k);
      SortNonIncreasing(init);
      InsertStable(last, SortByScore(init), k);
      WithScoreSnoc(init, last, k);
      assert xs == init + [last];
    }
  }

  /** The ranked sections: the positive ones, best first. */
  function Ranked(scored: seq<Scored>): seq<Scored> {
    SortByScore(Positive(scored))
  }

  /** What ranking promises: exactly the entries with a positive score
      (with their multiplicities), scores non-increasing, and entries of
      equal score in their original order. */
  lemma RankedProperties(scored: seq<Scored>)
    ensures multiset(Ranked(scored)) == multiset(Positive(scored))
    ensures forall x :: x in Ranked(scored) <==> x in scored && x.score > 0
    ensures NonIncreasing(Ranked(scored))
    ensures forall k :: k > 0 ==> WithScore(Ranked(scored), k) == WithScore(scored, k)
    ensures WithScore(Ranked(scored), 0) == []
  {
    var p := Positive(scored);
    SortNonIncreasing(p);
    SortPermutes(p);
    forall x ensures x in Ranked(scored) <==> x in scored && x.score > 0 {
      assert x in Ranked(scored) <==> x in multiset(Ranked(scored));
      PositiveMembers(scored, x);
    }
    forall k: nat ensures k > 0 ==> WithScore(Ranked(scored), k) == WithScore(scored, k) {
      SortStable(p, k);
      PositiveKeeps(scored, k);
    }
    SortStable(p, 0);
    PositiveKeeps(scored, 0);
  }

  // ---------------------------------------------------------------------
  // The distinct, sorted document names

  /** Strictly increasing in Python's string order. */
  predicate StrictlySorted(s: seq<string>) {
    forall i, j :: 0 <= i < j < |s| ==> LexLess(s[i], s[j])
  }

  /** The set of names in a list. */
  function Elems(s: seq<string>): set<string> {
    set x | x in s
  }

  lemma ElemsEmpty(s: seq<string>)
    ensures Elems(s) == {} <==> s == []
  {
    if s != [] {
      assert s[0] in Elems(s);
    }
  }

  /** Adds `x` to a sorted list of distinct names, at its place, unless it
      is already there. */
  function InsertName(x: string, s: seq<string>): (r: seq<string>)
    ensures Elems(r) == Elems(s) + {x}
  {
    if s == [] then [x]
    else if x == s[0] then
      assert s == [s[0]] + s[1..];
      s
    else if LexLess(x, s[0]) then
      assert Elems([x] + s) == {x} + Elems(s);
      [x] + s
    else
      var t := InsertName(x, s[1..]);
      assert s == [s[0]] + s[1..];
      assert Elems(s) == {s[0]} + Elems(s[1..]);
      assert Elems([s[0]] + t) == {s[0]} + Elems(t);
      [s[0]] + t
  }

  lemma {:induction false} InsertNameSorted(x: string, s: seq<string>)
    requires StrictlySorted(s)
    ensures StrictlySorted(InsertName(x, s))
  {
    if s != [] && x != s[0] {
      if LexLess(x, s[0]) {
        var r := [x] + s;
        forall i, j | 0 <= i < j < |r| ensures LexLess(r[i], r[j]) {
          if i == 0 && j > 1 {
            LexLessTransitive(x, s[0], s[j - 1]);
          }
        }
      } else {
        LexLessTotal(x, s[0]);
        InsertNameSorted(x, s[1..]);
        var t := InsertName(x, s[1..]);
        var r := [s[0]] + t;
        forall i, j | 0 <= i < j < |r| ensures LexLess(r[i], r[j]) {
          if i == 0 {
            assert r[j] == t[j - 1];
            assert t[j - 1] in Elems(t);
            if t[j - 1] != x {
              var m :| 0 <= m < |s[1..]| && s[1..][m] == t[j - 1];
              assert s[m + 1] == t[j - 1];
            }
          } else {
            assert r[i] == t[i - 1] && r[j] == t[j - 1];
          }
        }
      }
    }
  }

  /** `sorted(set(names))`. */
  function SortedDistinct(names: seq<string>): (r: seq<string>)
    ensures Elems(r) == Elems(names)
  {
    if names == [] then []
    else
      var init := names[..|names| - 1];
      assert names == init + [names[|names| - 1]];
      assert Elems(names) == Elems(init) + {names[|names| - 1]};
      InsertName(names[|names| - 1], SortedDistinct(init))
  }

  lemma {:induction false} SortedDistinctSorted(names: seq<string>)
    ensures StrictlySorted(SortedDistinct(names))
  {
    if names != [] {
      SortedDistinctSorted(names[..|names| - 1]);
      InsertNameSorted(names[|names| - 1], SortedDistinct(names[..|names| - 1]));
    }
  }

  /** A strictly sorted list is determined by its set of elements, so
      `SortedDistinct` is the one list Python's `sorted(set(...))` gives. */
  lemma {:induction false} StrictlySortedUnique(a: seq<string>, b: seq<string>)
    requires StrictlySorted(a) && StrictlySorted(b)
    requires Elems(a) == Elems(b)
    ensures a == b
  {
    var sa, sb := Elems(a), Elems(b);
    ElemsEmpty(a);
    ElemsEmpty(b);
    if a != [] {
      assert a[0] in sb;
      var m :| 0 <= m < |b| && b[m] == a[0];
      assert b[0] in sa;
      var n :| 0 <= n < |a| && a[n] == b[0];
      if m > 0 && n > 0 {
        LexLessAsymmetric(a[0], b[0]);
      } else if m > 0 {
        LexLessIrreflexive(b[0]);
      } else if n > 0 {
        LexLessIrreflexive(a[0]);
      }
      assert a[0] == b[0];
      var ta, tb := a[1..], b[1..];
      forall y | y in Elems(ta) ensures y in Elems(tb) {
        var i :| 0 <= i < |ta| && ta[i] == y;
        assert a[i + 1] == y && y in sb;
        var j :| 0 <= j < |b| && b[j] == y;
        if j == 0 {
          LexLessIrreflexive(a[0]);
        }
        assert tb[j - 1] == y;
      }
      forall y | y in Elems(tb) ensures y in Elems(ta) {
        var j :| 0 <= j < |tb| && tb[j] == y;
        assert b[j + 1] == y && y in sa;
        var i :| 0 <= i < |a| && a[i] == y;
        if i == 0 {
          LexLessIrreflexive(b[0]);
        }
        assert ta[i - 1] == y;
      }
      StrictlySortedUnique(ta, tb);
      assert a == [a[0]] + ta && b == [b[0]] + tb;
    }
  }

  /** The document names of the ranked entries, in ranked order. */
  function DocumentNames(ranked: seq<Scored>): (r: seq<string>)
    ensures |r| == |ranked|
    ensures forall i :: 0 <= i < |ranked| ==> r[i] == ranked[i].document
  {
    seq(|ranked|, i requires 0 <= i < |ranked| => ranked[i].document)
  }

  // ---------------------------------------------------------------------
  // The report

  /** The result entry for ranked entry `x` at 1-based position `rank`. */
  function ResultOf(x: Scored, rank: nat, keywords: seq<string>): RankedResult {
    RankedResult(x.document, x.section.page, x.section.title, x.section.level,
      rank, x.score, TopSnippet(x.section.content, keywords))
  }

  function Results(ranked: seq<Scored>, keywords: seq<string>): (r: seq<RankedResult>)
    ensures |r| == |ranked|
    ensures forall i :: 0 <= i < |ranked| ==> r[i] == ResultOf(ranked[i], i + 1, keywords)
  {
    seq(|ranked|, i requires 0 <= i < |ranked| => ResultOf(ranked[i], i + 1, keywords))
  }

  /** The result loop of `enumerate(ranked_sections, 1)`: entry `i` copies
      the document, page, title, level and score of the `i`-th ranked
      section, gets rank `i + 1` and the section's top snippet. */
  method AssembleResults(ranked: seq<Scored>, keywords: seq<string>) returns (results: seq<RankedResult>)
    ensures results == Results(ranked, keywords)
    ensures |results| == |ranked|
    ensures forall i :: 0 <= i < |ranked| ==>
      results[i].relevanceRank == i + 1
      && results[i].document == ranked[i].document
      && results[i].page == ranked[i].section.page
      && results[i].sectionTitle == ranked[i].section.title
      && results[i].sectionLevel == ranked[i].section.level
      && results[i].relevanceScore == ranked[i].score
      && results[i].snippet == TopSnippet(ranked[i].section.content, keywords)
  {
    results := [];
    var i := 0;
    while i < |ranked|
      invariant 0 <= i <= |ranked|
      invariant results == Results(ranked, keywords)[..i]
    {
      var sec := ranked[i];
      var snippet := TopSnippet(sec.section.content, keywords);
      results := results + [RankedResult(sec.document, sec.section.page, sec.section.title,
        sec.section.level, i + 1, sec.score, snippet)];
      i := i + 1;
    }
  }

  /** The report built from the scored sections of every document. */
  function Assemble(scored: seq<Scored>, persona: Persona, job: string, keywords: seq<string>,
                    timestamp: string): Report
  {
    var ranked := Ranked(scored);
    Report(Metadata(persona, job, timestamp, SortedDistinct(DocumentNames(ranked))),
           Results(ranked, keywords))
  }

  /** The report for a non-empty list of documents. */
  function ReportOf(docs: seq<Document>, persona: Persona, job: string, keywords: seq<string>,
                    terms: seq<string>, timestamp: string): Report
  {
    Assemble(ScoreEach(AllSections(docs), keywords, Expertise(persona), terms), persona, job, keywords, timestamp)
  }

  /** The pure part of `main`: no report when there is no PDF; otherwise
      the report built from every document's sections. The timestamp is a
      parameter. */
  method Run(docs: seq<Document>, persona: Persona, job: string, keywords: seq<string>,
             terms: seq<string>, timestamp: string) returns (report: Option<Report>)
    ensures report.None? <==> docs == []
    ensures report.Some? ==> report.value == ReportOf(docs, persona, job, keywords, terms, timestamp)
  {
    if |docs| == 0 {
      return None;
    }
    var all := CollectSections(docs);
    var scored := ScoreAll(all, keywords, Expertise(persona), terms);
    var ranked := SortByScore(Positive(scored));
    var results := AssembleResults(ranked, keywords);
    var pdfs := SortedDistinct(DocumentNames(ranked));
    report := Some(Report(Metadata(persona, job, timestamp, pdfs), results));
  }

  /** The names in `pdfs` are strictly sorted and are exactly the
      documents of the results. */
  lemma PdfsProperties(ranked: seq<Scored>, keywords: seq<string>)
    ensures StrictlySorted(SortedDistinct(DocumentNames(ranked)))
    ensures forall n :: n in SortedDistinct(DocumentNames(ranked)) <==>
      exists i :: 0 <= i < |Results(ranked, keywords)| && Results(ranked, keywords)[i].document == n
  {
    var names := DocumentNames(ranked);
    var results := Results(ranked, keywords);
    SortedDistinctSorted(names);
    forall n ensures n in SortedDistinct(names) <==> exists i :: 0 <= i < |results| && results[i].document == n {
      assert n in SortedDistinct(names) <==> n in Elems(names);
      if n in Elems(names) {
        var i :| 0 <= i < |names| && names[i] == n;
        assert results[i].document == n;
      }
    }
  }

  /** What the report promises: the persona, job and timestamp echoed;
      results numbered 1..n with positive, non-increasing scores, one per
      ranked section and carrying its fields and snippet; `pdfs` strictly
      sorted and naming exactly the documents of the results. */
  lemma ReportProperties(scored: seq<Scored>, persona: Persona, job: string, keywords: seq<string>, timestamp: string)
    ensures var rep := Assemble(scored, persona, job, keywords, timestamp);
      rep.metadata.persona == persona && rep.metadata.job == job && rep.metadata.timestamp == timestamp
    ensures var r := Assemble(scored, persona, job, keywords, timestamp).results;
      var ranked := Ranked(scored);
      |r| == |ranked|
      && (forall i :: 0 <= i < |r| ==>
        r[i].relevanceRank == i + 1 && r[i].relevanceScore == ranked[i].score > 0
        && r[i].document == ranked[i].document && r[i].page == ranked[i].section.page
        && r[i].sectionTitle == ranked[i].section.title && r[i].sectionLevel == ranked[i].section.level
        && r[i].snippet == TopSnippet(ranked[i].section.content, keywords))
      && (forall i, j :: 0 <= i < j < |r| ==> r[i].relevanceScore >= r[j].relevanceScore)
    ensures var rep := Assemble(scored, persona, job, keywords, timestamp);
      StrictlySorted(rep.metadata.pdfs)
      && (forall n :: n in rep.metadata.pdfs <==> exists i :: 0 <= i < |rep.results| && rep.results[i].document == n)
  {
    var ranked := Ranked(scored);
    SortNonIncreasing(Positive(scored));
    forall i | 0 <= i < |ranked| ensures ranked[i].score > 0 {
      SortPermutes(Positive(scored));
      assert ranked[i] in multiset(Positive(scored));
    }
    PdfsProperties(ranked, keywords);
  }
}
