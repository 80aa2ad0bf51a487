# Section reconstruction and relevance ranking of `process_pdfs.py`

This project models, in Dafny, the core of `process_pdfs.py`: the pipeline
that turns the positioned words of a batch of PDF documents into titled
sections and ranks those sections against a persona profile.

- **Header classifier** (`detect_section_headers`). It finds the largest
  font size of a document. It then tags each token by a first-match-wins
  rule chain:
  - `Title`: largest size on page 1;
  - `H3`, `H2`, `H1`: a leading `d.d.d`, `d.d` or `d.` number;
  - `H1`: an upper-case text of more than three characters in a font at
    most 1.5 below the largest.
- **Section builder** (`extract_sections`). Each header opens a section.
  The section's content is the raw texts of the tokens after the header,
  up to the next header, joined with newlines.
- **Relevance scorer** (`score_section`). It counts the keywords that occur
  in the lower-cased title and content, ignoring case. For a persona whose
  expertise mentions "advanced", it adds the advanced terms that occur,
  compared as given.
- **Snippet extractor** (`extract_top_snippet`). It picks the first of the
  content lines with the most keyword hits, or `""` when no line has one.
- **Ranking** (the pure part of `main`). It:
  - collects the sections of every document, tagged with the file name;
  - scores them and keeps those with a positive score;
  - stable-sorts them by score, highest first;
  - numbers them 1..n;
  - lists the distinct document names in sorted order.

Modules:

- `Wrappers`: `Option`.
- `Text`: the Python string operations the pipeline uses, over ASCII:
  `strip`, `lower`, `isupper`, the substring test, `split('\n')`,
  `"\n".join`, and string order.
- `Headers`: the classifier.
- `Sections`: the section builder.
- `Scoring`: the scorer and the snippet extractor.
- `Ranking`: the collection, the stable sort, the names list and the report.

The loops of the source are methods, each proved equal to a specification
function:
- the classifier walk: `DetectSectionHeaders`;
- the section loop: `SectionsFrom` / `ExtractSections`;
- the collecting, scoring and result loops: `CollectSections`, `ScoreAll`,
  `AssembleResults`.

The properties are proved as lemmas about those functions. These are:
- the rule chain's meaning, rule by rule, with the regular expressions read
  literally;
- what tags and spans look like: existing tokens, strictly ascending, and
  spans that tile the document from the first header on;
- the exact-count meaning of the scores;
- the first-maximum choice of the snippet;
- that the ranking is a stable permutation of the positive sections;
- that the names list is the unique strictly sorted list of the result
  documents.

Font sizes are Dafny `real`s, so `largest - 1.5` and the size equality are
exact.

Two behaviours of the code worth knowing:

- A token whose stripped text is empty is still classified. For example, a
  blank token in the largest font on page 1 becomes a `Title` with an empty
  title (`Headers.TitleWins` places no condition on the text).
- That `extract_top_snippet` returns `""` exactly when no line matches is
  guaranteed only when no keyword is empty. An empty keyword occurs in every line, including an
  empty one, so empty content then yields `""` although its line matches
  (`Scoring.EmptySnippetIff`, `Scoring.EmptySnippetDespiteMatch`).

## Model

| member | source | states |
|---|---|---|
| Text.StripProperties | process_pdfs.py:59 | `strip()` removes only whitespace. The result neither starts nor ends with whitespace. Text without whitespace at its ends is unchanged. |
| Text.Strip | process_pdfs.py:59 | `strip()` is defined as trimming whitespace at the start and then at the end. Its properties are stated by `StripProperties` and the contracts of `TrimStart` and `TrimEnd`. |
| Text.StripIdempotent | process_pdfs.py:59 | Stripping a stripped text changes nothing. |
| Text.Lower | process_pdfs.py:88-89 | `lower()` keeps the length and maps each upper-case letter to its lower-case letter and every other character to itself. |
| Text.IsUpper | process_pdfs.py:68 | `isupper()` holds when the text has an upper-case letter and no lower-case letter. |
| Text.IsUpperMeaning | process_pdfs.py:68 | A text is upper-case exactly when lower-casing changes it and it holds no lower-case letter. Lower-casing an upper-case text never gives an upper-case text. |
| Text.IsSubstring | process_pdfs.py:89-92 | `p in t` holds when `p` occurs in `t` at some position; `OccursInMiddle` and `EmptyIsSubstring` state where it holds. |
| Text.UpperNotInCaseless | process_pdfs.py:92 | A pattern holding an upper-case letter never occurs in a text holding none. |
| Text.SplitLines | process_pdfs.py:96 | `split('\n')` gives at least one piece and no piece holds a newline. |
| Text.JoinSplit | process_pdfs.py:96 | Joining the pieces of a split with newlines gives back the original string. |
| Text.JoinLines | process_pdfs.py:77 | `"\n".join(parts)`: the parts in order with a newline between consecutive parts and none at the ends. `SplitJoin` and `JoinSplit` tie it to the split. |
| Text.SplitJoin | process_pdfs.py:77 | Splitting the newline-join of newline-free pieces gives back the pieces. |
| Text.LexLess | process_pdfs.py:142 | Python's `<` on strings: code-point lexicographic order, where a proper prefix comes first. Proved a strict total order by `LexLessIrreflexive`, `LexLessAsymmetric`, `LexLessTotal` and `LexLessTransitive`. |
| Text.LexLessTotal | process_pdfs.py:142 | Python's string order is total on distinct strings. |
| Text.LexLessTransitive | process_pdfs.py:142 | Python's string order is transitive. |
| Headers.LargestSize | process_pdfs.py:57 | The largest size is the size of some token and no token's size exceeds it. |
| Headers.LeadingDigits | process_pdfs.py:62-66 | The leading digit run is all digits and is followed by a non-digit or by the end of the text. |
| Headers.DottedNumber | process_pdfs.py:62-64 | `re.match(r'^\d+\.\d+\.\d+')` for three groups and `re.match(r'^\d+\.\d+')` for two, each group a maximal run of leading digits. Read literally by `ThreeGroupsMeaning` and `TwoGroupsMeaning`. |
| Headers.NumberDot | process_pdfs.py:66 | `re.match(r'^\d+\.')`: leading digits followed by `.`. Read literally by `NumberDotMeaning`. |
| Headers.NumberDotMeaning | process_pdfs.py:66 | The one-group rule holds exactly when the text starts with one or more digits followed by `.`. |
| Headers.ThreeGroupsMeaning | process_pdfs.py:62 | The three-group rule holds exactly when the text starts with digits, `.`, digits, `.`, and a digit. |
| Headers.TwoGroupsMeaning | process_pdfs.py:64 | The two-group rule holds exactly when the text starts with digits, `.`, digits. |
| Headers.Classify | process_pdfs.py:59-69 | The if/elif chain on the stripped text: title, three-group, two-group, one-group number, then caps, first match wins. Its outcomes are characterised by `ClassifyMeaning`. |
| Headers.ClassifyMeaning | process_pdfs.py:60-69 | Each level is given exactly when its rule applies and no earlier rule does. No tag is given exactly when no rule applies. |
| Headers.HeadersOf | process_pdfs.py:54-69 | The tags the generator yields: none for an empty document, otherwise the tag of the rule chain for each token that has one, in token order. Characterised by `HeadersOfProperties`. |
| Headers.HeadersOfProperties | process_pdfs.py:54-69 | An empty document yields no tags. Tags point at existing tokens in strictly ascending order, so no token has two tags. Each tag carries its token's rule-chain level, stripped text and page. A token is tagged exactly when some rule applies. |
| Headers.DetectSectionHeaders | process_pdfs.py:54-69 | The walk over the tokens yields exactly the specified tags, and they are well formed. |
| Headers.TitleWins | process_pdfs.py:60-61 | A token in the largest size on page 1 is a `Title`, whatever its text, including an empty text. |
| Headers.TwoGroupExample | process_pdfs.py:62-65 | `"2.1 Methods"`, when not a title, is `H2`: the three-group rule fails and the two-group rule matches. |
| Headers.ThreeGroupExample | process_pdfs.py:62-63 | `"1.2.3 x"`, when not a title, is `H3`. |
| Headers.CapsExample | process_pdfs.py:68-69 | `"RESULTS"` with largest size 18.0 is `H1` at size 16.5 and untagged at 16.4. |
| Headers.ShortNeverCaps | process_pdfs.py:68 | No text of three characters or fewer is a caps heading, whatever its case or size. |
| Headers.ShortCapsExample | process_pdfs.py:68-69 | `"ABC"`, when not a title, gets no tag. |
| Sections.SpanBounds | process_pdfs.py:75-76 | A section's span starts right after its header and ends inside the document. |
| Sections.SpanEnd | process_pdfs.py:76 | The end of section `i`'s span: the next header's token, or the document's length for the last header. `SpanBounds` bounds it. |
| Sections.SectionsOf | process_pdfs.py:71-85 | The sections `extract_sections` returns, built from `HeadersOf` of the document. Characterised by `SectionsOfMeaning`, `SpansDisjoint`, `SpansCover` and `BeforeFirstHeaderDropped`. |
| Sections.SectionsOfMeaning | process_pdfs.py:71-85 | There is one section per header, in header order. Each copies the header's title, level and page. Its content is the newline-join of the raw texts of the tokens between this header and the next, or the end of the document. |
| Sections.SectionsFrom | process_pdfs.py:73-85 | The section loop over well-formed headers builds exactly the specified sections. |
| Sections.ExtractSections | process_pdfs.py:71-85 | Classifier plus section loop yield exactly the specified sections of the document. |
| Sections.SpansDisjoint | process_pdfs.py:75-76 | The spans of two different sections never overlap. |
| Sections.SpansCover | process_pdfs.py:74-77 | From the first header on, every token is a header or lies in a span, and it belongs to exactly one section. |
| Sections.BeforeFirstHeaderDropped | process_pdfs.py:74-77 | Tokens before the first header belong to no section. |
| Sections.ContentLines | process_pdfs.py:77 | When no token text holds a newline, splitting a section's content gives back its tokens' texts. An empty span gives a single empty line. |
| Scoring.Matches | process_pdfs.py:89 | A count of occurring entries never exceeds the number of entries. |
| Scoring.MatchesZero | process_pdfs.py:89 | The count is 0 exactly when no entry occurs. |
| Scoring.MatchesAll | process_pdfs.py:89 | The count equals the number of entries exactly when every entry occurs. |
| Scoring.MatchesAppend | process_pdfs.py:89 | Counting over a concatenation adds the two counts. |
| Scoring.CombinedText | process_pdfs.py:88 | The title, a space and the content, all lower-cased. |
| Scoring.KeywordScore | process_pdfs.py:89 | How many keywords, each lower-cased, occur in the combined text. Characterised by `KeywordEntry` and `KeywordScoreIgnoresCase`. |
| Scoring.WantsAdvanced | process_pdfs.py:91 | `"advanced"` occurs in the lower-cased expertise. |
| Scoring.AdvancedScore | process_pdfs.py:90-92 | When the expertise wants advanced terms and there are some, how many terms, as given, occur in the combined text; otherwise 0. Characterised by `AdvancedGate`, `UpperTermNeverCounts` and `CountedTermIsLower`. |
| Scoring.ScoreSection | process_pdfs.py:87-93 | The score is at most the number of keywords plus the number of advanced terms. |
| Scoring.KeywordEntry | process_pdfs.py:88-89 | Each keyword entry adds 1 exactly when its lower-cased form occurs in the lower-cased title and content, so duplicates count twice. |
| Scoring.KeywordScoreIgnoresCase | process_pdfs.py:88-89 | Lower-casing title, content and keywords together leaves the keyword score unchanged. |
| Scoring.AdvancedGate | process_pdfs.py:90-91 | Without "advanced" in the expertise, or without advanced terms, the score is the keyword score alone. |
| Scoring.CountedTermIsLower | process_pdfs.py:92 | An advanced term that occurs in the combined text is already lower case, since that text is lower-cased. |
| Scoring.UpperTermNeverCounts | process_pdfs.py:91-92 | An advanced term holding an upper-case letter never adds to the score. |
| Scoring.LineScore | process_pdfs.py:97 | How many keywords, each lower-cased, occur in the lower-cased line. `EmptyKeywordMatchesEveryLine` shows an empty keyword always occurs. |
| Scoring.BestLine | process_pdfs.py:98-101 | No line is chosen exactly when every score is 0. When a line is chosen, its score is positive and maximal, and every earlier line scores strictly less, so it is the first maximum. |
| Scoring.TopSnippet | process_pdfs.py:95-101 | `extract_top_snippet`: the line `BestLine` picks among the newline-split content's line scores, or `""`. Its choice is stated by `TopSnippetChoice`. |
| Scoring.TopSnippetChoice | process_pdfs.py:95-101 | The snippet is `""` when no line matches. Otherwise it is a matching line with the highest score, and every earlier line scores less. |
| Scoring.EmptySnippetIff | process_pdfs.py:95-101 | With no empty keyword, the snippet is `""` exactly when no line matches. |
| Scoring.FirstFullLineWins | process_pdfs.py:95-101 | A first line holding every keyword, ignoring case, is the snippet whatever follows it. |
| Scoring.EmptyKeywordMatchesEveryLine | process_pdfs.py:97 | An empty keyword gives every line a score of at least 1. |
| Scoring.EmptySnippetDespiteMatch | process_pdfs.py:96-101 | With an empty keyword, empty content yields `""` although its one line matches. |
| Ranking.Expertise | process_pdfs.py:129 | `persona.get('expertise', '')`: the `expertise` entry, or `""` when there is none. Its partners are `ExpertiseOtherKeys` and `NoExpertiseNoBonus`. |
| Ranking.ExpertiseOtherKeys | process_pdfs.py:129 | Setting any persona entry other than `expertise` leaves the expertise unchanged. |
| Ranking.NoExpertiseNoBonus | process_pdfs.py:90-92 | A persona without an `expertise` entry gets no advanced bonus, so every section scores its keyword hits only. |
| Ranking.AllSections | process_pdfs.py:109-123 | `all_sections`: every document's extracted sections, document by document and in each document's order, each tagged with the file name. Characterised by `AllSectionsMembers` and computed by `CollectSections`. |
| Ranking.AllSectionsMembers | process_pdfs.py:116-123 | A located section is collected exactly when some document has that section and the entry carries that document's name. |
| Ranking.AppendTagged | process_pdfs.py:121-123 | The inner loop appends the file's sections, in order, each tagged with the file name. |
| Ranking.CollectSections | process_pdfs.py:116-123 | The collecting loop yields all sections, document by document, in order. |
| Ranking.ScoreAll | process_pdfs.py:126-131 | Every section gets its score and nothing else changes. No score exceeds the number of keywords plus terms. |
| Ranking.Positive | process_pdfs.py:134 | The filter keeps only entries with a positive score. `PositiveMembers` states which, `PositiveAppend` that input order is kept across all scores, and `PositiveKeeps` the order within each score. |
| Ranking.SortByScore | process_pdfs.py:134 | `sorted(..., key=score, reverse=True)` as an insertion sort that places each entry after all earlier entries of at least its score. It is proved a non-increasing, stable permutation by `SortPermutes`, `SortNonIncreasing` and `SortStable`. |
| Ranking.PositiveKeeps | process_pdfs.py:134 | For every positive score, the filter keeps the entries of that score in their input order. It removes every zero-score entry. |
| Ranking.PositiveAppend | process_pdfs.py:134 | Filtering a concatenation gives the concatenation of the filtered parts, so the filter keeps the input order of all entries. |
| Ranking.PositiveMembers | process_pdfs.py:134 | An entry survives the filter exactly when it is present with a positive score. |
| Ranking.SortPermutes | process_pdfs.py:134 | The sort is a permutation of its input. |
| Ranking.SortNonIncreasing | process_pdfs.py:134 | The sorted scores never increase. |
| Ranking.SortStable | process_pdfs.py:134 | The sort is stable: for every score, the entries with that score keep their input order. |
| Ranking.Ranked | process_pdfs.py:134 | `ranked_sections`: the sort of the positive-score entries. Characterised by `RankedProperties`. |
| Ranking.RankedProperties | process_pdfs.py:134 | The ranked list holds exactly the positive entries, with multiplicity. It is non-increasing and stable per score, and it holds no entry with score 0. |
| Ranking.InsertName | process_pdfs.py:142 | Inserting a name adds exactly that name to the set of names. |
| Ranking.SortedDistinct | process_pdfs.py:142 | `sorted(set(names))` has exactly the names' elements. |
| Ranking.SortedDistinctSorted | process_pdfs.py:142 | The list of distinct names is strictly increasing, so it has no duplicates. |
| Ranking.StrictlySortedUnique | process_pdfs.py:142 | Two strictly sorted lists with the same elements are equal, so the list is the one `sorted(set(...))` gives. |
| Ranking.AssembleResults | process_pdfs.py:146-155 | Result `i` has rank `i + 1` and copies document, page, title, level and score of the `i`-th ranked section, with its top snippet. |
| Ranking.Assemble | process_pdfs.py:134-155 | The report from the scored sections: metadata with persona, job, timestamp and `sorted(set(...))` of the ranked documents, and the numbered results. Stated by `ReportProperties`. |
| Ranking.ReportOf | process_pdfs.py:126-155 | The report for a list of documents: their collected sections, scored with the persona's expertise, then assembled. |
| Ranking.PdfsProperties | process_pdfs.py:142 | `pdfs` is strictly sorted and names exactly the documents of the results. |
| Ranking.ReportProperties | process_pdfs.py:134-155 | Persona, job and timestamp are echoed. Results are numbered 1..n with positive, non-increasing scores and carry their section's fields and snippet. `pdfs` is strictly sorted and names exactly the result documents. |
| Ranking.Run | process_pdfs.py:110-155 | There is no report exactly when there is no PDF. Otherwise the report is built from every document's sections. |

## Left out

- File and console I/O is not modelled: folder listing, the `.pdf` filter, `makedirs`, `json.dump`, the prints, and the configuration prompt and reader (`update_persona_config`, `read_config`). `Ranking.Run` receives the documents, the persona, the job, the keywords and the advanced terms as parameters.
- The PDF tokenizer (`extract_lines_from_pdf`) is an external library. A document is given as its sequence of tokens.
- `datetime.now()` is a clock. The timestamp is a parameter of `Ranking.Run`.
- Floating point is not modelled: sizes are exact reals, not IEEE doubles.
- `strip`, `lower`, `isupper` and `\d` are modelled over ASCII only. Unicode whitespace, digits and case mappings are not modelled.
- Python's sort algorithm (timsort) is not modelled. The stable sort is specified by its result, as an insertion sort proved to be a non-increasing, stable permutation.
- The section dictionaries are updated in place in the source. The model builds new values instead, so aliasing of those dictionaries is not captured.
- Ranking.Expertise: a persona `expertise` value that is not a string is not modelled. The persona is a map from strings to strings.
