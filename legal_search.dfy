/**
 * The deterministic helpers of `QdrantLegalSearchTool`: query normalisation with whole-word
 * expansion of Turkish legal abbreviations, the keyword query used as the last fallback, the
 * conversion of filter dicts into Qdrant conditions, the formatting of hits, and the fallback
 * sequence of `_run` with the vector search itself given as a function.
 */
module LegalSearch {
  import opened Wrappers
  import opened Text
  import opened JsonModel

  // ---------------------------------------------------------------------------------------
  // Query preprocessing

  /**
   * A character `\w` matches in a Python `str` pattern: letters, digits and '_' of ASCII,
   * Latin-1 and Latin Extended-A and -B (the letters Turkish text uses).
   */
  predicate IsWordChar(c: char) {
    var n := c as int;
    ('a' <= c <= 'z') || ('A' <= c <= 'Z') || ('0' <= c <= '9') || c == '_'
    || n == 0xAA || n == 0xB2 || n == 0xB3 || n == 0xB5 || n == 0xB9 || n == 0xBA || (0xBC <= n <= 0xBE)
    || (0xC0 <= n <= 0x24F && n != 0xD7 && n != 0xF7)
  }

  /** `w` occurs in `s` at `i` with a `\b` boundary on both sides (for a `w` that starts and ends with word characters). */
  predicate WholeWordAt(s: string, w: string, i: int) {
    && OccursAt(s, w, i)
    && (i == 0 || !IsWordChar(s[i - 1]))
    && (i + |w| == |s| || !IsWordChar(s[i + |w|]))
  }

  /** `re.sub(r'\b' + re.escape(w) + r'\b', full, s[i..])`, matches taken left to right without overlap. */
  function SubWordFrom(s: string, w: string, full: string, i: nat): string
    requires w != [] && i <= |s|
    decreases |s| - i
  {
    if i == |s| then []
    else if WholeWordAt(s, w, i) then full + SubWordFrom(s, w, full, i + |w|)
    else [s[i]] + SubWordFrom(s, w, full, i + 1)
  }

  function SubWord(s: string, w: string, full: string): string
    requires w != []
  {
    SubWordFrom(s, w, full, 0)
  }

  /** With no whole-word occurrence from `i` on, the rest of the text is copied unchanged. */
  lemma {:induction false} SubWordFromKeeps(s: string, w: string, full: string, i: nat)
    requires w != [] && i <= |s|
    requires forall j :: i <= j ==> !WholeWordAt(s, w, j)
    ensures SubWordFrom(s, w, full, i) == s[i..]
    decreases |s| - i
  {
    if i < |s| {
      SubWordFromKeeps(s, w, full, i + 1);
      assert s[i..] == [s[i]] + s[i + 1..];
    }
  }

  /** A longer replacement never shortens the text, and lengthens it when a whole word is found. */
  lemma {:induction false} SubWordFromGrows(s: string, w: string, full: string, i: nat)
    requires w != [] && i <= |s| && |full| > |w|
    ensures |SubWordFrom(s, w, full, i)| >= |s| - i
    ensures (exists j :: i <= j && WholeWordAt(s, w, j)) ==> |SubWordFrom(s, w, full, i)| > |s| - i
    decreases |s| - i
  {
    if i < |s| {
      if WholeWordAt(s, w, i) {
        SubWordFromGrows(s, w, full, i + |w|);
      } else {
        SubWordFromGrows(s, w, full, i + 1);
        if exists j :: i <= j && WholeWordAt(s, w, j) {
          var j :| i <= j && WholeWordAt(s, w, j);
          assert i + 1 <= j;
        }
      }
    }
  }

  /** Substitution changes the text exactly when the word occurs whole in it. */
  lemma SubWordUnchangedIff(s: string, w: string, full: string)
    requires w != [] && |full| > |w|
    ensures SubWord(s, w, full) == s <==> forall j :: !WholeWordAt(s, w, j)
  {
    if forall j :: !WholeWordAt(s, w, j) {
      SubWordFromKeeps(s, w, full, 0);
    } else {
      SubWordFromGrows(s, w, full, 0);
    }
  }

  /** The abbreviations `_preprocess_query` expands, in the order it applies them. */
  const Abbreviations: seq<(string, string)> := [
    ("ttk", "türk ticaret kanunu"), ("tck", "türk ceza kanunu"), ("mk", "medeni kanun"),
    ("iik", "icra iflas kanunu"), ("vuk", "vergi usul kanunu"), ("hmk", "hukuk muhakemeleri kanunu"),
    ("aym", "anayasa mahkemesi"), ("md", "madde")
  ]

  /** Each abbreviation is a non-empty word and expands to something longer. */
  predicate Expansions(abbrs: seq<(string, string)>) {
    forall k :: 0 <= k < |abbrs| ==> abbrs[k].0 != [] && |abbrs[k].1| > |abbrs[k].0|
  }

  /** `q` after substituting each abbreviation of `abbrs` in turn (an empty word, which the table never holds, is skipped). */
  function Expand(q: string, abbrs: seq<(string, string)>): string {
    if abbrs == [] then q
    else
      var last := abbrs[|abbrs| - 1];
      var mid := Expand(q, abbrs[..|abbrs| - 1]);
      if last.0 == [] then mid else SubWord(mid, last.0, last.1)
  }

  /** The table of abbreviations satisfies `Expansions`. */
  lemma AbbreviationsExpand()
    ensures Expansions(Abbreviations)
  {
  }

  /** What `_preprocess_query` returns. */
  function Preprocessed(query: string): string {
    Expand(Strip(Lower(query)), Abbreviations)
  }

  /** `_preprocess_query`. */
  method PreprocessQuery(query: string) returns (r: string)
    ensures r == Preprocessed(query)
  {
    AbbreviationsExpand();
    r := Strip(Lower(query));
    for i := 0 to |Abbreviations|
      invariant r == Expand(Strip(Lower(query)), Abbreviations[..i])
    {
      assert Abbreviations[..i + 1][..i] == Abbreviations[..i];
      r := SubWord(r, Abbreviations[i].0, Abbreviations[i].1);
    }
    assert Abbreviations[..|Abbreviations|] == Abbreviations;
  }

  /** No abbreviation of `abbrs` occurs in `q` as a whole word. */
  ghost predicate NoneOccur(q: string, abbrs: seq<(string, string)>) {
    forall k, j :: 0 <= k < |abbrs| ==> !WholeWordAt(q, abbrs[k].0, j)
  }

  /** Expanding never shortens the text, and leaves it unchanged exactly when no abbreviation occurs whole in it. */
  lemma {:induction false} ExpandUnchangedIff(q: string, abbrs: seq<(string, string)>)
    requires Expansions(abbrs)
    ensures |Expand(q, abbrs)| >= |q|
    ensures Expand(q, abbrs) != q ==> |Expand(q, abbrs)| > |q|
    ensures Expand(q, abbrs) == q <==> NoneOccur(q, abbrs)
  {
    if abbrs != [] {
      var init := abbrs[..|abbrs| - 1];
      var last := abbrs[|abbrs| - 1];
      ExpandUnchangedIff(q, init);
      var mid := Expand(q, init);
      SubWordUnchangedIff(mid, last.0, last.1);
      SubWordFromGrows(mid, last.0, last.1, 0);
      if NoneOccur(q, abbrs) {
        assert NoneOccur(q, init) by {
          forall k, j | 0 <= k < |init| ensures !WholeWordAt(q, init[k].0, j) {
            assert init[k] == abbrs[k];
          }
        }
        assert forall j :: !WholeWordAt(q, last.0, j);
      } else {
        var k, j :| 0 <= k < |abbrs| && WholeWordAt(q, abbrs[k].0, j);
        if k < |init| {
          assert init[k] == abbrs[k];
          assert !NoneOccur(q, init);
        } else if mid == q {
          assert WholeWordAt(mid, last.0, j);
        }
      }
    }
  }

  /** A query with no abbreviation in it is only lower-cased and stripped; any abbreviation makes it longer. */
  lemma PreprocessedPlainIff(query: string)
    ensures Preprocessed(query) == Strip(Lower(query)) <==> NoneOccur(Strip(Lower(query)), Abbreviations)
    ensures |Preprocessed(query)| >= |Strip(Lower(query))|
  {
    AbbreviationsExpand();
    ExpandUnchangedIff(Strip(Lower(query)), Abbreviations);
  }

  // ---------------------------------------------------------------------------------------
  // Keyword query for the last fallback

  /** The legal areas and the keywords that signal each, in the tool's order. */
  const LegalAreas: seq<(string, seq<string>)> := [
    ("ticaret_hukuku", ["ticaret", "şirket", "anonim", "limited", "ortaklık", "tacir", "ttk"]),
    ("medeni_hukuk", ["medeni", "aile", "miras", "eşya", "kişiler", "mk", "boşanma", "velayet", "tenkis"]),
    ("ceza_hukuku", ["ceza", "suç", "mahkumiyet", "beraat", "sanık", "tck", "hapis", "kaza"]),
    ("idare_hukuku", ["idare", "kamu", "devlet", "memur", "disiplin", "atama"]),
    ("is_hukuku", ["iş", "çalışma", "işçi", "işveren", "sendika", "iş sözleşmesi"]),
    ("vergi_hukuku", ["vergi", "gelir", "kurumlar", "kdv", "stopaj", "beyanname", "matrah"]),
    ("icra_iflas_hukuku", ["icra", "iflas", "konkordato", "haciz", "alacak", "borçlu"]),
    ("anayasa_hukuku", ["anayasa", "temel hak", "özgürlük", "cumhurbaşkanı", "meclis"])
  ]

  const CommonLegalKeywords: seq<string> := [
    "madde", "kanun", "yönetmelik", "tüzük", "kararnâme", "genelge", "hüküm", "fıkra",
    "mahkeme", "dava", "karar", "hakkında", "dair", "ilişkin", "ceza", "hukuk", "medeni",
    "ticaret", "vergi", "taraf", "davacı", "davalı", "sanık", "suç", "beraat", "mahkumiyet",
    "tazminat", "yargıtay", "danıştay", "anayasa", "borçlar", "miras", "aile", "eşya",
    "iş", "sosyal güvenlik", "idare", "icra", "iflas", "noter", "avukat", "hakim", "savcı"
  ]

  /** `name.replace("_", " ")`. */
  function SpacedName(name: string): (r: string)
    ensures |r| == |name|
    ensures forall k :: 0 <= k < |name| ==> r[k] == (if name[k] == '_' then ' ' else name[k])
  {
    seq(|name|, k requires 0 <= k < |name| => if name[k] == '_' then ' ' else name[k])
  }

  /** `any(keyword in text for keyword in keywords)`. */
  predicate MentionsAny(text: string, keywords: seq<string>) {
    exists k :: 0 <= k < |keywords| && Contains(text, keywords[k])
  }

  /** Length of the run of characters satisfying `p` that starts at `i`. */
  function RunLength(s: string, i: nat, p: char -> bool): (n: nat)
    requires i <= |s|
    ensures i + n <= |s|
    ensures forall k :: i <= k < i + n ==> p(s[k])
    ensures i + n < |s| ==> !p(s[i + n])
    decreases |s| - i
  {
    if i == |s| || !p(s[i]) then 0 else 1 + RunLength(s, i + 1, p)
  }

  /** The digits `\s*(\d+)` captures at `j`, if it matches there. */
  function NumberAt(s: string, j: nat): Option<string>
    requires j <= |s|
  {
    var k := j + RunLength(s, j, IsSpace);
    var n := RunLength(s, k, IsDigit);
    if n > 0 then Some(s[k..k + n]) else None
  }

  /** The article number `(madde|md\.?)\s*(\d+)` captures when it matches at `i`. */
  function ArticleAt(s: string, i: nat): Option<string>
    requires i <= |s|
  {
    if OccursAt(s, "madde", i) then NumberAt(s, i + 5)
    else if OccursAt(s, "md.", i) then NumberAt(s, i + 3)
    else if OccursAt(s, "md", i) then NumberAt(s, i + 2)
    else None
  }

  /** `re.search(r'(madde|md\.?)\s*(\d+)', s[i..])`: the number of the leftmost match. */
  function FirstArticle(s: string, i: nat): (r: Option<string>)
    requires i <= |s|
    ensures r.Some? ==> r.value != [] && forall k :: 0 <= k < |r.value| ==> IsDigit(r.value[k])
    decreases |s| - i
  {
    if i == |s| then None
    else if ArticleAt(s, i).Some? then ArticleAt(s, i)
    else FirstArticle(s, i + 1)
  }

  /** A reference anywhere from `i` on is found. */
  lemma {:induction false} FirstArticleFinds(s: string, i: nat, j: nat)
    requires i <= j < |s| && ArticleAt(s, j).Some?
    ensures FirstArticle(s, i).Some?
    decreases j - i
  {
    if i < j && ArticleAt(s, i).None? {
      FirstArticleFinds(s, i + 1, j);
    }
  }

  /** The reference found is the leftmost one from `i` on. */
  lemma {:induction false} FirstArticleLeftmost(s: string, i: nat) returns (j: nat)
    requires i <= |s| && FirstArticle(s, i).Some?
    ensures i <= j < |s| && FirstArticle(s, i) == ArticleAt(s, j)
    ensures forall k :: i <= k < j ==> ArticleAt(s, k).None?
    decreases |s| - i
  {
    if ArticleAt(s, i).Some? {
      j := i;
    } else {
      j := FirstArticleLeftmost(s, i + 1);
    }
  }

  /** The names of the first `n` of `areas` whose keywords occur in `lower`. */
  function AreaConcepts(lower: string, areas: seq<(string, seq<string>)>, n: nat): set<string>
    requires n <= |areas|
  {
    set k | 0 <= k < n && MentionsAny(lower, areas[k].1) :: SpacedName(areas[k].0)
  }

  lemma AreaConceptsStep(lower: string, areas: seq<(string, seq<string>)>, n: nat)
    requires n < |areas|
    ensures AreaConcepts(lower, areas, n + 1) ==
            AreaConcepts(lower, areas, n) + (if MentionsAny(lower, areas[n].1) then {SpacedName(areas[n].0)} else {})
  {
  }

  /** The first `n` of `keywords` that occur in `lower`. */
  function KeywordConcepts(lower: string, keywords: seq<string>, n: nat): set<string>
    requires n <= |keywords|
  {
    set k | 0 <= k < n && Contains(lower, keywords[k]) :: keywords[k]
  }

  lemma KeywordConceptsStep(lower: string, keywords: seq<string>, n: nat)
    requires n < |keywords|
    ensures KeywordConcepts(lower, keywords, n + 1) ==
            KeywordConcepts(lower, keywords, n) + (if Contains(lower, keywords[n]) then {keywords[n]} else {})
  {
  }

  /** The concept "madde N" for the first article reference, if any. */
  function ArticleConcepts(lower: string): set<string> {
    match FirstArticle(lower, 0)
    case Some(number) => {"madde " + number}
    case None => {}
  }

  /** The concepts `_extract_keywords_for_fallback` finds in a lower-cased query. */
  function Concepts(lower: string): set<string> {
    AreaConcepts(lower, LegalAreas, |LegalAreas|) + ArticleConcepts(lower)
    + KeywordConcepts(lower, CommonLegalKeywords, |CommonLegalKeywords|)
  }

  /** The first loop: add the spaced name of every area one of whose keywords occurs. */
  method AddAreaConcepts(lower: string, areas: seq<(string, seq<string>)>, concepts: set<string>) returns (r: set<string>)
    ensures r == concepts + AreaConcepts(lower, areas, |areas|)
  {
    r := concepts;
    for k := 0 to |areas|
      invariant r == concepts + AreaConcepts(lower, areas, k)
    {
      if MentionsAny(lower, areas[k].1) {
        r := r + {SpacedName(areas[k].0)};
      }
      AreaConceptsStep(lower, areas, k);
    }
  }

  /** The last loop: add every keyword that occurs. */
  method AddKeywordConcepts(lower: string, keywords: seq<string>, concepts: set<string>) returns (r: set<string>)
    ensures r == concepts + KeywordConcepts(lower, keywords, |keywords|)
  {
    r := concepts;
    for k := 0 to |keywords|
      invariant r == concepts + KeywordConcepts(lower, keywords, k)
    {
      if Contains(lower, keywords[k]) {
        r := r + {keywords[k]};
      }
      KeywordConceptsStep(lower, keywords, k);
    }
  }

  /** The loops of `_extract_keywords_for_fallback` that fill `concepts`. */
  method CollectConcepts(lower: string) returns (concepts: set<string>)
    ensures concepts == Concepts(lower)
  {
    concepts := AddAreaConcepts(lower, LegalAreas, {});
    var article := FirstArticle(lower, 0);
    if article.Some? {
      concepts := concepts + {"madde " + article.value};
    }
    concepts := AddKeywordConcepts(lower, CommonLegalKeywords, concepts);
  }

  /** Longer strings first. */
  predicate LengthDescending(s: seq<string>) {
    forall i, j :: 0 <= i < j < |s| ==> |s[j]| <= |s[i]|
  }

  predicate NoDuplicates(s: seq<string>) {
    forall i, j :: 0 <= i < j < |s| ==> s[i] != s[j]
  }

  /**
   * `sorted(list(c), key=len, reverse=True)`: each element of `c` once, longest first. Set
   * iteration order is not fixed, so strings of equal length may come in any order.
   */
  ghost predicate IsLengthOrdering(s: seq<string>, c: set<string>) {
    LengthDescending(s) && NoDuplicates(s) && forall x :: x in s <==> x in c
  }

  /** Inserts `x` after every string at least as long: a stable step of the sort. */
  method InsertByLength(s: seq<string>, x: string) returns (r: seq<string>)
    requires LengthDescending(s)
    ensures LengthDescending(r)
    ensures multiset(r) == multiset(s) + multiset{x}
  {
    var j := 0;
    while j < |s| && |s[j]| >= |x|
      invariant 0 <= j <= |s|
      invariant forall k :: 0 <= k < j ==> |s[k]| >= |x|
    {
      j := j + 1;
    }
    r := s[..j] + [x] + s[j..];
    assert s == s[..j] + s[j..];
  }

  /** Sorting by decreasing length, elements taken from the set in an unspecified order. */
  method OrderByLength(c: set<string>) returns (ordered: seq<string>)
    ensures IsLengthOrdering(ordered, c)
  {
    var remaining := c;
    ordered := [];
    while remaining != {}
      invariant remaining <= c
      invariant IsLengthOrdering(ordered, c - remaining)
      decreases |remaining|
    {
      var x :| x in remaining;
      ghost var before := ordered;
      ordered := InsertByLength(ordered, x);
      InsertKeepsOrdering(before, ordered, x, c - remaining);
      assert c - (remaining - {x}) == (c - remaining) + {x};
      remaining := remaining - {x};
    }
  }

  /** Inserting a new string into an ordering of `done` gives an ordering of `done` with it. */
  lemma InsertKeepsOrdering(before: seq<string>, after: seq<string>, x: string, done: set<string>)
    requires IsLengthOrdering(before, done) && x !in done
    requires LengthDescending(after) && multiset(after) == multiset(before) + multiset{x}
    ensures IsLengthOrdering(after, done + {x})
  {
    assert forall y :: y in after <==> y in multiset(after);
    assert forall y :: y in after <==> y in before || y == x;
    forall i, j | 0 <= i < j < |after| ensures after[i] != after[j] {
      if after[i] == after[j] {
        var y := after[i];
        SubMultiset(after, i, j);
        assert multiset([after[i], after[j]])[y] == 2;
        DistinctCount(before, y);
      }
    }
  }

  /** Two positions of a sequence contribute both their elements to its multiset. */
  lemma SubMultiset(s: seq<string>, i: int, j: int)
    requires 0 <= i < j < |s|
    ensures multiset([s[i], s[j]]) <= multiset(s)
  {
    assert s == s[..i] + [s[i]] + s[i + 1..j] + [s[j]] + s[j + 1..];
  }

  /** In a sequence without duplicates every element occurs once. */
  lemma {:induction false} DistinctCount(s: seq<string>, y: string)
    requires NoDuplicates(s)
    ensures multiset(s)[y] <= 1
  {
    if s != [] {
      var t := s[..|s| - 1];
      assert s == t + [s[|s| - 1]];
      assert NoDuplicates(t);
      DistinctCount(t, y);
      if y == s[|s| - 1] {
        assert y !in t;
      }
    }
  }

  /**
   * The results `_extract_keywords_for_fallback` may return for `query`: the query itself with
   * fewer than two concepts, otherwise the concepts longest first, joined by single spaces.
   */
  ghost predicate KeywordQuery(query: string, r: string) {
    var c := Concepts(Lower(query));
    if |c| < 2 then r == query
    else exists ordered :: IsLengthOrdering(ordered, c) && r == Join(ordered, " ")
  }

  /** `_extract_keywords_for_fallback`. */
  method ExtractKeywordsForFallback(query: string) returns (r: string)
    ensures KeywordQuery(query, r)
  {
    var lower := Lower(query);
    var concepts := CollectConcepts(lower);
    if |concepts| < 2 {
      return query;
    }
    var ordered := OrderByLength(concepts);
    r := Join(ordered, " ");
  }

  /** The ordering holds every concept exactly once. */
  lemma {:induction false} OrderingSize(s: seq<string>, c: set<string>)
    requires IsLengthOrdering(s, c)
    ensures |s| == |c|
  {
    if s == [] {
      assert c == {};
    } else {
      var t := s[..|s| - 1];
      var last := s[|s| - 1];
      assert s == t + [last];
      assert last !in t by {
        forall i | 0 <= i < |t| ensures t[i] != last { assert t[i] == s[i]; }
      }
      assert IsLengthOrdering(t, c - {last}) by {
        forall x ensures x in t <==> x in c - {last} {
          if x in t { var i :| 0 <= i < |t| && t[i] == x; assert s[i] == x; }
        }
      }
      OrderingSize(t, c - {last});
    }
  }

  /** Every word of the list is non-empty and starts with neither a space nor '_'. */
  predicate StartLetters(words: seq<string>) {
    forall k :: 0 <= k < |words| ==> words[k] != [] && !IsSpace(words[k][0]) && words[k][0] != '_'
  }

  lemma KeywordsStartWithLetters()
    ensures StartLetters(CommonLegalKeywords)
  {
  }

  lemma AreaNamesStartWithLetters()
    ensures StartLetters(seq(|LegalAreas|, k requires 0 <= k < |LegalAreas| => LegalAreas[k].0))
  {
  }

  lemma {:induction false} ConceptStartsWithLetter(lower: string, areas: seq<(string, seq<string>)>, keywords: seq<string>, x: string)
    requires StartLetters(seq(|areas|, k requires 0 <= k < |areas| => areas[k].0)) && StartLetters(keywords)
    requires x in AreaConcepts(lower, areas, |areas|) + ArticleConcepts(lower) + KeywordConcepts(lower, keywords, |keywords|)
    ensures x != [] && !IsSpace(x[0])
  {
    if x in AreaConcepts(lower, areas, |areas|) {
      var k :| 0 <= k < |areas| && MentionsAny(lower, areas[k].1) && x == SpacedName(areas[k].0);
      assert seq(|areas|, k requires 0 <= k < |areas| => areas[k].0)[k] == areas[k].0;
    } else if x in KeywordConcepts(lower, keywords, |keywords|) {
      var k :| 0 <= k < |keywords| && Contains(lower, keywords[k]) && x == keywords[k];
    }
  }

  /** Every concept starts with a letter. */
  lemma ConceptsStartWithLetter(lower: string, x: string)
    requires x in Concepts(lower)
    ensures x != [] && !IsSpace(x[0])
  {
    KeywordsStartWithLetters();
    AreaNamesStartWithLetters();
    ConceptStartsWithLetter(lower, LegalAreas, CommonLegalKeywords, x);
  }

  lemma JoinStart(parts: seq<string>, sep: string)
    requires parts != [] && parts[0] != []
    ensures Join(parts, sep) != [] && Join(parts, sep)[0] == parts[0][0]
  {
  }

  /**
   * With two or more concepts the keyword query is never blank, so its `strip()` test only
   * matters for a query kept as it was.
   */
  lemma KeywordQueryNotBlank(query: string, r: string)
    requires KeywordQuery(query, r)
    requires |Concepts(Lower(query))| >= 2
    ensures Strip(r) != []
  {
    var c := Concepts(Lower(query));
    var ordered :| IsLengthOrdering(ordered, c) && r == Join(ordered, " ");
    OrderingSize(ordered, c);
    ConceptsStartWithLetter(Lower(query), ordered[0]);
    JoinStart(ordered, " ");
  }

  // ---------------------------------------------------------------------------------------
  // Filters

  /** A Qdrant field condition. */
  datatype Condition =
    | MatchAny(key: string, any: seq<Json>)
    | InRange(key: string, bounds: map<string, Json>)
    | MatchValue(key: string, value: Json)

  datatype Filter = Filter(must: seq<Condition>)

  /** The condition `_parse_filter_dict` builds for one entry. */
  function ConditionFor(key: string, value: Json): (c: Condition)
    ensures c.key == key
    ensures c.MatchAny? <==> value.JArray?
    ensures c.InRange? <==> value.JObject? && ("gte" in value.fields || "lte" in value.fields)
  {
    match value
    case JArray(items) => MatchAny(key, items)
    case JObject(fields) => if "gte" in fields || "lte" in fields then InRange(key, fields) else MatchValue(key, value)
    case _ => MatchValue(key, value)
  }

  /** The filter for a dict's entries (in insertion order), None for an empty dict. */
  function FilterFor(entries: seq<(string, Json)>): Option<Filter> {
    if entries == [] then None
    else Some(Filter(seq(|entries|, i requires 0 <= i < |entries| => ConditionFor(entries[i].0, entries[i].1))))
  }

  /** `_parse_filter_dict`. */
  method ParseFilterDict(entries: seq<(string, Json)>) returns (r: Option<Filter>)
    ensures r.None? <==> entries == []
    ensures r.Some? ==> |r.value.must| == |entries|
    ensures r.Some? ==> forall i :: 0 <= i < |entries| ==> r.value.must[i] == ConditionFor(entries[i].0, entries[i].1)
    ensures r == FilterFor(entries)
  {
    var must: seq<Condition> := [];
    for i := 0 to |entries|
      invariant |must| == i
      invariant forall k :: 0 <= k < i ==> must[k] == ConditionFor(entries[k].0, entries[k].1)
    {
      must := must + [ConditionFor(entries[i].0, entries[i].1)];
    }
    if must != [] {
      assert must == seq(|entries|, i requires 0 <= i < |entries| => ConditionFor(entries[i].0, entries[i].1));
    }
    r := if must != [] then Some(Filter(must)) else None;
  }

  /** A Python list of strings as JSON. */
  function StringList(items: seq<string>): (r: seq<Json>)
    ensures |r| == |items| && forall i :: 0 <= i < |items| ==> r[i] == JString(items[i])
  {
    seq(|items|, i requires 0 <= i < |items| => JString(items[i]))
  }

  /** The entries of `hybrid_search`'s filter dict, in insertion order. */
  function HybridEntries(legalArea: Option<string>, documentType: Option<string>, articleNumbers: Option<seq<string>>)
    : seq<(string, Json)>
  {
    (if legalArea.Some? && legalArea.value != "" then [("ana_hukuk_alani", JString(legalArea.value))] else [])
    + (if documentType.Some? && documentType.value != "" then [("dokuman_tipi", JString(documentType.value))] else [])
    + (if articleNumbers.Some? && articleNumbers.value != [] then [("madde_numaralari", JArray(StringList(articleNumbers.value)))] else [])
  }

  /** `hybrid_search`'s filter dict: one entry for each truthy argument, in this order. */
  method HybridFilters(legalArea: Option<string>, documentType: Option<string>, articleNumbers: Option<seq<string>>)
    returns (filters: seq<(string, Json)>)
    ensures filters == HybridEntries(legalArea, documentType, articleNumbers)
    ensures forall e :: e in filters ==> Truthy(e.1)
    ensures forall a :: ("ana_hukuk_alani", JString(a)) in filters <==> legalArea == Some(a) && a != ""
    ensures forall d :: ("dokuman_tipi", JString(d)) in filters <==> documentType == Some(d) && d != ""
    ensures forall v :: ("madde_numaralari", v) in filters <==>
      articleNumbers.Some? && articleNumbers.value != [] && v == JArray(StringList(articleNumbers.value))
    ensures |filters| <= 3
    ensures filters == [] <==> (legalArea.None? || legalArea.value == "") && (documentType.None? || documentType.value == "")
                               && (articleNumbers.None? || articleNumbers.value == [])
  {
    filters := [];
    if legalArea.Some? && legalArea.value != "" {
      filters := filters + [("ana_hukuk_alani", JString(legalArea.value))];
    }
    if documentType.Some? && documentType.value != "" {
      filters := filters + [("dokuman_tipi", JString(documentType.value))];
    }
    if articleNumbers.Some? && articleNumbers.value != [] {
      filters := filters + [("madde_numaralari", JArray(StringList(articleNumbers.value)))];
    }
  }

  // ---------------------------------------------------------------------------------------
  // Hits

  /** A Qdrant point id: an unsigned integer or a UUID. */
  datatype PointId = NumericId(n: nat) | UuidId(text: string)

  function IdText(id: PointId): string {
    match id
    case NumericId(n) => DecimalText(n)
    case UuidId(text) => text
  }

  /** A scored point as the search returns it; `score` is the similarity as given. */
  datatype Hit = Hit(id: PointId, score: int, payload: Option<map<string, Json>>)

  const Unknown: string := "bilinmiyor"

  /** `payload.get(key, default)`. */
  function PayloadGet(payload: map<string, Json>, key: string, default: Json): (r: Json)
    ensures key in payload ==> r == payload[key]
    ensures key !in payload ==> r == default
  {
    if key in payload then payload[key] else default
  }

  /** The metadata fields of a formatted hit: output name, payload key, default. */
  const MetadataFields: seq<(string, string, Json)> := [
    ("kaynak_dosya", "dosya_adi", JString(Unknown)),
    ("dokuman_tipi", "dokuman_tipi", JString(Unknown)),
    ("ana_hukuk_alani", "ana_hukuk_alani", JString(Unknown)),
    ("konular", "hakkinda_konu", JString("")),
    ("etiketler", "etiket", JString("")),
    ("madde_numaralari", "madde_no", JString("")),
    ("kanun_referanslari", "kanun_referanslari", JString("")),
    ("chunk_index", "chunk_index", JInt(-1))
  ]

  /** `_format_hit`, for a hit that has a payload. */
  function FormatHit(hit: Hit): (r: Json)
    requires hit.payload.Some?
    ensures r.JObject? && r.fields.Keys == {"text", "score", "metadata"}
    ensures r.fields["text"] == PayloadGet(hit.payload.value, "text", JString(""))
    ensures r.fields["metadata"].JObject?
    ensures forall k :: 0 <= k < |MetadataFields| ==>
      && MetadataFields[k].0 in r.fields["metadata"].fields
      && r.fields["metadata"].fields[MetadataFields[k].0] == PayloadGet(hit.payload.value, MetadataFields[k].1, MetadataFields[k].2)
    ensures "qdrant_id" in r.fields["metadata"].fields && r.fields["metadata"].fields["qdrant_id"] == JString(IdText(hit.id))
  {
    var payload := hit.payload.value;
    var metadata := map[
      "kaynak_dosya" := PayloadGet(payload, "dosya_adi", JString(Unknown)),
      "dokuman_tipi" := PayloadGet(payload, "dokuman_tipi", JString(Unknown)),
      "ana_hukuk_alani" := PayloadGet(payload, "ana_hukuk_alani", JString(Unknown)),
      "konular" := PayloadGet(payload, "hakkinda_konu", JString("")),
      "etiketler" := PayloadGet(payload, "etiket", JString("")),
      "madde_numaralari" := PayloadGet(payload, "madde_no", JString("")),
      "kanun_referanslari" := PayloadGet(payload, "kanun_referanslari", JString("")),
      "chunk_index" := PayloadGet(payload, "chunk_index", JInt(-1)),
      "qdrant_id" := JString(IdText(hit.id))
    ];
    JObject(map["text" := PayloadGet(payload, "text", JString("")), "score" := JInt(hit.score), "metadata" := JObject(metadata)])
  }

  /** `hit.payload and hit.payload.get("text")`: the hit has a non-empty payload with a truthy text. */
  predicate HasText(hit: Hit) {
    hit.payload.Some? && hit.payload.value != map[] && "text" in hit.payload.value && Truthy(hit.payload.value["text"])
  }

  /** The list comprehension of `_execute_search`: hits with text, formatted, in order. */
  function FormatHits(hits: seq<Hit>): (r: seq<Json>)
    ensures |r| <= |hits|
  {
    if hits == [] then []
    else if HasText(hits[0]) then [FormatHit(hits[0])] + FormatHits(hits[1..])
    else FormatHits(hits[1..])
  }

  /** A formatted result whose text is truthy. */
  predicate IsTextResult(r: Json) {
    r.JObject? && "text" in r.fields && Truthy(r.fields["text"])
  }

  /** Every formatted result carries the hit's non-empty text, and a hit with text is never dropped. */
  lemma {:induction false} FormatHitsKeepText(hits: seq<Hit>)
    ensures forall i :: 0 <= i < |FormatHits(hits)| ==> IsTextResult(FormatHits(hits)[i])
    ensures |FormatHits(hits)| == |hits| <==> forall i :: 0 <= i < |hits| ==> HasText(hits[i])
  {
    if hits != [] {
      FormatHitsKeepText(hits[1..]);
      if HasText(hits[0]) {
        var r := FormatHits(hits);
        assert r == [FormatHit(hits[0])] + FormatHits(hits[1..]);
        forall i | 0 <= i < |r| ensures IsTextResult(r[i]) {
          if i > 0 { assert r[i] == FormatHits(hits[1..])[i - 1]; }
        }
        if forall i :: 0 <= i < |hits[1..]| ==> HasText(hits[1..][i]) {
          forall i | 0 <= i < |hits| ensures HasText(hits[i]) { if i > 0 { assert hits[i] == hits[1..][i - 1]; } }
        }
        if forall i :: 0 <= i < |hits| ==> HasText(hits[i]) {
          forall i | 0 <= i < |hits[1..]| ensures HasText(hits[1..][i]) { assert hits[1..][i] == hits[i + 1]; }
        }
      }
    }
  }

  // ---------------------------------------------------------------------------------------
  // Searching with fallbacks

  /** What `_run` receives as `filter`: nothing, a built filter, or a raw dict's entries. */
  datatype FilterArg = NoFilter | Prepared(filter: Filter) | RawDict(entries: seq<(string, Json)>)

  /**
   * The embedding and Qdrant search for a cleaned query, a filter, a score threshold and a
   * limit: the hits, or None where embedding or searching raises.
   */
  type SearchFn = (string, FilterArg, int, int) -> Option<seq<Hit>>

  /** The tool's settings; thresholds are in hundredths of a similarity score. */
  datatype SearchTool = SearchTool(
    connected: bool,
    baseThreshold: int,
    minThreshold: int,
    maxResults: int,
    autoFallback: bool)

  /** The defaults: thresholds 0.6 and 0.5, five results, fallbacks on. */
  function DefaultTool(connected: bool): SearchTool {
    SearchTool(connected, 60, 50, 5, true)
  }

  /** How far the first fallback lowers the threshold (0.1). */
  const ThresholdStep: int := 10

  /** What `_execute_search` returns. */
  function Searched(search: SearchFn, query: string, filter: FilterArg, threshold: int, limit: int): (r: seq<Json>)
    ensures Preprocessed(query) == [] ==> r == []
    ensures forall i :: 0 <= i < |r| ==> IsTextResult(r[i])
  {
    var cleaned := Preprocessed(query);
    if cleaned == [] then []
    else
      match search(cleaned, filter, threshold, limit)
      case None => []
      case Some(hits) =>
        FormatHitsKeepText(hits);
        FormatHits(hits)
  }

  /** `_execute_search`. */
  method ExecuteSearch(search: SearchFn, query: string, filter: FilterArg, threshold: int, limit: int) returns (r: seq<Json>)
    ensures r == Searched(search, query, filter, threshold, limit)
  {
    var cleaned := PreprocessQuery(query);
    if cleaned == [] {
      return [];
    }
    var found := search(cleaned, filter, threshold, limit);
    if found.None? {
      return [];
    }
    r := FormatHits(found.value);
  }

  /** The single entry `_run` returns without a connection. */
  function ConnectionError(query: string): Json {
    JObject(map["error" := JString("Qdrant bağlantısı kurulamadı."), "query" := JString(query)])
  }

  /** The filter `_run` searches with: a non-empty raw dict is converted first. */
  function EffectiveFilter(filter: FilterArg): FilterArg {
    if filter.RawDict? && filter.entries != [] then Prepared(FilterFor(filter.entries).value) else filter
  }

  /** `limit if limit is not None else self.max_results`. */
  function SearchLimit(tool: SearchTool, limit: Option<int>): int {
    if limit.Some? then limit.value else tool.maxResults
  }

  /** `score_threshold if score_threshold is not None else self.base_similarity_threshold`. */
  function StartThreshold(tool: SearchTool, scoreThreshold: Option<int>): int {
    if scoreThreshold.Some? then scoreThreshold.value else tool.baseThreshold
  }

  /** The first fallback's threshold: 0.1 lower, but not below the minimum. */
  function LoweredThreshold(tool: SearchTool, threshold: int): (t: int)
    ensures t >= tool.minThreshold
    ensures t >= threshold - ThresholdStep
    ensures t == threshold - ThresholdStep || t == tool.minThreshold
  {
    if threshold - ThresholdStep > tool.minThreshold then threshold - ThresholdStep else tool.minThreshold
  }

  /** The last fallback: a search on the keyword query when it is not blank and differs from the query. */
  function KeywordFallback(search: SearchFn, query: string, keywordQuery: string, filter: FilterArg, threshold: int, limit: int): seq<Json> {
    if Strip(keywordQuery) != [] && keywordQuery != query then Searched(search, keywordQuery, filter, threshold, limit) else []
  }

  /**
   * The results `_run` may return: the error entry without a connection, otherwise the first
   * non-empty result of the primary search, the search at the lowered threshold and the
   * keyword search (only the first when fallbacks are off), and [] when all are empty.
   */
  ghost predicate RunOutcome(tool: SearchTool, search: SearchFn, query: string, filter: FilterArg,
                             limit: Option<int>, scoreThreshold: Option<int>, r: seq<Json>) {
    if !tool.connected then r == [ConnectionError(query)]
    else
      var f := EffectiveFilter(filter);
      var n := SearchLimit(tool, limit);
      var t := StartThreshold(tool, scoreThreshold);
      var primary := Searched(search, query, f, t, n);
      if primary != [] || !tool.autoFallback then r == primary
      else FallbackOutcome(tool, search, query, f, t, n, r)
  }

  /** What the fallbacks of `_run` may return once the primary search came back empty. */
  ghost predicate FallbackOutcome(tool: SearchTool, search: SearchFn, query: string, f: FilterArg, t: int, n: int, r: seq<Json>) {
    var lowered := Searched(search, query, f, LoweredThreshold(tool, t), n);
    if lowered != [] then r == lowered
    else exists keywordQuery :: KeywordQuery(query, keywordQuery) && r == KeywordFallback(search, query, keywordQuery, f, t, n)
  }

  /** `_run`. */
  method Run(tool: SearchTool, search: SearchFn, query: string, filter: FilterArg, limit: Option<int>, scoreThreshold: Option<int>)
    returns (r: seq<Json>)
    ensures RunOutcome(tool, search, query, filter, limit, scoreThreshold, r)
  {
    if !tool.connected {
      return [ConnectionError(query)];
    }
    var f := filter;
    if filter.RawDict? && filter.entries != [] {
      var parsed := ParseFilterDict(filter.entries);
      f := Prepared(parsed.value);
    }
    assert f == EffectiveFilter(filter);
    var searchLimit := SearchLimit(tool, limit);
    var threshold := StartThreshold(tool, scoreThreshold);
    r := ExecuteSearch(search, query, f, threshold, searchLimit);
    if r != [] || !tool.autoFallback {
      return;
    }
    r := RunFallbacks(tool, search, query, f, threshold, searchLimit);
  }

  /** Fallbacks 1 and 2 of `_run`. */
  method RunFallbacks(tool: SearchTool, search: SearchFn, query: string, f: FilterArg, threshold: int, searchLimit: int)
    returns (r: seq<Json>)
    ensures FallbackOutcome(tool, search, query, f, threshold, searchLimit, r)
  {
    var lowerThreshold := LoweredThreshold(tool, threshold);
    r := ExecuteSearch(search, query, f, lowerThreshold, searchLimit);
    if r != [] {
      return;
    }
    var keywordQuery := ExtractKeywordsForFallback(query);
    if Strip(keywordQuery) != [] && keywordQuery != query {
      r := ExecuteSearch(search, keywordQuery, f, threshold, searchLimit);
      if r != [] {
        return;
      }
    }
    r := [];
    assert r == KeywordFallback(search, query, keywordQuery, f, threshold, searchLimit);
  }

  /** Whatever `_run` returns with a connection consists of hits with text. */
  lemma RunResultsHaveText(tool: SearchTool, search: SearchFn, query: string, filter: FilterArg,
                           limit: Option<int>, scoreThreshold: Option<int>, r: seq<Json>)
    requires tool.connected
    requires RunOutcome(tool, search, query, filter, limit, scoreThreshold, r)
    ensures forall i :: 0 <= i < |r| ==> IsTextResult(r[i])
  {
    var f := EffectiveFilter(filter);
    var n := SearchLimit(tool, limit);
    var t := StartThreshold(tool, scoreThreshold);
    var primary := Searched(search, query, f, t, n);
    var lowered := Searched(search, query, f, LoweredThreshold(tool, t), n);
    if primary == [] && tool.autoFallback && lowered == [] {
      var keywordQuery :| KeywordQuery(query, keywordQuery) && r == KeywordFallback(search, query, keywordQuery, f, t, n);
    }
  }

  /** With fewer than two concepts in the query there is no third search: all empty means []. */
  lemma RunWithoutConcepts(tool: SearchTool, search: SearchFn, query: string, filter: FilterArg,
                           limit: Option<int>, scoreThreshold: Option<int>, r: seq<Json>)
    requires tool.connected && tool.autoFallback
    requires RunOutcome(tool, search, query, filter, limit, scoreThreshold, r)
    requires |Concepts(Lower(query))| < 2
    ensures var f := EffectiveFilter(filter);
      var n := SearchLimit(tool, limit);
      var t := StartThreshold(tool, scoreThreshold);
      r == [] || r == Searched(search, query, f, t, n) || r == Searched(search, query, f, LoweredThreshold(tool, t), n)
  {
    var f := EffectiveFilter(filter);
    var n := SearchLimit(tool, limit);
    var t := StartThreshold(tool, scoreThreshold);
    if Searched(search, query, f, t, n) == [] && Searched(search, query, f, LoweredThreshold(tool, t), n) == [] {
      var keywordQuery :| KeywordQuery(query, keywordQuery) && r == KeywordFallback(search, query, keywordQuery, f, t, n);
      assert keywordQuery == query;
    }
  }

  /** `hybrid_search`: the truthy arguments become the filter (none when all are falsy), then `_run` with the given limit. */
  method HybridSearch(tool: SearchTool, search: SearchFn, query: string, legalArea: Option<string>,
                      documentType: Option<string>, articleNumbers: Option<seq<string>>, limit: int)
    returns (r: seq<Json>)
    ensures var entries := HybridEntries(legalArea, documentType, articleNumbers);
      RunOutcome(tool, search, query, if entries == [] then NoFilter else Prepared(FilterFor(entries).value), Some(limit), None, r)
  {
    var filters := HybridFilters(legalArea, documentType, articleNumbers);
    var qdrantFilter := NoFilter;
    if filters != [] {
      var parsed := ParseFilterDict(filters);
      qdrantFilter := Prepared(parsed.value);
    }
    r := Run(tool, search, query, qdrantFilter, Some(limit), None);
  }

  /** `search_by_legal_area`: `_run` restricted to one main legal area. */
  method SearchByLegalArea(tool: SearchTool, search: SearchFn, query: string, legalArea: string, limit: int)
    returns (r: seq<Json>)
    ensures RunOutcome(tool, search, query, Prepared(Filter([MatchValue("ana_hukuk_alani", JString(legalArea))])), Some(limit), None, r)
  {
    var parsed := ParseFilterDict([("ana_hukuk_alani", JString(legalArea))]);
    assert parsed.value.must == [MatchValue("ana_hukuk_alani", JString(legalArea))];
    r := Run(tool, search, query, Prepared(parsed.value), Some(limit), None);
  }

  /** `search_by_article`: `_run` restricted to chunks citing any of the given articles. */
  method SearchByArticle(tool: SearchTool, search: SearchFn, query: string, articleNumbers: seq<string>, limit: int)
    returns (r: seq<Json>)
    ensures RunOutcome(tool, search, query, Prepared(Filter([MatchAny("madde_numaralari", StringList(articleNumbers))])),
                       Some(limit), None, r)
  {
    var parsed := ParseFilterDict([("madde_numaralari", JArray(StringList(articleNumbers)))]);
    assert parsed.value.must == [MatchAny("madde_numaralari", StringList(articleNumbers))];
    r := Run(tool, search, query, Prepared(parsed.value), Some(limit), None);
  }

  /** `search_by_document_type`: `_run` restricted to one document type. */
  method SearchByDocumentType(tool: SearchTool, search: SearchFn, query: string, documentType: string, limit: int)
    returns (r: seq<Json>)
    ensures RunOutcome(tool, search, query, Prepared(Filter([MatchValue("dokuman_tipi", JString(documentType))])), Some(limit), None, r)
  {
    var parsed := ParseFilterDict([("dokuman_tipi", JString(documentType))]);
    assert parsed.value.must == [MatchValue("dokuman_tipi", JString(documentType))];
    r := Run(tool, search, query, Prepared(parsed.value), Some(limit), None);
  }
}
