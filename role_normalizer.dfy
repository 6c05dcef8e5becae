/**
 * The role-title normalizer: the gazetteer loaders (stop words, verb
 * conjugations, plural rules, location words), the word-level text steps
 * and the order of the steps of `normalize`, with the seniority and
 * hierarchy words it extracts.
 *
 * Regular-expression substitution, spelling suggestions, accent removal and
 * stemming come from libraries; they enter as functions of a `Normalizer`.
 */
module RoleNormalizer {
  import opened Wrappers
  import opened Seqs
  import opened Text

  const SpaceCharacters: seq<string> := [":", ",", ";", ".", "-", "–", "\t", "\\t"]
  const SpecialCharacters: string := "\\()[]{}&#*+<>'\"/?!|^~@$%=`´¨_"
  const LineBreakCharacters: seq<string> := ["\r", "\n", "\\r", "\\n"]
  const StopWordsToKeep: set<string> := {"sem"}
  const AdditionalStopWords: set<string> := {"in", "of", "on"}
  const Seniorities: set<string> := {"trainee", "junior", "pleno", "senior", "plena", "jr", "pl", "sr"}
  const Hierarchies: set<string> := {"lider", "chefe", "gerente", "supervisor", "coordenador", "supervisora", "coordenadora"}

  /** `list(s)`: the characters of a string as one-character strings. */
  function Singletons(s: string): (r: seq<string>)
    ensures |r| == |s|
    ensures forall k :: 0 <= k < |r| ==> r[k] == [s[k]]
  {
    if s == [] then [] else [[s[0]]] + Singletons(s[1..])
  }

  // ---------------------------------------------------------------------
  // `_in_sorted_list`: binary search
  // ---------------------------------------------------------------------

  predicate Sorted(s: seq<string>)
  {
    forall i, j :: 0 <= i < j < |s| ==> LexLe(s[i], s[j])
  }

  /** `bisect.bisect_left(s, x, lo, hi)` */
  function BisectLeft(s: seq<string>, x: string, lo: nat, hi: nat): (i: nat)
    requires lo <= hi <= |s|
    ensures lo <= i <= hi
    decreases hi - lo
  {
    if lo == hi then lo
    else
      var mid := (lo + hi) / 2;
      if LexLt(s[mid], x) then BisectLeft(s, x, mid + 1, hi) else BisectLeft(s, x, lo, mid)
  }

  lemma LexLeLt(a: string, b: string, c: string)
    requires LexLe(a, b) && LexLt(b, c)
    ensures LexLt(a, c)
  {
    LexLeTransitive(a, b, c);
    if a == c {
      LexLeAntisymmetric(b, c);
    }
  }

  /**
   * In a sorted list, `bisect_left` splits `[lo, hi)` into the elements
   * below `x` and those that are not.
   */
  lemma {:induction false} BisectLeftSplits(s: seq<string>, x: string, lo: nat, hi: nat)
    requires lo <= hi <= |s|
    requires Sorted(s)
    ensures forall j :: lo <= j < BisectLeft(s, x, lo, hi) ==> LexLt(s[j], x)
    ensures forall j :: BisectLeft(s, x, lo, hi) <= j < hi ==> !LexLt(s[j], x)
    decreases hi - lo
  {
    if lo < hi {
      var mid := (lo + hi) / 2;
      if LexLt(s[mid], x) {
        var next: nat := mid + 1;
        BisectLeftSplits(s, x, next, hi);
        forall j | lo <= j <= mid
          ensures LexLt(s[j], x)
        {
          if j < mid {
            LexLeLt(s[j], s[mid], x);
          }
        }
      } else {
        BisectLeftSplits(s, x, lo, mid);
        forall j | mid < j < hi
          ensures !LexLt(s[j], x)
        {
          if LexLt(s[j], x) {
            LexLeLt(s[mid], s[j], x);
          }
        }
      }
    }
  }

  /** `_in_sorted_list(x, s)`: a yes is always right. */
  function InSortedList(x: string, s: seq<string>): (r: bool)
    ensures r ==> x in s
  {
    var i := BisectLeft(s, x, 0, |s|);
    i != |s| && s[i] == x
  }

  /** On a sorted list the binary search answers exactly membership. */
  lemma InSortedListIff(x: string, s: seq<string>)
    requires Sorted(s)
    ensures InSortedList(x, s) <==> x in s
  {
    var i := BisectLeft(s, x, 0, |s|);
    BisectLeftSplits(s, x, 0, |s|);
    if x in s {
      var k :| 0 <= k < |s| && s[k] == x;
      assert !LexLt(s[k], x);
      assert i <= k;
      LexLeTotal(x, s[i]);
      if i < k {
        LexLeAntisymmetric(s[i], x);
      }
    }
  }

  // ---------------------------------------------------------------------
  // `_transform_text`
  // ---------------------------------------------------------------------

  /** Every symbol of `symbols` replaced by `rep`, one symbol after the other. */
  function Transformed(text: string, symbols: seq<string>, rep: string): string
  {
    if symbols == [] then text
    else Replace(Transformed(text, symbols[..|symbols| - 1], rep), symbols[|symbols| - 1], rep)
  }

  /** `_transform_text` */
  method TransformText(text: string, symbols: seq<string>, rep: string) returns (r: string)
    ensures r == Transformed(text, symbols, rep)
  {
    r := text;
    for k := 0 to |symbols|
      invariant r == Transformed(text, symbols[..k], rep)
    {
      assert symbols[..k + 1][..k] == symbols[..k];
      r := Replace(r, symbols[k], rep);
    }
    assert symbols[..|symbols|] == symbols;
  }

  /**
   * Replacing one-character symbols by text that contains none of them
   * leaves none of them in the result.
   */
  lemma {:induction false} TransformedRemoves(text: string, symbols: seq<string>, rep: string)
    requires forall k :: 0 <= k < |symbols| && |symbols[k]| == 1 ==> symbols[k][0] !in rep
    ensures forall k :: 0 <= k < |symbols| && |symbols[k]| == 1 ==> symbols[k][0] !in Transformed(text, symbols, rep)
  {
    if symbols != [] {
      var init := symbols[..|symbols| - 1];
      var last := symbols[|symbols| - 1];
      var before := Transformed(text, init, rep);
      TransformedRemoves(text, init, rep);
      forall k | 0 <= k < |symbols| && |symbols[k]| == 1
        ensures symbols[k][0] !in Transformed(text, symbols, rep)
      {
        if k == |symbols| - 1 {
          assert last == [last[0]];
          ReplaceRemoves(before, last[0], rep);
        } else {
          assert init[k] == symbols[k];
          ReplaceKeepsAbsent(before, last, rep, symbols[k][0]);
        }
      }
    }
  }

  /** After the line-break step no carriage return or newline is left. */
  lemma LineBreaksRemoved(text: string)
    ensures '\r' !in Transformed(text, LineBreakCharacters, " ")
    ensures '\n' !in Transformed(text, LineBreakCharacters, " ")
  {
    TransformedRemoves(text, LineBreakCharacters, " ");
    assert LineBreakCharacters[0] == "\r" && LineBreakCharacters[1] == "\n";
  }

  /** After the special-symbol step no special character is left. */
  lemma SpecialCharactersRemoved(text: string, c: char)
    requires c in SpecialCharacters
    ensures c !in Transformed(text, Singletons(SpecialCharacters), "")
  {
    var symbols := Singletons(SpecialCharacters);
    TransformedRemoves(text, symbols, "");
    var k :| 0 <= k < |SpecialCharacters| && SpecialCharacters[k] == c;
    assert symbols[k] == [c];
  }

  // ---------------------------------------------------------------------
  // Word-by-word rewriting
  // ---------------------------------------------------------------------

  /** Each word followed by one space: what `text += w + ' '` accumulates. */
  function Padded(ws: seq<string>): string
  {
    if ws == [] then "" else ws[0] + " " + Padded(ws[1..])
  }

  lemma {:induction false} PaddedSnoc(ws: seq<string>, w: string)
    ensures Padded(ws + [w]) == Padded(ws) + w + " "
  {
    if ws != [] {
      assert (ws + [w])[1..] == ws[1..] + [w];
      PaddedSnoc(ws[1..], w);
    } else {
      assert ws + [w] == [w];
    }
  }

  /** The padded words split back into the same words. */
  lemma {:induction false} PaddedSplit(ws: seq<string>)
    requires AllWords(ws)
    ensures Split(Padded(ws)) == ws
  {
    if ws != [] {
      PaddedSplit(ws[1..]);
      assert IsWord(ws[0]);
      assert ws[0] + " " + Padded(ws[1..]) == ws[0] + (" " + Padded(ws[1..]));
      SplitWordPrefix(ws[0], " " + Padded(ws[1..]));
      assert (" " + Padded(ws[1..]))[1..] == Padded(ws[1..]);
    }
  }

  lemma {:induction false} JoinEnds(ws: seq<string>)
    requires AllWords(ws) && ws != []
    ensures |Join(ws, " ")| > 0
    ensures !IsSpace(Join(ws, " ")[0]) && !IsSpace(Join(ws, " ")[|Join(ws, " ")| - 1])
  {
    assert IsWord(ws[0]);
    if |ws| > 1 {
      JoinEnds(ws[1..]);
      var rest := Join(ws[1..], " ");
      assert Join(ws, " ") == ws[0] + " " + rest;
      assert Join(ws, " ")[|Join(ws, " ")| - 1] == rest[|rest| - 1];
    }
  }

  lemma {:induction false} PaddedJoin(ws: seq<string>)
    requires ws != []
    ensures Padded(ws) == Join(ws, " ") + " "
  {
    if |ws| > 1 {
      PaddedJoin(ws[1..]);
    }
  }

  /**
   * Stripping the padded words gives them joined by single spaces.
   */
  lemma PaddedStrip(ws: seq<string>)
    requires AllWords(ws)
    ensures Strip(Padded(ws)) == Join(ws, " ")
  {
    if ws != [] {
      var j := Join(ws, " ");
      PaddedJoin(ws);
      JoinEnds(ws);
      assert StripLeft(j + " ") == j + " ";
      assert (j + " ")[..|j + " "| - 1] == j;
      assert StripRight(j + " ") == StripRight(j);
      assert StripRight(j) == j;
    }
  }

  /** A mapped word, or the word itself when the mapping lacks it. */
  function ReplaceWord(mapping: map<string, string>): string -> string
  {
    w => if w in mapping then mapping[w] else w
  }

  /** What `_normalize_by_replace` returns. */
  function ByReplace(s: string, mapping: map<string, string>): string
  {
    Strip(Padded(Map(Split(s), ReplaceWord(mapping))))
  }

  /** `_normalize_by_replace` */
  method NormalizeByReplace(s: string, mapping: map<string, string>) returns (r: string)
    ensures r == ByReplace(s, mapping)
  {
    var words := Split(Strip(s));
    StripSplit(s);
    var newS := "";
    for k := 0 to |words|
      invariant newS == Padded(Map(words[..k], ReplaceWord(mapping)))
    {
      var w := words[k];
      if w in mapping {
        w := mapping[w];
      }
      MapPrefix(words, k, ReplaceWord(mapping));
      PaddedSnoc(Map(words[..k], ReplaceWord(mapping)), w);
      newS := newS + w + " ";
    }
    assert words[..|words|] == words;
    r := Strip(newS);
  }

  lemma {:induction false} MapWords(ws: seq<string>, f: string -> string)
    requires forall w :: IsWord(w) ==> IsWord(f(w))
    requires AllWords(ws)
    ensures AllWords(Map(ws, f))
  {
    MapIndex(ws, f);
    forall i | 0 <= i < |ws|
      ensures IsWord(Map(ws, f)[i])
    {
      assert IsWord(ws[i]);
    }
  }

  /**
   * When every mapped value is a single word, `_normalize_by_replace` keeps
   * the number and order of the words, replaces each mapped word by its
   * value, and joins them with single spaces.
   */
  lemma ByReplaceWords(s: string, mapping: map<string, string>)
    requires forall k :: k in mapping ==> IsWord(mapping[k])
    ensures ByReplace(s, mapping) == Join(Map(Split(s), ReplaceWord(mapping)), " ")
    ensures Split(ByReplace(s, mapping)) == Map(Split(s), ReplaceWord(mapping))
  {
    var ws := Map(Split(s), ReplaceWord(mapping));
    MapWords(Split(s), ReplaceWord(mapping));
    PaddedStrip(ws);
    SplitJoin(ws);
  }

  /** A word, or the top spelling suggestion for a word outside the dictionary. */
  function Corrected(dictionary: set<string>, lookup: string -> Option<string>): string -> string
  {
    w => if w in dictionary then w else lookup(w).GetOr(w)
  }

  /**
   * `_correct_typos`: every word, or its top suggestion when it is not in
   * the dictionary, each followed by a space.
   */
  method CorrectTypos(text: string, dictionary: set<string>, lookup: string -> Option<string>) returns (r: string)
    ensures r == Padded(Map(Split(text), Corrected(dictionary, lookup)))
  {
    var words := Split(text);
    r := "";
    for k := 0 to |words|
      invariant r == Padded(Map(words[..k], Corrected(dictionary, lookup)))
    {
      var word := words[k];
      var correctedWord := word;
      if word !in dictionary {
        var correction := lookup(word);
        correctedWord := if correction.Some? then correction.value else word;
      }
      MapPrefix(words, k, Corrected(dictionary, lookup));
      PaddedSnoc(Map(words[..k], Corrected(dictionary, lookup)), correctedWord);
      r := r + correctedWord + " ";
    }
    assert words[..|words|] == words;
  }

  /**
   * When every suggestion is a single word, typo correction keeps the
   * number of words and every dictionary word in place.
   */
  lemma CorrectTyposWords(text: string, dictionary: set<string>, lookup: string -> Option<string>)
    requires forall w :: lookup(w).Some? ==> IsWord(lookup(w).value)
    ensures var ws := Split(Padded(Map(Split(text), Corrected(dictionary, lookup))));
      && |ws| == |Split(text)|
      && forall i :: 0 <= i < |ws| && Split(text)[i] in dictionary ==> ws[i] == Split(text)[i]
  {
    var f := Corrected(dictionary, lookup);
    MapWords(Split(text), f);
    PaddedSplit(Map(Split(text), f));
    MapIndex(Split(text), f);
  }

  // ---------------------------------------------------------------------
  // Gazetteer files
  // ---------------------------------------------------------------------

  /** `line.startswith('#')` */
  predicate IsComment(line: string)
  {
    |line| > 0 && line[0] == '#'
  }

  /** `[token.strip() for token in line.lower().split(',')]` */
  function Tokens(line: string): (r: seq<string>)
    ensures |r| >= 1
  {
    Map(SplitOn(Lower(line), ','), Strip)
  }

  /** `_load_stopwords`: every stripped line that is not a comment. */
  function LoadedStopwords(lines: seq<string>): set<string>
  {
    if lines == [] then {}
    else
      var line := lines[|lines| - 1];
      LoadedStopwords(lines[..|lines| - 1]) + (if IsComment(line) then {} else {Strip(line)})
  }

  /** `_load_stopwords` */
  method LoadStopwords(lines: seq<string>) returns (stopwords: set<string>)
    ensures stopwords == LoadedStopwords(lines)
  {
    stopwords := {};
    for k := 0 to |lines|
      invariant stopwords == LoadedStopwords(lines[..k])
    {
      assert lines[..k + 1][..k] == lines[..k];
      var line := lines[k];
      if !IsComment(line) {
        stopwords := stopwords + {Strip(line)};
      }
    }
    assert lines[..|lines|] == lines;
  }

  /** Every non-comment line of the file is a loaded stop word, and nothing else is. */
  lemma {:induction false} LoadedStopwordsExact(lines: seq<string>, w: string)
    ensures w in LoadedStopwords(lines) <==> exists k :: 0 <= k < |lines| && !IsComment(lines[k]) && Strip(lines[k]) == w
  {
    if lines != [] {
      var init := lines[..|lines| - 1];
      LoadedStopwordsExact(init, w);
      if exists k :: 0 <= k < |lines| && !IsComment(lines[k]) && Strip(lines[k]) == w {
        var k :| 0 <= k < |lines| && !IsComment(lines[k]) && Strip(lines[k]) == w;
        if k < |lines| - 1 {
          assert init[k] == lines[k];
        }
      }
      if exists k :: 0 <= k < |init| && !IsComment(init[k]) && Strip(init[k]) == w {
        var k :| 0 <= k < |init| && !IsComment(init[k]) && Strip(init[k]) == w;
        assert lines[k] == init[k];
      }
    }
  }

  /**
   * The stop words `__init__` keeps: the loaded ones without "sem", plus
   * "in", "of" and "on".
   */
  function StopWords(lines: seq<string>): (r: set<string>)
    ensures "sem" !in r
    ensures "in" in r && "of" in r && "on" in r
    ensures forall w :: w in r <==> (w in LoadedStopwords(lines) && w != "sem") || w in AdditionalStopWords
  {
    (LoadedStopwords(lines) - StopWordsToKeep) + AdditionalStopWords
  }

  /** A conjugation line: not a comment and at least two tokens. */
  predicate IsConjugationLine(line: string)
  {
    !IsComment(line) && |Tokens(line)| >= 2
  }

  /** `mapping[k] = v` for every `k` of `keys`. */
  function PutAll(m: map<string, string>, keys: seq<string>, v: string): (r: map<string, string>)
    ensures forall k :: k in r <==> k in m || k in keys
    ensures forall k :: k in keys ==> r[k] == v
    ensures forall k :: k in m && k !in keys ==> r[k] == m[k]
  {
    if keys == [] then m
    else
      var init := keys[..|keys| - 1];
      assert forall k :: k in keys ==> k in init || k == keys[|keys| - 1];
      PutAll(m, init, v)[keys[|keys| - 1] := v]
  }

  /** What `_load_conjugation_mapping` builds, line after line. */
  function Conjugations(lines: seq<string>): map<string, string>
  {
    if lines == [] then map[]
    else
      var m := Conjugations(lines[..|lines| - 1]);
      var tokens := Tokens(lines[|lines| - 1]);
      if IsConjugationLine(lines[|lines| - 1]) then PutAll(m, tokens[1..], tokens[0]) else m
  }

  /** `_load_conjugation_mapping` */
  method LoadConjugationMapping(lines: seq<string>) returns (m: map<string, string>)
    ensures m == Conjugations(lines)
  {
    m := map[];
    for n := 0 to |lines|
      invariant m == Conjugations(lines[..n])
    {
      assert lines[..n + 1][..n] == lines[..n];
      var line := lines[n];
      if !IsComment(line) {
        var tokens := Tokens(line);
        if |tokens| >= 2 {
          var v := tokens[0];
          ghost var before := m;
          for j := 1 to |tokens|
            invariant m == PutAll(before, tokens[1..j], v)
          {
            assert tokens[1..j + 1][..j - 1] == tokens[1..j];
            m := m[tokens[j] := v];
          }
          assert tokens[1..|tokens|] == tokens[1..];
        }
      }
    }
    assert lines[..|lines|] == lines;
  }

  /**
   * A conjugated form maps to the base verb (the first token) of the last
   * valid line that lists it: later lines override earlier ones.
   */
  lemma {:induction false} ConjugationFromLastLine(lines: seq<string>, i: nat, k: string)
    requires i < |lines| && IsConjugationLine(lines[i]) && k in Tokens(lines[i])[1..]
    requires forall j :: i < j < |lines| && IsConjugationLine(lines[j]) ==> k !in Tokens(lines[j])[1..]
    ensures k in Conjugations(lines) && Conjugations(lines)[k] == Tokens(lines[i])[0]
  {
    var init := lines[..|lines| - 1];
    if i < |lines| - 1 {
      forall j | i < j < |init| && IsConjugationLine(init[j])
        ensures k !in Tokens(init[j])[1..]
      {
        assert init[j] == lines[j];
      }
      assert init[i] == lines[i];
      ConjugationFromLastLine(init, i, k);
    }
  }

  /** Every mapped form is listed after the first token of some valid line. */
  lemma {:induction false} ConjugationKeysFromLines(lines: seq<string>, k: string)
    requires k in Conjugations(lines)
    ensures exists i :: 0 <= i < |lines| && IsConjugationLine(lines[i]) && k in Tokens(lines[i])[1..]
  {
    var init := lines[..|lines| - 1];
    var last := lines[|lines| - 1];
    if IsConjugationLine(last) && k in Tokens(last)[1..] {
      assert IsConjugationLine(lines[|lines| - 1]);
    } else {
      ConjugationKeysFromLines(init, k);
      var i :| 0 <= i < |init| && IsConjugationLine(init[i]) && k in Tokens(init[i])[1..];
      assert lines[i] == init[i];
    }
  }

  /**
   * A substitution rule. `Substitution` is built from a mapping file line
   * (variants replaced by the base word); the plural rules mark words that
   * must not lose their ending, swap an ending, and drop the mark.
   */
  datatype Rule =
    | Substitution(base: string, variants: seq<string>)
    | AddSkipMark
    | PluralSuffix(suffix: string, replacement: string)
    | RemoveSkipMark

  /** A plural line: not a comment and exactly two tokens. */
  predicate IsPluralLine(line: string)
  {
    !IsComment(line) && |Tokens(line)| == 2
  }

  function SuffixRule(line: string): Rule
  {
    var tokens := Tokens(line);
    if |tokens| == 2 then PluralSuffix(tokens[0], tokens[1]) else PluralSuffix(tokens[0], "")
  }

  /**
   * `_load_plural_mapping`: the skip-mark rule first, the mark-removal rule
   * last, and in between one ending rule per valid line, in file order.
   */
  method LoadPluralMapping(lines: seq<string>) returns (rules: seq<Rule>)
    ensures rules == [AddSkipMark] + Map(Filter(lines, IsPluralLine), SuffixRule) + [RemoveSkipMark]
  {
    rules := [AddSkipMark];
    for k := 0 to |lines|
      invariant |rules| >= 1 && rules[0] == AddSkipMark
      invariant rules[1..] == Map(Filter(lines[..k], IsPluralLine), SuffixRule)
    {
      var line := lines[k];
      PluralStep(lines, k);
      // a comment, or a line without exactly two tokens, is skipped
      if IsPluralLine(line) {
        var tokens := Tokens(line);
        var rule := PluralSuffix(tokens[0], tokens[1]);
        assert rule == SuffixRule(line);
        TailSnoc(rules, rule);
        rules := rules + [rule];
      }
    }
    assert lines[..|lines|] == lines;
    TailSnoc(rules, RemoveSkipMark);
    rules := rules + [RemoveSkipMark];
  }

  lemma PluralStep(lines: seq<string>, k: nat)
    requires k < |lines|
    ensures Map(Filter(lines[..k + 1], IsPluralLine), SuffixRule)
         == Map(Filter(lines[..k], IsPluralLine), SuffixRule) + (if IsPluralLine(lines[k]) then [SuffixRule(lines[k])] else [])
  {
    assert lines[..k + 1] == lines[..k] + [lines[k]];
    FilterSnoc(lines[..k], lines[k], IsPluralLine);
    if IsPluralLine(lines[k]) {
      MapAppend(Filter(lines[..k], IsPluralLine), [lines[k]], SuffixRule);
    }
  }

  /** The plural rule list has two rules more than there are valid lines. */
  lemma PluralRulesShape(lines: seq<string>, rules: seq<Rule>)
    requires rules == [AddSkipMark] + Map(Filter(lines, IsPluralLine), SuffixRule) + [RemoveSkipMark]
    ensures |rules| == |Filter(lines, IsPluralLine)| + 2
    ensures rules[0] == AddSkipMark && rules[|rules| - 1] == RemoveSkipMark
    ensures forall k :: 0 < k < |rules| - 1 ==> rules[k].PluralSuffix?
  {
    MapIndex(Filter(lines, IsPluralLine), SuffixRule);
  }

  // ---------------------------------------------------------------------
  // `_load_locations`
  // ---------------------------------------------------------------------

  /** The characters role titles are split at when collecting role words. */
  const SeparatorChars: set<char> :=
    {' ', ':', ',', ';', '.', '-', '–', '\t'} + set c | c in SpecialCharacters

  /** `re.split` at any one separator character: the pieces between them. */
  function SplitAny(s: string, seps: set<char>): (r: seq<string>)
    ensures |r| >= 1
    ensures forall k, i :: 0 <= k < |r| && 0 <= i < |r[k]| ==> r[k][i] !in seps
  {
    if s == [] then [""]
    else
      var rest := SplitAny(s[1..], seps);
      if s[0] in seps then [""] + rest
      else [[s[0]] + rest[0]] + rest[1..]
  }

  /** `word.strip().lower()` */
  function CleanWord(word: string): string
  {
    Lower(Strip(word))
  }

  /** A role word that keeps a location word out: two characters or more, not a stop word. */
  function RoleWordTest(stopwords: set<string>): string -> bool
  {
    w => |w| >= 2 && w !in stopwords
  }

  /** The role words of one title, in order. */
  function TitleRoleWords(title: string, stopwords: set<string>): seq<string>
  {
    Filter(Map(SplitAny(title, SeparatorChars), CleanWord), RoleWordTest(stopwords))
  }

  /** `role_words`: the role words of every title, title after title. */
  function RoleWords(titles: seq<string>, stopwords: set<string>): seq<string>
  {
    if titles == [] then []
    else RoleWords(titles[..|titles| - 1], stopwords) + TitleRoleWords(titles[|titles| - 1], stopwords)
  }

  function NotIn(s: seq<string>): string -> bool
  {
    w => w !in s
  }

  /** The `role_words` loop of `_load_locations`. */
  method CollectRoleWords(roleTitles: seq<string>, stopwords: set<string>) returns (roleWords: seq<string>)
    ensures roleWords == RoleWords(roleTitles, stopwords)
  {
    roleWords := [];
    for i := 0 to |roleTitles|
      invariant roleWords == RoleWords(roleTitles[..i], stopwords)
    {
      var parts := SplitAny(roleTitles[i], SeparatorChars);
      ghost var before := roleWords;
      for j := 0 to |parts|
        invariant roleWords == before + Filter(Map(parts[..j], CleanWord), RoleWordTest(stopwords))
      {
        var word := CleanWord(parts[j]);
        ghost var done := Filter(Map(parts[..j], CleanWord), RoleWordTest(stopwords));
        MapPrefix(parts, j, CleanWord);
        FilterSnoc(Map(parts[..j], CleanWord), word, RoleWordTest(stopwords));
        if word != "" && |word| >= 2 && word !in stopwords {
          AppendSnoc(before, done, word);
          roleWords := roleWords + [word];
        }
      }
      assert parts[..|parts|] == parts;
      assert roleTitles[..i + 1][..i] == roleTitles[..i];
    }
    assert roleTitles[..|roleTitles|] == roleTitles;
  }

  /**
   * `_load_locations` without the file read: the location words, once
   * each, that are not role words.
   */
  method LoadLocations(locationWords: seq<string>, roleTitles: seq<string>, stopwords: set<string>)
    returns (locations: seq<string>)
    ensures NoDuplicates(locations)
    ensures forall w :: w in locations <==> w in locationWords && w !in RoleWords(roleTitles, stopwords)
  {
    var roleWords := CollectRoleWords(roleTitles, stopwords);
    locations := Distinct(Filter(locationWords, NotIn(roleWords)));
    forall w
      ensures w in locations <==> w in locationWords && w !in roleWords
    {
      assert w in locations <==> w in Elements(locations);
      if w in locationWords && w !in roleWords {
        FilterKeeps(locationWords, NotIn(roleWords), w);
      }
    }
  }

  /** Every role word of every title is a role word of the list. */
  lemma {:induction false} RoleWordsComplete(titles: seq<string>, stopwords: set<string>, i: nat, w: string)
    requires i < |titles| && w in TitleRoleWords(titles[i], stopwords)
    ensures w in RoleWords(titles, stopwords)
  {
    var init := titles[..|titles| - 1];
    if i < |titles| - 1 {
      assert init[i] == titles[i];
      RoleWordsComplete(init, stopwords, i, w);
    }
  }

  /**
   * No location word is a word of two or more characters, other than a stop
   * word, that appears in a role title.
   */
  lemma LocationsAvoidRoleWords(locationWords: seq<string>, roleTitles: seq<string>, stopwords: set<string>,
                                locations: seq<string>, i: nat, part: string)
    requires forall w :: w in locations <==> w in locationWords && w !in RoleWords(roleTitles, stopwords)
    requires i < |roleTitles| && part in SplitAny(roleTitles[i], SeparatorChars)
    requires |CleanWord(part)| >= 2 && CleanWord(part) !in stopwords
    ensures CleanWord(part) !in locations
  {
    var parts := SplitAny(roleTitles[i], SeparatorChars);
    var k :| 0 <= k < |parts| && parts[k] == part;
    MapIndex(parts, CleanWord);
    FilterKeeps(Map(parts, CleanWord), RoleWordTest(stopwords), CleanWord(part));
    RoleWordsComplete(roleTitles, stopwords, i, CleanWord(part));
  }

  // ---------------------------------------------------------------------
  // `normalize`
  // ---------------------------------------------------------------------

  /** The keyword arguments of `normalize`. */
  datatype Options = Options(
    correctTypos: bool,
    stemming: bool,
    removeLocations: bool,
    normalizeConjugation: bool,
    normalizePlural: bool,
    normalizeGender: bool,
    normalizeThesaurus: bool,
    normalizeSpecialCharacterTerms: bool)

  const DefaultOptions := Options(true, false, false, true, true, true, true, true)

  /** `[token for token in text.split() if token not in stopwords]`, joined by spaces. */
  function RemoveStopWords(text: string, stopwords: set<string>): (r: string)
  {
    Join(Filter(Split(text), (w: string) => w !in stopwords), " ")
  }

  lemma FilterWords(ws: seq<string>, p: string -> bool)
    requires AllWords(ws)
    ensures AllWords(Filter(ws, p))
  {
    var r := Filter(ws, p);
    forall i | 0 <= i < |r|
      ensures IsWord(r[i])
    {
      assert r[i] in ws;
    }
  }

  /**
   * The stop-word step keeps the other words in order, and no stop word
   * survives it.
   */
  lemma RemoveStopWordsClean(text: string, stopwords: set<string>)
    ensures Split(RemoveStopWords(text, stopwords)) == Filter(Split(text), (w: string) => w !in stopwords)
    ensures forall w :: w in Split(RemoveStopWords(text, stopwords)) ==> w !in stopwords
  {
    FilterWords(Split(text), (w: string) => w !in stopwords);
    SplitJoin(Filter(Split(text), (w: string) => w !in stopwords));
  }

  /** The location step: the words not found by `_in_sorted_list`. */
  function RemoveLocations(text: string, sortedLocations: seq<string>): string
  {
    Join(Filter(Split(text), (w: string) => !InSortedList(w, sortedLocations)), " ")
  }

  /** With the locations sorted, no location word survives the location step. */
  lemma RemoveLocationsClean(text: string, sortedLocations: seq<string>)
    requires Sorted(sortedLocations)
    ensures forall w :: w in Split(RemoveLocations(text, sortedLocations)) ==> w !in sortedLocations
  {
    var p := (w: string) => !InSortedList(w, sortedLocations);
    FilterWords(Split(text), p);
    SplitJoin(Filter(Split(text), p));
    forall w | w in Split(RemoveLocations(text, sortedLocations))
      ensures w !in sortedLocations
    {
      InSortedListIff(w, sortedLocations);
    }
  }

  /** `re.sub(" +", " ", s)`: every run of spaces becomes one space. */
  function SqueezeSpaces(s: string): (r: string)
    ensures |r| <= |s|
    ensures s != [] ==> r != [] && r[0] == s[0]
    ensures forall i :: 0 <= i < |r| - 1 ==> !(r[i] == ' ' && r[i + 1] == ' ')
  {
    if |s| >= 2 && s[0] == ' ' && s[1] == ' ' then SqueezeSpaces(s[1..])
    else if s == [] then []
    else
      var rest := SqueezeSpaces(s[1..]);
      assert s[0] == ' ' ==> rest == [] || rest[0] != ' ';
      [s[0]] + rest
  }

  /**
   * The gazetteers and library steps a normalizer works with: compiled
   * substitution rules are applied by `substitute`, `lookup` gives the top
   * spelling suggestion, `removeAccents` and `stem` stand for the Unicode
   * decomposition and the RSLP stemmer.
   */
  datatype Normalizer = Normalizer(
    stopwords: set<string>,
    specialCharacterRules: seq<Rule>,
    thesaurusRules: seq<Rule>,
    genderRules: seq<Rule>,
    pluralRules: seq<Rule>,
    conjugation: map<string, string>,
    sortedLocations: seq<string>,
    dictionary: set<string>,
    lookup: string -> Option<string>,
    substitute: (Rule, string) -> string,
    removeAccents: string -> string,
    stem: string -> string)
  {
    /** Every rule applied in turn. */
    function Applied(s: string, rules: seq<Rule>): string
    {
      if rules == [] then s else substitute(rules[|rules| - 1], Applied(s, rules[..|rules| - 1]))
    }

    /** What `_normalize_by_mapping` returns: stripped, every rule applied, stripped. */
    function Rewritten(s: string, rules: seq<Rule>): (r: string)
      ensures r == [] || (!IsSpace(r[0]) && !IsSpace(r[|r| - 1]))
      ensures rules == [] ==> r == Strip(s)
    {
      Strip(Applied(Strip(s), rules))
    }

    /** `_normalize_by_mapping` */
    method NormalizeByMapping(s: string, rules: seq<Rule>) returns (r: string)
      ensures r == Rewritten(s, rules)
    {
      r := Strip(s);
      for k := 0 to |rules|
        invariant r == Applied(Strip(s), rules[..k])
      {
        assert rules[..k + 1][..k] == rules[..k];
        r := substitute(rules[k], r);
      }
      assert rules[..|rules|] == rules;
      r := Strip(r);
    }

    function PluralWord(): string -> string
    {
      w => Rewritten(w, pluralRules)
    }

    function StemWord(): string -> string
    {
      w => stem(w)
    }

    /** The text `normalize` extracts seniorities and hierarchies from. */
    function Prepared(roleTitle: string, options: Options): string
    {
      var lowered := Lower(roleTitle);
      var unbroken := Transformed(lowered, LineBreakCharacters, " ");
      var termed := if options.normalizeSpecialCharacterTerms then Rewritten(unbroken, specialCharacterRules) else unbroken;
      var spaced := Strip(SqueezeSpaces(Transformed(termed, SpaceCharacters, " ")));
      var plain := Transformed(spaced, Singletons(SpecialCharacters), "");
      var corrected := if options.correctTypos then Padded(Map(Split(plain), Corrected(dictionary, lookup))) else plain;
      removeAccents(RemoveStopWords(corrected, stopwords))
    }

    /** The normalized title, from the prepared text. */
    function Finished(prepared: string, options: Options): string
    {
      var located := if options.removeLocations then RemoveLocations(prepared, sortedLocations) else prepared;
      var conjugated := if options.normalizeConjugation then ByReplace(located, conjugation) else located;
      var singular := if options.normalizePlural then Strip(Join(Map(Split(conjugated), PluralWord()), " ")) else conjugated;
      var gendered := if options.normalizeGender then Rewritten(singular, genderRules) else singular;
      var synonyms := if options.normalizeThesaurus then Rewritten(gendered, thesaurusRules) else gendered;
      if options.stemming then Strip(Join(Map(Split(synonyms), StemWord()), " ")) else synonyms
    }

    /**
     * The seniority and hierarchy loop of `normalize`: the words of `text`
     * that are seniorities, and those that are hierarchies, in order.
     */
    static method ExtractSeniorities(text: string) returns (seniorities: seq<string>, hierarchies: seq<string>)
      ensures seniorities == Filter(Split(text), (w: string) => w in Seniorities)
      ensures hierarchies == Filter(Split(text), (w: string) => w in Hierarchies)
    {
      var tokens := Split(text);
      seniorities, hierarchies := [], [];
      for k := 0 to |tokens|
        invariant seniorities == Filter(tokens[..k], (w: string) => w in Seniorities)
        invariant hierarchies == Filter(tokens[..k], (w: string) => w in Hierarchies)
      {
        var token := tokens[k];
        assert tokens[..k + 1] == tokens[..k] + [token];
        FilterSnoc(tokens[..k], token, (w: string) => w in Seniorities);
        FilterSnoc(tokens[..k], token, (w: string) => w in Hierarchies);
        if token in Seniorities {
          seniorities := seniorities + [token];
        }
        if token in Hierarchies {
          hierarchies := hierarchies + [token];
        }
      }
      assert tokens[..|tokens|] == tokens;
    }

    /**
     * `normalize`: an empty title gives an empty title and no seniorities or
     * hierarchies; otherwise the steps run in the source's order.
     */
    method Normalize(roleTitle: string, options: Options)
      returns (normTitle: string, seniorities: seq<string>, hierarchies: seq<string>)
      ensures roleTitle == "" ==> normTitle == "" && seniorities == [] && hierarchies == []
      ensures roleTitle != "" ==>
        && seniorities == Filter(Split(Prepared(roleTitle, options)), (w: string) => w in Seniorities)
        && hierarchies == Filter(Split(Prepared(roleTitle, options)), (w: string) => w in Hierarchies)
        && normTitle == Finished(Prepared(roleTitle, options), options)
    {
      if roleTitle == "" {
        return "", [], [];
      }
      var t := Prepare(roleTitle, options);
      seniorities, hierarchies := ExtractSeniorities(t);
      normTitle := Finish(t, options);
    }

    /** The steps of `normalize` up to the seniority extraction. */
    method Prepare(roleTitle: string, options: Options) returns (t: string)
      ensures t == Prepared(roleTitle, options)
    {
      t := Lower(roleTitle);
      t := TransformText(t, LineBreakCharacters, " ");
      if options.normalizeSpecialCharacterTerms {
        t := NormalizeByMapping(t, specialCharacterRules);
      }
      t := TransformText(t, SpaceCharacters, " ");
      t := SqueezeSpaces(t);
      t := Strip(t);
      t := TransformText(t, Singletons(SpecialCharacters), "");
      if options.correctTypos {
        t := CorrectTypos(t, dictionary, lookup);
      }
      t := RemoveStopWords(t, stopwords);
      t := removeAccents(t);
    }

    /** The steps of `normalize` after the seniority extraction. */
    method Finish(prepared: string, options: Options) returns (t: string)
      ensures t == Finished(prepared, options)
    {
      t := prepared;
      if options.removeLocations {
        t := RemoveLocations(t, sortedLocations);
      }
      if options.normalizeConjugation {
        t := NormalizeByReplace(t, conjugation);
      }
      if options.normalizePlural {
        t := Strip(Join(Map(Split(t), PluralWord()), " "));
      }
      if options.normalizeGender {
        t := NormalizeByMapping(t, genderRules);
      }
      if options.normalizeThesaurus {
        t := NormalizeByMapping(t, thesaurusRules);
      }
      if options.stemming {
        t := Strip(Join(Map(Split(t), StemWord()), " "));
      }
    }
  }

  /**
   * The extracted seniorities are exactly the seniority words of the text,
   * with their repeats: each one as often as in the text, nothing else.
   */
  lemma SenioritiesExact(text: string, x: string)
    ensures Count(Filter(Split(text), (w: string) => w in Seniorities), x)
         == if x in Seniorities then Count(Split(text), x) else 0
    ensures Count(Filter(Split(text), (w: string) => w in Hierarchies), x)
         == if x in Hierarchies then Count(Split(text), x) else 0
  {
    CountFilter(Split(text), (w: string) => w in Seniorities, x);
    CountFilter(Split(text), (w: string) => w in Hierarchies, x);
  }
}
