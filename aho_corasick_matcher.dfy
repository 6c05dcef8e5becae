/**
 * The Aho-Corasick title matcher. Its automaton holds `;title;` for every
 * normalized main and similar title; a candidate title is split into words,
 * every run of 1 to 10 consecutive words among the first 50 is a candidate,
 * and the matcher answers with the longest (then earliest) candidate whose
 * `;candidate;` the automaton finds.
 *
 * The automaton is modelled as the set of its words, and a search of it as
 * "some word of the set occurs in the searched text".
 */
module AhoCorasickMatcher {
  import opened Wrappers
  import opened Seqs
  import opened Text
  import opened OrderedDicts

  const Separator: string := ";"
  const RoleTitleMaxWords: nat := 50
  const CombinationsMinLength: nat := 1
  const CombinationsMaxLength: nat := 10
  const SingleWordTitlesBlocklist: set<string> := {
    "arquiteto", "arquiteta", "architect", "arquitetura", "architecture",
    "medico", "medica",
    "fisico", "fisica",
    "seguranca", "security",
    "designer", "design"
  }

  /** The automaton word of a title: the title between separators. */
  function Key(title: string): string
  {
    Separator + title + Separator
  }

  function Keys(titles: set<string>): set<string>
  {
    set t | t in titles :: Key(t)
  }

  /** `word` occurs in `text` at position `i`. */
  predicate OccursAt(word: string, text: string, i: int)
  {
    0 <= i <= |text| - |word| && text[i..i + |word|] == word
  }

  /** `word` occurs in `text` at some position. */
  predicate Occurs(word: string, text: string)
  {
    exists i :: 0 <= i <= |text| - |word| && OccursAt(word, text, i)
  }

  /** `automaton.iter_long(needle)` yields something: some word of the automaton occurs in the needle. */
  predicate Found(automaton: set<string>, needle: string)
  {
    exists w :: w in automaton && Occurs(w, needle)
  }

  /** What the search loop looks up for a word combination. */
  function Needle(combination: seq<string>): string
  {
    Key(Join(combination, " "))
  }

  /** Combinations that survive the blocklist filter: several words, or one word not blocked. */
  predicate Allowed(blocklist: set<string>, combination: seq<string>)
  {
    |combination| > 1 || (|combination| == 1 && combination[0] !in blocklist)
  }

  function AllowedBy(blocklist: set<string>): seq<string> -> bool
  {
    c => Allowed(blocklist, c)
  }

  /** A combination the matcher accepts: not blocked, and found by the automaton. */
  predicate Hit(automaton: set<string>, blocklist: set<string>, combination: seq<string>)
  {
    Allowed(blocklist, combination) && Found(automaton, Needle(combination))
  }

  /** The `size` words from word `start` on form a combination the matcher accepts. */
  predicate HitAt(automaton: set<string>, blocklist: set<string>, words: seq<string>, start: nat, size: nat)
  {
    start + size <= |words| && Hit(automaton, blocklist, words[start..start + size])
  }

  /** `norm_title.split()[0:50]` */
  function TitleWords(normTitle: string): seq<string>
  {
    var words := Split(normTitle);
    if |words| <= RoleTitleMaxWords then words else words[..RoleTitleMaxWords]
  }

  // ------------------------------------------------------------ candidates

  /**
   * The pairs `(i, j')`, `j <= j'`, that `combinations(range(len(words) + 1), 2)`
   * lists with first element `i`, kept when `1 <= j' - i <= 10`, as slices.
   */
  function Row(words: seq<string>, i: nat, j: nat): seq<seq<string>>
    requires i < j
    decreases |words| + 1 - j
  {
    if j > |words| then []
    else
      (if CombinationsMinLength <= j - i <= CombinationsMaxLength then [words[i..j]] else [])
      + Row(words, i, j + 1)
  }

  /** The word combinations of the comprehension, from first element `i` on, in its order. */
  function CombinationsFrom(words: seq<string>, i: nat): seq<seq<string>>
    decreases |words| - i
  {
    if i >= |words| then [] else Row(words, i, i + 1) + CombinationsFrom(words, i + 1)
  }

  function OfLength<T>(n: nat): seq<T> -> bool
  {
    c => |c| == n
  }

  function AtMost<T>(n: nat): seq<T> -> bool
  {
    c => |c| <= n
  }

  /**
   * `s.sort(key=len, reverse=True)` for lists whose members have at most
   * `top` elements: the members of each length, longest first, each group
   * in its original order (Python's sort is stable, also in reverse).
   */
  function SortByLength<T>(s: seq<seq<T>>, top: nat): seq<seq<T>>
  {
    var group := Filter(s, OfLength(top));
    if top == 0 then group else group + SortByLength(s, top - 1)
  }

  /** The combinations the search loop tries, in the order it tries them. */
  function Candidates(blocklist: set<string>, words: seq<string>): seq<seq<string>>
  {
    SortByLength(Filter(Distinct(CombinationsFrom(words, 0)), AllowedBy(blocklist)), CombinationsMaxLength)
  }

  function FoundBy(automaton: set<string>): seq<string> -> bool
  {
    c => Found(automaton, Needle(c))
  }

  // ------------------------------------------------------------ reference

  /** A run of `size` consecutive words starting at word `start`. */
  datatype Window = Window(start: nat, size: nat)

  /** The earliest window of `size` words, starting at `i` or later, that is a hit. */
  function FirstStart(automaton: set<string>, blocklist: set<string>, words: seq<string>, size: nat, i: nat)
    : (r: Option<Window>)
    ensures r.Some? ==> r.value.size == size && i <= r.value.start
    ensures r.Some? ==> HitAt(automaton, blocklist, words, r.value.start, size)
    ensures forall j: nat :: i <= j && (r.None? || j < r.value.start) ==> !HitAt(automaton, blocklist, words, j, size)
    decreases |words| - i
  {
    if i + size > |words| then None
    else if HitAt(automaton, blocklist, words, i, size) then Some(Window(i, size))
    else FirstStart(automaton, blocklist, words, size, i + 1)
  }

  /**
   * The longest window of at most `top` words that is a hit, the earliest
   * among the hits of that length; `None` when no window of 1 to `top`
   * words is a hit.
   */
  function Longest(automaton: set<string>, blocklist: set<string>, words: seq<string>, top: nat): (r: Option<Window>)
    ensures r.Some? ==> 1 <= r.value.size <= top
    ensures r.Some? ==> HitAt(automaton, blocklist, words, r.value.start, r.value.size)
    ensures r.Some? ==> forall j: nat :: j < r.value.start ==> !HitAt(automaton, blocklist, words, j, r.value.size)
    ensures forall j: nat, n: nat :: 1 <= n <= top && (r.None? || r.value.size < n) ==>
      !HitAt(automaton, blocklist, words, j, n)
  {
    if top == 0 then None
    else
      var first := FirstStart(automaton, blocklist, words, top, 0);
      if first.Some? then first else Longest(automaton, blocklist, words, top - 1)
  }

  function Slice(words: seq<string>, w: Option<Window>): Option<seq<string>>
    requires w.Some? ==> w.value.start + w.value.size <= |words|
  {
    if w.None? then None else Some(words[w.value.start..w.value.start + w.value.size])
  }

  /** The title the matcher answers for `words`. */
  function BestMatch(automaton: set<string>, blocklist: set<string>, words: seq<string>): Option<string>
  {
    var w := Slice(words, Longest(automaton, blocklist, words, CombinationsMaxLength));
    if w.None? then None else Some(Join(w.value, " "))
  }

  // ------------------------------------------------------------ the matcher

  class Matcher {
    const automaton: set<string>
    const blocklist: set<string>

    /**
     * `__init__`: one automaton word per main title, then one per similar
     * title (the keys of the two mappings, in their order).
     */
    constructor (normMainRoles: seq<string>, normSimilarRoles: seq<string>)
      ensures automaton == Keys(Elements(normMainRoles) + Elements(normSimilarRoles))
      ensures blocklist == SingleWordTitlesBlocklist
    {
      var words: set<string> := {};
      for k := 0 to |normMainRoles|
        invariant words == Keys(Elements(normMainRoles[..k]))
      {
        assert Elements(normMainRoles[..k + 1]) == Elements(normMainRoles[..k]) + {normMainRoles[k]};
        words := words + {Key(normMainRoles[k])};
      }
      assert normMainRoles[..|normMainRoles|] == normMainRoles;
      for k := 0 to |normSimilarRoles|
        invariant words == Keys(Elements(normMainRoles) + Elements(normSimilarRoles[..k]))
      {
        assert Elements(normSimilarRoles[..k + 1]) == Elements(normSimilarRoles[..k]) + {normSimilarRoles[k]};
        words := words + {Key(normSimilarRoles[k])};
      }
      assert normSimilarRoles[..|normSimilarRoles|] == normSimilarRoles;
      automaton := words;
      blocklist := SingleWordTitlesBlocklist;
    }

    /**
     * `match`: the space-join of the longest, then earliest, allowed run of
     * 1 to 10 of the first 50 words whose key the automaton finds, or `None`.
     */
    method Match(normTitle: string) returns (matched: Option<string>)
      ensures matched == BestMatch(automaton, blocklist, TitleWords(normTitle))
      ensures Split(normTitle) == [] ==> matched == None
    {
      var words := TitleWords(normTitle);
      var combinations := CombinationsFrom(words, 0);
      combinations := Dedup(combinations);
      combinations := Filter(combinations, AllowedBy(blocklist));
      combinations := SortByLength(combinations, CombinationsMaxLength);
      matched := None;
      var k := 0;
      ghost var first := FirstMatch(combinations, FoundBy(automaton));
      while k < |combinations|
        invariant k <= |combinations|
        invariant matched == None
        invariant FirstMatch(combinations[k..], FoundBy(automaton)) == first
      {
        var substr := Join(combinations[k], " ");
        if Found(automaton, Separator + substr + Separator) {
          assert combinations[k..][0] == combinations[k];
          assert first == Some(combinations[k]);
          matched := Some(substr);
          break;
        }
        assert combinations[k..][1..] == combinations[k + 1..];
        k := k + 1;
      }
      assert combinations == Candidates(blocklist, words);
      BestMatchIsFirstFound(automaton, blocklist, words);
    }
  }

  /** The best match is the joined first candidate the automaton finds. */
  lemma BestMatchIsFirstFound(automaton: set<string>, blocklist: set<string>, words: seq<string>)
    ensures var first := FirstMatch(Candidates(blocklist, words), FoundBy(automaton));
      BestMatch(automaton, blocklist, words) == if first.None? then None else Some(Join(first.value, " "))
  {
    CandidatesLongest(automaton, blocklist, words, CombinationsMaxLength);
  }

  /** The dedup loop: an ordered dict keyed by the combinations keeps each first occurrence. */
  method Dedup(combinations: seq<seq<string>>) returns (r: seq<seq<string>>)
    ensures r == Distinct(combinations)
  {
    var d: OrderedDict<seq<string>, ()> := Empty();
    for k := 0 to |combinations|
      invariant Valid(d)
      invariant d.keys == Distinct(combinations[..k])
    {
      PutValid(d, combinations[k], ());
      assert combinations[..k + 1][..k] == combinations[..k];
      d := Put(d, combinations[k], ());
    }
    assert combinations[..|combinations|] == combinations;
    r := d.keys;
  }

  // ------------------------------------------------------------ proofs

  /**
   * The sort puts longer members first, keeps the members of each length in
   * their order, and is a permutation.
   */
  lemma SortByLengthSorted<T>(s: seq<seq<T>>, top: nat)
    requires forall c :: c in s ==> |c| <= top
    ensures var r := SortByLength(s, top);
      && LongestFirst(r)
      && (forall n: nat :: Filter(r, OfLength(n)) == Filter(s, OfLength(n)))
      && multiset(r) == multiset(s)
  {
    var r := SortByLength(s, top);
    SortedDescending(s, top);
    forall n: nat
      ensures Filter(r, OfLength(n)) == Filter(s, OfLength(n))
    {
      SortGroup(s, top, n);
      if n > top {
        FilterNone(s, OfLength(n));
      }
    }
    SortPermutation(s, top);
    FilterAll(s, AtMost(top));
  }

  /** Longer members first. */
  predicate LongestFirst<T>(r: seq<seq<T>>)
  {
    forall i, j :: 0 <= i < j < |r| ==> |r[i]| >= |r[j]|
  }

  lemma LongestFirstAppend<T>(a: seq<seq<T>>, b: seq<seq<T>>, n: nat)
    requires forall x :: x in a ==> |x| == n
    requires forall y :: y in b ==> |y| <= n
    requires LongestFirst(b)
    ensures LongestFirst(a + b)
  {
    var r := a + b;
    forall i, j | 0 <= i < j < |r|
      ensures |r[i]| >= |r[j]|
    {
      if j < |a| {
        assert r[i] == a[i] && r[j] == a[j];
      } else if i < |a| {
        assert r[i] == a[i] && r[j] == b[j - |a|];
      } else {
        assert r[i] == b[i - |a|] && r[j] == b[j - |a|];
      }
    }
  }

  lemma {:induction false} SortedDescending<T>(s: seq<seq<T>>, top: nat)
    ensures LongestFirst(SortByLength(s, top))
  {
    var g := Filter(s, OfLength(top));
    if top == 0 {
      LongestFirstAppend(g, [], 0);
      assert g + [] == g;
    } else {
      var t: nat := top - 1;
      SortedDescending(s, t);
      SortMembers(s, t);
      var rest := SortByLength(s, t);
      LongestFirstAppend(g, rest, top);
      assert SortByLength(s, top) == g + rest;
    }
  }

  lemma {:induction false} SortMembers<T>(s: seq<seq<T>>, top: nat)
    ensures forall c :: c in SortByLength(s, top) ==> c in s && |c| <= top
  {
    var g := Filter(s, OfLength(top));
    if top > 0 {
      var t: nat := top - 1;
      SortMembers(s, t);
      assert SortByLength(s, top) == g + SortByLength(s, t);
    }
  }

  lemma {:induction false} SortGroup<T>(s: seq<seq<T>>, top: nat, n: nat)
    ensures Filter(SortByLength(s, top), OfLength(n)) == if n <= top then Filter(s, OfLength(n)) else []
  {
    var g := Filter(s, OfLength(top));
    if n == top {
      FilterAll(g, OfLength<T>(n));
    } else {
      FilterNone(g, OfLength<T>(n));
    }
    if top > 0 {
      var t: nat := top - 1;
      var rest := SortByLength(s, t);
      SortGroup(s, t, n);
      assert SortByLength(s, top) == g + rest;
      FilterAppend(g, rest, OfLength(n));
    }
  }

  lemma {:induction false} SortPermutation<T>(s: seq<seq<T>>, top: nat)
    ensures multiset(SortByLength(s, top)) == multiset(Filter(s, AtMost(top)))
  {
    var g := Filter(s, OfLength(top));
    if top == 0 {
      assert SortByLength(s, top) == g;
      FilterSameTest(s, OfLength<T>(0), AtMost(0));
    } else {
      var t: nat := top - 1;
      var rest := SortByLength(s, t);
      assert SortByLength(s, top) == g + rest;
      SortPermutation(s, t);
      FilterPartition(s, OfLength<T>(top), AtMost(t), AtMost(top));
      assert multiset(g + rest) == multiset(g) + multiset(rest);
    }
  }

  /** The windows of `size` words from word `i` on, left to right. */
  function Slides(words: seq<string>, size: nat, i: nat): seq<seq<string>>
    decreases |words| - i
  {
    if i + size > |words| then [] else [words[i..i + size]] + Slides(words, size, i + 1)
  }

  lemma {:induction false} FilterOne<T>(x: T, p: T -> bool)
    ensures Filter([x], p) == if p(x) then [x] else []
  {
    assert [x][..0] == [];
  }

  lemma {:induction false} RowOfLength(words: seq<string>, i: nat, j: nat, size: nat)
    requires i < j
    requires CombinationsMinLength <= size <= CombinationsMaxLength
    ensures Filter(Row(words, i, j), OfLength(size)) ==
      if j <= i + size <= |words| then [words[i..i + size]] else []
    decreases |words| + 1 - j
  {
    if j <= |words| {
      var next: nat := j + 1;
      var rest := Row(words, i, next);
      RowOfLength(words, i, next, size);
      var e: seq<seq<string>> := if CombinationsMinLength <= j - i <= CombinationsMaxLength then [words[i..j]] else [];
      assert Row(words, i, j) == e + rest;
      FilterAppend(e, rest, OfLength(size));
      if e != [] {
        FilterOne(words[i..j], OfLength(size));
      }
    }
  }

  lemma {:induction false} CombinationsOfLength(words: seq<string>, size: nat, i: nat)
    requires CombinationsMinLength <= size <= CombinationsMaxLength
    ensures Filter(CombinationsFrom(words, i), OfLength(size)) == Slides(words, size, i)
    decreases |words| - i
  {
    if i >= |words| {
      assert CombinationsFrom(words, i) == [] && Slides(words, size, i) == [];
    } else {
      var row := Row(words, i, i + 1);
      var rest := CombinationsFrom(words, i + 1);
      assert CombinationsFrom(words, i) == row + rest;
      CombinationsOfLength(words, size, i + 1);
      RowOfLength(words, i, i + 1, size);
      FilterAppend(row, rest, OfLength(size));
      if i + size > |words| {
        assert Slides(words, size, i) == [] && Slides(words, size, i + 1) == [];
      } else {
        assert Slides(words, size, i) == [words[i..i + size]] + Slides(words, size, i + 1);
      }
    }
  }

  lemma {:induction false} RowSizes(words: seq<string>, i: nat, j: nat)
    requires i < j
    ensures forall c :: c in Row(words, i, j) ==> CombinationsMinLength <= |c| <= CombinationsMaxLength
    decreases |words| + 1 - j
  {
    if j <= |words| {
      var next: nat := j + 1;
      RowSizes(words, i, next);
    }
  }

  /** Every combination has 1 to 10 words. */
  lemma {:induction false} CombinationSizes(words: seq<string>, i: nat)
    ensures forall c :: c in CombinationsFrom(words, i) ==> CombinationsMinLength <= |c| <= CombinationsMaxLength
    decreases |words| - i
  {
    if i < |words| {
      var next: nat := i + 1;
      RowSizes(words, i, next);
      CombinationSizes(words, next);
    }
  }

  function HitBy(automaton: set<string>, blocklist: set<string>): seq<string> -> bool
  {
    c => Hit(automaton, blocklist, c)
  }

  lemma {:induction false} SlidesFirstStart(automaton: set<string>, blocklist: set<string>, words: seq<string>,
                                            size: nat, i: nat)
    ensures FirstMatch(Slides(words, size, i), HitBy(automaton, blocklist))
         == Slice(words, FirstStart(automaton, blocklist, words, size, i))
    decreases |words| - i
  {
    if i + size <= |words| {
      SlidesFirstStart(automaton, blocklist, words, size, i + 1);
    }
  }

  /** The first combination of `size` words the search finds is the earliest window of that size that is a hit. */
  lemma GroupFirstStart(automaton: set<string>, blocklist: set<string>, words: seq<string>, size: nat)
    requires CombinationsMinLength <= size <= CombinationsMaxLength
    ensures var d := Filter(Distinct(CombinationsFrom(words, 0)), AllowedBy(blocklist));
      FirstMatch(Filter(d, OfLength(size)), FoundBy(automaton))
        == Slice(words, FirstStart(automaton, blocklist, words, size, 0))
  {
    var w := CombinationsFrom(words, 0);
    var u := Distinct(w);
    var d := Filter(u, AllowedBy(blocklist));
    var sizedFound := (c: seq<string>) => |c| == size && Found(automaton, Needle(c));
    var sizedHit := (c: seq<string>) => |c| == size && Hit(automaton, blocklist, c);
    FirstMatchFilter(d, OfLength(size), FoundBy(automaton), sizedFound);
    FirstMatchFilter(u, AllowedBy(blocklist), sizedFound, sizedHit);
    FirstMatchDistinct(w, sizedHit);
    FirstMatchFilter(w, OfLength(size), HitBy(automaton, blocklist), sizedHit);
    CombinationsOfLength(words, size, 0);
    SlidesFirstStart(automaton, blocklist, words, size, 0);
  }

  /** The search over the sorted candidates finds the window `Longest` describes. */
  lemma {:induction false} CandidatesLongest(automaton: set<string>, blocklist: set<string>, words: seq<string>,
                                             top: nat)
    requires top <= CombinationsMaxLength
    ensures var d := Filter(Distinct(CombinationsFrom(words, 0)), AllowedBy(blocklist));
      FirstMatch(SortByLength(d, top), FoundBy(automaton)) == Slice(words, Longest(automaton, blocklist, words, top))
  {
    var w := CombinationsFrom(words, 0);
    var d := Filter(Distinct(w), AllowedBy(blocklist));
    var g := Filter(d, OfLength(top));
    if top == 0 {
      CombinationSizes(words, 0);
      assert forall c :: c in d ==> c in Elements(Distinct(w));
      FilterNone(d, OfLength(0));
      assert SortByLength(d, top) == [];
      assert Longest(automaton, blocklist, words, top) == None;
    } else {
      var t: nat := top - 1;
      var rest := SortByLength(d, t);
      assert SortByLength(d, top) == g + rest;
      CandidatesLongest(automaton, blocklist, words, t);
      GroupFirstStart(automaton, blocklist, words, top);
      FirstMatchAppend(g, rest, FoundBy(automaton));
    }
  }

  /**
   * The separators make a title's key occur in another's only when the two
   * titles are equal, provided neither contains a separator.
   */
  lemma KeyOccursOnlyInItself(t: string, x: string)
    requires ';' !in t && ';' !in x
    ensures Occurs(Key(t), Key(x)) <==> t == x
  {
    var k := Key(t);
    var s := Key(x);
    if t == x {
      assert OccursAt(k, s, 0);
    }
    if Occurs(k, s) {
      var i :| 0 <= i <= |s| - |k| && OccursAt(k, s, i);
      assert |k| == |t| + 2 && |s| == |x| + 2;
      assert s[i..i + |k|] == k;
      assert forall p :: 1 <= p <= |x| ==> s[p] == x[p - 1];
      assert forall p :: 1 <= p <= |x| ==> s[p] != ';';
      assert s[i] == k[0];
      assert i == 0;
      assert s[|k| - 1] == k[|k| - 1];
      assert |t| == |x|;
      assert k == s;
      assert t == k[1..|k| - 1];
      assert x == s[1..|s| - 1];
    }
  }

  /**
   * With titles and words free of separators, the automaton built from
   * `titles` finds a combination exactly when the combination, joined by
   * spaces, is one of the titles.
   */
  lemma FoundIffTitle(titles: set<string>, combination: seq<string>)
    requires forall t :: t in titles ==> ';' !in t
    requires forall w :: w in combination ==> ';' !in w
    ensures Found(Keys(titles), Needle(combination)) <==> Join(combination, " ") in titles
  {
    var x := Join(combination, " ");
    JoinKeepsAbsent(combination, " ", ';');
    if x in titles {
      KeyOccursOnlyInItself(x, x);
      assert Key(x) in Keys(titles);
    }
    if Found(Keys(titles), Needle(combination)) {
      var k :| k in Keys(titles) && Occurs(k, Key(x));
      var t :| t in titles && k == Key(t);
      KeyOccursOnlyInItself(t, x);
    }
  }

  /**
   * For a title without separators, matched against titles without them, a
   * match is one of the titles; and it is never a blocked word when, as in
   * the shipped blocklist, the blocked words are single words.
   */
  lemma MatchIsKnownTitle(titles: set<string>, blocklist: set<string>, normTitle: string)
    requires forall t :: t in titles ==> ';' !in t
    requires ';' !in normTitle
    ensures var m := BestMatch(Keys(titles), blocklist, TitleWords(normTitle));
      m.Some? ==> m.value in titles
    ensures var m := BestMatch(Keys(titles), blocklist, TitleWords(normTitle));
      (forall b :: b in blocklist ==> ' ' !in b) && m.Some? ==> m.value !in blocklist
  {
    var automaton := Keys(titles);
    var words := TitleWords(normTitle);
    var r := Longest(automaton, blocklist, words, CombinationsMaxLength);
    if r.Some? {
      SplitKeepsAbsent(normTitle, ';');
      var c := words[r.value.start..r.value.start + r.value.size];
      forall w | w in c
        ensures ';' !in w
      {
        var k :| 0 <= k < |c| && c[k] == w;
        assert w == words[r.value.start + k];
        assert w in Split(normTitle);
      }
      FoundIffTitle(titles, c);
      if |c| > 1 {
        JoinedHasSeparator(c, ' ');
      }
    }
  }
}
