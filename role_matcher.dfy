/**
 * The role matcher: database roles indexed by their normalized title, the
 * perfil-id filter applied to a matched role, and the chain of matchers
 * tried for one title (exact title, then Aho-Corasick, then Word2Vec).
 */
module RoleMatcher {
  import opened Wrappers
  import opened Seqs
  import AhoCorasickMatcher

  /** The three id lists a role carries and the profile mapping is keyed by. */
  datatype IdType = AreapIds | NivelhIds | PerfilIds

  /** A database role with its normalized title and its id lists. */
  datatype ProcessedRole = ProcessedRole(
    roleId: int,
    title: string,
    processedTitle: string,
    seniorities: seq<string>,
    hierarchies: seq<string>,
    areapIds: seq<int>,
    nivelhIds: seq<int>,
    perfilIds: seq<int>)

  /** `ProcessedRole.profile_id_mapping`: perfil id to the id lists it allows. */
  type ProfileMapping = map<int, map<IdType, seq<int>>>

  /** `profile_id_mapping[p][id_type]` exists and lists `x`. */
  predicate MappedTo(mapping: ProfileMapping, p: int, idType: IdType, x: int)
  {
    p in mapping && idType in mapping[p] && x in mapping[p][idType]
  }

  /**
   * `filtered_ids` of `_filter_ids`: the id lists of every filter perfil id
   * the mapping knows, in filter order.
   */
  function MappedIds(mapping: ProfileMapping, filter: seq<int>, idType: IdType): (r: seq<int>)
    ensures forall x :: x in r ==> exists p :: p in filter && MappedTo(mapping, p, idType, x)
  {
    if filter == [] then []
    else
      var p := filter[|filter| - 1];
      var init := filter[..|filter| - 1];
      var before := MappedIds(mapping, init, idType);
      var own := if p in mapping && idType in mapping[p] then mapping[p][idType] else [];
      assert forall x :: x in own ==> MappedTo(mapping, p, idType, x);
      assert forall q :: q in init ==> q in filter;
      before + own
  }

  lemma {:induction false} MappedIdsComplete(mapping: ProfileMapping, filter: seq<int>, idType: IdType, p: int, x: int)
    requires p in filter && MappedTo(mapping, p, idType, x)
    ensures x in MappedIds(mapping, filter, idType)
  {
    var last := filter[|filter| - 1];
    if p != last {
      MappedIdsComplete(mapping, filter[..|filter| - 1], idType, p, x);
    }
  }

  function InList(s: seq<int>): int -> bool
  {
    x => x in s
  }

  /**
   * `_filter_ids`: without a filter the ids are kept as they are; with one,
   * each id is listed at most once and only ids of `ids` are kept.
   */
  function FilteredIds(mapping: ProfileMapping, ids: seq<int>, filter: seq<int>, idType: IdType): (r: seq<int>)
    ensures filter == [] ==> r == ids
    ensures filter != [] ==> NoDuplicates(r)
    ensures forall x :: x in r ==> x in ids
  {
    if filter == [] then ids
    else
      var r := Distinct(Filter(ids, InList(MappedIds(mapping, filter, idType))));
      assert forall x :: x in r ==> x in Elements(r);
      r
  }

  /**
   * With a filter, `_filter_ids` keeps exactly those ids that some filter
   * perfil id maps to under `idType` (the intersection of the two sets).
   */
  lemma FilteredIdsExact(mapping: ProfileMapping, ids: seq<int>, filter: seq<int>, idType: IdType, x: int)
    requires filter != []
    ensures x in FilteredIds(mapping, ids, filter, idType)
        <==> x in ids && exists p :: p in filter && MappedTo(mapping, p, idType, x)
  {
    var r := FilteredIds(mapping, ids, filter, idType);
    var filtered := MappedIds(mapping, filter, idType);
    if x in ids && exists p :: p in filter && MappedTo(mapping, p, idType, x) {
      var p :| p in filter && MappedTo(mapping, p, idType, x);
      MappedIdsComplete(mapping, filter, idType, p, x);
      FilterKeeps(ids, InList(filtered), x);
      assert x in Elements(r);
    }
    if x in r {
      assert x in Elements(r);
      assert x in Filter(ids, InList(filtered));
    }
  }

  /**
   * `ProcessedRole._filter_ids`, step by step: collect the mapped ids of the
   * filter perfil ids, skipping a perfil id the mapping lacks or maps to
   * nothing, then intersect.
   */
  method FilterIds(mapping: ProfileMapping, ids: seq<int>, filter: seq<int>, idType: IdType) returns (r: seq<int>)
    ensures r == FilteredIds(mapping, ids, filter, idType)
  {
    if filter != [] {
      var filtered: seq<int> := [];
      for k := 0 to |filter|
        invariant filtered == MappedIds(mapping, filter[..k], idType)
      {
        assert filter[..k + 1][..k] == filter[..k];
        var p := filter[k];
        if p in mapping && mapping[p] != map[] && idType in mapping[p] && mapping[p][idType] != [] {
          filtered := filtered + mapping[p][idType];
        } else if p in mapping && idType in mapping[p] {
          assert mapping[p][idType] == [];
          assert filtered + mapping[p][idType] == filtered;
        }
      }
      assert filter[..|filter|] == filter;
      r := Distinct(Filter(ids, InList(filtered)));
    } else {
      r := ids;
    }
  }

  /**
   * `filter_by_perfil_ids`: the same role with its three id lists filtered;
   * id, titles, seniorities and hierarchies are kept, no id is added, and an
   * empty filter leaves the role unchanged.
   */
  function FilterByPerfilIds(mapping: ProfileMapping, role: ProcessedRole, filter: seq<int>): (r: ProcessedRole)
    ensures r.roleId == role.roleId && r.title == role.title && r.processedTitle == role.processedTitle
    ensures r.seniorities == role.seniorities && r.hierarchies == role.hierarchies
    ensures r.areapIds == FilteredIds(mapping, role.areapIds, filter, AreapIds)
    ensures r.nivelhIds == FilteredIds(mapping, role.nivelhIds, filter, NivelhIds)
    ensures r.perfilIds == FilteredIds(mapping, role.perfilIds, filter, PerfilIds)
    ensures filter == [] ==> r == role
  {
    role.(areapIds := FilteredIds(mapping, role.areapIds, filter, AreapIds),
          nivelhIds := FilteredIds(mapping, role.nivelhIds, filter, NivelhIds),
          perfilIds := FilteredIds(mapping, role.perfilIds, filter, PerfilIds))
  }

  /** `mapping.get(title)`; a stored role is always truthy. */
  function Get(mapping: map<string, ProcessedRole>, title: string): Option<ProcessedRole>
  {
    if title in mapping then Some(mapping[title]) else None
  }

  function TitleIs(title: string): ProcessedRole -> bool
  {
    (r: ProcessedRole) => r.processedTitle == title
  }

  /** The first role of `roles` with normalized title `title`. */
  function FirstWithTitle(roles: seq<ProcessedRole>, title: string): Option<ProcessedRole>
  {
    FirstMatch(roles, TitleIs(title))
  }

  lemma FirstWithTitleSnoc(roles: seq<ProcessedRole>, role: ProcessedRole, title: string)
    ensures FirstWithTitle(roles + [role], title)
         == if FirstWithTitle(roles, title).Some? then FirstWithTitle(roles, title)
            else if role.processedTitle == title then Some(role) else None
  {
    FirstMatchAppend(roles, [role], TitleIs(title));
    assert FirstMatch([role], TitleIs(title)) == if role.processedTitle == title then Some(role) else FirstMatch([role][1..], TitleIs(title));
  }

  /**
   * The mappings built in `RoleMatcher.__init__`: a main title maps to the
   * first main role with that title; a similar title maps to the first
   * similar role with it, unless the title is already a main title.
   */
  method BuildMappings(mainRoles: seq<ProcessedRole>, similarRoles: seq<ProcessedRole>)
    returns (main: map<string, ProcessedRole>, similar: map<string, ProcessedRole>)
    ensures forall t :: Get(main, t) == FirstWithTitle(mainRoles, t)
    ensures forall t :: Get(similar, t) == if t in main then None else FirstWithTitle(similarRoles, t)
  {
    main := map[];
    for k := 0 to |mainRoles|
      invariant forall t :: Get(main, t) == FirstWithTitle(mainRoles[..k], t)
    {
      var role := mainRoles[k];
      assert mainRoles[..k + 1] == mainRoles[..k] + [role];
      forall t
        ensures FirstWithTitle(mainRoles[..k + 1], t)
             == if FirstWithTitle(mainRoles[..k], t).Some? then FirstWithTitle(mainRoles[..k], t)
                else if role.processedTitle == t then Some(role) else None
      {
        FirstWithTitleSnoc(mainRoles[..k], role, t);
      }
      if Get(main, role.processedTitle).None? {
        ghost var before := main;
        main := main[role.processedTitle := role];
        forall t
          ensures Get(main, t) == FirstWithTitle(mainRoles[..k + 1], t)
        {
          if t != role.processedTitle {
            assert Get(main, t) == Get(before, t);
          }
        }
      }
    }
    assert mainRoles[..|mainRoles|] == mainRoles;
    similar := map[];
    for k := 0 to |similarRoles|
      invariant forall t :: Get(similar, t) == if t in main then None else FirstWithTitle(similarRoles[..k], t)
    {
      var role := similarRoles[k];
      assert similarRoles[..k + 1] == similarRoles[..k] + [role];
      forall t
        ensures FirstWithTitle(similarRoles[..k + 1], t)
             == if FirstWithTitle(similarRoles[..k], t).Some? then FirstWithTitle(similarRoles[..k], t)
                else if role.processedTitle == t then Some(role) else None
      {
        FirstWithTitleSnoc(similarRoles[..k], role, t);
      }
      if Get(main, role.processedTitle).None? && Get(similar, role.processedTitle).None? {
        ghost var before := similar;
        similar := similar[role.processedTitle := role];
        forall t
          ensures Get(similar, t) == if t in main then None else FirstWithTitle(similarRoles[..k + 1], t)
        {
          if t != role.processedTitle {
            assert Get(similar, t) == Get(before, t);
          }
        }
      }
    }
    assert similarRoles[..|similarRoles|] == similarRoles;
  }

  /** The `match_type` reported with a matched role. */
  datatype MatchType = Database | AhoCorasick | Word2Vec

  /** What `normalize_and_match` returns: title, role and match type. */
  datatype Outcome = Outcome(normTitle: string, role: Option<ProcessedRole>, matchType: Option<MatchType>)

  /**
   * A role matcher once built. The normalizer and the Word2Vec matcher are
   * given as functions; `ahoCorasick` and `w2v` are present exactly when the
   * matching method is enabled.
   */
  datatype Matcher = Matcher(
    normalize: string -> string,
    main: map<string, ProcessedRole>,
    similar: map<string, ProcessedRole>,
    profileIdMapping: ProfileMapping,
    ahoCorasick: Option<AhoCorasickMatcher.Matcher>,
    w2v: Option<string -> Option<string>>)
  {
    /** `main.get(title) or similar.get(title)` */
    function Lookup(title: string): (r: Option<ProcessedRole>)
      ensures r.Some? <==> title in main || title in similar
      ensures title in main ==> r == Some(main[title])
    {
      if title in main then Some(main[title]) else Get(similar, title)
    }

    /** Titles the matcher knows. */
    function Titles(): set<string>
    {
      main.Keys + similar.Keys
    }

    /**
     * The matcher as `__init__` builds it: the Aho-Corasick automaton holds
     * the known titles, and Word2Vec answers with known titles only.
     */
    ghost predicate Valid()
    {
      && (ahoCorasick.Some? ==> ahoCorasick.value.automaton == AhoCorasickMatcher.Keys(Titles()))
      && (w2v.Some? ==> forall s :: w2v.value(s).Some? ==> w2v.value(s).value in Titles())
    }

    /** `aho_corasick_matcher.match(norm_title)` when enabled. */
    function AhoCorasickMatch(normTitle: string): Option<string>
    {
      if ahoCorasick.Some? then
        AhoCorasickMatcher.BestMatch(ahoCorasick.value.automaton, ahoCorasick.value.blocklist,
                                     AhoCorasickMatcher.TitleWords(normTitle))
      else None
    }

    /** `w2v_matcher.match(norm_title)` when enabled. */
    function Word2VecMatch(normTitle: string): Option<string>
    {
      if w2v.Some? then w2v.value(normTitle) else None
    }

    /**
     * The answer for a role a matcher of kind `kind` found. With a filter, a
     * role none of whose perfil ids is in the filter gives no match at all,
     * and a missing role fails on its `perfil_ids`.
     */
    function Accept(normTitle: string, role: Option<ProcessedRole>, filter: seq<int>, kind: MatchType): (r: Result<Outcome>)
      ensures r.Ok? ==> r.value.normTitle == normTitle
      ensures r.Ok? && r.value.matchType.None? ==> r.value.role.None?
      ensures r.Ok? && r.value.matchType.Some? ==> r.value.matchType == Some(kind)
      ensures r.Failure? <==> filter != [] && role.None?
      ensures filter == [] ==> r == Ok(Outcome(normTitle, role, Some(kind)))
      ensures role.Some? ==> r.Ok? && (r.value.role.Some? <==> r.value.matchType.Some?)
      ensures filter != [] && role.Some? ==>
        (r.value.role.None? <==> forall x :: x in filter ==> x !in role.value.perfilIds)
    {
      if filter == [] then Ok(Outcome(normTitle, role, Some(kind)))
      else if role.None? then Failure("AttributeError: 'NoneType' object has no attribute 'perfil_ids'")
      else if forall x :: x in filter ==> x !in role.value.perfilIds then Ok(Outcome(normTitle, None, None))
      else Ok(Outcome(normTitle, Some(FilterByPerfilIds(profileIdMapping, role.value, filter)), Some(kind)))
    }

    /**
     * `normalize_and_match`: the exact title first, then an Aho-Corasick
     * match, then a Word2Vec match; the first matcher that answers decides.
     */
    function NormalizeAndMatch(roleTitle: string, filter: seq<int>): (r: Result<Outcome>)
      ensures r.Ok? ==> r.value.normTitle == normalize(roleTitle)
      ensures r.Ok? && r.value.matchType == Some(Database) ==> Lookup(normalize(roleTitle)).Some?
      ensures r.Ok? && r.value.matchType == Some(AhoCorasick) ==>
        Lookup(normalize(roleTitle)).None? && AhoCorasickMatch(normalize(roleTitle)).Some?
      ensures r.Ok? && r.value.matchType == Some(Word2Vec) ==>
        Lookup(normalize(roleTitle)).None? && AhoCorasickMatch(normalize(roleTitle)) in {None, Some("")}
      ensures r.Failure? ==> filter != [] && Lookup(normalize(roleTitle)).None?
    {
      var normTitle := normalize(roleTitle);
      var exact := Lookup(normTitle);
      if exact.Some? then Accept(normTitle, exact, filter, Database)
      else
        var ac := AhoCorasickMatch(normTitle);
        if ac.Some? && ac.value != "" then Accept(normTitle, Lookup(ac.value), filter, AhoCorasick)
        else
          var w := Word2VecMatch(normTitle);
          if w.Some? && w.value != "" then Accept(normTitle, Lookup(w.value), filter, Word2Vec)
          else Ok(Outcome(normTitle, exact, None))
    }
  }

  /**
   * A known normalized title is answered by the database match: the role
   * itself without a filter, and no later matcher is tried.
   */
  lemma ExactTitleWins(m: Matcher, roleTitle: string, filter: seq<int>)
    requires m.normalize(roleTitle) in m.Titles()
    ensures var r := m.NormalizeAndMatch(roleTitle, filter);
      r.Ok? && r.value.matchType in {Some(Database), None}
    ensures filter == [] ==>
      m.NormalizeAndMatch(roleTitle, filter) == Ok(Outcome(m.normalize(roleTitle), m.Lookup(m.normalize(roleTitle)), Some(Database)))
  {
  }

  /**
   * With a filter, when the first matcher that finds a role finds one whose
   * perfil ids miss the filter, the answer is the title alone: no role, no
   * match type, and no later matcher is tried.
   */
  lemma DisjointFilterStops(m: Matcher, roleTitle: string, filter: seq<int>, role: ProcessedRole)
    requires filter != []
    requires forall x :: x in filter ==> x !in role.perfilIds
    requires var n := m.normalize(roleTitle);
      || m.Lookup(n) == Some(role)
      || (m.Lookup(n).None? && m.AhoCorasickMatch(n).Some? && m.AhoCorasickMatch(n).value != ""
          && m.Lookup(m.AhoCorasickMatch(n).value) == Some(role))
      || (m.Lookup(n).None? && (m.AhoCorasickMatch(n).None? || m.AhoCorasickMatch(n).value == "")
          && m.Word2VecMatch(n).Some? && m.Word2VecMatch(n).value != ""
          && m.Lookup(m.Word2VecMatch(n).value) == Some(role))
    ensures m.NormalizeAndMatch(roleTitle, filter) == Ok(Outcome(m.normalize(roleTitle), None, None))
  {
  }

  /**
   * A role is reported exactly when a match type is, and the call does not
   * fail, provided the matchers only answer with known titles: the
   * automaton holds the known titles, which like the normalized title carry
   * no separator.
   */
  lemma RoleIffMatchType(m: Matcher, roleTitle: string, filter: seq<int>)
    requires m.Valid()
    requires forall t :: t in m.Titles() ==> ';' !in t
    requires ';' !in m.normalize(roleTitle)
    ensures var r := m.NormalizeAndMatch(roleTitle, filter);
      r.Ok? && (r.value.role.Some? <==> r.value.matchType.Some?)
  {
    var n := m.normalize(roleTitle);
    if m.Lookup(n).None? {
      var ac := m.AhoCorasickMatch(n);
      if ac.Some? && ac.value != "" {
        AhoCorasickMatcher.MatchIsKnownTitle(m.Titles(), m.ahoCorasick.value.blocklist, n);
        assert m.Lookup(ac.value).Some?;
      } else {
        var w := m.Word2VecMatch(n);
        if w.Some? && w.value != "" {
          assert w.value in m.Titles();
          assert m.Lookup(w.value).Some?;
        }
      }
    }
  }
}
