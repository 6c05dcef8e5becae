/**
 * The role normalization HTTP handler: the `perfil_ids` query parameter is
 * parsed into a filter, each requested title is split into single roles,
 * every role is normalized and matched, and the matched roles are gathered
 * per title into the response, whose status tells whether anything
 * matched.
 */
module RoleNorm {
  import opened Wrappers
  import opened Seqs
  import opened Text
  import opened OrderedDicts
  import opened RoleMatcher

  // ---------------------------------------------------------------------
  // RequestParams.perfil_ids_validation
  // ---------------------------------------------------------------------

  predicate IsDigit(c: char)
  {
    '0' <= c <= '9'
  }

  /**
   * ASCII digits with single underscores between digits: the body of the
   * literal Python's `int()` accepts.
   */
  predicate IsDigitRun(s: string)
    decreases |s|
  {
    && |s| > 0 && IsDigit(s[|s| - 1])
    && (|s| == 1
        || IsDigitRun(s[..|s| - 1])
        || (|s| >= 3 && s[|s| - 2] == '_' && IsDigitRun(s[..|s| - 2])))
  }

  /** The value of a digit run, underscores skipped. */
  function DigitsValue(s: string): nat
  {
    if s == [] then 0
    else
      var c := s[|s| - 1];
      var front := DigitsValue(s[..|s| - 1]);
      if IsDigit(c) then front * 10 + (c as int - '0' as int) else front
  }

  /**
   * Python's `int(s)` of a str: surrounding whitespace, an optional sign and
   * a digit run; `None` where it raises `ValueError`.
   */
  function ParseInt(s: string): Option<int>
  {
    ParseStripped(Strip(s))
  }

  /** `int()` of a string with no surrounding whitespace. */
  function ParseStripped(t: string): Option<int>
  {
    if |t| > 0 && (t[0] == '+' || t[0] == '-') then
      if IsDigitRun(t[1..]) then
        var v: int := DigitsValue(t[1..]);
        Some(if t[0] == '-' then -v else v)
      else None
    else if IsDigitRun(t) then Some(DigitsValue(t))
    else None
  }

  /** Stripping a string that neither starts nor ends with whitespace keeps it. */
  lemma StripUnspaced(s: string)
    requires s != [] && !IsSpace(s[0]) && !IsSpace(s[|s| - 1])
    ensures ParseInt(s) == ParseStripped(s)
  {
    assert StripLeft(s) == s;
    assert StripRight(s) == s;
  }

  function NotIntegerMessage(piece: string): string
  {
    "ValueError: Perfil ID '" + piece + "' is not an integer"
  }

  /**
   * The ids of the comma-separated pieces as `parse` reads them, in order,
   * or the error naming the first piece it rejects.
   */
  function ParsedIds(pieces: seq<string>, parse: string -> Option<int>): Result<seq<int>>
  {
    if pieces == [] then Ok([])
    else
      var front := ParsedIds(pieces[..|pieces| - 1], parse);
      var id := parse(pieces[|pieces| - 1]);
      if front.Failure? then front
      else if id.None? then Failure(NotIntegerMessage(pieces[|pieces| - 1]))
      else Ok(front.value + [id.value])
  }

  /** A failure on a prefix of the pieces is the failure of all of them. */
  lemma {:induction false} ParsedIdsFailure(pieces: seq<string>, parse: string -> Option<int>, k: nat)
    requires k <= |pieces|
    requires ParsedIds(pieces[..k], parse).Failure?
    ensures ParsedIds(pieces, parse) == ParsedIds(pieces[..k], parse)
    decreases |pieces| - k
  {
    if k < |pieces| {
      assert pieces[..k + 1][..k] == pieces[..k];
      ParsedIdsFailure(pieces, parse, k + 1);
    } else {
      assert pieces[..k] == pieces;
    }
  }

  /**
   * The pieces give ids exactly when every piece parses, one id per piece
   * and in order; otherwise the error names the first piece that does not.
   */
  lemma {:induction false} ParsedIdsMeaning(pieces: seq<string>, parse: string -> Option<int>)
    ensures ParsedIds(pieces, parse).Ok? <==> forall k :: 0 <= k < |pieces| ==> parse(pieces[k]).Some?
    ensures ParsedIds(pieces, parse).Ok? ==>
              |ParsedIds(pieces, parse).value| == |pieces|
              && forall k :: 0 <= k < |pieces| ==> Some(ParsedIds(pieces, parse).value[k]) == parse(pieces[k])
    ensures ParsedIds(pieces, parse).Failure? ==>
              exists k :: 0 <= k < |pieces| && parse(pieces[k]).None?
                          && (forall j :: 0 <= j < k ==> parse(pieces[j]).Some?)
                          && ParsedIds(pieces, parse).error == NotIntegerMessage(pieces[k])
  {
    if pieces != [] {
      var n := |pieces| - 1;
      var front := pieces[..n];
      ParsedIdsMeaning(front, parse);
      assert forall k :: 0 <= k < n ==> front[k] == pieces[k];
      if ParsedIds(front, parse).Failure? {
        var k :| 0 <= k < n && parse(front[k]).None?
                 && (forall j :: 0 <= j < k ==> parse(front[j]).Some?)
                 && ParsedIds(front, parse).error == NotIntegerMessage(front[k]);
        assert parse(pieces[k]).None?;
      } else if parse(pieces[n]).None? {
        assert forall j :: 0 <= j < n ==> parse(pieces[j]).Some?;
      }
    }
  }

  /**
   * The filter a `perfil_ids` parameter gives: none for a missing or empty
   * parameter, else the ids of its comma-separated pieces.
   */
  function PerfilFilter(param: Option<string>): Result<seq<int>>
  {
    if param.None? || param.value == "" then Ok([]) else ParsedIds(SplitOn(param.value, ','), ParseInt)
  }

  /**
   * `perfil_ids_validation`: no parameter or an empty one gives no filter;
   * otherwise each comma-separated piece must be an integer, and the first
   * piece that is not one is reported.
   */
  method PerfilIdsValidation(param: Option<string>) returns (r: Result<seq<int>>)
    ensures r == PerfilFilter(param)
  {
    if param.None? || |param.value| == 0 {
      return Ok([]);
    }
    var pieces := SplitOn(param.value, ',');
    var ids: seq<int> := [];
    for k := 0 to |pieces|
      invariant ParsedIds(pieces[..k], ParseInt) == Ok(ids)
    {
      assert pieces[..k + 1][..k] == pieces[..k];
      var id := ParseInt(pieces[k]);
      if id.None? {
        ParsedIdsFailure(pieces, ParseInt, k + 1);
        return Failure(NotIntegerMessage(pieces[k]));
      }
      ids := ids + [id.value];
    }
    assert pieces[..|pieces|] == pieces;
    return Ok(ids);
  }

  lemma {:induction false} DigitsValueOfNat(n: nat)
    ensures IsDigitRun(NatToString(n))
    ensures DigitsValue(NatToString(n)) == n
  {
    if n >= 10 {
      DigitsValueOfNat(n / 10);
      assert NatToString(n)[..|NatToString(n)| - 1] == NatToString(n / 10);
    }
  }

  lemma ParseStrippedDigits(u: string)
    requires IsDigitRun(u)
    ensures ParseStripped(u) == Some(DigitsValue(u))
    ensures ParseStripped("-" + u) == Some(-(DigitsValue(u) as int))
  {
    var s := "-" + u;
    assert s[1..] == u;
    assert IsDigit(u[0]) by {
      DigitRunStartsWithDigit(u);
    }
  }

  lemma {:induction false} DigitRunStartsWithDigit(u: string)
    requires IsDigitRun(u)
    ensures IsDigit(u[0])
    decreases |u|
  {
    if |u| > 1 {
      if IsDigitRun(u[..|u| - 1]) {
        DigitRunStartsWithDigit(u[..|u| - 1]);
      } else {
        DigitRunStartsWithDigit(u[..|u| - 2]);
      }
    }
  }

  /** `int()` of a digit run. */
  lemma ParseIntDigits(u: string, v: nat)
    requires IsDigitRun(u) && DigitsValue(u) == v
    ensures ParseInt(u) == Some(v)
  {
    assert IsDigit(u[0]) by {
      DigitRunStartsWithDigit(u);
    }
    StripUnspaced(u);
    ParseStrippedDigits(u);
  }

  /** `int()` of a minus sign followed by a digit run. */
  lemma ParseIntNegativeDigits(s: string, u: string, v: nat)
    requires IsDigitRun(u) && DigitsValue(u) == v
    requires s == "-" + u
    ensures ParseInt(s) == Some(-(v as int))
  {
    assert s[0] == '-' && s[|s| - 1] == u[|u| - 1];
    StripUnspaced(s);
    ParseStrippedDigits(u);
  }

  /** `int(str(n)) == n`. */
  lemma ParseIntOfString(n: int)
    ensures ParseInt(IntToString(n)) == Some(n)
  {
    if n < 0 {
      DigitsValueOfNat(-n);
      ParseIntNegativeDigits(IntToString(n), NatToString(-n), -n);
    } else {
      DigitsValueOfNat(n);
      ParseIntDigits(IntToString(n), n);
    }
  }

  /** Splitting a string free of the separator gives it back whole. */
  lemma {:induction false} SplitOnWhole(w: string, sep: char)
    requires sep !in w
    ensures SplitOn(w, sep) == [w]
  {
    if w != [] {
      SplitOnWhole(w[1..], sep);
      assert [w[0]] + w[1..] == w;
    }
  }

  /** A piece free of the separator, then the separator, splits off first. */
  lemma {:induction false} SplitOnFirst(w: string, rest: string, sep: char)
    requires sep !in w
    ensures SplitOn(w + [sep] + rest, sep) == [w] + SplitOn(rest, sep)
  {
    if w == [] {
      assert w + [sep] + rest == [sep] + rest;
      assert ([sep] + rest)[1..] == rest;
    } else {
      SplitOnFirst(w[1..], rest, sep);
      assert (w + [sep] + rest)[1..] == w[1..] + [sep] + rest;
      assert [w[0]] + w[1..] == w;
    }
  }

  /** `",".join(...)` of pieces free of commas splits back into them. */
  lemma {:induction false} SplitOnJoin(ws: seq<string>, sep: char)
    requires |ws| >= 1
    requires forall k :: 0 <= k < |ws| ==> sep !in ws[k]
    ensures SplitOn(Join(ws, [sep]), sep) == ws
  {
    if |ws| == 1 {
      SplitOnWhole(ws[0], sep);
    } else {
      SplitOnJoin(ws[1..], sep);
      SplitOnFirst(ws[0], Join(ws[1..], [sep]), sep);
    }
  }

  /** The decimal strings of ids, joined by commas, split back into those strings. */
  lemma SplitJoinedIds(ids: seq<int>)
    requires ids != []
    ensures Join(Map(ids, IntToString), ",") != ""
    ensures SplitOn(Join(Map(ids, IntToString), ","), ',') == Map(ids, IntToString)
  {
    var ws := Map(ids, IntToString);
    MapIndex(ids, IntToString);
    forall k | 0 <= k < |ws|
      ensures ',' !in ws[k]
    {
      if ids[k] < 0 {
        assert ws[k][1..] == NatToString(-ids[k]);
      }
    }
    SplitOnJoin(ws, ',');
  }

  /** Pieces that each parse give exactly their ids. */
  lemma ParsedIdsAll(pieces: seq<string>, parse: string -> Option<int>, ids: seq<int>)
    requires |pieces| == |ids|
    requires forall k :: 0 <= k < |pieces| ==> parse(pieces[k]) == Some(ids[k])
    ensures ParsedIds(pieces, parse) == Ok(ids)
  {
    ParsedIdsMeaning(pieces, parse);
    var got := ParsedIds(pieces, parse).value;
    assert forall k :: 0 <= k < |ids| ==> Some(got[k]) == Some(ids[k]);
    assert got == ids;
  }

  /** The decimal strings of ids parse back into the ids. */
  lemma ParsedIdsOfStrings(ids: seq<int>)
    ensures ParsedIds(Map(ids, IntToString), ParseInt) == Ok(ids)
  {
    var ws := Map(ids, IntToString);
    MapIndex(ids, IntToString);
    forall k | 0 <= k < |ids|
      ensures ParseInt(ws[k]) == Some(ids[k])
    {
      ParseIntOfString(ids[k]);
    }
    ParsedIdsAll(ws, ParseInt, ids);
  }

  /**
   * A list of ids written out as `perfil_ids=1,4` gives back the same ids,
   * the empty list included.
   */
  lemma PerfilIdsRoundTrip(ids: seq<int>)
    ensures PerfilFilter(Some(Join(Map(ids, IntToString), ","))) == Ok(ids)
  {
    if ids != [] {
      SplitJoinedIds(ids);
      ParsedIdsOfStrings(ids);
    }
  }

  // ---------------------------------------------------------------------
  // Splitting a title into single roles
  // ---------------------------------------------------------------------

  /** `RoleNormalization.title_separators`. */
  const TitleSeparators: seq<string> := ["/", ",", " ou ", ";", "|"]

  /** The length of the separator `s` starts with, 0 when none. */
  function SeparatorAt(s: string): (n: nat)
    ensures n <= |s|
    ensures n > 0 ==> s[..n] in TitleSeparators
  {
    if |s| >= 1 && (s[0] == '/' || s[0] == ',' || s[0] == ';' || s[0] == '|') then
      assert s[..1] == [s[0]];
      1
    else if |s| >= 4 && s[..4] == " ou " then 4
    else 0
  }

  function SeparatorAtIndex(s: string, i: nat): nat
    requires i <= |s|
  {
    SeparatorAt(s[i..])
  }

  /** No separator starts anywhere in `p`. */
  predicate Clean(p: string)
  {
    forall i :: 0 <= i < |p| ==> SeparatorAtIndex(p, i) == 0
  }

  /**
   * `re.split('/|,| ou |;|\|', title)`: the pieces between separators,
   * scanning from the left, empty pieces kept.
   */
  function SplitTitle(s: string): (parts: seq<string>)
    ensures |parts| >= 1
    ensures parts[0] <= s
    decreases |s|
  {
    if s == [] then [""]
    else if SeparatorAt(s) > 0 then [""] + SplitTitle(s[SeparatorAt(s)..])
    else
      var rest := SplitTitle(s[1..]);
      [[s[0]] + rest[0]] + rest[1..]
  }

  /**
   * The separators `SplitTitle` cuts out, in order: one between each two
   * pieces, each one of the title separators.
   */
  function CutSeparators(s: string): (seps: seq<string>)
    ensures |SplitTitle(s)| == |seps| + 1
    ensures forall k :: 0 <= k < |seps| ==> seps[k] in TitleSeparators
    decreases |s|
  {
    if s == [] then []
    else if SeparatorAt(s) > 0 then [s[..SeparatorAt(s)]] + CutSeparators(s[SeparatorAt(s)..])
    else CutSeparators(s[1..])
  }

  /** `parts[0] + seps[0] + parts[1] + ...` */
  function Interleave(parts: seq<string>, seps: seq<string>): string
    requires |parts| == |seps| + 1
  {
    if seps == [] then parts[0] else parts[0] + seps[0] + Interleave(parts[1..], seps[1..])
  }

  /** Putting a character in front of the first piece puts it in front of the whole. */
  lemma InterleaveCons(c: char, parts: seq<string>, seps: seq<string>)
    requires |parts| == |seps| + 1
    ensures Interleave([[c] + parts[0]] + parts[1..], seps) == [c] + Interleave(parts, seps)
  {
    var q := [[c] + parts[0]] + parts[1..];
    assert q[1..] == parts[1..];
    if seps != [] {
      assert [c] + parts[0] + seps[0] + Interleave(parts[1..], seps[1..])
          == [c] + (parts[0] + seps[0] + Interleave(parts[1..], seps[1..]));
    }
  }

  /**
   * The pieces, put back together with the separators cut out between
   * them, give the title back.
   */
  lemma {:induction false} SplitTitleRejoins(s: string)
    ensures Interleave(SplitTitle(s), CutSeparators(s)) == s
    decreases |s|
  {
    if s != [] {
      var n := SeparatorAt(s);
      if n > 0 {
        SplitTitleRejoins(s[n..]);
        assert ([""] + SplitTitle(s[n..]))[1..] == SplitTitle(s[n..]);
        assert s == s[..n] + s[n..];
      } else {
        SplitTitleRejoins(s[1..]);
        InterleaveCons(s[0], SplitTitle(s[1..]), CutSeparators(s[1..]));
        assert s == [s[0]] + s[1..];
      }
    }
  }

  /** A prefix that starts with a separator makes the whole string start with it. */
  lemma SeparatorAtPrefix(q: string, s: string)
    requires q <= s
    requires SeparatorAt(q) > 0
    ensures SeparatorAt(s) > 0
  {
    if !(q[0] == '/' || q[0] == ',' || q[0] == ';' || q[0] == '|') {
      assert s[..4] == q[..4];
    }
  }

  /** No piece of a split title holds a separator. */
  lemma {:induction false} SplitTitleClean(s: string)
    ensures forall k :: 0 <= k < |SplitTitle(s)| ==> Clean(SplitTitle(s)[k])
    decreases |s|
  {
    if s != [] {
      var n := SeparatorAt(s);
      if n > 0 {
        SplitTitleClean(s[n..]);
        assert Clean("");
      } else {
        SplitTitleClean(s[1..]);
        var rest := SplitTitle(s[1..]);
        var q := [s[0]] + rest[0];
        assert Clean(rest[0]);
        forall i | 0 <= i < |q|
          ensures SeparatorAtIndex(q, i) == 0
        {
          if i == 0 {
            if SeparatorAt(q) > 0 {
              SeparatorAtPrefix(q, s);
            }
          } else {
            assert q[i..] == rest[0][i - 1..];
            assert SeparatorAtIndex(rest[0], i - 1) == 0;
          }
        }
        assert SplitTitle(s)[1..] == rest[1..];
      }
    }
  }

  // ---------------------------------------------------------------------
  // RoleNormalization.normalize_roles
  // ---------------------------------------------------------------------

  /**
   * One normalized role of the response; `perfilIds` and `matchType` are
   * `None` where the response object leaves the field out.
   */
  datatype NormalizedRole = NormalizedRole(
    normalizedRole: string,
    roleId: int,
    seniority: seq<string>,
    hierarchy: seq<string>,
    areapIds: seq<int>,
    nivelhIds: seq<int>,
    perfilIds: Option<seq<int>>,
    matchType: Option<MatchType>)

  datatype Status = Http200 | Http204

  /** The response: a status and the normalized roles of each matched title. */
  datatype Response = Response(status: Status, body: OrderedDict<string, seq<NormalizedRole>>)

  /** `normalize_and_match` with the request's filter, one title piece at a time. */
  function MatchOf(m: Matcher, filter: seq<int>): string -> Result<Outcome>
  {
    part => m.NormalizeAndMatch(part, filter)
  }

  /** Every piece the matcher finds a role for carries its match type. */
  ghost predicate Typed(matching: string -> Result<Outcome>)
  {
    forall part :: matching(part).Ok? && matching(part).value.role.Some? ==> matching(part).value.matchType.Some?
  }

  /** The response entry for a matched role. */
  function Entry(o: Outcome, includeMatchType: bool, filter: seq<int>): (r: NormalizedRole)
    requires o.role.Some?
    ensures r.perfilIds.Some? <==> filter != []
    ensures r.matchType.Some? ==> includeMatchType
    ensures includeMatchType ==> r.matchType == o.matchType
  {
    var role := o.role.value;
    NormalizedRole(role.title, role.roleId, role.seniorities, role.hierarchies, role.areapIds, role.nivelhIds,
                   if filter != [] then Some(role.perfilIds) else None,
                   if includeMatchType then o.matchType else None)
  }

  /**
   * The normalized roles of one title's pieces, in piece order, or the
   * first failure of the matcher.
   */
  function TitleRoles(matching: string -> Result<Outcome>, parts: seq<string>, includeMatchType: bool, filter: seq<int>)
    : Result<seq<NormalizedRole>>
    decreases |parts|
  {
    if parts == [] then Ok([])
    else
      var o := matching(parts[0]);
      if o.Failure? then Failure(o.error)
      else
        var rest := TitleRoles(matching, parts[1..], includeMatchType, filter);
        if rest.Failure? then rest
        else if o.value.role.Some? then Ok([Entry(o.value, includeMatchType, filter)] + rest.value)
        else rest
  }

  /** `acc` followed by the roles of `r`, or the failure of `r`. */
  function Prepend(acc: seq<NormalizedRole>, r: Result<seq<NormalizedRole>>): Result<seq<NormalizedRole>>
  {
    if r.Failure? then r else Ok(acc + r.value)
  }

  lemma PrependNothing(r: Result<seq<NormalizedRole>>)
    ensures Prepend([], r) == r
  {
    if r.Ok? {
      assert [] + r.value == r.value;
    }
  }

  /**
   * The inner loop of `normalize_roles`: each piece of the title matched in
   * order by `matching`, the matcher applied with the request's filter.
   */
  method MatchTitle(matching: string -> Result<Outcome>, roleTitle: string, includeMatchType: bool, filter: seq<int>)
    returns (r: Result<seq<NormalizedRole>>)
    ensures r == TitleRoles(matching, SplitTitle(roleTitle), includeMatchType, filter)
  {
    var parts := SplitTitle(roleTitle);
    var normRoles: seq<NormalizedRole> := [];
    assert parts[0..] == parts;
    PrependNothing(TitleRoles(matching, parts, includeMatchType, filter));
    for k := 0 to |parts|
      invariant TitleRoles(matching, parts, includeMatchType, filter)
                  == Prepend(normRoles, TitleRoles(matching, parts[k..], includeMatchType, filter))
    {
      assert parts[k..][1..] == parts[k + 1..];
      var outcome := matching(parts[k]);
      if outcome.Failure? {
        return Failure(outcome.error);
      }
      if outcome.value.role.Some? {
        var entry := Entry(outcome.value, includeMatchType, filter);
        var rest := TitleRoles(matching, parts[k + 1..], includeMatchType, filter);
        if rest.Ok? {
          assert normRoles + ([entry] + rest.value) == (normRoles + [entry]) + rest.value;
        }
        normRoles := normRoles + [entry];
      }
    }
    assert parts[|parts|..] == [];
    assert normRoles + [] == normRoles;
    return Ok(normRoles);
  }

  /**
   * The response object once the titles `titles` are added to `d`: a title
   * with at least one matched piece is stored with its roles.
   */
  function BodyFrom(matching: string -> Result<Outcome>, d: OrderedDict<string, seq<NormalizedRole>>, titles: seq<string>,
                    includeMatchType: bool, filter: seq<int>): Result<OrderedDict<string, seq<NormalizedRole>>>
    decreases |titles|
  {
    if titles == [] then Ok(d)
    else
      var roles := TitleRoles(matching, SplitTitle(titles[0]), includeMatchType, filter);
      if roles.Failure? then Failure(roles.error)
      else BodyFrom(matching, if roles.value != [] then Put(d, titles[0], roles.value) else d, titles[1..], includeMatchType, filter)
  }

  /**
   * `normalize_roles`: every title split and matched in order, the titles
   * with a match stored with their roles, and status 200 exactly when one
   * was stored (204 otherwise). A matcher failure ends the request.
   */
  method NormalizeRoles(m: Matcher, titles: seq<string>, includeMatchType: bool, filter: seq<int>)
    returns (r: Result<Response>)
    ensures r.Failure? <==> BodyFrom(MatchOf(m, filter), Empty(), titles, includeMatchType, filter).Failure?
    ensures r.Ok? ==> r.value.body == BodyFrom(MatchOf(m, filter), Empty(), titles, includeMatchType, filter).value
    ensures r.Ok? ==> (r.value.status == Http200 <==> Size(r.value.body) > 0)
  {
    var matching := MatchOf(m, filter);
    var body: OrderedDict<string, seq<NormalizedRole>> := Empty();
    assert titles[0..] == titles;
    for i := 0 to |titles|
      invariant BodyFrom(matching, Empty(), titles, includeMatchType, filter)
                  == BodyFrom(matching, body, titles[i..], includeMatchType, filter)
    {
      assert titles[i..][1..] == titles[i + 1..];
      var normRoles := MatchTitle(matching, titles[i], includeMatchType, filter);
      if normRoles.Failure? {
        return Failure(normRoles.error);
      }
      if |normRoles.value| > 0 {
        body := Put(body, titles[i], normRoles.value);
      }
    }
    assert titles[|titles|..] == [];
    if |body.keys| > 0 {
      return Ok(Response(Http200, body));
    } else {
      return Ok(Response(Http204, body));
    }
  }

  /** Whether the matcher found a role for piece `part`. */
  function PartMatched(matching: string -> Result<Outcome>): string -> bool
  {
    part => matching(part).Ok? && matching(part).value.role.Some?
  }

  /** The response entry of a matched piece. */
  function PartEntry(matching: string -> Result<Outcome>, includeMatchType: bool, filter: seq<int>): string -> NormalizedRole
  {
    part =>
      var o := matching(part);
      if o.Ok? && o.value.role.Some? then Entry(o.value, includeMatchType, filter)
      else NormalizedRole("", 0, [], [], [], [], None, None)
  }

  /** A title's role list fails exactly when the matcher fails on one of its pieces. */
  lemma {:induction false} TitleRolesFails(matching: string -> Result<Outcome>, parts: seq<string>,
                                           includeMatchType: bool, filter: seq<int>)
    ensures (TitleRoles(matching, parts, includeMatchType, filter).Failure?
             <==> exists k :: 0 <= k < |parts| && matching(parts[k]).Failure?)
    decreases |parts|
  {
    if parts != [] {
      TitleRolesFails(matching, parts[1..], includeMatchType, filter);
      if exists k :: 0 <= k < |parts| && matching(parts[k]).Failure? {
        var k :| 0 <= k < |parts| && matching(parts[k]).Failure?;
        if k > 0 {
          assert parts[1..][k - 1] == parts[k];
        }
      }
      if exists k :: 0 <= k < |parts[1..]| && matching(parts[1..][k]).Failure? {
        var k :| 0 <= k < |parts[1..]| && matching(parts[1..][k]).Failure?;
        assert parts[k + 1] == parts[1..][k];
      }
    }
  }

  /** A title's role list holds one entry per matched piece, in piece order. */
  lemma {:induction false} TitleRolesExact(matching: string -> Result<Outcome>, parts: seq<string>,
                                           includeMatchType: bool, filter: seq<int>)
    requires TitleRoles(matching, parts, includeMatchType, filter).Ok?
    ensures TitleRoles(matching, parts, includeMatchType, filter).value
              == Map(Filter(parts, PartMatched(matching)), PartEntry(matching, includeMatchType, filter))
    decreases |parts|
  {
    if parts != [] {
      var p := PartMatched(matching);
      var f := PartEntry(matching, includeMatchType, filter);
      TitleRolesExact(matching, parts[1..], includeMatchType, filter);
      FilterCons(parts, p);
      if p(parts[0]) {
        assert Map([parts[0]] + Filter(parts[1..], p), f)[1..] == Map(Filter(parts[1..], p), f);
      }
    }
  }

  /** A matched outcome always carries its match type. */
  lemma MatcherTyped(m: Matcher, filter: seq<int>)
    ensures Typed(MatchOf(m, filter))
  {
    forall part | MatchOf(m, filter)(part).Ok? && MatchOf(m, filter)(part).value.role.Some?
      ensures MatchOf(m, filter)(part).value.matchType.Some?
    {
      assert MatchOf(m, filter)(part) == m.NormalizeAndMatch(part, filter);
    }
  }

  /**
   * In every entry `match_type` is present exactly when it was requested,
   * and `perfil_ids` exactly when the filter is non-empty.
   */
  lemma {:induction false} EntryFields(matching: string -> Result<Outcome>, parts: seq<string>,
                                       includeMatchType: bool, filter: seq<int>)
    requires Typed(matching)
    requires TitleRoles(matching, parts, includeMatchType, filter).Ok?
    ensures forall e :: e in TitleRoles(matching, parts, includeMatchType, filter).value ==>
              (e.matchType.Some? <==> includeMatchType) && (e.perfilIds.Some? <==> filter != [])
    decreases |parts|
  {
    if parts != [] {
      EntryFields(matching, parts[1..], includeMatchType, filter);
    }
  }

  /** The response object lists each title once. */
  lemma {:induction false} BodyFromValid(matching: string -> Result<Outcome>, d: OrderedDict<string, seq<NormalizedRole>>,
                                         titles: seq<string>, includeMatchType: bool, filter: seq<int>)
    requires Valid(d)
    requires BodyFrom(matching, d, titles, includeMatchType, filter).Ok?
    ensures Valid(BodyFrom(matching, d, titles, includeMatchType, filter).value)
    decreases |titles|
  {
    if titles != [] {
      var roles := TitleRoles(matching, SplitTitle(titles[0]), includeMatchType, filter);
      if roles.value != [] {
        PutValid(d, titles[0], roles.value);
      }
      BodyFromValid(matching, if roles.value != [] then Put(d, titles[0], roles.value) else d, titles[1..], includeMatchType, filter);
    }
  }

  /** Whether title `t` gets an entry of its own. */
  predicate HasRoles(matching: string -> Result<Outcome>, t: string, includeMatchType: bool, filter: seq<int>)
  {
    var roles := TitleRoles(matching, SplitTitle(t), includeMatchType, filter);
    roles.Ok? && roles.value != []
  }

  /** Every title of a request that succeeds has a role list. */
  lemma {:induction false} BodyFromMatched(matching: string -> Result<Outcome>, d: OrderedDict<string, seq<NormalizedRole>>,
                                           titles: seq<string>, includeMatchType: bool, filter: seq<int>, t: string)
    requires BodyFrom(matching, d, titles, includeMatchType, filter).Ok?
    requires t in titles
    ensures TitleRoles(matching, SplitTitle(t), includeMatchType, filter).Ok?
    decreases |titles|
  {
    if t != titles[0] {
      var roles := TitleRoles(matching, SplitTitle(titles[0]), includeMatchType, filter);
      BodyFromMatched(matching, if roles.value != [] then Put(d, titles[0], roles.value) else d, titles[1..], includeMatchType, filter, t);
    }
  }

  /**
   * A title is in the response exactly when it is one of the requested
   * titles with at least one matched piece, and it holds that title's
   * roles; titles already in `d` and not requested again keep theirs.
   */
  lemma {:induction false} BodyFromTitle(matching: string -> Result<Outcome>, d: OrderedDict<string, seq<NormalizedRole>>,
                                         titles: seq<string>, includeMatchType: bool, filter: seq<int>, t: string)
    requires BodyFrom(matching, d, titles, includeMatchType, filter).Ok?
    ensures var out := BodyFrom(matching, d, titles, includeMatchType, filter).value;
      t in out.values <==> (t in d.values || (t in titles && HasRoles(matching, t, includeMatchType, filter)))
    ensures var out := BodyFrom(matching, d, titles, includeMatchType, filter).value;
      t in titles && HasRoles(matching, t, includeMatchType, filter) ==>
        out.values[t] == TitleRoles(matching, SplitTitle(t), includeMatchType, filter).value
    ensures var out := BodyFrom(matching, d, titles, includeMatchType, filter).value;
      t !in titles && t in d.values ==> out.values[t] == d.values[t]
    decreases |titles|
  {
    if titles != [] {
      var roles := TitleRoles(matching, SplitTitle(titles[0]), includeMatchType, filter);
      var next := if roles.value != [] then Put(d, titles[0], roles.value) else d;
      BodyFromTitle(matching, next, titles[1..], includeMatchType, filter, t);
      assert titles == [titles[0]] + titles[1..];
    }
  }

  // ---------------------------------------------------------------------
  // RoleNormalization.on_post
  // ---------------------------------------------------------------------

  const PayloadError := "ValidationError: titles must hold 1 to 1000 items"

  /**
   * A request as validated and handled: 1 to 1000 titles, a `perfil_ids`
   * parameter that parses, `match_type` reported only for `true`.
   */
  method OnPost(m: Matcher, titles: seq<string>, matchTypeParam: Option<bool>, perfilIdsParam: Option<string>)
    returns (r: Result<Response>)
    ensures !(1 <= |titles| <= 1000) ==> r == Failure(PayloadError)
    ensures 1 <= |titles| <= 1000 && PerfilFilter(perfilIdsParam).Failure? ==>
              r == Failure(PerfilFilter(perfilIdsParam).error)
    ensures 1 <= |titles| <= 1000 && PerfilFilter(perfilIdsParam).Ok? ==>
              var filter := PerfilFilter(perfilIdsParam).value;
              var body := BodyFrom(MatchOf(m, filter), Empty(), titles, matchTypeParam == Some(true), filter);
              && (r.Failure? <==> body.Failure?)
              && (r.Ok? ==> r.value.body == body.value)
    ensures r.Ok? ==> (r.value.status == Http200 <==> Size(r.value.body) > 0)
  {
    if !(1 <= |titles| <= 1000) {
      return Failure(PayloadError);
    }
    var filter := PerfilIdsValidation(perfilIdsParam);
    if filter.Failure? {
      return Failure(filter.error);
    }
    r := NormalizeRoles(m, titles, matchTypeParam == Some(true), filter.value);
  }
}
