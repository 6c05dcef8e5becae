/**
 * The log replay tool: it reads role normalization API requests and their
 * recorded replies from a CSV log, turns them into one
 * `(uri, title, normalized title, role id)` tuple per requested title,
 * replays each title against a candidate API and sorts the comparisons
 * into five categories keyed by title.
 *
 * The CSV reader, `json.loads` and the HTTP call are outside the model: the
 * log arrives as rows of fields, requests and replies as decoded values,
 * and the candidate API as a function from `(uri, title)` to its reply.
 */
module ReplayLogRequests {
  import opened Wrappers
  import opened Seqs
  import opened Text
  import opened OrderedDicts

  // ---------------------------------------------------------- read_log_file

  /** A data row of the CSV log; a missing field reads as `""`. */
  datatype CsvRow = CsvRow(apiUri: string, apiRequest: string, apiResponse: string)

  /** A request line kept from the log: URI, request JSON and reply JSON. */
  datatype RawLine = RawLine(uri: string, request: string, response: string)

  /** A row with both a URI and a request. */
  predicate Usable(row: CsvRow)
  {
    row.apiUri != "" && row.apiRequest != ""
  }

  /** The line kept for a usable row; a missing reply reads as `'{}'`. */
  function LineOf(row: CsvRow): (l: RawLine)
    ensures l.response != ""
  {
    RawLine(row.apiUri, row.apiRequest, if row.apiResponse == "" then "{}" else row.apiResponse)
  }

  /** The lines `read_log_file` keeps from the data rows `rows`, row by row. */
  function LogLines(rows: seq<CsvRow>): seq<RawLine>
  {
    if |rows| <= 1 then []
    else
      var row := rows[|rows| - 1];
      LogLines(rows[..|rows| - 1]) + (if Usable(row) then [LineOf(row)] else [])
  }

  /**
   * The lines kept are the usable rows after the first, in order: the first
   * data row is skipped whatever it holds.
   */
  lemma {:induction false} LogLinesSkipFirst(rows: seq<CsvRow>)
    requires rows != []
    ensures LogLines(rows) == Map(Filter(rows[1..], Usable), LineOf)
  {
    if |rows| > 1 {
      var front := rows[..|rows| - 1];
      var row := rows[|rows| - 1];
      LogLinesSkipFirst(front);
      assert rows[1..] == front[1..] + [row];
      FilterSnoc(front[1..], row, Usable);
      MapAppend(Filter(front[1..], Usable), [row], LineOf);
    }
  }

  /** Whatever the first data row holds, the same lines are kept. */
  lemma FirstRowIgnored(first: CsvRow, other: CsvRow, rest: seq<CsvRow>)
    ensures LogLines([first] + rest) == LogLines([other] + rest)
  {
    LogLinesSkipFirst([first] + rest);
    LogLinesSkipFirst([other] + rest);
    assert ([first] + rest)[1..] == rest == ([other] + rest)[1..];
  }

  /**
   * `read_log_file`: skip the first data row, then keep every row with a
   * URI and a request, defaulting a missing reply to `'{}'`.
   */
  method ReadLogFile(rows: seq<CsvRow>) returns (lines: seq<RawLine>, invalid: nat)
    ensures lines == LogLines(rows)
    ensures rows != [] ==> |lines| + invalid == |rows| - 1
    ensures rows == [] ==> invalid == 0
  {
    lines := [];
    var rowsCount := 0;
    invalid := 0;
    var i := 0;
    while i < |rows|
      invariant 0 <= i <= |rows|
      invariant lines == LogLines(rows[..i])
      invariant rowsCount == 0 <==> i == 0
      invariant i > 0 ==> |lines| + invalid == i - 1
      invariant i == 0 ==> invalid == 0
    {
      var row := rows[i];
      assert rows[..i + 1][..i] == rows[..i];
      if rowsCount == 0 {
        rowsCount := rowsCount + 1;
      } else if !Usable(row) {
        invalid := invalid + 1;
      } else {
        lines := lines + [LineOf(row)];
        rowsCount := rowsCount + 1;
      }
      i := i + 1;
    }
    assert rows[..i] == rows;
  }

  // ------------------------------------------------------ process_log_lines

  /** One entry of a reply list: `{"normalized_role": ..., "role_id": ...}`, either key possibly missing. */
  datatype Entry = Entry(normalizedRole: Option<string>, roleId: Option<int>)

  /** A decoded log line: the URI, the request's `titles` (`[]` if missing) and the reply object. */
  datatype LogLine = LogLine(uri: string, titles: seq<string>, reply: map<string, seq<Entry>>)

  /** A replayable request: `(uri, title, normalized title, role id)`. */
  datatype Replay = Replay(uri: string, title: string, normTitle: Option<string>, roleId: Option<int>)

  /** Python truthiness of an optional string and of an optional id. */
  predicate Truthy(s: Option<string>)
  {
    s.Some? && s.value != ""
  }

  predicate TruthyId(i: Option<int>)
  {
    i.Some? && i.value != 0
  }

  /**
   * The tuple for one requested title: no ids when the reply lacks the
   * title or lists nothing for it; the first entry's title and id when both
   * are set; no tuple at all (an invalid reply) otherwise.
   */
  function TitleReplay(uri: string, reply: map<string, seq<Entry>>, title: string): (r: Option<Replay>)
    ensures r.Some? ==> r.value.uri == uri && r.value.title == title
    ensures title !in reply || reply[title] == [] ==> r == Some(Replay(uri, title, None, None))
    ensures r.Some? && r.value.roleId.Some? ==>
      && title in reply && reply[title] != []
      && Truthy(r.value.normTitle) && TruthyId(r.value.roleId)
      && r.value.normTitle == reply[title][0].normalizedRole && r.value.roleId == reply[title][0].roleId
    ensures r.None? <==>
      title in reply && reply[title] != []
      && !(Truthy(reply[title][0].normalizedRole) && TruthyId(reply[title][0].roleId))
  {
    if reply == map[] || title !in reply || reply[title] == [] then Some(Replay(uri, title, None, None))
    else
      var first := reply[title][0];
      if !Truthy(first.normalizedRole) || !TruthyId(first.roleId) then None
      else Some(Replay(uri, title, first.normalizedRole, first.roleId))
  }

  /** The tuples for a list of titles, title by title. */
  function TitleReplays(uri: string, reply: map<string, seq<Entry>>, titles: seq<string>): seq<Replay>
  {
    if titles == [] then []
    else
      var r := TitleReplay(uri, reply, titles[|titles| - 1]);
      TitleReplays(uri, reply, titles[..|titles| - 1]) + (if r.Some? then [r.value] else [])
  }

  /** The title of a tuple. */
  function TitleOf(r: Replay): string
  {
    r.title
  }

  /** Whether a title of a reply yields a tuple. */
  function Yields(uri: string, reply: map<string, seq<Entry>>): string -> bool
  {
    t => TitleReplay(uri, reply, t).Some?
  }

  /**
   * At most one tuple per title, in the order of the titles: the titles of
   * the tuples are exactly the titles that yield one, and every tuple
   * carries the line's URI.
   */
  lemma {:induction false} TitleReplaysOrder(uri: string, reply: map<string, seq<Entry>>, titles: seq<string>)
    ensures Map(TitleReplays(uri, reply, titles), TitleOf) == Filter(titles, Yields(uri, reply))
    ensures forall r :: r in TitleReplays(uri, reply, titles) ==> r.uri == uri
  {
    if titles != [] {
      var front := titles[..|titles| - 1];
      var t := titles[|titles| - 1];
      var r := TitleReplay(uri, reply, t);
      TitleReplaysOrder(uri, reply, front);
      assert titles == front + [t];
      FilterSnoc(front, t, Yields(uri, reply));
      MapAppend(TitleReplays(uri, reply, front), if r.Some? then [r.value] else [], TitleOf);
    }
  }

  /** The tuples of one log line: none when the request has no titles. */
  function LineReplays(line: LogLine): (rs: seq<Replay>)
    ensures line.titles == [] ==> rs == []
  {
    if line.titles == [] then [] else TitleReplays(line.uri, line.reply, line.titles)
  }

  /** The tuples of all log lines, line by line. */
  function Replays(lines: seq<LogLine>): seq<Replay>
  {
    if lines == [] then []
    else Replays(lines[..|lines| - 1]) + LineReplays(lines[|lines| - 1])
  }

  /** Every line yields at most one tuple per title, so there are at most as many tuples as titles. */
  lemma {:induction false} ReplaysBound(lines: seq<LogLine>)
    ensures |Replays(lines)| <= SumOf(lines, (l: LogLine) => |l.titles|)
  {
    if lines != [] {
      var last := lines[|lines| - 1];
      ReplaysBound(lines[..|lines| - 1]);
      TitleReplaysOrder(last.uri, last.reply, last.titles);
    }
  }

  /**
   * `process_log_lines`: drop requests without titles; for every other
   * request, one tuple per title that yields one, in order.
   */
  method ProcessLogLines(lines: seq<LogLine>) returns (out: seq<Replay>)
    ensures out == Replays(lines)
  {
    out := [];
    var invalid := 0;
    var i := 0;
    while i < |lines|
      invariant 0 <= i <= |lines|
      invariant out == Replays(lines[..i])
    {
      var line := lines[i];
      assert lines[..i + 1][..i] == lines[..i];
      if line.titles == [] {
        invalid := invalid + 1;
      } else {
        ghost var before := out;
        var j := 0;
        while j < |line.titles|
          invariant 0 <= j <= |line.titles|
          invariant out == before + TitleReplays(line.uri, line.reply, line.titles[..j])
        {
          var title := line.titles[j];
          assert line.titles[..j + 1][..j] == line.titles[..j];
          var r := TitleReplay(line.uri, line.reply, title);
          if r.None? {
            invalid := invalid + 1;
          } else {
            out := out + [r.value];
          }
          j := j + 1;
        }
        assert line.titles[..j] == line.titles;
      }
      i := i + 1;
    }
    assert lines[..i] == lines;
  }

  // -------------------------------------------------------- replay_requests

  /** The candidate API's answer to one replayed title: a status and a body, or an exception. */
  datatype ApiReply = Reply(status: int, body: map<string, seq<Entry>>) | Raised

  /** The candidate's first entry for the title, when it answered 200 and listed one. */
  function CandidateEntry(reply: ApiReply, title: string): (e: Option<Entry>)
    ensures e.Some? ==> reply.Reply? && reply.status == 200 && title in reply.body && reply.body[title] != []
  {
    if reply.Reply? && reply.status == 200 && title in reply.body && reply.body[title] != []
    then Some(reply.body[title][0])
    else None
  }

  /** The candidate's role id: set only when it is truthy; a non-200 reply or an exception gives none. */
  function CandidateId(reply: ApiReply, title: string): (id: Option<int>)
    ensures id.Some? ==> id.value != 0
    ensures reply.Raised? || reply.status != 200 ==> id == None
  {
    var e := CandidateEntry(reply, title);
    if e.Some? && TruthyId(e.value.roleId) then e.value.roleId else None
  }

  /** The candidate's normalized title, as read before the id. */
  function CandidateTitle(reply: ApiReply, title: string): Option<string>
  {
    var e := CandidateEntry(reply, title);
    if e.Some? then e.value.normalizedRole else None
  }

  /** The five comparison outcomes. */
  datatype Category = MatchNone | MatchNorm | Differ | Regression | Improvement

  /**
   * The `if`/`elif` chain over the recorded and the candidate role id. Its
   * five conditions cover every pair, so some category is always chosen,
   * and each category is chosen exactly under its condition.
   */
  function Classify(recorded: Option<int>, candidate: Option<int>): (c: Option<Category>)
    ensures c.Some?
    ensures c == Some(MatchNone) <==> !TruthyId(recorded) && !TruthyId(candidate)
    ensures c == Some(MatchNorm) <==> TruthyId(recorded) && TruthyId(candidate) && recorded.value == candidate.value
    ensures c == Some(Differ) <==> TruthyId(recorded) && TruthyId(candidate) && recorded.value != candidate.value
    ensures c == Some(Regression) <==> TruthyId(recorded) && !TruthyId(candidate)
    ensures c == Some(Improvement) <==> !TruthyId(recorded) && TruthyId(candidate)
  {
    if !TruthyId(recorded) && !TruthyId(candidate) then Some(MatchNone)
    else if TruthyId(recorded) && TruthyId(candidate) && recorded.value == candidate.value then Some(MatchNorm)
    else if TruthyId(recorded) && TruthyId(candidate) && recorded.value != candidate.value then Some(Differ)
    else if TruthyId(recorded) && !TruthyId(candidate) then Some(Regression)
    else if !TruthyId(recorded) && TruthyId(candidate) then Some(Improvement)
    else None
  }

  /** The `Remote`/`Local` pair stored for a comparison. */
  datatype Comparison = Comparison(remote: string, local: string)

  /** `f'{id or "-"}: {title or "-"}' if id else '-'` */
  function Shown(id: Option<int>, title: Option<string>): (s: string)
    ensures !TruthyId(id) <==> s == "-"
  {
    if TruthyId(id) then IntToString(id.value) + ": " + (if Truthy(title) then title.value else "-") else "-"
  }

  /** The replies of the candidate API, by URI and title. */
  type Api = (string, string) -> ApiReply

  function CategoryOf(api: Api, r: Replay): Category
  {
    Classify(r.roleId, CandidateId(api(r.uri, r.title), r.title)).value
  }

  function ComparisonOf(api: Api, r: Replay): Comparison
  {
    var reply := api(r.uri, r.title);
    Comparison(Shown(r.roleId, r.normTitle), Shown(CandidateId(reply, r.title), CandidateTitle(reply, r.title)))
  }

  /** The five ordered dictionaries of comparisons, keyed by title. */
  datatype Results = Results(
    matchNone: OrderedDict<string, Comparison>,
    matchNorm: OrderedDict<string, Comparison>,
    differ: OrderedDict<string, Comparison>,
    regressions: OrderedDict<string, Comparison>,
    improvements: OrderedDict<string, Comparison>)

  function Dict(res: Results, c: Category): OrderedDict<string, Comparison>
  {
    match c
    case MatchNone => res.matchNone
    case MatchNorm => res.matchNorm
    case Differ => res.differ
    case Regression => res.regressions
    case Improvement => res.improvements
  }

  ghost predicate AllValid(res: Results)
  {
    forall c: Category :: Valid(Dict(res, c))
  }

  /** The comparison of one tuple, stored under its title in its category only. */
  function Record(res: Results, c: Category, title: string, cmp: Comparison): Results
  {
    match c
    case MatchNone => res.(matchNone := Put(res.matchNone, title, cmp))
    case MatchNorm => res.(matchNorm := Put(res.matchNorm, title, cmp))
    case Differ => res.(differ := Put(res.differ, title, cmp))
    case Regression => res.(regressions := Put(res.regressions, title, cmp))
    case Improvement => res.(improvements := Put(res.improvements, title, cmp))
  }

  const NoResults: Results := Results(Empty(), Empty(), Empty(), Empty(), Empty())

  /** The results after replaying `rs` in order. */
  function ReplayAll(api: Api, rs: seq<Replay>): Results
  {
    if rs == [] then NoResults
    else
      var r := rs[|rs| - 1];
      Record(ReplayAll(api, rs[..|rs| - 1]), CategoryOf(api, r), r.title, ComparisonOf(api, r))
  }

  /** `print_results`' total: the sum of the five sizes. */
  function Total(res: Results): nat
  {
    Size(res.matchNone) + Size(res.matchNorm) + Size(res.differ) + Size(res.regressions) + Size(res.improvements)
  }

  /** Recording one comparison touches one dictionary only, and adds at most one entry. */
  lemma RecordOne(res: Results, c: Category, title: string, cmp: Comparison)
    requires AllValid(res)
    ensures AllValid(Record(res, c, title, cmp))
    ensures forall d: Category :: d != c ==> Dict(Record(res, c, title, cmp), d) == Dict(res, d)
    ensures Dict(Record(res, c, title, cmp), c) == Put(Dict(res, c), title, cmp)
    ensures Total(Record(res, c, title, cmp)) == Total(res) + (if title in Dict(res, c).values then 0 else 1)
  {
    PutValid(Dict(res, c), title, cmp);
    var r := Record(res, c, title, cmp);
    forall d: Category
      ensures Valid(Dict(r, d))
    {
      if d == c {
      } else {
        assert Dict(r, d) == Dict(res, d);
      }
    }
  }

  /**
   * Every dictionary keeps each title once, and the total is at most the
   * number of tuples.
   */
  lemma {:induction false} ReplayAllBound(api: Api, rs: seq<Replay>)
    ensures AllValid(ReplayAll(api, rs))
    ensures Total(ReplayAll(api, rs)) <= |rs|
  {
    if rs == [] {
      assert forall c: Category :: Dict(NoResults, c) == Empty();
    } else {
      var front := rs[..|rs| - 1];
      var r := rs[|rs| - 1];
      ReplayAllBound(api, front);
      RecordOne(ReplayAll(api, front), CategoryOf(api, r), r.title, ComparisonOf(api, r));
    }
  }

  /** Every key of every dictionary is the title of a replayed tuple. */
  lemma {:induction false} ReplayAllKeys(api: Api, rs: seq<Replay>)
    ensures forall c: Category, t :: t in Dict(ReplayAll(api, rs), c).values ==> t in Map(rs, TitleOf)
  {
    if rs == [] {
      assert forall c: Category :: Dict(NoResults, c) == Empty();
    } else {
      var front := rs[..|rs| - 1];
      var r := rs[|rs| - 1];
      var prev := ReplayAll(api, front);
      ReplayAllBound(api, front);
      ReplayAllKeys(api, front);
      RecordOne(prev, CategoryOf(api, r), r.title, ComparisonOf(api, r));
      assert rs == front + [r];
      MapAppend(front, [r], TitleOf);
    }
  }

  /** With no title repeated, every tuple adds its own entry: the total is the number of tuples. */
  lemma {:induction false} ReplayAllDistinct(api: Api, rs: seq<Replay>)
    requires forall i, j :: 0 <= i < j < |rs| ==> rs[i].title != rs[j].title
    ensures Total(ReplayAll(api, rs)) == |rs|
  {
    if rs != [] {
      var front := rs[..|rs| - 1];
      var r := rs[|rs| - 1];
      var prev := ReplayAll(api, front);
      ReplayAllDistinct(api, front);
      ReplayAllBound(api, front);
      ReplayAllKeys(api, front);
      RecordOne(prev, CategoryOf(api, r), r.title, ComparisonOf(api, r));
      MapIndex(front, TitleOf);
      forall k | 0 <= k < |front|
        ensures Map(front, TitleOf)[k] != r.title
      {
        assert rs[k] == front[k];
      }
      assert r.title !in Map(front, TitleOf);
    }
  }

  /**
   * A title keeps, in each category, the comparison of the last tuple with
   * that title in that category: a repeated title holds one entry there.
   */
  lemma {:induction false} LastComparisonKept(api: Api, rs: seq<Replay>, i: nat)
    requires i < |rs|
    requires forall j :: i < j < |rs| && rs[j].title == rs[i].title ==> CategoryOf(api, rs[j]) != CategoryOf(api, rs[i])
    ensures var d := Dict(ReplayAll(api, rs), CategoryOf(api, rs[i]));
      rs[i].title in d.values && d.values[rs[i].title] == ComparisonOf(api, rs[i])
  {
    var front := rs[..|rs| - 1];
    var r := rs[|rs| - 1];
    var prev := ReplayAll(api, front);
    var c := CategoryOf(api, rs[i]);
    ReplayAllBound(api, front);
    RecordOne(prev, CategoryOf(api, r), r.title, ComparisonOf(api, r));
    PutValid(Dict(prev, CategoryOf(api, r)), r.title, ComparisonOf(api, r));
    if i < |rs| - 1 {
      assert rs[i] == front[i];
      LastComparisonKept(api, front, i);
    }
  }

  /**
   * `replay_requests`: replay every tuple's title against the candidate
   * API and store the comparison under the title in the category the
   * two role ids choose.
   */
  method ReplayRequests(api: Api, rs: seq<Replay>) returns (res: Results)
    ensures res == ReplayAll(api, rs)
  {
    var matchNone, matchNorm, differ, regressions, improvements := Empty(), Empty(), Empty(), Empty(), Empty();
    var i := 0;
    while i < |rs|
      invariant 0 <= i <= |rs|
      invariant Results(matchNone, matchNorm, differ, regressions, improvements) == ReplayAll(api, rs[..i])
    {
      var r := rs[i];
      assert rs[..i + 1][..i] == rs[..i];
      var reply := api(r.uri, r.title);
      var localId := CandidateId(reply, r.title);
      var comparison := Comparison(Shown(r.roleId, r.normTitle), Shown(localId, CandidateTitle(reply, r.title)));
      if !TruthyId(r.roleId) && !TruthyId(localId) {
        matchNone := Put(matchNone, r.title, comparison);
      } else if TruthyId(r.roleId) && TruthyId(localId) && r.roleId.value == localId.value {
        matchNorm := Put(matchNorm, r.title, comparison);
      } else if TruthyId(r.roleId) && TruthyId(localId) && r.roleId.value != localId.value {
        differ := Put(differ, r.title, comparison);
      } else if TruthyId(r.roleId) && !TruthyId(localId) {
        regressions := Put(regressions, r.title, comparison);
      } else if !TruthyId(r.roleId) && TruthyId(localId) {
        improvements := Put(improvements, r.title, comparison);
      }
      i := i + 1;
    }
    assert rs[..i] == rs;
    res := Results(matchNone, matchNorm, differ, regressions, improvements);
  }
}
