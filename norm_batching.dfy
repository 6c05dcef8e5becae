/**
 * The part of the batch normalization loop that the users and the jobs
 * routines share: grouping the records of one read page into Role
 * Normalization API calls, and merging an API reply back onto the records
 * by title. Both are generic in the record type; each routine instantiates
 * them with its own `Role`.
 */
module NormBatching {
  import opened Wrappers
  import opened Seqs

  /** The JSON body posted to the Role Normalization API: `{"titles": [...], "origin": ...}`. */
  datatype ApiRequest = ApiRequest(titles: seq<string>, origin: string)

  /**
   * The API's answer. `Normalized(roleIds)` is a 200 reply; `roleIds` maps a
   * title of the reply object to the `role_id`s of its entries, in order.
   * `Failed` is a reply with any other status.
   */
  datatype ApiReply = Normalized(roleIds: map<string, seq<int>>) | Failed

  /** The reply holds a non-empty entry list for `title` (`if api_normalized_role:`). */
  predicate Matched(body: map<string, seq<int>>, title: string)
  {
    title in body && body[title] != []
  }

  /** A matched record with its role id set to the first id of its entry list. */
  function Tag<R>(body: map<string, seq<int>>, r: R, title: R -> string, setId: (R, int) -> R): R
  {
    if Matched(body, title(r)) then setId(r, body[title(r)][0]) else r
  }

  /**
   * The records of `roles` whose title is matched in the reply, in input
   * order, each carrying the first role id of its title's entry list.
   */
  function Merge<R>(roles: seq<R>, body: map<string, seq<int>>, title: R -> string, setId: (R, int) -> R): seq<R>
  {
    Map(Filter(roles, r => Matched(body, title(r))), r => Tag(body, r, title, setId))
  }

  /** The merge proceeds record by record: merging a concatenation merges each part. */
  lemma MergeAppend<R>(a: seq<R>, b: seq<R>, body: map<string, seq<int>>, title: R -> string, setId: (R, int) -> R)
    ensures Merge(a + b, body, title, setId) == Merge(a, body, title, setId) + Merge(b, body, title, setId)
  {
    var p := r => Matched(body, title(r));
    FilterAppend(a, b, p);
    MapAppend(Filter(a, p), Filter(b, p), r => Tag(body, r, title, setId));
  }

  /** One record is kept, with its title's first role id, exactly when its title is matched. */
  lemma MergeOne<R>(r: R, body: map<string, seq<int>>, title: R -> string, setId: (R, int) -> R)
    ensures Merge([r], body, title, setId)
         == if Matched(body, title(r)) then [setId(r, body[title(r)][0])] else []
  {
    var p := x => Matched(body, title(x));
    assert Filter([r], p) == (if p(r) then [r] else []) by {
      assert [r][1..] == [];
    }
  }

  /**
   * Every merged record is an input record whose title the reply matches,
   * with its role id set to the first id listed for that title.
   */
  lemma MergeMember<R>(roles: seq<R>, body: map<string, seq<int>>, title: R -> string, setId: (R, int) -> R, i: nat)
    requires i < |Merge(roles, body, title, setId)|
    ensures exists x :: x in roles && Matched(body, title(x))
                        && Merge(roles, body, title, setId)[i] == setId(x, body[title(x)][0])
  {
    var kept := Filter(roles, r => Matched(body, title(r)));
    MapIndex(kept, r => Tag(body, r, title, setId));
    assert kept[i] in kept;
  }

  /** The merge loop of `_get_normalized_roles`: look each record's title up in the reply. */
  method MergeReply<R>(roles: seq<R>, body: map<string, seq<int>>, title: R -> string, setId: (R, int) -> R)
    returns (normalized: seq<R>)
    ensures normalized == Merge(roles, body, title, setId)
  {
    normalized := [];
    var i := 0;
    while i < |roles|
      invariant 0 <= i <= |roles|
      invariant normalized == Merge(roles[..i], body, title, setId)
    {
      var role := roles[i];
      if title(role) in body && body[title(role)] != [] {
        normalized := normalized + [setId(role, body[title(role)][0])];
      }
      assert roles[..i + 1] == roles[..i] + [role];
      MergeAppend(roles[..i], [role], body, title, setId);
      MergeOne(role, body, title, setId);
      i := i + 1;
    }
    assert roles[..i] == roles;
  }

  /**
   * The inner loop over one read page: every record counts as read, the
   * records `selected` admits are gathered into API batches that are sent as
   * soon as they hold `apiSize` records, and a last partial batch is sent
   * after the loop. `normalize` stands for one API round trip. The calls
   * made are the page's selected records cut into chunks of `apiSize`, in
   * order, and the normalized records are their answers concatenated.
   */
  method ApiBatches<R>(page: seq<R>, apiSize: nat, selected: R -> bool, normalize: seq<R> -> seq<R>)
    returns (normalized: seq<R>, apiCalls: seq<seq<R>>, toNormalize: nat)
    requires apiSize > 0
    ensures toNormalize == |Filter(page, selected)|
    ensures apiCalls == Chunks(Filter(page, selected), apiSize)
    ensures normalized == Flatten(Map(apiCalls, normalize))
  {
    var batch: seq<R> := [];
    normalized, apiCalls, toNormalize := [], [], 0;
    var i := 0;
    while i < |page|
      invariant 0 <= i <= |page|
      invariant Flatten(apiCalls) + batch == Filter(page[..i], selected)
      invariant forall k :: 0 <= k < |apiCalls| ==> |apiCalls[k]| == apiSize
      invariant |batch| < apiSize
      invariant toNormalize == |Filter(page[..i], selected)|
      invariant normalized == Flatten(Map(apiCalls, normalize))
    {
      var role := page[i];
      GatherStep(page, i, selected, apiCalls, batch);
      if selected(role) {
        toNormalize := toNormalize + 1;
        batch := batch + [role];
        if |batch| == apiSize {
          SendBatch(apiCalls, batch, normalize);
          normalized := normalized + normalize(batch);
          apiCalls := apiCalls + [batch];
          batch := [];
        }
      }
      i := i + 1;
    }
    assert page[..i] == page;
    LastBatch(apiCalls, batch, apiSize);
    if |batch| > 0 {
      SendBatch(apiCalls, batch, normalize);
      normalized := normalized + normalize(batch);
      apiCalls := apiCalls + [batch];
    }
  }

  /** Reading one more record of the page gathers it when it is selected. */
  lemma GatherStep<R>(page: seq<R>, i: nat, selected: R -> bool, full: seq<seq<R>>, batch: seq<R>)
    requires i < |page|
    requires Flatten(full) + batch == Filter(page[..i], selected)
    ensures Flatten(full) + (if selected(page[i]) then batch + [page[i]] else batch) == Filter(page[..i + 1], selected)
    ensures |Filter(page[..i + 1], selected)| == |Filter(page[..i], selected)| + (if selected(page[i]) then 1 else 0)
  {
    assert page[..i + 1] == page[..i] + [page[i]];
    FilterSnoc(page[..i], page[i], selected);
  }

  /**
   * Full batches followed by the pending partial batch, when it is not empty,
   * are the chunking of everything gathered.
   */
  lemma LastBatch<R>(full: seq<seq<R>>, batch: seq<R>, n: nat)
    requires n > 0 && |batch| < n
    requires forall k :: 0 <= k < |full| ==> |full[k]| == n
    ensures Chunks(Flatten(full) + batch, n) == if batch == [] then full else full + [batch]
  {
    if batch == [] {
      assert Flatten(full) + batch == Flatten(full);
      ChunksOfFlatten(full, n);
    } else {
      var cs := full + [batch];
      FlattenSnoc(full, batch);
      assert forall k :: 0 <= k < |cs| ==> 0 < |cs[k]| <= n;
      ChunksOfFlatten(cs, n);
    }
  }

  /** Sending one more batch extends both the calls made and the answers received. */
  lemma SendBatch<R>(apiCalls: seq<seq<R>>, batch: seq<R>, normalize: seq<R> -> seq<R>)
    ensures Flatten(apiCalls + [batch]) == Flatten(apiCalls) + batch
    ensures Flatten(Map(apiCalls + [batch], normalize)) == Flatten(Map(apiCalls, normalize)) + normalize(batch)
  {
    FlattenSnoc(apiCalls, batch);
    MapAppend(apiCalls, [batch], normalize);
    assert Map([batch], normalize) == [normalize(batch)];
    FlattenSnoc(Map(apiCalls, normalize), normalize(batch));
  }

  /** Each API round trip answers with at most as many records as it was sent, so the page's answers do too. */
  lemma {:induction false} FlattenMapShrinks<R>(cs: seq<seq<R>>, f: seq<R> -> seq<R>)
    requires forall c :: |f(c)| <= |c|
    ensures |Flatten(Map(cs, f))| <= |Flatten(cs)|
  {
    if cs != [] {
      FlattenMapShrinks(cs[1..], f);
      assert Map(cs, f)[1..] == Map(cs[1..], f);
    }
  }

  /**
   * The per-page loops over write, flag or queue chunks: apply `step` to each
   * chunk in order, threading the state it changes and summing the counts
   * it returns.
   */
  function FoldCounts<S, T>(s: S, xs: seq<T>, step: (S, T) -> (S, nat)): (S, nat)
  {
    if xs == [] then (s, 0)
    else
      var prev := FoldCounts(s, xs[..|xs| - 1], step);
      var last := step(prev.0, xs[|xs| - 1]);
      (last.0, prev.1 + last.1)
  }

  lemma FoldCountsPrefix<S, T>(s: S, xs: seq<T>, i: nat, step: (S, T) -> (S, nat))
    requires i < |xs|
    ensures FoldCounts(s, xs[..i + 1], step)
         == var prev := FoldCounts(s, xs[..i], step);
            var last := step(prev.0, xs[i]);
            (last.0, prev.1 + last.1)
  {
    assert xs[..i + 1][..i] == xs[..i];
  }

  /** One more chunk of a fold loop: the state and the total so far are the fold over the chunks handled so far. */
  lemma FoldStep<S, T>(s0: S, xs: seq<T>, i: nat, step: (S, T) -> (S, nat), s: S, count: nat, next: S, n: nat)
    requires i < |xs|
    requires s == FoldCounts(s0, xs[..i], step).0 && count == FoldCounts(s0, xs[..i], step).1
    requires (next, n) == step(s, xs[i])
    ensures next == FoldCounts(s0, xs[..i + 1], step).0 && count + n == FoldCounts(s0, xs[..i + 1], step).1
  {
    FoldCountsPrefix(s0, xs, i, step);
  }

  /** A step that leaves the state alone and counts nothing does so for every chunk list. */
  lemma {:induction false} FoldCountsIdle<S, T>(s: S, xs: seq<T>, step: (S, T) -> (S, nat))
    requires forall x :: step(s, x) == (s, 0)
    ensures FoldCounts(s, xs, step) == (s, 0)
  {
    if xs != [] {
      FoldCountsIdle(s, xs[..|xs| - 1], step);
    }
  }

  /**
   * One more chunk of a loop that sends one message per chunk when `send`
   * and adds a count per chunk when `count`: the messages sent and the
   * total so far are those of the chunks handled so far.
   */
  lemma EmitStep<T, U>(xs: seq<T>, i: nat, send: bool, count: bool, f: T -> U, g: T -> nat,
                       sent0: seq<U>, sent: seq<U>, total: nat, sentNext: seq<U>, n: nat)
    requires i < |xs|
    requires sent == sent0 + (if send then Map(xs[..i], f) else [])
    requires total == (if count then SumOf(xs[..i], g) else 0)
    requires sentNext == sent + (if send then [f(xs[i])] else [])
    requires n == (if count then g(xs[i]) else 0)
    ensures sentNext == sent0 + (if send then Map(xs[..i + 1], f) else [])
    ensures total + n == (if count then SumOf(xs[..i + 1], g) else 0)
  {
    MapPrefix(xs, i, f);
    SumOfPrefix(xs, i, g);
  }
}
