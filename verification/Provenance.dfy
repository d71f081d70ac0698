/** What the review page says about where an item came from, and what an acceptance covers: the provenance
    of `bundle_detail` in `views.py`, against the steps that brought the items, over every run of proposing
    and growing, and the premise of a review in `suggest/model.py`. */
module Provenance {
  import opened Common
  import opened Sync
  import opened Review
  import opened ReviewSafety
  import opened Growth

  // ------------------------------------------------------------------ what the page says

  /** `arrived_from`: the first search whose span the item is in. */
  function ArrivedFrom(queries: seq<Query>, id: nat): Option<string> {
    if queries == [] then None
    else if queries[0].first <= id <= queries[0].last then Some(queries[0].text)
    else ArrivedFrom(queries[1..], id)
  }

  /** `grew_from`: where the first search that grew the bundle starts. */
  function GrewFrom(queries: seq<Query>): Option<nat> {
    if queries == [] then None
    else
      var later := GrewFrom(queries[1..]);
      if !queries[0].grew then later
      else if later.Some? && later.value < queries[0].first then later
      else Some(queries[0].first)
  }

  predicate ArrivedLate(queries: seq<Query>, id: nat) {
    GrewFrom(queries).Some? && id >= GrewFrom(queries).value
  }

  // ------------------------------------------------------------------ the spans

  predicate Spans(queries: seq<Query>, ids: nat) {
    && (forall k :: 0 <= k < |queries| ==> 1 <= queries[k].first <= queries[k].last <= ids)
    && (forall j, k :: 0 <= j < k < |queries| ==> queries[j].last < queries[k].first)
  }

  ghost predicate AllSpans(w: World) { forall c: Bundle <- w.bundles :: Spans(c.queries, |w.items|) }

  lemma {:induction false} FirstOfNew(items: seq<Item>, more: seq<Item>, b: nat, added: seq<nat>)
    requires forall i: Item <- items :: !BroughtBy(i, b, added)
    requires forall i: Item <- more :: BroughtBy(i, b, added)
    ensures FirstOf(items + more, b, added) == if more == [] then 0 else |items| + 1
    decreases |more|, |items|
  {
    if more != [] {
      var before := more[..|more| - 1];
      assert (items + more)[..|items + more| - 1] == items + before;
      assert Last(items + more) == Last(more) && Last(more) in more;
      FirstOfNew(items, before, b, added);
    } else if items != [] {
      assert items + more == items;
      var rest := items[..|items| - 1];
      assert rest + [] == rest && Last(items) in items;
      FirstOfNew(rest, [], b, added);
    }
  }

  /** The search written down when the items are in: its span is exactly what it brought. */
  lemma SpanIsWhatItBrought(w: World, b: nat, where: map<nat, Spot>, text: string, matched: nat, found: seq<nat>, grew: bool)
    requires b < |w.bundles| && Locates(w.folders, where)
    ensures var r := Filled(w, b, where, Searched(text, matched, found), grew);
            r.Some? ==>
              && |r.value.items| > |w.items|
              && r.value.bundles == w.bundles[b := w.bundles[b].(queries := w.bundles[b].queries +
                   [Query(text, grew, matched, |r.value.items| - |w.items|, |w.items| + 1, |r.value.items|)])]
  {
    var naming := Searched(text, matched, found);
    var r := Filled(w, b, where, naming, grew);
    if r.Some? {
      var added := Sorting(w.items, b, w.bundles[b].target, where, found).added;
      var more := NewItems(w, b, where, found);
      NewItemsAre(w, b, where, found);
      forall i: Item | i in w.items ensures !BroughtBy(i, b, added) {
        if i.bundle == b && i.message.Some? {
          SortingClasses(w.items, b, w.bundles[b].target, where, found, i.message.value);
        }
      }
      forall k | 0 <= k < |more| ensures BroughtBy(more[k], b, added) {}
      FirstOfNew(w.items, more, b, added);
    }
  }

  // ------------------------------------------------------------------ what a step does to the searches of a bundle

  /** A bundle's searches stay as they are, or gain one that spans exactly the new items. */
  predicate QueriesMove(before: seq<Query>, after: seq<Query>, ids: nat, now: nat) {
    after == before
    || (ids < now && |after| == |before| + 1 && before == after[..|before|] && Last(after).first == ids + 1 && Last(after).last == now)
  }

  ghost predicate SearchesMove(a: World, b: World) {
    && |a.items| <= |b.items| && |a.bundles| <= |b.bundles|
    && (forall c :: 0 <= c < |a.bundles| ==> QueriesMove(a.bundles[c].queries, b.bundles[c].queries, |a.items|, |b.items|))
    && (forall c :: |a.bundles| <= c < |b.bundles| ==> QueriesMove([], b.bundles[c].queries, |a.items|, |b.items|))
  }

  predicate SameSearches(a: seq<Bundle>, b: seq<Bundle>) {
    |a| == |b| && forall c :: 0 <= c < |a| ==> b[c].queries == a[c].queries
  }

  lemma RunnerSearchesNothing(w: World, op: Op)
    requires ByRunner(op)
    ensures SameSearches(w.bundles, Step(w, op).bundles)
  {}

  lemma OthersSearchNothing(w: World, op: Op)
    requires !Larger(op)
    ensures SameSearches(w.bundles, Step(w, op).bundles)
  {
    if ByRunner(op) {
      RunnerSearchesNothing(w, op);
    } else if op.ExpireDue? {
      ExpiringSearchesNothing(w, op.now, |w.bundles|);
    }
  }

  lemma {:induction false} ExpiringSearchesNothing(w: World, now: nat, n: nat)
    requires n <= |w.bundles|
    ensures SameSearches(w.bundles, Expiring(w, now, n).bundles)
  {
    if n > 0 {
      ExpiringSearchesNothing(w, now, n - 1);
    }
  }

  lemma ProposedSearches(w: World, op: Op)
    requires op.Propose?
    ensures SearchesMove(w, Step(w, op))
  {
    StepOnward(w, op);
    var Propose(producer, operation, target, naming, where, most, expires) := op;
    if Proposing(w, producer, operation, target, naming, where, most, expires).Some? && naming.Searched? {
      var resolved := Resolved(w.folders, target).value;
      var begun := World(resolved.0, w.items, w.bundles + [Bundle(producer, operation, resolved.1, expires, BundleProposed, [])]);
      SpanIsWhatItBrought(begun, |w.bundles|, where, naming.text, naming.matched, naming.found, false);
    }
  }

  lemma GrownSearches(w: World, op: Op)
    requires op.Grow?
    ensures SearchesMove(w, Step(w, op))
  {
    StepOnward(w, op);
    var Grow(b, producer, text, matched, found, where, most) := op;
    if Growing(w, b, producer, text, matched, found, where, most).Some? {
      SpanIsWhatItBrought(Refreshed(w, b), b, where, text, matched, found, true);
    }
  }

  lemma StepSearches(w: World, op: Op)
    ensures SearchesMove(w, Step(w, op))
  {
    if op.Propose? {
      ProposedSearches(w, op);
    } else if op.Grow? {
      GrownSearches(w, op);
    } else {
      StepOnward(w, op);
      if !op.ProposeDiscard? {
        OthersSearchNothing(w, op);
        OthersSame(w, op);
      }
    }
  }

  lemma SpansMove(before: seq<Query>, after: seq<Query>, ids: nat, now: nat)
    requires Spans(before, ids) && QueriesMove(before, after, ids, now) && ids <= now
    ensures Spans(after, now)
  {
    if after != before {
      assert after == before + [Last(after)];
    }
  }

  lemma SearchesSpan(w: World, v: World)
    requires AllSpans(w) && SearchesMove(w, v)
    ensures AllSpans(v)
  {
    forall c | 0 <= c < |v.bundles| ensures Spans(v.bundles[c].queries, |v.items|) {
      var before := if c < |w.bundles| then w.bundles[c].queries else [];
      assert c < |w.bundles| ==> w.bundles[c] in w.bundles;
      SpansMove(before, v.bundles[c].queries, |w.items|, |v.items|);
    }
  }

  lemma StepSpans(w: World, op: Op)
    requires AllSpans(w)
    ensures AllSpans(Step(w, op))
  {
    StepSearches(w, op);
    SearchesSpan(w, Step(w, op));
  }

  /** In every state reached, the spans of a bundle are disjoint, in order, and of items there are. */
  lemma {:induction false} SpansStayApart(ops: seq<Op>)
    ensures AllSpans(Run(EMPTY, ops))
    decreases |ops|
  {
    if ops != [] {
      SpansStayApart(ops[..|ops| - 1]);
      StepSpans(Run(EMPTY, ops[..|ops| - 1]), Last(ops));
    }
  }

  // ------------------------------------------------------------------ what is said of an item stays said

  lemma {:induction false} LaterSpan(queries: seq<Query>, more: Query, id: nat)
    requires id < more.first
    ensures ArrivedFrom(queries + [more], id) == ArrivedFrom(queries, id)
    ensures ArrivedLate(queries + [more], id) <==> ArrivedLate(queries, id)
    decreases |queries|
  {
    if queries != [] {
      assert (queries + [more])[1..] == queries[1..] + [more];
      LaterSpan(queries[1..], more, id);
    }
  }

  lemma {:induction false} EarlierSpans(queries: seq<Query>, more: Query, id: nat)
    requires more.first <= id <= more.last
    requires forall k :: 0 <= k < |queries| ==> queries[k].first <= queries[k].last < more.first
    ensures ArrivedFrom(queries + [more], id) == Some(more.text)
    ensures more.grew ==> ArrivedLate(queries + [more], id)
    decreases |queries|
  {
    if queries != [] {
      assert (queries + [more])[1..] == queries[1..] + [more];
      EarlierSpans(queries[1..], more, id);
    }
  }

  // ------------------------------------------------------------------ and it is what happened

  /** What is to be said of the items a step brings. */
  predicate Told(op: Op, queries: seq<Query>, id: nat) {
    match op
    case Propose(_, _, _, naming, _, _, _) =>
      !ArrivedLate(queries, id) && ArrivedFrom(queries, id) == (if naming.Searched? then Some(naming.text) else None)
    case Grow(_, _, text, _, _, _, _) => ArrivedLate(queries, id) && ArrivedFrom(queries, id) == Some(text)
    case _ => !ArrivedLate(queries, id) && ArrivedFrom(queries, id) == None
  }

  /** The page of the bundle the item is in says what is to be said. */
  ghost predicate ToldIn(w: World, id: nat, source: Op) {
    1 <= id <= |w.items| && w.items[id - 1].bundle < |w.bundles| && Told(source, w.bundles[w.items[id - 1].bundle].queries, id)
  }

  predicate Brings(w: World, v: World, id: nat) { |w.items| < id <= |v.items| }

  lemma ProposedIsTold(w: World, op: Op, id: nat)
    requires op.Propose?
    ensures Brings(w, Step(w, op), id) ==> ToldIn(Step(w, op), id, op)
  {
    var Propose(producer, operation, target, naming, where, most, expires) := op;
    var v, b := Step(w, op), |w.bundles|;
    if Brings(w, v, id) {
      var resolved := Resolved(w.folders, target).value;
      var begun := World(resolved.0, w.items, w.bundles + [Bundle(producer, operation, resolved.1, expires, BundleProposed, [])]);
      NewItemsAre(begun, b, where, Candidates(naming));
      assert v.items[id - 1].bundle == b;
      if naming.Searched? {
        SpanIsWhatItBrought(begun, b, where, naming.text, naming.matched, naming.found, false);
        var q := Last(v.bundles[b].queries);
        assert v.bundles[b].queries == [] + [q] == [q] && [q][1..] == [];
        EarlierSpans([], q, id);
        assert GrewFrom([q]) == None;
      }
    }
  }

  lemma GrownIsTold(w: World, op: Op, id: nat)
    requires op.Grow? && AllSpans(w)
    ensures Brings(w, Step(w, op), id) ==> ToldIn(Step(w, op), id, op)
  {
    var Grow(b, producer, text, matched, found, where, most) := op;
    var v := Step(w, op);
    if Brings(w, v, id) {
      var now, naming := Refreshed(w, b), Searched(text, matched, found);
      NewItemsAre(now, b, where, found);
      SpanIsWhatItBrought(now, b, where, text, matched, found, true);
      assert w.bundles[b] in w.bundles && now.bundles[b].queries == w.bundles[b].queries;
      EarlierSpans(w.bundles[b].queries, Last(v.bundles[b].queries), id);
    }
  }

  lemma DiscardIsTold(w: World, op: Op, id: nat)
    requires op.ProposeDiscard?
    ensures Brings(w, Step(w, op), id) ==> ToldIn(Step(w, op), id, op)
  {
    if Brings(w, Step(w, op), id) {
      assert Once(op.ids)[id - |w.items| - 1] in Once(op.ids);
    }
  }

  lemma BroughtIsTold(w: World, op: Op, id: nat)
    requires AllSpans(w)
    ensures Brings(w, Step(w, op), id) ==> ToldIn(Step(w, op), id, op)
  {
    match op
    case Propose(_, _, _, _, _, _, _) => ProposedIsTold(w, op, id);
    case Grow(_, _, _, _, _, _, _) => GrownIsTold(w, op, id);
    case ProposeDiscard(_, _, _, _) => DiscardIsTold(w, op, id);
    case _ => OthersSame(w, op);
  }

  /** The item came into being with the j-th step. */
  ghost predicate BroughtAt(ops: seq<Op>, j: nat, id: nat)
    requires j < |ops|
  {
    Brings(Run(EMPTY, ops[..j]), Run(EMPTY, ops[..j + 1]), id)
  }

  /** What is said of an item stays said. */
  lemma StepKeepsTold(w: World, op: Op, id: nat, source: Op)
    requires ToldIn(w, id, source)
    ensures ToldIn(Step(w, op), id, source)
  {
    var v, b := Step(w, op), w.items[id - 1].bundle;
    StepOnward(w, op);
    assert ItemOnward(w.items[id - 1], v.items[id - 1]);
    StepSearches(w, op);
    var before, after := w.bundles[b].queries, v.bundles[b].queries;
    assert QueriesMove(before, after, |w.items|, |v.items|);
    if after != before {
      assert after == before + [Last(after)];
      LaterSpan(before, Last(after), id);
    }
  }

  /** After any run, whatever else was proposed, grown and decided since, the page attributes each item to the
      search that brought it and to no other, and says it arrived late exactly if the bundle was grown by it. */
  lemma {:induction false} ProvenanceIsExact(ops: seq<Op>, j: nat, id: nat)
    requires j < |ops| && BroughtAt(ops, j, id)
    ensures ToldIn(Run(EMPTY, ops), id, ops[j])
    decreases |ops|
  {
    var before := ops[..|ops| - 1];
    if j == |ops| - 1 {
      assert ops[..j + 1] == ops;
      SpansStayApart(before);
      BroughtIsTold(Run(EMPTY, before), ops[j], id);
    } else {
      assert before[..j] == ops[..j] && before[..j + 1] == ops[..j + 1];
      ProvenanceIsExact(before, j, id);
      StepKeepsTold(Run(EMPTY, before), Last(ops), id, ops[j]);
    }
  }
}
