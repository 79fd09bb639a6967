/** What the events of a stream are collected into, said of the events. */
module ChatCollected {
  import opened Options
  import opened Sequences
  import opened Json
  import opened ChatStream
  import opened ChatCompletion
  import opened ChatAgreement

  // ---------------------------------------------------------------------------
  // Items
  // ---------------------------------------------------------------------------

  /** The event files an output item under this index. */
  predicate Files(e: Json, k: int) {
    && e.Obj? && "type" in e.fields
    && (e.fields["type"] == Str("response.output_item.added") || e.fields["type"] == Str("response.output_item.done"))
    && "output_index" in e.fields && e.fields["output_index"].Number? && Truncate(e.fields["output_index"].number) == k
    && "item" in e.fields && e.fields["item"].Obj?
  }

  lemma FilesSays(e: Json, k: int)
    ensures Files(e, k) <==> FilesItem(e) && IndexOf(e) == k
  {
  }

  /** Under each index the last item filed there, if any was. */
  lemma {:induction false} ItemsSay(events: seq<Json>, k: int)
    ensures k in ItemsAfter(events) <==> exists i :: 0 <= i < |events| && Files(events[i], k)
  {
    if events != [] {
      var n := |events| - 1;
      ItemsSay(events[..n], k);
      FilesSays(events[n], k);
      assert forall i | 0 <= i < n :: events[..n][i] == events[i];
    }
  }

  lemma {:induction false} LastItemSays(events: seq<Json>, k: int, i: nat)
    requires i < |events| && Files(events[i], k) && forall j | i < j < |events| :: !Files(events[j], k)
    ensures k in ItemsAfter(events) && ItemsAfter(events)[k] == events[i].fields["item"]
    decreases |events|
  {
    var n := |events| - 1;
    FilesSays(events[n], k);
    if i < n {
      LastItemSays(events[..n], k, i);
    }
  }

  /** Increasing. */
  predicate IsAscending(ks: seq<int>) {
    forall i, j | 0 <= i < j < |ks| :: ks[i] < ks[j]
  }

  /** The indices increase, are all there are, and each item stands for its own. */
  ghost predicate IsOrderOf(ks: seq<int>, m: map<int, Json>, items: seq<Json>) {
    && IsAscending(ks) && (forall k :: k in ks <==> k in m)
    && |items| == |ks| && forall i | 0 <= i < |ks| :: ks[i] in m && items[i] == m[ks[i]]
  }

  /** Putting items in order puts them in the order of their indices. */
  lemma {:induction false} OrderedSays(m: map<int, Json>) returns (ks: seq<int>)
    ensures IsOrderOf(ks, m, Ordered(m))
    decreases |m|
  {
    if |m| == 0 {
      ks := [];
    } else {
      var k := OrderedEnds(m);
      var front := OrderedSays(m - {k});
      ks := front + [k];
      OneMoreInOrder(front, m, k, Ordered(m - {k}));
    }
  }

  lemma OneMoreInOrder(front: seq<int>, m: map<int, Json>, k: int, items: seq<Json>)
    requires IsMaximum(m.Keys, k) && IsOrderOf(front, m - {k}, items)
    ensures IsOrderOf(front + [k], m, items + [m[k]])
  {
    LastIsLargest(m, k, front);
    var ks, all := front + [k], items + [m[k]];
    forall i | 0 <= i < |ks|
      ensures ks[i] in m && all[i] == m[ks[i]]
    {
      if i < |front| {
        assert front[i] in m - {k};
      }
    }
  }

  lemma LastIsLargest(m: map<int, Json>, k: int, front: seq<int>)
    requires IsMaximum(m.Keys, k) && IsAscending(front) && forall j :: j in front <==> j in m - {k}
    ensures IsAscending(front + [k]) && forall j :: j in front + [k] <==> j in m
  {
    forall i | 0 <= i < |front|
      ensures front[i] < k
    {
      assert front[i] in front;
      assert front[i] in m.Keys && front[i] != k;
    }
  }

  // ---------------------------------------------------------------------------
  // The response
  // ---------------------------------------------------------------------------

  predicate IsError(e: Json) {
    e.Obj? && "type" in e.fields && e.fields["type"] == Str("error") && "error" in e.fields
  }

  predicate HasResponse(e: Json) {
    && e.Obj? && "type" in e.fields
    && (e.fields["type"] == Str("response.completed") || e.fields["type"] == Str("response.incomplete")
        || e.fields["type"] == Str("response.failed"))
    && "response" in e.fields && e.fields["response"].Obj?
  }

  /** Where the collecting ends. */
  predicate IsFirstEnd(events: seq<Json>, n: nat) {
    n < |events| && (IsError(events[n]) || HasResponse(events[n]))
    && forall i | 0 <= i < n :: !IsError(events[i]) && !HasResponse(events[i])
  }

  /** An output that is there and not empty. */
  predicate HasOutput(response: Fields) {
    "output" in response && !(response["output"].Arr? && response["output"].items == [])
  }

  lemma CollectStep(events: seq<Json>, items: map<int, Json>)
    requires events != [] && !IsError(events[0]) && !HasResponse(events[0])
    ensures Collected(events, items) == Collected(events[1..], Filed(items, events[0]))
  {
    assert "error" != ITEM_ADDED && "error" != ITEM_DONE;
    NotFiled(events[0], items);
  }

  lemma NotFiled(e: Json, items: map<int, Json>)
    ensures TypeOf(e).Some? && TypeOf(e).value in {"error", COMPLETED, INCOMPLETE, FAILED} ==> Filed(items, e) == items
  {
    assert ITEM_ADDED[9] == 'o' && ITEM_DONE[9] == 'o' && COMPLETED[9] == 'c' && INCOMPLETE[9] == 'i' && FAILED[9] == 'f';
    assert ITEM_ADDED[0] == 'r' && ITEM_DONE[0] == 'r' && "error"[0] == 'e';
  }

  lemma {:induction false} CollectFrom(events: seq<Json>, n: nat)
    requires n <= |events| && forall i | 0 <= i < n :: !IsError(events[i]) && !HasResponse(events[i])
    ensures Collected(events, map[]) == Collected(events[n..], ItemsAfter(events[..n]))
  {
    if n == 0 {
      assert events[0..] == events;
    } else {
      CollectFrom(events, n - 1);
      CollectStep(events[n - 1..], ItemsAfter(events[..n - 1]));
      assert events[n - 1..][1..] == events[n..] && events[..n][..n - 1] == events[..n - 1];
    }
  }

  /**
    A stream is collected into what its first error or response is: the error alone, or
    the response, which gets the items filed before it for an output if it has none.
  */
  lemma CollectedSays(events: seq<Json>, n: nat)
    requires IsFirstEnd(events, n)
    ensures var items := ItemsAfter(events[..n]);
            Collected(events, map[]) ==
            if IsError(events[n]) then Some(Obj(map["error" := events[n].fields["error"]]))
            else
              var response := events[n].fields["response"].fields;
              Some(Obj(if HasOutput(response) || items == map[] then response
                       else response["output" := Arr(Ordered(items))]))
  {
    CollectFrom(events, n);
    assert events[n..][0] == events[n];
    assert COMPLETED[0] == INCOMPLETE[0] == FAILED[0] == 'r' && "error"[0] == 'e';
  }

  /** Without either nothing is collected. */
  lemma NothingCollected(events: seq<Json>)
    requires forall i | 0 <= i < |events| :: !IsError(events[i]) && !HasResponse(events[i])
    ensures Collected(events, map[]).None?
  {
    CollectFrom(events, |events|);
    assert events[|events|..] == [];
  }
}
