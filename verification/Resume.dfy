/**
 * Turns that end on hold: some calls wait for a subagent, and their results are appended when it is done.
 */
module Resume {
  import opened Options
  import opened Messages
  import opened ToolExec
  import opened LoopHistory
  import opened Lists
  import opened Chars

  /** The history once the waiting calls' results follow the recorded ones. */
  function Resumed(base: History, r: Reply, results: seq<Result>, resumed: seq<Result>, now: nat): History {
    base + ([AssistantMessage(r, now)] + ResultMessages(Filter(results, IsReported) + resumed, now))
  }

  /** No call that finished comes after one that waits. */
  predicate WaitingLast(results: seq<Result>) {
    forall i, j :: 0 <= i < j < |results| && IsSuspended(results[i]) ==> IsSuspended(results[j])
  }

  predicate DistinctIds(calls: seq<Call>) {
    forall i, j :: 0 <= i < j < |calls| ==> calls[i].callId != calls[j].callId
  }

  /** If only joins wait, the waiting calls come last exactly if no finished join follows a waiting one. */
  lemma WaitingCallsComeLast(calls: seq<Call>, execute: nat -> Outcome)
    requires var batch := JoinsLast(calls); forall i :: 0 <= i < |batch| && execute(i).Suspended? ==> IsJoin(batch[i])
    ensures var batch := JoinsLast(calls);
      WaitingLast(Batch(batch, execute)) <==>
        forall i, j :: 0 <= i < j < |batch| && IsJoin(batch[i]) && IsJoin(batch[j]) && execute(i).Suspended? ==>
          execute(j).Suspended?
  {
    var batch, results := JoinsLast(calls), Batch(JoinsLast(calls), execute);
    JoinsLastIsStableSort(calls);
    assert forall i :: 0 <= i < |batch| ==> (IsSuspended(results[i]) <==> execute(i).Suspended?);
  }

  lemma {:induction false} WaitingLastAt(results: seq<Result>) returns (k: nat)
    requires WaitingLast(results)
    ensures k <= |results| && forall i :: 0 <= i < |results| ==> (IsSuspended(results[i]) <==> i >= k)
  {
    k := 0;
    if results != [] && IsReported(results[0]) {
      k := WaitingLastAt(results[1..]);
      k := k + 1;
      assert forall i :: 1 <= i < |results| ==> results[i] == results[1..][i - 1];
    }
  }

  lemma CallsOfConcat(a: seq<Result>, b: seq<Result>)
    ensures CallsOf(a + b) == CallsOf(a) + CallsOf(b)
  {
  }

  /** With the waiting calls last, appending their results completes the exchange. */
  lemma {:induction false} ResumeCompletesExchange(base: History, r: Reply, results: seq<Result>, resumed: seq<Result>, now: nat)
    requires Sound(base) && CallsOf(results) == r.calls && WaitingLast(results)
    requires CallsOf(resumed) == CallsOf(Filter(results, IsSuspended))
    ensures Sound(Resumed(base, r, results, resumed, now))
  {
    var k := WaitingLastAt(results);
    FilterOrdered(results, k, IsReported, IsSuspended);
    assert results == results[..k] + results[k..];
    CallsOfConcat(results[..k], results[k..]);
    CallsOfConcat(results[..k], resumed);
    ExchangeIsPaired(r, results[..k] + resumed, now);
    SoundAppend(base, [AssistantMessage(r, now)] + ResultMessages(results[..k] + resumed, now));
  }

  /** In a complete exchange the results carry the calls' ids, in order. */
  lemma {:induction false} PairedIds(r: Reply, results: seq<Result>, now: nat)
    requires |results| == |r.calls| && WellPaired([AssistantMessage(r, now)] + ResultMessages(results, now))
    ensures forall i :: 0 <= i < |results| ==> results[i].call.callId == r.calls[i].callId
  {
    var h := [AssistantMessage(r, now)] + ResultMessages(results, now);
    AssistantUses(r, now);
    forall i | 0 <= i < |results| ensures results[i].call.callId == r.calls[i].callId {
      ResultReports(results[i], now);
      assert h[i + 1] == ResultMessage(results[i], now);
      assert Results(h[i + 1]) == [Uses(h[0])[i]];
    }
  }

  lemma {:induction false} SameIdSameResult(results: seq<Result>, x: Result, i: nat)
    requires DistinctIds(CallsOf(results)) && x in results && i < |results| && x.call.callId == results[i].call.callId
    ensures results[i] == x
  {
    var j :| 0 <= j < |results| && results[j] == x;
    assert CallsOf(results)[j].callId == CallsOf(results)[i].callId;
  }

  /** Reported results before waiting ones, in the order of the calls: then the waiting ones come last. */
  lemma {:induction false} IdsInOrder(results: seq<Result>, all: seq<Result>)
    requires DistinctIds(CallsOf(results)) && |all| == |results|
    requires CallsOf(all) == CallsOf(Filter(results, IsReported)) + CallsOf(Filter(results, IsSuspended))
    requires forall i :: 0 <= i < |all| ==> all[i].call.callId == results[i].call.callId
    ensures WaitingLast(results)
  {
    var reported, waiting := Filter(results, IsReported), Filter(results, IsSuspended);
    forall i | 0 <= i < |results| ensures IsSuspended(results[i]) <==> i >= |reported| {
      assert CallsOf(all)[i] == all[i].call;
      var x := if i < |reported| then reported[i] else waiting[i - |reported|];
      assert all[i].call == x.call;
      assert x in (if i < |reported| then reported else waiting);
      SameIdSameResult(results, x, i);
    }
  }

  /** Calls with distinct ids: resuming completes the exchange if and only if the waiting calls came last. */
  lemma {:induction false} ResumeCompletesIff(base: History, r: Reply, results: seq<Result>, resumed: seq<Result>, now: nat)
    requires Sound(base) && CallsOf(results) == r.calls && DistinctIds(r.calls)
    requires CallsOf(resumed) == CallsOf(Filter(results, IsSuspended))
    ensures Sound(Resumed(base, r, results, resumed, now)) <==> WaitingLast(results)
  {
    var reported := Filter(results, IsReported);
    var all := reported + resumed;
    if WaitingLast(results) {
      ResumeCompletesExchange(base, r, results, resumed, now);
    }
    if Sound(Resumed(base, r, results, resumed, now)) {
      WellPairedRest(base, [AssistantMessage(r, now)] + ResultMessages(all, now));
      FilterLengths(results, IsReported, IsSuspended);
      assert |CallsOf(resumed)| == |Filter(results, IsSuspended)|;
      PairedIds(r, all, now);
      CallsOfConcat(reported, resumed);
      forall i | 0 <= i < |all| ensures all[i].call.callId == results[i].call.callId {
        assert CallsOf(results)[i] == r.calls[i];
      }
      IdsInOrder(results, all);
    }
  }

  lemma TwoJoinsExecute()
    ensures var a, b := Call("a", JOIN_SUBAGENT, ""), Call("b", JOIN_SUBAGENT, ""); Executable([a, b]) == [a, b]
  {
    var a, b := Call("a", JOIN_SUBAGENT, ""), Call("b", JOIN_SUBAGENT, "");
    assert !IsWhitespace(a.callId[0]) && !IsWhitespace(b.callId[0]) && !IsWhitespace(JOIN_SUBAGENT[0]);
    assert IsValid(a) && IsValid(b);
    TwoKept(a, b, IsValid);
    TwoKept(a, b, IsJoin);
    FilterNone([a, b], IsOther);
  }

  lemma FirstWaits(a: Call, b: Call, done: Outcome)
    requires !done.Suspended?
    ensures Filter([Result(a, Suspended), Result(b, done)], IsSuspended) == [Result(a, Suspended)]
  {
    var results := [Result(a, Suspended), Result(b, done)];
    assert [Result(b, done)][1..] == [] && results[1..] == [Result(b, done)];
  }

  /** Two joins, the first of which waits while the second is done: resuming leaves their results in the wrong order. */
  lemma {:induction false} FinishedJoinAfterWaitingOne(base: History, text: Option<string>, now: nat, late: Outcome, done: Outcome)
    requires Sound(base) && !done.Suspended?
    ensures var a, b := Call("a", JOIN_SUBAGENT, ""), Call("b", JOIN_SUBAGENT, "");
      && Executable([a, b]) == [a, b]
      && !Sound(Resumed(base, Reply(text, None, [a, b], 0), [Result(a, Suspended), Result(b, done)], [Result(a, late)], now))
  {
    var a, b := Call("a", JOIN_SUBAGENT, ""), Call("b", JOIN_SUBAGENT, "");
    var r, results := Reply(text, None, [a, b], 0), [Result(a, Suspended), Result(b, done)];
    TwoJoinsExecute();
    FirstWaits(a, b, done);
    assert CallsOf(results) == [a, b] && CallsOf([Result(a, late)]) == CallsOf(Filter(results, IsSuspended));
    assert a.callId[0] != b.callId[0];
    ResumeCompletesIff(base, r, results, [Result(a, late)], now);
    assert IsSuspended(results[0]) && !IsSuspended(results[1]);
  }

  lemma TwoKept(a: Call, b: Call, keep: Call -> bool)
    requires keep(a) && keep(b)
    ensures Filter([a, b], keep) == [a, b]
  {
    FilterAll([a, b], keep);
  }
}
