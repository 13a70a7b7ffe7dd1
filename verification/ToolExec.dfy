/**
 * Tool calls of one assistant message: normalisation, ordering, and the record of their results.
 */
module ToolExec {
  import opened Options
  import opened Messages
  import opened TokenCache
  import opened Chars
  import opened Lists

  datatype Call = Call(callId: string, toolName: string, input: string)

  const JOIN_SUBAGENT := "join_subagent"

  // ---- normalisation ----------------------------------------------------------------------------------------------

  function SynthesizedId(turn: nat, index: nat): string {
    "call_" + DecimalText(turn) + "_" + DecimalText(index)
  }

  function WithIds(calls: seq<Call>, turn: nat): seq<Call> {
    seq(|calls|, i requires 0 <= i < |calls| =>
      if IsBlank(calls[i].callId) then calls[i].(callId := SynthesizedId(turn, i)) else calls[i])
  }

  /** Letters and digits only, in lower case. */
  function Squash(name: string): string { Lower(Filter(name, IsAsciiAlphanumeric)) }

  /** The first visible tool with the same squashed name. */
  function FirstMatch(visible: seq<string>, key: string): (r: Option<string>)
    ensures r.Some? <==> exists i :: 0 <= i < |visible| && Squash(visible[i]) == key
    ensures r.Some? ==> r.value in visible && Squash(r.value) == key
  {
    if visible == [] then None
    else if Squash(visible[0]) == key then Some(visible[0])
    else FirstMatch(visible[1..], key)
  }

  /** No tool before the one found squashes to `key`. */
  lemma {:induction false} FirstMatchIsFirst(visible: seq<string>, key: string) returns (i: nat)
    requires FirstMatch(visible, key).Some?
    ensures i < |visible| && FirstMatch(visible, key) == Some(visible[i]) && Squash(visible[i]) == key
    ensures forall j :: 0 <= j < i ==> Squash(visible[j]) != key
  {
    if Squash(visible[0]) == key {
      i := 0;
    } else {
      i := FirstMatchIsFirst(visible[1..], key);
      assert forall j :: 0 <= j < |visible| - 1 ==> visible[1..][j] == visible[j + 1];
      i := i + 1;
    }
  }

  /** A visible name stays; another takes the visible name it squashes to, if any. */
  function RepairedName(visible: seq<string>, name: string): string {
    if name in visible then name
    else match FirstMatch(visible, Squash(name)) case Some(fixed) => fixed case None => name
  }

  function WithNames(calls: seq<Call>, visible: seq<string>): seq<Call> {
    seq(|calls|, i requires 0 <= i < |calls| => calls[i].(toolName := RepairedName(visible, calls[i].toolName)))
  }

  predicate IsValid(c: Call) { !IsBlank(c.callId) && !IsBlank(c.toolName) }

  predicate IsInvalid(c: Call) { !IsValid(c) }

  function Normalized(calls: seq<Call>, turn: nat, visible: seq<string>): seq<Call> {
    WithNames(WithIds(calls, turn), visible)
  }

  method SynthesizeMissingCallIds(calls: seq<Call>, turn: nat) returns (fixed: seq<Call>)
    ensures fixed == WithIds(calls, turn)
  {
    fixed := calls;
    for i := 0 to |calls|
      invariant |fixed| == |calls|
      invariant forall j :: 0 <= j < |calls| ==> fixed[j] == if j < i then WithIds(calls, turn)[j] else calls[j]
    {
      if IsBlank(fixed[i].callId) {
        fixed := fixed[i := fixed[i].(callId := SynthesizedId(turn, i))];
      }
    }
  }

  lemma {:induction false} FirstMatchAppend(visible: seq<string>, name: string, key: string)
    ensures FirstMatch(visible + [name], key)
         == if FirstMatch(visible, key).Some? then FirstMatch(visible, key)
            else if Squash(name) == key then Some(name) else None
  {
    if visible != [] {
      assert (visible + [name])[1..] == visible[1..] + [name];
      FirstMatchAppend(visible[1..], name, key);
    } else {
      assert visible + [name] == [name];
    }
  }

  /** The table of squashed names: the first tool of each key wins. */
  ghost predicate Indexes(table: map<string, string>, visible: seq<string>) {
    forall key :: FirstMatch(visible, key) == if key in table then Some(table[key]) else None
  }

  lemma IndexesNext(table: map<string, string>, visible: seq<string>, name: string)
    requires Indexes(table, visible)
    ensures Indexes(if Squash(name) in table then table else table[Squash(name) := name], visible + [name])
  {
    forall key ensures FirstMatch(visible + [name], key)
        == var t := if Squash(name) in table then table else table[Squash(name) := name];
           if key in t then Some(t[key]) else None
    {
      FirstMatchAppend(visible, name, key);
    }
  }

  method RepairToolNames(calls: seq<Call>, visible: seq<string>) returns (fixed: seq<Call>)
    ensures fixed == WithNames(calls, visible)
  {
    fixed := calls;
    if visible == [] {
      return;
    }
    var canonical: set<string>, table: map<string, string> := {}, map[];
    for i := 0 to |visible|
      invariant forall name :: name in canonical <==> name in visible[..i]
      invariant Indexes(table, visible[..i])
    {
      IndexesNext(table, visible[..i], visible[i]);
      assert visible[..i + 1] == visible[..i] + [visible[i]];
      if Squash(visible[i]) !in table {
        table := table[Squash(visible[i]) := visible[i]];
      }
      canonical := canonical + {visible[i]};
    }
    assert visible[..|visible|] == visible;
    for i := 0 to |calls|
      invariant |fixed| == |calls|
      invariant forall j :: 0 <= j < |calls| ==> fixed[j] == if j < i then WithNames(calls, visible)[j] else calls[j]
    {
      if fixed[i].toolName !in canonical && Squash(fixed[i].toolName) in table {
        assert FirstMatch(visible, Squash(fixed[i].toolName)) == Some(table[Squash(fixed[i].toolName)]);
        fixed := fixed[i := fixed[i].(toolName := table[Squash(fixed[i].toolName)])];
      } else {
        assert FirstMatch(visible, Squash(fixed[i].toolName)).Some? <==> Squash(fixed[i].toolName) in table;
      }
    }
  }

  /** After normalisation every call has an id, a non-blank one is untouched, and a call is invalid only for its name. */
  lemma NormalizedIds(calls: seq<Call>, turn: nat, visible: seq<string>)
    ensures var fixed := Normalized(calls, turn, visible);
      && |fixed| == |calls|
      && forall i :: 0 <= i < |calls| ==>
           && !IsBlank(fixed[i].callId)
           && (!IsBlank(calls[i].callId) ==> fixed[i].callId == calls[i].callId)
           && (IsBlank(calls[i].callId) ==> fixed[i].callId == "call_" + DecimalText(turn) + "_" + DecimalText(i))
           && fixed[i].input == calls[i].input
           && (fixed[i].toolName == calls[i].toolName || fixed[i].toolName in visible)
  {
    forall i: nat ensures !IsBlank(SynthesizedId(turn, i)) {
      assert SynthesizedId(turn, i)[0] == 'c';
    }
  }

  /** Repairing names a second time changes nothing. */
  lemma RepairIsIdempotent(visible: seq<string>, name: string)
    ensures RepairedName(visible, RepairedName(visible, name)) == RepairedName(visible, name)
  {
  }

  // ---- order ------------------------------------------------------------------------------------------------------

  predicate IsJoin(c: Call) { c.toolName == JOIN_SUBAGENT }

  predicate IsOther(c: Call) { !IsJoin(c) }

  /** The stable sort by `tool_name == "join_subagent"`. */
  function JoinsLast(calls: seq<Call>): seq<Call> { Filter(calls, IsOther) + Filter(calls, IsJoin) }

  /** The calls a turn executes: the valid ones, joins last. */
  function Executable(calls: seq<Call>): seq<Call> { JoinsLast(Filter(calls, IsValid)) }

  /** The same calls, no join before another call, and the order within each kind unchanged. */
  lemma JoinsLastIsStableSort(calls: seq<Call>)
    ensures var r := JoinsLast(calls);
      && multiset(r) == multiset(calls)
      && (forall i, j :: 0 <= i < j < |r| && IsJoin(r[i]) ==> IsJoin(r[j]))
      && Filter(r, IsJoin) == Filter(calls, IsJoin) && Filter(r, IsOther) == Filter(calls, IsOther)
  {
    var others, joins := Filter(calls, IsOther), Filter(calls, IsJoin);
    FilterSplits(calls, IsOther, IsJoin);
    FilterAppend(others, joins, IsJoin);
    FilterAppend(others, joins, IsOther);
    FilterAll(joins, IsJoin);
    FilterAll(others, IsOther);
    FilterNone(others, IsJoin);
    FilterNone(joins, IsOther);
  }

  // ---- results ----------------------------------------------------------------------------------------------------

  /** `output` is the whole output; `text` is the output or error as it goes into the history. */
  datatype Outcome =
    | Success(output: string, text: string)
    | ToolError(text: string)
    | Failed(text: string)
    | Denied(text: string)
    | Suspended

  datatype Result = Result(call: Call, outcome: Outcome)

  predicate IsFailure(r: Result) { r.outcome.ToolError? || r.outcome.Failed? || r.outcome.Denied? }

  predicate IsSuspended(r: Result) { r.outcome.Suspended? }

  predicate IsReported(r: Result) { !IsSuspended(r) }

  function OutputText(r: Result): string { if IsSuspended(r) then "" else r.outcome.text }

  function ResultMessage(r: Result, now: nat): ChatMessage {
    Refresh(NewMessage(Tool, [ToolResult(r.call.callId, r.call.toolName, OutputText(r), IsFailure(r))], None, now))
  }

  function ResultMessages(results: seq<Result>, now: nat): History {
    seq(|results|, i requires 0 <= i < |results| => ResultMessage(results[i], now))
  }

  /** One result per call, in call order. */
  function Batch(calls: seq<Call>, execute: nat -> Outcome): seq<Result> {
    seq(|calls|, i requires 0 <= i < |calls| => Result(calls[i], execute(i)))
  }

  function CallIds(calls: seq<Call>): seq<string> {
    seq(|calls|, i requires 0 <= i < |calls| => calls[i].callId)
  }

  function CallsOf(results: seq<Result>): seq<Call> {
    seq(|results|, i requires 0 <= i < |results| => results[i].call)
  }

  // ---- repeated calls ---------------------------------------------------------------------------------------------

  const THRESHOLD := 3

  /** What makes two results the same: the tool, its input and, for a success, the output. */
  datatype Signature = Signature(toolName: string, input: string, output: Option<string>)

  function SignatureOf(r: Result): Signature {
    Signature(r.call.toolName, r.call.input, if r.outcome.Success? then Some(r.outcome.output) else None)
  }

  datatype Streak = Streak(lastFailure: Option<Signature>, failures: nat, lastSuccess: Option<Signature>, successes: nat)

  const FRESH := Streak(None, 0, None, 0)

  /** `update_tool_streak`; the flag says that a note is due. */
  function Counted(s: Streak, r: Result): (Streak, bool) {
    var sig := SignatureOf(r);
    if IsFailure(r) then
      var n := if s.lastFailure == Some(sig) then s.failures + 1 else 1;
      if n < THRESHOLD then (Streak(Some(sig), n, None, 0), false) else (Streak(None, 0, None, 0), true)
    else
      var n := if s.lastSuccess == Some(sig) then s.successes + 1 else 1;
      if n < THRESHOLD then (Streak(None, 0, Some(sig), n), false) else (Streak(None, 0, None, 0), true)
  }

  function StreakAfter(s: Streak, results: seq<Result>): Streak {
    if results == [] then s else Counted(StreakAfter(s, results[..|results| - 1]), results[|results| - 1]).0
  }

  predicate SameCall(a: Result, b: Result) { IsFailure(a) == IsFailure(b) && SignatureOf(a) == SignatureOf(b) }

  /** How many results at the end are the same as the last one. */
  function Repeats(results: seq<Result>): (n: nat)
    ensures n <= |results| && (results != [] ==> n >= 1)
  {
    if results == [] then 0
    else if |results| >= 2 && SameCall(results[|results| - 2], results[|results| - 1])
    then Repeats(results[..|results| - 1]) + 1 else 1
  }

  ghost predicate StreakIs(s: Streak, results: seq<Result>) {
    if results == [] || Repeats(results) % THRESHOLD == 0 then s == FRESH
    else
      var sig, n := Some(SignatureOf(results[|results| - 1])), Repeats(results) % THRESHOLD;
      s == if IsFailure(results[|results| - 1]) then Streak(sig, n, None, 0) else Streak(None, 0, sig, n)
  }

  lemma StreakNext(s: Streak, results: seq<Result>, r: Result)
    requires StreakIs(s, results)
    ensures StreakIs(Counted(s, r).0, results + [r])
    ensures Counted(s, r).1 <==> Repeats(results + [r]) % THRESHOLD == 0
  {
    assert (results + [r])[..|results + [r]| - 1] == results;
    if results != [] {
      var n, same := Repeats(results), SameCall(results[|results| - 1], r);
      assert Repeats(results + [r]) == if same then n + 1 else 1;
      assert (n + 1) % THRESHOLD == (n % THRESHOLD + 1) % THRESHOLD;
    }
  }

  lemma {:induction false} StreakIsKept(results: seq<Result>)
    ensures StreakIs(StreakAfter(FRESH, results), results)
  {
    if results != [] {
      var before, last := results[..|results| - 1], results[|results| - 1];
      StreakIsKept(before);
      StreakNext(StreakAfter(FRESH, before), before, last);
      assert before + [last] == results;
    }
  }

  /** From a fresh state, a note is due exactly at every third identical result in a row. */
  lemma NoteEveryThird(results: seq<Result>, r: Result)
    ensures Counted(StreakAfter(FRESH, results), r).1 <==> Repeats(results + [r]) % THRESHOLD == 0
  {
    StreakIsKept(results);
    StreakNext(StreakAfter(FRESH, results), results, r);
  }
}
