/** Ordering of segment proposals (virtual_segment_manager.py, ReorderingBuffer).

    Each workflow has an expected number.  A waiter registers, then polls under the lock until
    its number is due, or fails open when its deadline passes.  Waiters interleave between lock
    sections, and a workflow may be reset at any time.  The theorems hold for every interleaving:
    a log of admissions and timeouts stays consistent with the expected number. */
module ReorderBuffer {
  import opened Common

  type Expected = map<string, int>

  // ---------- The lock sections ----------

  function Register(m: Expected, wf: string, n: int): Expected {
    if wf in m then m else m[wf := n]
  }

  /** The number is due: admit it and move on. */
  function Admit(m: Expected, wf: string, n: int): Expected
    requires wf in m
  {
    m[wf := Max(m[wf], n + 1)]
  }

  /** Fail-open and mark_done: move past n, from zero if the workflow is unknown. */
  function Pass(m: Expected, wf: string, n: int): Expected {
    m[wf := Max(Current(m, wf), n + 1)]
  }

  function Current(m: Expected, wf: string): int {
    if wf in m then m[wf] else 0
  }

  datatype Poll = Granted | NotYet | KeyError

  class ReorderingBuffer {
    var expected: Expected

    constructor ()
      ensures expected == map[]
    {
      expected := map[];
    }

    method RegisterFirst(wf: string, n: int)
      modifies this
      ensures expected == Register(old(expected), wf, n)
    {
      if wf !in expected {
        expected := expected[wf := n];
      }
    }

    method TryTurn(wf: string, n: int) returns (p: Poll)
      modifies this
      ensures p.KeyError? <==> wf !in old(expected)
      ensures p.Granted? <==> wf in old(expected) && n <= old(expected)[wf]
      ensures expected == if p.Granted? then Admit(old(expected), wf, n) else old(expected)
    {
      if wf !in expected {
        return KeyError;
      }
      var current := expected[wf];
      if n <= current {
        expected := expected[wf := Max(current, n + 1)];
        return Granted;
      }
      return NotYet;
    }

    method FailOpen(wf: string, n: int)
      modifies this
      ensures expected == Pass(old(expected), wf, n)
    {
      var current := if wf in expected then expected[wf] else 0;
      expected := expected[wf := Max(current, n + 1)];
    }

    method MarkDone(wf: string, n: int)
      modifies this
      ensures expected == Pass(old(expected), wf, n)
    {
      FailOpen(wf, n);
    }

    method Reset(wf: string)
      modifies this
      ensures expected == old(expected) - {wf}
    {
      expected := expected - {wf};
    }

    /** wait_for_turn of a waiter that nobody interrupts, with time for a number of polls. */
    method WaitForTurn(wf: string, n: int, polls: nat) returns (inOrder: bool)
      requires polls > 0
      modifies this
      ensures inOrder <==> n <= Register(old(expected), wf, n)[wf]
      ensures expected == Pass(Register(old(expected), wf, n), wf, n)
    {
      RegisterFirst(wf, n);
      for i := 0 to polls
        invariant expected == Register(old(expected), wf, n)
        invariant i > 0 ==> n > expected[wf]
      {
        var p := TryTurn(wf, n);
        if p.Granted? {
          return true;
        }
      }
      FailOpen(wf, n);
      return false;
    }
  }

  // ---------- Interleavings ----------

  /** A log entry: what was done for a workflow and the number expected just before. */
  datatype Entry =
    | Opened(wf: string, n: int, before: int)
    | Admitted(wf: string, n: int, before: int)
    | Skipped(wf: string, n: int, before: int)
    | Done(wf: string, n: int, before: int)
    | Cleared(wf: string)

  datatype Ticket = Ticket(wf: string, n: int)

  datatype System = System(expected: Expected, waiting: map<nat, Ticket>, log: seq<Entry>)

  const EMPTY := System(map[], map[], [])

  datatype Action =
    | Arrive(id: nat, wf: string, n: int)
    | Ask(id: nat)
    | TimeOut(id: nat)
    | Mark(wf: string, n: int)
    | Clear(wf: string)

  predicate Enabled(s: System, a: Action) {
    match a
    case Arrive(id, _, _) => id !in s.waiting
    case Ask(id) => id in s.waiting
    case TimeOut(id) => id in s.waiting
    case Mark(_, _) => true
    case Clear(_) => true
  }

  function Apply(s: System, a: Action): System
    requires Enabled(s, a)
  {
    match a
    case Arrive(id, wf, n) =>
      System(Register(s.expected, wf, n), s.waiting[id := Ticket(wf, n)],
             if wf in s.expected then s.log else s.log + [Opened(wf, n, n)])
    case Ask(id) =>
      var t := s.waiting[id];
      if t.wf !in s.expected then s.(waiting := s.waiting - {id})
      else if t.n <= s.expected[t.wf] then
        System(Admit(s.expected, t.wf, t.n), s.waiting - {id}, s.log + [Admitted(t.wf, t.n, s.expected[t.wf])])
      else s
    case TimeOut(id) =>
      var t := s.waiting[id];
      System(Pass(s.expected, t.wf, t.n), s.waiting - {id}, s.log + [Skipped(t.wf, t.n, Current(s.expected, t.wf))])
    case Mark(wf, n) => System(Pass(s.expected, wf, n), s.waiting, s.log + [Done(wf, n, Current(s.expected, wf))])
    case Clear(wf) => System(s.expected - {wf}, s.waiting, s.log + [Cleared(wf)])
  }

  ghost predicate Leads(s: System, acts: seq<Action>, t: System)
    decreases acts
  {
    if acts == [] then s == t
    else Enabled(s, acts[0]) && Leads(Apply(s, acts[0]), acts[1..], t)
  }

  ghost predicate Reachable(s: System) {
    exists acts :: Leads(EMPTY, acts, s)
  }

  /** Between resets the expected number never decreases, under any interleaving. */
  lemma {:induction false} ExpectedIsMonotone(s: System, acts: seq<Action>, t: System, wf: string)
    requires Leads(s, acts, t) && wf in s.expected && Clear(wf) !in acts
    ensures wf in t.expected && t.expected[wf] >= s.expected[wf]
    decreases acts
  {
    if acts == [] {
    } else {
      assert acts[0] in acts && forall a :: a in acts[1..] ==> a in acts;
      ExpectedIsMonotone(Apply(s, acts[0]), acts[1..], t, wf);
    }
  }

  /** The entries of a workflow since it was last reset. */
  function Epoch(log: seq<Entry>, wf: string): seq<Entry> {
    if log == [] then []
    else
      var init, e := log[..|log| - 1], log[|log| - 1];
      if e.wf != wf then Epoch(init, wf) else if e.Cleared? then [] else Epoch(init, wf) + [e]
  }

  /** A proposal was let through, in turn or because its deadline passed. */
  predicate Processes(e: Entry, n: int) {
    (e.Admitted? || e.Skipped?) && e.n == n
  }

  predicate ProcessedIn(es: seq<Entry>, n: int) {
    exists i :: 0 <= i < |es| && Processes(es[i], n)
  }

  /** A deadline passed while an earlier number was still expected. */
  predicate IsGap(e: Entry) {
    e.Skipped? && e.n > e.before
  }

  /** mark_done for a number that was still expected or later. */
  predicate IsJump(e: Entry) {
    e.Done? && e.n >= e.before
  }

  predicate NoGaps(es: seq<Entry>) {
    forall i :: 0 <= i < |es| ==> !IsGap(es[i])
  }

  predicate NoJumps(es: seq<Entry>) {
    forall i :: 0 <= i < |es| ==> !IsJump(es[i])
  }

  /** The number expected when the epoch began. */
  function First(es: seq<Entry>): int {
    if es == [] || es[0].Cleared? then 0 else es[0].before
  }

  /** Numbers from the first expected one on go through one after the other: n only after n - 1. */
  ghost predicate InOrder(es: seq<Entry>) {
    forall i :: 0 <= i < |es| ==> FollowsAt(es, i)
  }

  ghost predicate FollowsAt(es: seq<Entry>, i: nat)
    requires i < |es|
  {
    (es[i].Admitted? || es[i].Skipped?) && es[i].n > First(es) ==> ProcessedIn(es[..i], es[i].n - 1)
  }

  /** Every number from the first expected one up to the expected one went through. */
  ghost predicate Complete(es: seq<Entry>, expected: int) {
    forall n :: First(es) <= n < expected ==> ProcessedIn(es, n)
  }

  /** What the log of a workflow says about its expected number. */
  ghost predicate Consistent(es: seq<Entry>, expected: int) {
    && First(es) <= expected
    && (forall i :: 0 <= i < |es| && (es[i].Admitted? || es[i].Skipped?) ==> es[i].n < expected)
    && (NoGaps(es) && NoJumps(es) ==> Complete(es, expected))
    && (NoJumps(es) ==> (InOrder(es) <==> NoGaps(es)))
  }

  ghost predicate Tracks(s: System, wf: string) {
    var es := Epoch(s.log, wf);
    && (wf in s.expected <==> es != [])
    && (es != [] ==> !es[0].Cleared? && Consistent(es, s.expected[wf]))
  }

  lemma EpochAppends(log: seq<Entry>, e: Entry, wf: string)
    ensures Epoch(log + [e], wf)
      == if e.wf != wf then Epoch(log, wf) else if e.Cleared? then [] else Epoch(log, wf) + [e]
  {
    assert (log + [e])[..|log|] == log;
  }

  lemma ProcessedAppends(es: seq<Entry>, e: Entry, n: int)
    ensures ProcessedIn(es + [e], n) <==> ProcessedIn(es, n) || Processes(e, n)
  {
    if ProcessedIn(es, n) {
      var i :| 0 <= i < |es| && Processes(es[i], n);
      assert (es + [e])[i] == es[i];
    }
    if Processes(e, n) { assert (es + [e])[|es|] == e; }
  }

  lemma InOrderAppends(es: seq<Entry>, e: Entry)
    requires es != []
    ensures InOrder(es + [e]) <==>
      InOrder(es) && ((e.Admitted? || e.Skipped?) && e.n > First(es) ==> ProcessedIn(es, e.n - 1))
  {
    var es' := es + [e];
    assert First(es') == First(es) && es'[..|es|] == es;
    forall i | 0 <= i < |es| ensures FollowsAt(es', i) <==> FollowsAt(es, i) {
      assert es'[..i] == es[..i] && es'[i] == es[i];
    }
    assert FollowsAt(es', |es|) <==> ((e.Admitted? || e.Skipped?) && e.n > First(es) ==> ProcessedIn(es, e.n - 1));
    if InOrder(es') { assert forall i :: 0 <= i < |es| ==> FollowsAt(es', i); }
  }

  lemma FlagsAppend(es: seq<Entry>, e: Entry)
    ensures NoGaps(es + [e]) <==> NoGaps(es) && !IsGap(e)
    ensures NoJumps(es + [e]) <==> NoJumps(es) && !IsJump(e)
  {
    var es' := es + [e];
    assert forall i :: 0 <= i < |es| ==> es'[i] == es[i];
    assert es'[|es|] == e;
  }

  lemma NothingBeyond(es: seq<Entry>, expected: int, n: int)
    requires Consistent(es, expected) && n >= expected
    ensures !ProcessedIn(es, n)
  {
  }

  /** One more entry for a workflow: n moved past, except for an admission that was already behind. */
  lemma ConsistentGrows(es: seq<Entry>, expected: int, e: Entry)
    requires es != [] && Consistent(es, expected)
    requires e.Admitted? || e.Skipped? || e.Done?
    requires e.before == expected && (e.Admitted? ==> e.n <= expected)
    ensures Consistent(es + [e], Max(expected, e.n + 1))
  {
    var es', expected' := es + [e], Max(expected, e.n + 1);
    FlagsAppend(es, e);
    InOrderAppends(es, e);
    NothingBeyond(es, expected, Max(expected, e.n - 1));
    if NoGaps(es') && NoJumps(es') {
      forall n | First(es') <= n < expected' ensures ProcessedIn(es', n) { ProcessedAppends(es, e, n); }
    }
    if NoJumps(es') && NoGaps(es) && (e.Admitted? || e.Skipped?) && e.n > First(es) {
      assert e.n <= expected ==> ProcessedIn(es, e.n - 1);
    }
  }

  /** The first entry of an epoch, with the number expected before it. */
  lemma ConsistentOpens(e: Entry, expected: int)
    requires (e.Opened? && e.before == e.n == expected)
      || ((e.Skipped? || e.Done?) && e.before == 0 && expected == Max(0, e.n + 1))
    ensures Consistent([e], expected)
  {
    var es := [e];
    assert [] + [e] == es;
    FlagsAppend([], e);
    forall n ensures ProcessedIn(es, n) <==> Processes(e, n) { ProcessedAppends([], e, n); }
    assert es[..0] == [];
    assert InOrder(es) <==> FollowsAt(es, 0);
  }

  lemma EntryTracks(s: System, e: Entry, t: System, wf: string)
    requires Tracks(s, wf) && t.log == s.log + [e]
    requires e.wf == wf ==>
      match e
      case Opened(_, n, before) => wf !in s.expected && before == n && wf in t.expected && t.expected[wf] == n
      case Admitted(_, n, before) => wf in s.expected && before == s.expected[wf] && n <= before
        && wf in t.expected && t.expected[wf] == Max(before, n + 1)
      case Cleared(_) => wf !in t.expected
      case _ => e.before == Current(s.expected, wf) && wf in t.expected && t.expected[wf] == Max(e.before, e.n + 1)
    requires e.wf != wf ==> (wf in t.expected <==> wf in s.expected)
    requires e.wf != wf && wf in s.expected && wf in t.expected ==> t.expected[wf] == s.expected[wf]
    ensures Tracks(t, wf)
  {
    hide Consistent;
    EpochAppends(s.log, e, wf);
    var es := Epoch(s.log, wf);
    if e.wf == wf && !e.Cleared? {
      if es == [] {
        assert es + [e] == [e];
        ConsistentOpens(e, t.expected[wf]);
      } else {
        ConsistentGrows(es, s.expected[wf], e);
      }
    }
  }

  lemma StepTracks(s: System, a: Action, wf: string)
    requires Enabled(s, a) && Tracks(s, wf)
    ensures Tracks(Apply(s, a), wf)
  {
    var t := Apply(s, a);
    if t.log != s.log {
      assert t.log == s.log + [t.log[|t.log| - 1]];
      EntryTracks(s, t.log[|t.log| - 1], t, wf);
    }
  }

  lemma {:induction false} TracksAlong(s: System, acts: seq<Action>, t: System, wf: string)
    requires Leads(s, acts, t) && Tracks(s, wf)
    ensures Tracks(t, wf)
    decreases acts
  {
    if acts == [] {
    } else {
      StepTracks(s, acts[0], wf);
      TracksAlong(Apply(s, acts[0]), acts[1..], t, wf);
    }
  }

  /** Under any interleaving: without forward marks a workflow's proposals went through in order
      exactly when no deadline passed while an earlier number was expected, and then every number
      from the first up to the expected one has gone through. */
  lemma OrderIffNoGap(s: System, wf: string)
    requires Reachable(s) && NoJumps(Epoch(s.log, wf))
    ensures InOrder(Epoch(s.log, wf)) <==> NoGaps(Epoch(s.log, wf))
    ensures wf in s.expected && NoGaps(Epoch(s.log, wf)) ==> Complete(Epoch(s.log, wf), s.expected[wf])
  {
    var acts :| Leads(EMPTY, acts, s);
    TracksAlong(EMPTY, acts, s, wf);
  }

  /** A waiter whose workflow is unknown, so that its next poll raises, was reset while waiting. */
  ghost predicate Stranded(s: System, id: nat) {
    id in s.waiting && s.waiting[id].wf !in s.expected
  }

  ghost predicate WasCleared(log: seq<Entry>, wf: string) {
    exists i :: 0 <= i < |log| && log[i] == Cleared(wf)
  }

  ghost predicate OnlyResetsStrand(s: System) {
    forall id :: Stranded(s, id) ==> WasCleared(s.log, s.waiting[id].wf)
  }

  lemma {:induction false} StrandingAlong(s: System, acts: seq<Action>, t: System)
    requires Leads(s, acts, t) && OnlyResetsStrand(s)
    ensures OnlyResetsStrand(t)
    decreases acts
  {
    if acts == [] {
    } else {
      var u := Apply(s, acts[0]);
      forall id | Stranded(u, id) ensures WasCleared(u.log, u.waiting[id].wf) {
        var wf := u.waiting[id].wf;
        if Stranded(s, id) && s.waiting[id] == u.waiting[id] {
          var i :| 0 <= i < |s.log| && s.log[i] == Cleared(wf);
          assert u.log[i] == Cleared(wf);
        } else {
          assert u.log[|u.log| - 1] == Cleared(wf);
        }
      }
      StrandingAlong(u, acts[1..], t);
    }
  }

  /** Polls raise only for waiters of a workflow that was reset; a reset strands all of them. */
  lemma StrandedWaiters(s: System, id: nat, wf: string)
    requires Reachable(s) && id in s.waiting
    ensures Stranded(s, id) ==> WasCleared(s.log, s.waiting[id].wf)
    ensures s.waiting[id].wf == wf ==> Stranded(Apply(s, Clear(wf)), id)
  {
    var acts :| Leads(EMPTY, acts, s);
    StrandingAlong(EMPTY, acts, s);
  }
}
