/**
 The lock-free notification pair (pollable.c). One thread at a time raises or clears; any number of threads ask
 for the descriptor. Each atomic operation and each system call is one step, interleaved in any order.
 */
module Pollable {
  import opened Wrappers
  import opened Bits

  // ---- the packed pair of descriptors ----

  const FD_BITS: nat := 0x1_0000_0000

  /** FD_JOIN, WFD and RFD */
  function Join(wfd: nat, rfd: nat): nat {
    wfd + rfd * FD_BITS
  }

  function Wfd(fds: nat): nat {
    And(fds, FD_BITS - 1)
  }

  function Rfd(fds: nat): nat {
    And(fds / FD_BITS, FD_BITS - 1)
  }

  lemma Pow32()
    ensures Pow2(32) == FD_BITS
  {
    assert Pow2(8) == 256 by { assert Pow2(4) == 16; }
    assert Pow2(16) == 65536 by { assert Pow2(12) == 4096; }
    assert Pow2(24) == 0x100_0000 by { assert Pow2(20) == 0x10_0000; }
    assert Pow2(28) == 0x1000_0000;
  }

  /** Two descriptors survive packing, and a packed pair is never the "no pair" mark. */
  lemma PackingRoundTrip(wfd: nat, rfd: nat)
    requires wfd < 0x8000_0000 && rfd < 0x8000_0000
    ensures Wfd(Join(wfd, rfd)) == wfd && Rfd(Join(wfd, rfd)) == rfd
    ensures Join(wfd, rfd) != 0xffff_ffff_ffff_ffff
  {
    hide And, Pow2;
    Pow32();
    LowMask(Join(wfd, rfd), 32);
    MulModBase(rfd, wfd, FD_BITS);
    assert Join(wfd, rfd) / FD_BITS == rfd;
    LowMask(rfd, 32);
    SmallMod(rfd, FD_BITS);
  }

  // ---- the protocol ----

  /** Where the one thread that raises and clears stands. */
  datatype Signal = Quiet | Raised | Raising(pair: nat) | Cleared | Clearing(pair: nat)

  /** Where a call of nni_pollable_getfd stands. */
  datatype Call =
    | Looking                // about to read p_fds
    | Opening                // it read "no pair"
    | Installing(pair: nat)  // opened a pair, about to compare-and-swap
    | Checking(pair: nat)    // installed it, about to read p_raised
    | Notifying(pair: nat)   // p_raised was set, about to write to the pair
    | Losing(pair: nat)      // another caller was first, about to close its own pair

  datatype State = State(
    raised: bool,              // p_raised
    installed: Option<nat>,    // p_fds
    made: nat,                 // pairs are numbered as they are opened
    pending: set<nat>,         // pairs with an unread notification
    closed: set<nat>,
    signal: Signal,
    calls: map<nat, Call>,
    answers: map<nat, nat>)    // the pair each finished call returned

  datatype Step =
    | RaiseSwap | RaiseRead | RaiseWrite | ClearSwap | ClearRead | ClearDrain
    | Ask(c: nat) | Look(c: nat) | Open(c: nat) | Fail(c: nat) | Install(c: nat)
    | Check(c: nat) | Notify(c: nat) | Close(c: nat)

  ghost predicate Enabled(s: State, e: Step) {
    match e
    case RaiseSwap => s.signal.Quiet?
    case RaiseRead => s.signal.Raised?
    case RaiseWrite => s.signal.Raising?
    case ClearSwap => s.signal.Quiet?
    case ClearRead => s.signal.Cleared?
    case ClearDrain => s.signal.Clearing?
    case Ask(c) => c !in s.calls && c !in s.answers
    case Look(c) => c in s.calls && s.calls[c].Looking?
    case Open(c) => c in s.calls && s.calls[c].Opening?
    case Fail(c) => c in s.calls && s.calls[c].Opening?
    case Install(c) => c in s.calls && s.calls[c].Installing?
    case Check(c) => c in s.calls && s.calls[c].Checking?
    case Notify(c) => c in s.calls && s.calls[c].Notifying?
    case Close(c) => c in s.calls && s.calls[c].Losing?
  }

  ghost function Answer(s: State, c: nat, pair: nat): State {
    s.(calls := s.calls - {c}, answers := s.answers[c := pair])
  }

  ghost function Next(s: State, e: Step): State
    requires Enabled(s, e)
  {
    match e
    case RaiseSwap => s.(raised := true, signal := if s.raised then Quiet else Raised)
    case RaiseRead => s.(signal := if s.installed.Some? then Raising(s.installed.value) else Quiet)
    case RaiseWrite => s.(pending := s.pending + {s.signal.pair}, signal := Quiet)
    case ClearSwap => s.(raised := false, signal := if s.raised then Cleared else Quiet)
    case ClearRead => s.(signal := if s.installed.Some? then Clearing(s.installed.value) else Quiet)
    case ClearDrain => s.(pending := s.pending - {s.signal.pair}, signal := Quiet)
    case Ask(c) => s.(calls := s.calls[c := Looking])
    case Look(c) => if s.installed.Some? then Answer(s, c, s.installed.value) else s.(calls := s.calls[c := Opening])
    case Open(c) => s.(calls := s.calls[c := Installing(s.made)], made := s.made + 1)
    case Fail(c) => s.(calls := s.calls - {c})
    case Install(c) =>
      var pair := s.calls[c].pair;
      if s.installed.None? then s.(installed := Some(pair), calls := s.calls[c := Checking(pair)])
      else s.(calls := s.calls[c := Losing(pair)])
    case Check(c) =>
      var pair := s.calls[c].pair;
      if s.raised then s.(calls := s.calls[c := Notifying(pair)]) else Answer(s, c, pair)
    case Notify(c) => Answer(s, c, s.calls[c].pair).(pending := s.pending + {s.calls[c].pair})
    case Close(c) => s.(calls := s.calls[c := Looking], closed := s.closed + {s.calls[c].pair})
  }

  ghost predicate Init(s: State) {
    !s.raised && s.installed.None? && s.made == 0 && s.pending == {} && s.closed == {} &&
    s.signal.Quiet? && s.calls == map[] && s.answers == map[]
  }

  ghost predicate Run(s: State, es: seq<Step>, t: State)
    decreases |es|
  {
    if es == [] then t == s else Enabled(s, es[0]) && Run(Next(s, es[0]), es[1..], t)
  }

  // ---- who owns a pair ----

  /** The call holds a pair that is not installed. */
  ghost predicate Carries(k: Call, pair: nat) {
    (k.Installing? || k.Losing?) && k.pair == pair
  }

  /** The call will still see to the notification of the pair it installed. */
  ghost predicate Finishing(s: State, pair: nat) {
    exists c :: c in s.calls && (s.calls[c] == Checking(pair) || s.calls[c] == Notifying(pair))
  }

  /** Every opened pair is installed, closed, or carried by a call. */
  ghost predicate PairsCovered(s: State) {
    forall p: nat :: p < s.made ==> PairCovered(s, p)
  }

  ghost predicate PairCovered(s: State, p: nat) {
    s.installed == Some(p) || p in s.closed || exists c :: c in s.calls && Carries(s.calls[c], p)
  }

  /** ... and by one call only, and then neither installed nor closed. */
  ghost predicate CarriersDistinct(s: State) {
    && (s.installed.Some? ==> s.installed.value < s.made && s.installed.value !in s.closed)
    && (forall p :: p in s.closed ==> p < s.made)
    && (forall c :: c in s.calls && (s.calls[c].Installing? || s.calls[c].Losing?) ==>
          s.calls[c].pair < s.made && s.calls[c].pair !in s.closed && s.installed != Some(s.calls[c].pair))
    && (forall c, d, p :: c in s.calls && d in s.calls && Carries(s.calls[c], p) && Carries(s.calls[d], p) ==> c == d)
  }

  ghost predicate CallsAgree(s: State) {
    && (forall c :: c in s.calls && (s.calls[c].Checking? || s.calls[c].Notifying?) ==>
          s.installed == Some(s.calls[c].pair))
    && (forall c :: c in s.answers ==> s.installed == Some(s.answers[c]))
    && (forall c :: c in s.calls && s.calls[c].Losing? ==> s.installed.Some?)
    && (s.signal.Raising? || s.signal.Clearing? ==> s.installed == Some(s.signal.pair))
    && (s.signal.Raised? || s.signal.Raising? ==> s.raised)
    && (s.signal.Cleared? || s.signal.Clearing? ==> !s.raised)
  }

  /** A raised state with an installed pair has its notification, or someone about to write it. */
  ghost predicate Notified(s: State) {
    s.raised && s.installed.Some? ==>
      s.installed.value in s.pending || s.signal.Raised? || s.signal.Raising? || Finishing(s, s.installed.value)
  }

  ghost predicate Inv(s: State) {
    PairsCovered(s) && CarriersDistinct(s) && CallsAgree(s) && Notified(s)
  }

  lemma CallsAgreeKept(s: State, e: Step)
    requires Inv(s) && Enabled(s, e)
    ensures CallsAgree(Next(s, e))
  {
    hide Finishing, Notified;
  }

  lemma DistinctKept(s: State, e: Step)
    requires Inv(s) && Enabled(s, e)
    ensures CarriersDistinct(Next(s, e))
  {
    hide Finishing, Notified, PairsCovered;
    var t := Next(s, e);
    forall c, d, p | c in t.calls && d in t.calls && Carries(t.calls[c], p) && Carries(t.calls[d], p) ensures c == d {
      SameCarrier(s, e, c, p);
      SameCarrier(s, e, d, p);
    }
    assert e.Install? || e.Close? ==> Carries(s.calls[e.c], s.calls[e.c].pair);
    forall c | c in t.calls && (t.calls[c].Installing? || t.calls[c].Losing?)
      ensures t.calls[c].pair < t.made && t.calls[c].pair !in t.closed && t.installed != Some(t.calls[c].pair)
    {
      SameCarrier(s, e, c, t.calls[c].pair);
    }
  }

  /** A call carries what it carried before the step, or the pair the step opened. */
  lemma SameCarrier(s: State, e: Step, c: nat, p: nat)
    requires Enabled(s, e) && c in Next(s, e).calls && Carries(Next(s, e).calls[c], p)
    ensures if e == Open(c) then p == s.made else c in s.calls && Carries(s.calls[c], p)
  {
  }

  lemma PairsKept(s: State, e: Step)
    requires Inv(s) && Enabled(s, e)
    ensures PairsCovered(Next(s, e))
  {
    hide Inv, Enabled, Next, PairCovered;
    var t := Next(s, e);
    forall p: nat | p < t.made ensures PairCovered(t, p) { CarrierKept(s, e, p); }
  }

  lemma CarrierKept(s: State, e: Step, p: nat)
    requires Inv(s) && Enabled(s, e) && p < Next(s, e).made
    ensures PairCovered(Next(s, e), p)
  {
    hide Finishing, Notified, CallsAgree, CarriersDistinct;
    var t := Next(s, e);
    if p == s.made {
      assert Carries(t.calls[e.c], p);
    } else {
      assert PairCovered(s, p);
      if s.installed != Some(p) && p !in s.closed {
        var c :| c in s.calls && Carries(s.calls[c], p);
        if e.Install? && e.c == c {
          assert t.installed == Some(p) || Carries(t.calls[c], p);
        } else if !(e.Close? && e.c == c) {
          assert c in t.calls && Carries(t.calls[c], p);
        }
      } else {
        InstalledOnce(s, e);
      }
    }
  }

  lemma InstalledOnce(s: State, e: Step)
    requires Enabled(s, e)
    ensures s.installed.Some? ==> Next(s, e).installed == s.installed
    ensures s.closed <= Next(s, e).closed
  {
  }

  lemma NotifiedKept(s: State, e: Step)
    requires Inv(s) && Enabled(s, e)
    ensures Notified(Next(s, e))
  {
    hide PairsCovered, CarriersDistinct;
    var t := Next(s, e);
    if s.installed.Some? && Finishing(s, s.installed.value) {
      var p := s.installed.value;
      var c :| c in s.calls && (s.calls[c] == Checking(p) || s.calls[c] == Notifying(p));
      if c in t.calls { assert t.calls[c].Checking? || t.calls[c].Notifying? ==> Finishing(t, s.installed.value); }
    }
    if e.Install? && s.installed.None? {
      assert t.calls[e.c] == Checking(s.calls[e.c].pair);
      assert Finishing(t, s.calls[e.c].pair);
    }
  }

  lemma {:induction false} RunKeeps(s: State, es: seq<Step>, t: State)
    requires Inv(s) && Run(s, es, t)
    ensures Inv(t)
    decreases |es|
  {
    hide PairsCovered, CarriersDistinct, CallsAgree, Notified, Next, Enabled;
    if es != [] {
      DistinctKept(s, es[0]);
      PairsKept(s, es[0]);
      CallsAgreeKept(s, es[0]);
      NotifiedKept(s, es[0]);
      RunKeeps(Next(s, es[0]), es[1..], t);
    }
  }

  lemma InitInv(s: State)
    requires Init(s)
    ensures Inv(s)
  {
  }

  /**
   In every state with no step in progress: a raised pollable whose pair is installed has a notification pending;
   every other pair ever opened has been closed; and every finished call returned the installed pair.
   */
  lemma AtRest(s: State, es: seq<Step>, t: State)
    requires Init(s) && Run(s, es, t) && t.signal.Quiet? && t.calls == map[]
    ensures t.raised && t.installed.Some? ==> t.installed.value in t.pending
    ensures forall p: nat :: p < t.made ==> (p in t.closed <==> t.installed != Some(p))
    ensures forall c :: c in t.answers ==> t.installed == Some(t.answers[c])
    ensures forall c :: Ask(c) in es && Fail(c) !in es ==> c in t.answers
  {
    hide Run;
    forall c | Ask(c) in es && Fail(c) !in es ensures c in t.answers { AskedIsAnswered(s, es, t, c); }
    InitInv(s);
    RunKeeps(s, es, t);
    forall p: nat | p < t.made ensures p in t.closed <==> t.installed != Some(p) { assert PairCovered(t, p); }
  }

  /** Once a pair is installed it stays: at most one is ever installed. */
  lemma {:induction false} InstalledStays(s: State, es: seq<Step>, t: State)
    requires Run(s, es, t) && s.installed.Some?
    ensures t.installed == s.installed
    decreases |es|
  {
    if es != [] { InstalledStays(Next(s, es[0]), es[1..], t); }
  }

  // ---- stated on the events ----

  /** The last of the raises and clears among the events was a raise. */
  ghost predicate LastRaised(es: seq<Step>, was: bool)
    decreases |es|
  {
    if es == [] then was
    else LastRaised(es[1..], if es[0].RaiseSwap? then true else if es[0].ClearSwap? then false else was)
  }

  lemma {:induction false} RaisedAsTold(s: State, es: seq<Step>, t: State)
    requires Run(s, es, t)
    ensures t.raised <==> LastRaised(es, s.raised)
    decreases |es|
  {
    if es != [] { RaisedAsTold(Next(s, es[0]), es[1..], t); }
  }

  /** The call is in progress, or has its answer. */
  ghost predicate Served(s: State, c: nat) {
    c in s.calls || c in s.answers
  }

  lemma ServedKept(s: State, e: Step, c: nat)
    requires Enabled(s, e) && (Served(s, c) || e == Ask(c)) && e != Fail(c)
    ensures Served(Next(s, e), c)
  {
  }

  /** Every call that asked has an answer, is in progress, or could open no pair. */
  lemma {:induction false} AskedIsAnswered(s: State, es: seq<Step>, t: State, c: nat)
    requires Run(s, es, t) && (Served(s, c) || Ask(c) in es)
    ensures Served(t, c) || Fail(c) in es
    decreases |es|
  {
    hide Enabled, Next, Served;
    if es != [] {
      assert es == [es[0]] + es[1..];
      if es[0] != Fail(c) {
        if Served(s, c) || es[0] == Ask(c) { ServedKept(s, es[0], c); }
        AskedIsAnswered(Next(s, es[0]), es[1..], t, c);
      }
    }
  }

  // ---- notifications that outlive a clear ----

  /** A caller that saw p_raised writes after a clear has come and gone; the next raise makes it right. */
  ghost predicate LateAfter(s: State, e: Step, was: bool) {
    (e.Notify? && !s.raised && s.signal.Quiet?) || (was && !e.RaiseSwap?)
  }

  /** Does the run leave such a notification behind? */
  ghost predicate Late(s: State, es: seq<Step>, t: State, was: bool)
    requires Run(s, es, t)
    decreases |es|
  {
    if es == [] then was else Late(Next(s, es[0]), es[1..], t, LateAfter(s, es[0], was))
  }

  /** A notification is pending on an unraised pair only if a clear is about to drain it, or it came late. */
  ghost predicate Explained(s: State, late: bool) {
    && (forall p :: p in s.pending ==>
          s.installed == Some(p) && (s.raised || s.signal.Cleared? || s.signal.Clearing? || late))
    && (late ==> !s.raised && s.signal.Quiet? && s.installed.Some? && s.installed.value in s.pending)
  }

  lemma ExplainedKept(s: State, e: Step, late: bool)
    requires Inv(s) && Explained(s, late) && Enabled(s, e)
    ensures Explained(Next(s, e), LateAfter(s, e, late))
  {
    hide PairsCovered, CarriersDistinct, Notified;
  }

  lemma {:induction false} RunExplained(s: State, es: seq<Step>, t: State, late: bool)
    requires Inv(s) && Explained(s, late) && Run(s, es, t)
    ensures Inv(t) && Explained(t, Late(s, es, t, late))
    decreases |es|
  {
    hide PairsCovered, CarriersDistinct, CallsAgree, Notified, Next, Enabled, Explained, LateAfter;
    if es != [] {
      DistinctKept(s, es[0]);
      PairsKept(s, es[0]);
      CallsAgreeKept(s, es[0]);
      NotifiedKept(s, es[0]);
      ExplainedKept(s, es[0], late);
      RunExplained(Next(s, es[0]), es[1..], t, LateAfter(s, es[0], late));
    }
  }

  /** At rest the installed pair is readable exactly when the pollable is raised or the run left a late notification. */
  lemma ReadableIff(s: State, es: seq<Step>, t: State)
    requires Init(s) && Run(s, es, t) && t.signal.Quiet? && t.calls == map[] && t.installed.Some?
    ensures t.installed.value in t.pending <==> LastRaised(es, false) || Late(s, es, t, false)
  {
    hide Run, Late, LastRaised;
    RaisedAsTold(s, es, t);
    InitInv(s);
    RunExplained(s, es, t, false);
  }

  lemma Then(s: State, e: Step, es: seq<Step>, t: State) returns (all: seq<Step>)
    requires Enabled(s, e) && Run(Next(s, e), es, t)
    ensures all == [e] + es && Run(s, all, t)
  {
    hide Next, Enabled;
    all := [e] + es;
    assert all[1..] == es;
  }

  lemma Stopped(s: State)
    ensures Run(s, [], s)
  {
  }

  /** One caller, alone, with at most one pair: enough to show a run. */
  ghost function Solo(raised: bool, installed: Option<nat>, made: nat, signal: Signal, calls: map<nat, Call>): State {
    State(raised, installed, made, {}, {}, signal, calls, map[])
  }

  lemma Rewritten(was: Call, now: Call)
    ensures map[0 := was][0 := now] == map[0 := now]
  {
  }

  lemma InstallWhileRaised(es: seq<Step>, t: State) returns (all: seq<Step>)
    requires Run(Solo(true, Some(0), 1, Quiet, map[0 := Notifying(0)]), es, t)
    ensures Run(Solo(true, None, 0, Quiet, map[]), all, t)
  {
    hide Run;
    Rewritten(Checking(0), Notifying(0));
    Rewritten(Installing(0), Checking(0));
    Rewritten(Opening, Installing(0));
    Rewritten(Looking, Opening);
    all := Then(Solo(true, Some(0), 1, Quiet, map[0 := Checking(0)]), Check(0), es, t);
    all := Then(Solo(true, None, 1, Quiet, map[0 := Installing(0)]), Install(0), all, t);
    all := Then(Solo(true, None, 0, Quiet, map[0 := Opening]), Open(0), all, t);
    all := Then(Solo(true, None, 0, Quiet, map[0 := Looking]), Look(0), all, t);
    all := Then(Solo(true, None, 0, Quiet, map[]), Ask(0), all, t);
  }

  /** A notification can outlive the clear: at rest the pair is readable, and nothing is raised. */
  lemma StaleNotice(s: State)
    requires Init(s)
    ensures exists es, t ::
              && Run(s, es, t) && t.signal.Quiet? && t.calls == map[]
              && t.installed == Some(0) && 0 in t.pending && !t.raised
  {
    hide Run;
    var late := map[0 := Notifying(0)];
    var t := Next(Solo(false, Some(0), 1, Quiet, late), Notify(0));
    Stopped(t);
    var es := Then(Solo(false, Some(0), 1, Quiet, late), Notify(0), [], t);
    assert {} - {0} == {};
    es := Then(Solo(false, Some(0), 1, Clearing(0), late), ClearDrain, es, t);
    es := Then(Solo(false, Some(0), 1, Cleared, late), ClearRead, es, t);
    es := Then(Solo(true, Some(0), 1, Quiet, late), ClearSwap, es, t);
    es := InstallWhileRaised(es, t);
    es := Then(Solo(true, None, 0, Raised, map[]), RaiseRead, es, t);
    es := Then(s, RaiseSwap, es, t);
    assert t.calls == map[];
  }
}
