/** The read flow: which tier a single read asks next, where it copies a hit, and
    how it ends. It knows tier numbers only; a driver performs the calls. */
module ReadFlow {
  import opened Tiers

  datatype Probe = Hit | Miss | Error

  datatype End = Found(tier: nat) | Absent | Inconclusive | Failed(tier: nat)

  datatype State = Probing(tier: nat) | Promoting(hit: nat, next: nat) | Over(end: End)

  /** The driver's next instruction. */
  datatype Instruction = GetFrom(tier: nat) | PromoteInto(tier: nat) | Done(end: End)

  function Start(tiers: nat): State {
    if tiers == 0 then Over(Absent) else Probing(0)
  }

  function Next(state: State): Instruction {
    match state
    case Probing(tier) => GetFrom(tier)
    case Promoting(_, next) => PromoteInto(next)
    case Over(end) => Done(end)
  }

  function Advance(tiers: nat, errors: nat, tier: nat): State {
    if tier + 1 < tiers then Probing(tier + 1)
    else if errors > 0 then Over(Inconclusive)
    else Over(Absent)
  }

  /** The state and error count after tier `tier` answered a probe. */
  function AfterProbe(tiers: nat, promote: Promote, onError: OnReadError, errors: nat, tier: nat, probe: Probe): (State, nat) {
    match probe
    case Hit => (if tier == 0 || promote.Never? then Over(Found(tier)) else Promoting(tier, 0), errors)
    case Miss => (Advance(tiers, errors, tier), errors)
    case Error =>
      if onError.FailFast? then (Over(Failed(tier)), errors)
      else (Advance(tiers, errors + 1, tier), errors + 1)
  }

  function AfterPromotion(promote: Promote, hit: nat, next: nat): State {
    if promote.TopOnly? || next + 1 == hit then Over(Found(hit)) else Promoting(hit, next + 1)
  }

  /** Distance to the end of the flow. */
  function Rank(tiers: nat, state: State): nat {
    match state
    case Probing(tier) => 1 + tiers + (if tier < tiers then tiers - tier else 0)
    case Promoting(hit, next) => 1 + (if next < hit then hit - next else 0)
    case Over(_) => 0
  }

  class ReadFlow {
    const tiers: nat
    const promote: Promote
    const onError: OnReadError
    var errors: nat
    var state: State

    /** No run of the flow leaves these states: probes stay within the tiers, and a
        promotion is always above the hit and never happens under `Never`. */
    ghost predicate Valid()
      reads this
    {
      match state
      case Probing(tier) => tier < tiers
      case Promoting(hit, next) => next < hit < tiers && !promote.Never? && (promote.TopOnly? ==> next == 0)
      case Over(Found(tier)) => tier < tiers
      case Over(_) => true
    }

    constructor (tiers: nat, promote: Promote, onError: OnReadError)
      ensures Valid() && state == Start(tiers) && errors == 0
      ensures this.tiers == tiers && this.promote == promote && this.onError == onError
    {
      this.tiers := tiers;
      this.promote := promote;
      this.onError := onError;
      errors := 0;
      state := Start(tiers);
    }

    method OnGet(probe: Probe)
      requires Valid() && state.Probing?
      modifies this
      ensures Valid()
      ensures Rank(tiers, state) < Rank(tiers, old(state))
      ensures (state, errors) == AfterProbe(tiers, promote, onError, old(errors), old(state).tier, probe)
    {
      var tier := state.tier;
      match probe {
        case Hit =>
          state := if tier == 0 || promote.Never? then Over(Found(tier)) else Promoting(tier, 0);
        case Miss =>
          state := Advance(tiers, errors, tier);
        case Error =>
          if onError.FailFast? {
            state := Over(Failed(tier));
          } else {
            errors := errors + 1;
            state := Advance(tiers, errors, tier);
          }
      }
    }

    method OnPromote()
      requires Valid() && state.Promoting?
      modifies this`state
      ensures Valid()
      ensures Rank(tiers, state) < Rank(tiers, old(state))
      ensures state == AfterPromotion(promote, old(state).hit, old(state).next)
    {
      var hit, next := state.hit, state.next;
      var done := false;
      match promote {
        case TopOnly => done := true;
        case AllAbove => done := next + 1 == hit;
        case Never => assert false;
      }
      state := if done then Over(Found(hit)) else Promoting(hit, next + 1);
    }
  }

  // ------------------------------------------------------------- whole flows

  /** The instructions a flow gives when tier `i` would answer `answers[i]`. */
  function Trace(promote: Promote, onError: OnReadError, answers: seq<Probe>, errors: nat, state: State): seq<Instruction>
    requires state.Probing? ==> state.tier < |answers|
    requires state.Promoting? ==> state.next < state.hit < |answers|
    decreases Rank(|answers|, state)
  {
    match state
    case Probing(tier) =>
      var (next, errors') := AfterProbe(|answers|, promote, onError, errors, tier, answers[tier]);
      [GetFrom(tier)] + Trace(promote, onError, answers, errors', next)
    case Promoting(hit, next) =>
      [PromoteInto(next)] + Trace(promote, onError, answers, errors, AfterPromotion(promote, hit, next))
    case Over(end) => [Done(end)]
  }

  /** Where a read stops probing: the first tier from `from` that hits, or the first
      that fails under fail-fast; the tier count if there is none. */
  function Stop(answers: seq<Probe>, onError: OnReadError, from: nat): (stop: nat)
    requires from <= |answers|
    ensures from <= stop <= |answers|
    decreases |answers| - from
  {
    if from == |answers| || answers[from].Hit? || (answers[from].Error? && onError.FailFast?) then from
    else Stop(answers, onError, from + 1)
  }

  function Gets(from: nat, to: nat): seq<Instruction>
    decreases if from < to then to - from else 0
  {
    if from >= to then [] else [GetFrom(from)] + Gets(from + 1, to)
  }

  function Promotes(from: nat, to: nat): seq<Instruction>
    decreases if from < to then to - from else 0
  {
    if from >= to then [] else [PromoteInto(from)] + Promotes(from + 1, to)
  }

  /** The whole promotion phase for a hit at `tier`, and how the read ends. */
  function Finish(promote: Promote, answers: seq<Probe>, failed: bool, stop: nat): seq<Instruction>
    requires stop <= |answers|
  {
    if stop == |answers| then [Done(if failed then Inconclusive else Absent)]
    else if answers[stop].Hit? then Promotes(0, Reach(promote, stop)) + [Done(Found(stop))]
    else [Done(Failed(stop))]
  }

  lemma {:induction false} PromotionTrace(promote: Promote, onError: OnReadError, answers: seq<Probe>, errors: nat, hit: nat, next: nat)
    requires next < Reach(promote, hit) && hit < |answers|
    ensures Trace(promote, onError, answers, errors, Promoting(hit, next)) == Promotes(next, Reach(promote, hit)) + [Done(Found(hit))]
    decreases hit - next
  {
    if next + 1 < Reach(promote, hit) {
      PromotionTrace(promote, onError, answers, errors, hit, next + 1);
    } else {
      assert Promotes(next, next + 1) == [PromoteInto(next)];
    }
  }

  /** Failed probes among tiers `from` up to `to`. */
  function Failures(answers: seq<Probe>, from: nat, to: nat): nat
    requires to <= |answers|
    decreases if from < to then to - from else 0
  {
    if from >= to then 0 else (if answers[from].Error? then 1 else 0) + Failures(answers, from + 1, to)
  }

  /** A read probes each tier at most once, in order, up to the first hit (or the
      first failure under fail-fast); then it promotes into exactly the top tier, or
      exactly all tiers above the hit, top first; and it reports an unconfirmed
      absence exactly when some probed tier failed. */
  lemma {:induction false} FlowTrace(promote: Promote, onError: OnReadError, answers: seq<Probe>, errors: nat, from: nat)
    requires from < |answers|
    ensures var stop := Stop(answers, onError, from);
      Trace(promote, onError, answers, errors, Probing(from)) ==
        Gets(from, if stop < |answers| then stop + 1 else stop)
        + Finish(promote, answers, errors + Failures(answers, from, stop) > 0, stop)
    decreases |answers| - from
  {
    var stop := Stop(answers, onError, from);
    if stop == from {
      StopTrace(promote, onError, answers, errors, from);
    } else {
      var errors' := if answers[from].Error? then errors + 1 else errors;
      if from + 1 < |answers| {
        FlowTrace(promote, onError, answers, errors', from + 1);
        var rest := Gets(from + 1, if stop < |answers| then stop + 1 else stop);
        var end := Finish(promote, answers, errors + Failures(answers, from, stop) > 0, stop);
        assert [GetFrom(from)] + (rest + end) == ([GetFrom(from)] + rest) + end;
      } else {
        assert Gets(from, from + 1) == [GetFrom(from)];
      }
    }
  }

  lemma {:induction false} StopTrace(promote: Promote, onError: OnReadError, answers: seq<Probe>, errors: nat, from: nat)
    requires from < |answers| && Stop(answers, onError, from) == from
    ensures Trace(promote, onError, answers, errors, Probing(from)) ==
      Gets(from, from + 1) + Finish(promote, answers, errors > 0, from)
  {
    assert Gets(from, from + 1) == [GetFrom(from)];
    if answers[from].Hit? && Reach(promote, from) > 0 {
      PromotionTrace(promote, onError, answers, errors, from, 0);
    }
  }
}
