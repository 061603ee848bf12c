/**
  The dark-node escalation ladder: the state kept in an issue's comments, the fold that
  reads it back, and the pure decision taken for one node that is still dark.
 */
module DarkLadder {
  import opened Common

  /** A timestamp field: missing, text that is not a timestamp, or an instant in minutes. */
  datatype Stamp = NoStamp | Unreadable(text: string) | At(instant: real)

  /** Why a reinstall was refused; the quorum message varies only with these two numbers. */
  datatype Reason = NotControlPlane | QuorumTooSmall(otherReady: int, needed: int) | OtherText(text: string)

  datatype LadderState = LadderState(
    attempts: int,
    lastRebootAt: Stamp,
    escalated: bool,
    escalatedAt: Stamp,
    refusedReason: Option<Reason>)

  const DEFAULT_STATE := LadderState(0, NoStamp, false, NoStamp, None)

  /** The JSON object inside a state marker: any subset of the keys. */
  datatype Update = Update(
    attempts: Option<int>,
    lastRebootAt: Option<Stamp>,
    escalated: Option<bool>,
    escalatedAt: Option<Stamp>,
    refusedReason: Option<Option<Reason>>)

  /** What a comment says about the ladder. A marker whose text is not a JSON object is Garbled. */
  datatype StateMark = NoMark | Garbled | Mark(update: Update)

  function Pick<T>(o: Option<T>, previous: T): T {
    if o.Some? then o.value else previous
  }

  function Merge(s: LadderState, u: Update): LadderState {
    LadderState(Pick(u.attempts, s.attempts), Pick(u.lastRebootAt, s.lastRebootAt),
                Pick(u.escalated, s.escalated), Pick(u.escalatedAt, s.escalatedAt),
                Pick(u.refusedReason, s.refusedReason))
  }

  function Render(s: LadderState): StateMark {
    Mark(Update(Some(s.attempts), Some(s.lastRebootAt), Some(s.escalated),
                Some(s.escalatedAt), Some(s.refusedReason)))
  }

  function ApplyMark(s: LadderState, m: StateMark): LadderState {
    if m.Mark? then Merge(s, m.update) else s
  }

  /** The state read from a thread, comments oldest first. */
  function Fold(s: LadderState, marks: seq<StateMark>): LadderState {
    if marks == [] then s else ApplyMark(Fold(s, Front(marks)), Last(marks))
  }

  /** Folding a thread is folding its first part and going on with the rest. */
  lemma {:induction false} FoldConcat(s: LadderState, a: seq<StateMark>, b: seq<StateMark>)
    ensures Fold(s, a + b) == Fold(Fold(s, a), b)
  {
    if b == [] {
      assert a + b == a;
    } else {
      assert Front(a + b) == a + Front(b);
      FoldConcat(s, a, Front(b));
    }
  }

  /** Comments without a readable marker never matter, wherever they stand. */
  lemma {:induction false} FoldIgnoresChatter(s: LadderState, a: seq<StateMark>, noise: seq<StateMark>,
                                              b: seq<StateMark>)
    requires forall i :: 0 <= i < |noise| ==> !noise[i].Mark?
    ensures Fold(s, a + noise + b) == Fold(s, a + b)
  {
    FoldConcat(s, a + noise, b);
    FoldConcat(s, a, noise);
    FoldConcat(s, a, b);
    FoldNoise(Fold(s, a), noise);
  }

  lemma {:induction false} FoldNoise(s: LadderState, noise: seq<StateMark>)
    requires forall i :: 0 <= i < |noise| ==> !noise[i].Mark?
    ensures Fold(s, noise) == s
  {
    if noise != [] {
      FoldNoise(s, Front(noise));
    }
  }

  /** A rendered state overwrites everything written before it. */
  lemma RenderThenRead(s: LadderState, marks: seq<StateMark>, state: LadderState)
    ensures Fold(s, marks + [Render(state)]) == state
  {
    Snoc(marks, Render(state));
  }

  /** The last of the options that is given, or the default when none is. */
  predicate LastGiven<T(==)>(value: T, otherwise: T, given: seq<Option<T>>) {
    || (value == otherwise && NoneFrom(given, 0))
    || exists i :: 0 <= i < |given| && given[i] == Some(value) && NoneFrom(given, i + 1)
  }

  predicate NoneFrom<T>(given: seq<Option<T>>, start: nat) {
    forall j :: start <= j < |given| ==> given[j].None?
  }

  /** What the readable markers of a thread give for one key. */
  function Given<T>(marks: seq<StateMark>, key: Update -> Option<T>): seq<Option<T>> {
    seq(|marks|, i requires 0 <= i < |marks| => if marks[i].Mark? then key(marks[i].update) else None)
  }

  lemma GivenNext<T(!new)>(value: T, otherwise: T, marks: seq<StateMark>, key: Update -> Option<T>)
    requires marks != [] && LastGiven(value, otherwise, Given(Front(marks), key))
    ensures LastGiven(if Last(marks).Mark? then Pick(key(Last(marks).update), value) else value, otherwise,
                      Given(marks, key))
  {
    var front, all := Given(Front(marks), key), Given(marks, key);
    assert all == front + [if Last(marks).Mark? then key(Last(marks).update) else None];
    if all[|all| - 1].Some? {
      assert NoneFrom(all, |all|);
    } else if value == otherwise && NoneFrom(front, 0) {
      assert NoneFrom(all, 0);
    } else {
      var i :| 0 <= i < |front| && front[i] == Some(value) && NoneFrom(front, i + 1);
      assert all[i] == Some(value) && NoneFrom(all, i + 1);
    }
  }

  /** Every key of the state has the value of the last marker that gives it, or its old value when none does. */
  predicate EachLastGiven(t: LadderState, s: LadderState, marks: seq<StateMark>) {
    && LastGiven(t.attempts, s.attempts, Given(marks, (u: Update) => u.attempts))
    && LastGiven(t.lastRebootAt, s.lastRebootAt, Given(marks, (u: Update) => u.lastRebootAt))
    && LastGiven(t.escalated, s.escalated, Given(marks, (u: Update) => u.escalated))
    && LastGiven(t.escalatedAt, s.escalatedAt, Given(marks, (u: Update) => u.escalatedAt))
    && LastGiven(t.refusedReason, s.refusedReason, Given(marks, (u: Update) => u.refusedReason))
  }

  lemma {:induction false} FoldKeepsLastGiven(s: LadderState, marks: seq<StateMark>)
    ensures EachLastGiven(Fold(s, marks), s, marks)
  {
    if marks != [] {
      var t := Fold(s, Front(marks));
      FoldKeepsLastGiven(s, Front(marks));
      GivenNext(t.attempts, s.attempts, marks, (u: Update) => u.attempts);
      GivenNext(t.lastRebootAt, s.lastRebootAt, marks, (u: Update) => u.lastRebootAt);
      GivenNext(t.escalated, s.escalated, marks, (u: Update) => u.escalated);
      GivenNext(t.escalatedAt, s.escalatedAt, marks, (u: Update) => u.escalatedAt);
      GivenNext(t.refusedReason, s.refusedReason, marks, (u: Update) => u.refusedReason);
    }
  }

  method ParseDarkNodeState(marks: seq<StateMark>) returns (state: LadderState)
    ensures state == Fold(DEFAULT_STATE, marks)
  {
    state := DEFAULT_STATE;
    for i := 0 to |marks|
      invariant state == Fold(DEFAULT_STATE, marks[..i])
    {
      assert Front(marks[..i + 1]) == marks[..i];
      if marks[i].Mark? {
        state := Merge(state, marks[i].update);
      }
    }
    assert marks[..|marks|] == marks;
  }

  datatype LadderConfig = LadderConfig(
    enabled: bool,
    autoRestart: bool,
    maxAttempts: int,
    cooldown: real,
    escalateAfter: real,
    autoReinstall: bool,
    minOtherReady: int)

  /** The facts of a dark-node finding that the decision reads. */
  datatype DarkFacts = DarkFacts(
    node: string,
    unknownMinutes: real,
    controlPlane: bool,
    etcdVoter: bool,
    otherReady: int)

  datatype Action = Stay | Reboot | Reinstall | RefuseQuorum | RefuseElastic

  datatype Decision = Decision(action: Action, state: LadderState)

  predicate CoolingDown(state: LadderState, cfg: LadderConfig, now: real) {
    state.lastRebootAt.At? && now - state.lastRebootAt.instant < cfg.cooldown
  }

  predicate QuorumAtRisk(facts: DarkFacts, cfg: LadderConfig) {
    facts.etcdVoter && facts.otherReady < cfg.minOtherReady
  }

  function Refuse(action: Action, reason: Reason, state: LadderState): Decision {
    if state.refusedReason == Some(reason) then Decision(Stay, state)
    else Decision(action, state.(refusedReason := Some(reason)))
  }

  function Decide(facts: DarkFacts, state: LadderState, cfg: LadderConfig, now: real): Decision {
    if !cfg.enabled || state.escalated || !cfg.autoRestart then
      Decision(Stay, state)
    else if state.attempts < cfg.maxAttempts then
      if CoolingDown(state, cfg, now) then Decision(Stay, state)
      else Decision(Reboot, state.(attempts := state.attempts + 1, lastRebootAt := At(now), refusedReason := None))
    else if facts.unknownMinutes < cfg.escalateAfter || !cfg.autoReinstall then
      Decision(Stay, state)
    else if !facts.controlPlane then
      Refuse(RefuseElastic, NotControlPlane, state)
    else if QuorumAtRisk(facts, cfg) then
      Refuse(RefuseQuorum, QuorumTooSmall(facts.otherReady, cfg.minOtherReady), state)
    else
      Decision(Reinstall, state.(escalated := true, escalatedAt := At(now), refusedReason := None))
  }

  /**
    "Stay" writes no comment. Nothing is lost by that: the state it carries is the state
    it was given, so an unwritten "stay" and a written one read back the same.
   */
  lemma StayLosesNothing(facts: DarkFacts, marks: seq<StateMark>, cfg: LadderConfig, now: real)
    requires Decide(facts, Fold(DEFAULT_STATE, marks), cfg, now).action == Stay
    ensures Fold(DEFAULT_STATE, marks + [Render(Decide(facts, Fold(DEFAULT_STATE, marks), cfg, now).state)])
            == Fold(DEFAULT_STATE, marks)
  {
    RenderThenRead(DEFAULT_STATE, marks, Decide(facts, Fold(DEFAULT_STATE, marks), cfg, now).state);
  }

  // ---- Termination of the ladder ----

  /** One look at a node that stays dark: what was seen and when. */
  datatype Look = Look(facts: DarkFacts, at: real)

  /** The state after a sequence of looks, each recorded. */
  function Climb(state: LadderState, looks: seq<Look>, cfg: LadderConfig): LadderState {
    if looks == [] then state
    else Decide(Last(looks).facts, Climb(state, Front(looks), cfg), cfg, Last(looks).at).state
  }

  predicate Armed(cfg: LadderConfig) {
    cfg.enabled && cfg.autoRestart && cfg.autoReinstall
  }

  /** Nothing is left to do by machine: escalated, or out of reboots with a refusal on record. */
  predicate AtTop(state: LadderState, cfg: LadderConfig) {
    state.escalated || (state.attempts >= cfg.maxAttempts && state.refusedReason.Some?)
  }

  function LeftToClimb(state: LadderState, cfg: LadderConfig): nat {
    if AtTop(state, cfg) then 0 else 1 + Max(0, cfg.maxAttempts - state.attempts)
  }

  /**
    Every rested look at a node dark past the threshold strictly shortens the way up;
    the top is never left again, and escalation is absorbing.
   */
  lemma LookShortensLadder(facts: DarkFacts, state: LadderState, cfg: LadderConfig, at: real)
    requires Armed(cfg) && !CoolingDown(state, cfg, at) && facts.unknownMinutes >= cfg.escalateAfter
    ensures var next := Decide(facts, state, cfg, at).state;
            && (AtTop(state, cfg) ==> AtTop(next, cfg))
            && (state.escalated ==> next == state)
            && (!AtTop(state, cfg) ==> LeftToClimb(next, cfg) < LeftToClimb(state, cfg))
  {
  }

  /** The looks are a cooldown apart, and the first is a cooldown after any recorded reboot. */
  predicate Spaced(state: LadderState, looks: seq<Look>, cfg: LadderConfig) {
    && (forall i, j :: 0 <= i < j < |looks| ==> looks[j].at - looks[i].at >= cfg.cooldown)
    && (forall i :: 0 <= i < |looks| ==> !CoolingDown(state, cfg, looks[i].at))
  }

  predicate AllLongDark(looks: seq<Look>, cfg: LadderConfig) {
    forall i :: 0 <= i < |looks| ==> looks[i].facts.unknownMinutes >= cfg.escalateAfter
  }

  /** The recorded reboot time is the one the climb began with or the time of some look. */
  lemma {:induction false} RebootTimeIsALook(state: LadderState, looks: seq<Look>, cfg: LadderConfig)
    ensures var last := Climb(state, looks, cfg).lastRebootAt;
            last == state.lastRebootAt || exists i :: 0 <= i < |looks| && last == At(looks[i].at)
  {
    if looks != [] {
      RebootTimeIsALook(state, Front(looks), cfg);
      if Climb(state, looks, cfg).lastRebootAt != Climb(state, Front(looks), cfg).lastRebootAt {
        assert Climb(state, looks, cfg).lastRebootAt == At(looks[|looks| - 1].at);
      } else if Climb(state, Front(looks), cfg).lastRebootAt != state.lastRebootAt {
        var i :| 0 <= i < |looks| - 1 && Climb(state, Front(looks), cfg).lastRebootAt == At(Front(looks)[i].at);
        assert Climb(state, looks, cfg).lastRebootAt == At(looks[i].at);
      }
    }
  }

  /** A node that stays dark is at the top after at most one look per reboot left, plus one. */
  lemma {:induction false} ClimbEnds(state: LadderState, looks: seq<Look>, cfg: LadderConfig)
    requires Armed(cfg) && Spaced(state, looks, cfg) && AllLongDark(looks, cfg)
    ensures LeftToClimb(Climb(state, looks, cfg), cfg) <= Max(0, LeftToClimb(state, cfg) - |looks|)
    ensures |looks| >= Max(0, cfg.maxAttempts - state.attempts) + 1 ==> AtTop(Climb(state, looks, cfg), cfg)
  {
    if looks != [] {
      var before, look := Front(looks), Last(looks);
      ClimbEnds(state, before, cfg);
      RebootTimeIsALook(state, before, cfg);
      assert !CoolingDown(Climb(state, before, cfg), cfg, look.at);
      LookShortensLadder(look.facts, Climb(state, before, cfg), cfg, look.at);
    }
  }
}
