/** Re-deriving a theme's standing from its member claims, appending only on change. */
module ThemeRefresh {
  import opened Options
  import opened EventLog
  import opened Evidence

  datatype ThemeStatus = EMERGING | ACTIVE | CONTESTED | DECLINING | STALE | MERGED | SPLIT | RESOLVED

  datatype Theme = Theme(version: int, status: ThemeStatus, basis: Basis)

  datatype NoteKind =
    | SOURCE_DIVERSITY_CHANGED | CONTRADICTION_ADDED | WENT_STALE | STRENGTHENED | WEAKENED | EVIDENCE_UPDATED

  datatype Event = Version(theme: Theme) | Note(kind: NoteKind, cause: int)

  /** A closed theme is not machine-reopened. */
  predicate IsClosed(s: ThemeStatus) {
    s == MERGED || s == SPLIT || s == RESOLVED
  }

  /** Independent origins promote a theme, not the number of claims. */
  function DeriveStatus(b: Basis): (s: ThemeStatus)
    ensures s == ACTIVE <==> |b.families| >= 2 && b.contradicting == [] && b.degraded < |b.supporting|
    ensures s == EMERGING <==> |b.families| < 2 && b.contradicting == [] && b.degraded < |b.supporting|
    ensures s == CONTESTED <==> b.contradicting != [] && b.degraded < |b.supporting|
    ensures s == STALE <==> |b.supporting| <= b.degraded
  {
    if |b.supporting| - b.degraded <= 0 then STALE
    else if b.contradicting != [] then CONTESTED
    else if |b.families| >= 2 then ACTIVE
    else EMERGING
  }

  function Refreshed(t: Theme, b: Basis): Theme {
    Theme(t.version + 1, DeriveStatus(b), b)
  }

  ghost predicate BasisOf(facts: seq<Fact>, t: Theme, b: Basis) {
    IsBasis(facts, t.basis.supporting, t.basis.contradicting, b)
  }

  predicate Unmoved(t: Theme, b: Basis) {
    !AnyChange(BasisChanged(t.basis, b)) && DeriveStatus(b) == t.status
  }

  lemma UnmovedMeans(t: Theme, b: Basis)
    ensures Unmoved(t, b) <==> SameReading(t.basis, b) && t.status == DeriveStatus(b)
  {
    NoChangeMeans(t.basis, b);
  }

  /** A refresh at this evidence would append nothing. */
  ghost predicate Settled(facts: seq<Fact>, t: Theme) {
    IsClosed(t.status) || exists b :: BasisOf(facts, t, b) && Unmoved(t, b)
  }

  lemma SettledIff(facts: seq<Fact>, t: Theme, b: Basis)
    requires BasisOf(facts, t, b)
    ensures Settled(facts, t) <==> IsClosed(t.status) || Unmoved(t, b)
  {
    forall c | BasisOf(facts, t, c) ensures c == b {
      BasisIsUnique(facts, t.basis.supporting, t.basis.contradicting, b, c);
    }
  }

  /** What a refresh leaves is settled: recomputing the basis from its own claims gives it back. */
  lemma RefreshedIsSettled(facts: seq<Fact>, t: Theme, b: Basis)
    requires BasisOf(facts, t, b)
    ensures Settled(facts, Refreshed(t, b))
  {
    BasisOfItsOwnClaims(facts, t.basis.supporting, t.basis.contradicting, b);
    assert BasisOf(facts, Refreshed(t, b), b) && Unmoved(Refreshed(t, b), b);
  }

  function NoteOf(s: ThemeStatus): NoteKind {
    match s
    case CONTESTED => CONTRADICTION_ADDED
    case STALE => WENT_STALE
    case ACTIVE => STRENGTHENED
    case _ => WEAKENED
  }

  /** The transitions that say what a refresh changed. */
  function Notes(t: Theme, b: Basis): set<NoteKind> {
    (if t.basis.families != b.families then {SOURCE_DIVERSITY_CHANGED} else {})
    + (if DeriveStatus(b) != t.status then {NoteOf(DeriveStatus(b))} else {})
    + (if BasisChanged(t.basis, b).evidence && DeriveStatus(b) == t.status then {EVIDENCE_UPDATED} else {})
    + (if b.degraded > t.basis.degraded then {WEAKENED} else {})
  }

  lemma DueIsNoted(t: Theme, b: Basis)
    ensures forall k :: k in Notes(t, b) <==>
              || (t.basis.families != b.families && k == SOURCE_DIVERSITY_CHANGED)
              || (DeriveStatus(b) != t.status && k == NoteOf(DeriveStatus(b)))
              || (BasisChanged(t.basis, b).evidence && DeriveStatus(b) == t.status && k == EVIDENCE_UPDATED)
              || (b.degraded > t.basis.degraded && k == WEAKENED)
  {
  }

  lemma StatusNotesMean(t: Theme, b: Basis)
    ensures CONTRADICTION_ADDED in Notes(t, b) <==> t.status != CONTESTED && DeriveStatus(b) == CONTESTED
    ensures WENT_STALE in Notes(t, b) <==> t.status != STALE && DeriveStatus(b) == STALE
    ensures STRENGTHENED in Notes(t, b) <==> t.status != ACTIVE && DeriveStatus(b) == ACTIVE
  {
    DueIsNoted(t, b);
  }

  lemma EvidenceNotesMean(t: Theme, b: Basis)
    ensures SOURCE_DIVERSITY_CHANGED in Notes(t, b) <==> t.basis.families != b.families
    ensures WEAKENED in Notes(t, b) <==>
              b.degraded > t.basis.degraded || (t.status != EMERGING && DeriveStatus(b) == EMERGING)
    ensures EVIDENCE_UPDATED in Notes(t, b) <==> t.status == DeriveStatus(b) && BasisChanged(t.basis, b).evidence
  {
    DueIsNoted(t, b);
  }

  /** Each kind of note, and what of the old theme and the new basis calls for it. */
  lemma NotesMean(t: Theme, b: Basis)
    ensures SOURCE_DIVERSITY_CHANGED in Notes(t, b) <==> t.basis.families != b.families
    ensures CONTRADICTION_ADDED in Notes(t, b) <==>
              t.status != CONTESTED && b.contradicting != [] && b.degraded < |b.supporting|
    ensures WENT_STALE in Notes(t, b) <==> t.status != STALE && |b.supporting| <= b.degraded
    ensures STRENGTHENED in Notes(t, b) <==>
              t.status != ACTIVE && |b.families| >= 2 && b.contradicting == [] && b.degraded < |b.supporting|
    ensures WEAKENED in Notes(t, b) <==>
              || b.degraded > t.basis.degraded
              || (t.status != EMERGING && |b.families| < 2 && b.contradicting == [] && b.degraded < |b.supporting|)
    ensures EVIDENCE_UPDATED in Notes(t, b) <==>
              && t.status == DeriveStatus(b)
              && (t.basis.observations != b.observations || t.basis.latest != b.latest)
  {
    StatusNotesMean(t, b);
    EvidenceNotesMean(t, b);
  }

  // ---------------------------------------------------------------- what an interrupted refresh leaves undone

  /** A theme's current version and everything recorded about it. */
  datatype State = State(theme: Theme, events: seq<Event>)

  /** The events are those before, the new version, and the notes it calls for, each once per cause. */
  ghost predicate Noted(before: State, after: State, b: Basis, cause: int) {
    forall e :: e in after.events <==>
      (e in before.events || e == Version(after.theme)
        || (e.Note? && e.cause == cause && e.kind in Notes(before.theme, b)))
  }

  /** One call of `refresh_theme` that ran to its end. */
  ghost predicate RefreshStep(facts: seq<Fact>, before: State, after: State, cause: int) {
    if Settled(facts, before.theme) then after == before
    else
      exists b ::
        && BasisOf(facts, before.theme, b) && after.theme == Refreshed(before.theme, b)
        && Noted(before, after, b, cause)
  }

  /** Any number of refreshes, each at the evidence of its time, whatever caused them. */
  ghost predicate Refreshes(evidence: seq<seq<Fact>>, states: seq<State>, causes: seq<int>) {
    && |states| == |causes| + 1 && |evidence| == |causes|
    && forall i :: 0 <= i < |causes| ==> RefreshStep(evidence[i], states[i], states[i + 1], causes[i])
  }

  /** A refresh of this theme at this evidence has this to note. */
  ghost predicate CallsFor(facts: seq<Fact>, t: Theme, kind: NoteKind) {
    !Settled(facts, t) && exists b :: BasisOf(facts, t, b) && kind in Notes(t, b)
  }

  /** Some one of the first `n` refreshes has this to note, for this cause. */
  ghost predicate CalledFor(
      evidence: seq<seq<Fact>>, states: seq<State>, causes: seq<int>, kind: NoteKind, cause: int, n: nat)
    requires n <= |evidence| == |causes| && n <= |states|
  {
    exists i :: 0 <= i < n && causes[i] == cause && CallsFor(evidence[i], states[i].theme, kind)
  }

  lemma StepNotesWhatItCallsFor(facts: seq<Fact>, before: State, after: State, cause: int, kind: NoteKind, other: int)
    requires RefreshStep(facts, before, after, cause)
    ensures Note(kind, other) in after.events <==>
              Note(kind, other) in before.events || (other == cause && CallsFor(facts, before.theme, kind))
  {
    if !Settled(facts, before.theme) {
      var b :| BasisOf(facts, before.theme, b) && after.theme == Refreshed(before.theme, b)
               && Noted(before, after, b, cause);
      forall c | BasisOf(facts, before.theme, c) ensures c == b {
        BasisIsUnique(facts, before.theme.basis.supporting, before.theme.basis.contradicting, b, c);
      }
    }
  }

  /** However the evidence moves, a note is on record exactly if it was, or a refresh with its cause called for it. */
  lemma {:induction false} NotedIffCalledFor(
      evidence: seq<seq<Fact>>, states: seq<State>, causes: seq<int>, kind: NoteKind, cause: int, n: nat)
    requires Refreshes(evidence, states, causes) && n <= |causes|
    ensures Note(kind, cause) in states[n].events <==>
              Note(kind, cause) in states[0].events || CalledFor(evidence, states, causes, kind, cause, n)
  {
    if n > 0 {
      NotedIffCalledFor(evidence, states, causes, kind, cause, n - 1);
      StepNotesWhatItCallsFor(evidence[n - 1], states[n - 1], states[n], causes[n - 1], kind, cause);
    }
  }

  /** No evidence arrives. */
  predicate Frozen(evidence: seq<seq<Fact>>, facts: seq<Fact>) {
    forall i :: 0 <= i < |evidence| ==> evidence[i] == facts
  }

  lemma {:induction false} SettledStaysTheSame(
      facts: seq<Fact>, evidence: seq<seq<Fact>>, states: seq<State>, causes: seq<int>, n: nat)
    requires Refreshes(evidence, states, causes) && Frozen(evidence, facts) && n <= |causes|
    requires Settled(facts, states[0].theme)
    ensures states[n] == states[0]
  {
    if n > 0 {
      SettledStaysTheSame(facts, evidence, states, causes, n - 1);
      assert RefreshStep(evidence[n - 1], states[n - 1], states[n], causes[n - 1]);
    }
  }

  /**
   * The version lands before its notes, and whatever notes a refresh still owed when it was interrupted are not made
   * up for. A note is on record afterwards exactly if it was at the crash or a later refresh with its cause itself
   * calls for it; at the same evidence none does, and the refreshes append nothing.
   */
  lemma InterruptedRefreshIsNotCompleted(facts: seq<Fact>, before: State, b: Basis, evidence: seq<seq<Fact>>,
        states: seq<State>, causes: seq<int>)
    requires BasisOf(facts, before.theme, b) && !Settled(facts, before.theme)
    requires Refreshes(evidence, states, causes) && states[0].theme == Refreshed(before.theme, b)
    ensures forall kind, cause ::
              Note(kind, cause) in states[|causes|].events <==>
                (Note(kind, cause) in states[0].events || CalledFor(evidence, states, causes, kind, cause, |causes|))
    ensures Frozen(evidence, facts) ==> states[|causes|] == states[0]
    ensures states[0].events == before.events + [Version(states[0].theme)] ==>
              forall kind, cause :: Note(kind, cause) in states[0].events <==> Note(kind, cause) in before.events
  {
    forall kind, cause
      ensures Note(kind, cause) in states[|causes|].events <==>
                (Note(kind, cause) in states[0].events || CalledFor(evidence, states, causes, kind, cause, |causes|))
    {
      NotedIffCalledFor(evidence, states, causes, kind, cause, |causes|);
    }
    if Frozen(evidence, facts) {
      RefreshedIsSettled(facts, before.theme, b);
      SettledStaysTheSame(facts, evidence, states, causes, |causes|);
    }
  }

  // ---------------------------------------------------------------- the engine

  class ThemeEngine {
    var theme: Theme
    var events: seq<Event>

    constructor (initial: Theme)
      ensures theme == initial && events == [Version(initial)]
    {
      theme, events := initial, [Version(initial)];
    }

    /** One typed transition, once per cause, if it is due. */
    method RecordNote(due: bool, kind: NoteKind, cause: int)
      modifies this`events
      ensures old(events) <= events
      ensures forall e :: e in events <==> e in old(events) || (due && e == Note(kind, cause))
    {
      if due && Note(kind, cause) !in events { events := events + [Note(kind, cause)]; }
    }

    method RecordNotes(before: Theme, b: Basis, cause: int)
      modifies this`events
      ensures old(events) <= events
      ensures forall e :: e in events <==>
                e in old(events) || (e.Note? && e.cause == cause && e.kind in Notes(before, b))
    {
      ghost var start := events;
      var status := DeriveStatus(b);
      RecordNote(before.basis.families != b.families, SOURCE_DIVERSITY_CHANGED, cause);
      RecordNote(status != before.status, NoteOf(status), cause);
      ghost var half := events;
      assert start <= half;
      RecordNote(BasisChanged(before.basis, b).evidence && status == before.status, EVIDENCE_UPDATED, cause);
      RecordNote(b.degraded > before.basis.degraded, WEAKENED, cause);
      assert start <= half <= events;
      DueIsNoted(before, b);
    }

    /**
     * A closed theme is left alone, and so is one whose claims, families, degraded support, evidence and status all
     * read as before; any other gets the version that says what the evidence now is. A second refresh at the same
     * evidence appends nothing.
     */
    method RefreshTheme(facts: seq<Fact>, cause: int)
      modifies this
      ensures Settled(facts, theme) && old(events) <= events
      ensures Settled(facts, old(theme)) ==> theme == old(theme) && events == old(events)
      ensures RefreshStep(facts, State(old(theme), old(events)), State(theme, events), cause)
      ensures old(theme).status == MERGED || old(theme).status == SPLIT || old(theme).status == RESOLVED ==>
              theme == old(theme) && events == old(events)
      ensures old(theme).status != MERGED && old(theme).status != SPLIT && old(theme).status != RESOLVED ==>
              exists b :: IsBasis(facts, old(theme).basis.supporting, old(theme).basis.contradicting, b)
                && theme == if SameReading(old(theme).basis, b) && old(theme).status == DeriveStatus(b) then old(theme)
                            else Theme(old(theme).version + 1, DeriveStatus(b), b)
    {
      if IsClosed(theme.status) { return; }
      ghost var start := State(theme, events);
      var before := theme;
      var b := ComputeBasis(facts, theme.basis.supporting, theme.basis.contradicting);
      SettledIff(facts, before, b);
      UnmovedMeans(before, b);
      if Unmoved(before, b) { return; }
      theme := Refreshed(before, b);
      events := events + [Version(theme)];
      RefreshedIsSettled(facts, before, b);
      RecordNotes(before, b, cause);
      assert Noted(start, State(theme, events), b, cause);
    }
  }
}
