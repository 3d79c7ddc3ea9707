/** What replication keeps over every import and every delivery schedule. */
module ReplicationRuns {
  import opened JsonRecords
  import opened Replication

  function Min(a: nat, b: nat): nat { if a <= b then a else b }

  /** The bundle is what a valid store with log `source` cuts from position `b.manifest.baseSeq`. */
  predicate HonestCut(source: seq<Event>, held: set<string>, b: Bundle) {
    && ValidLog(source)
    && (forall p :: p in held ==> IsDigest(p))
    && 0 <= b.manifest.baseSeq <= |source|
    && IsCut(source, held, b.manifest.baseSeq, b)
  }

  /** The two histories are the same wherever both exist. */
  predicate Agree(a: seq<Event>, b: seq<Event>, n: nat) {
    n <= |a| && n <= |b| && a[..n] == b[..n]
  }

  // ---------------------------------------------------------------- divergence is detected exactly

  lemma HashesAgree(a: seq<Event>, b: seq<Event>, n: nat)
    requires ValidLog(a) && ValidLog(b) && n <= |a| && n <= |b|
    ensures HashAt(a, n) == HashAt(b, n) <==> Agree(a, b, n)
  {
    if HashAt(a, n) == HashAt(b, n) {
      EqualHashesForceEqualPrefixes(a, b, n);
    }
    if n > 0 && Agree(a, b, n) {
      assert a[n - 1] == a[..n][n - 1];
      assert b[n - 1] == b[..n][n - 1];
    }
  }

  lemma SequenceNumbers(log: seq<Event>)
    requires ValidLog(log)
    ensures forall i :: 0 <= i < |log| ==> log[i].seqNo == 1 + i
  {
    forall i | 0 <= i < |log| ensures log[i].seqNo == 1 + i {
      assert LinkedAt(0, Genesis, log, i);
    }
  }

  lemma AgreeingOverlap(target: seq<Event>, source: seq<Event>, base: nat, i: nat)
    requires ValidLog(source) && base <= |source| && i < |source| - base
    requires Agree(target, source, Min(|target|, |source|))
    ensures OverlapAgrees(target, source[base..], i)
  {
    var m := Min(|target|, |source|);
    SequenceNumbers(source);
    if base + i < |target| {
      assert target[base + i] == target[..m][base + i];
      assert source[base + i] == source[..m][base + i];
    }
  }

  lemma DifferingOverlap(target: seq<Event>, source: seq<Event>, base: nat)
    requires ValidLog(target) && ValidLog(source) && base < |target| && base < |source|
    requires !Agree(target, source, Min(|target|, |source|))
    ensures !OverlapAgrees(target, source[base..], Min(|target|, |source|) - 1 - base)
  {
    var m := Min(|target|, |source|);
    SequenceNumbers(source);
    HashesAgree(target, source, m);
    assert source[base..][m - 1 - base] == source[m - 1];
  }

  /** Against the source's tail, the overlap check fails at some event exactly when the common histories differ. */
  lemma OverlapExact(target: seq<Event>, source: seq<Event>, base: nat)
    requires ValidLog(target) && ValidLog(source) && base <= |source|
    requires base <= |target| && Agree(target, source, base)
    ensures (forall i :: 0 <= i < |source| - base ==> OverlapAgrees(target, source[base..], i))
            <==> Agree(target, source, Min(|target|, |source|))
  {
    if Agree(target, source, Min(|target|, |source|)) {
      forall i | 0 <= i < |source| - base ensures OverlapAgrees(target, source[base..], i) {
        AgreeingOverlap(target, source, base, i);
      }
    } else {
      DifferingOverlap(target, source, base);
    }
  }

  lemma SinceTail(source: seq<Event>, base: nat, n: nat)
    requires forall i :: 0 <= i < |source| ==> source[i].seqNo == 1 + i
    requires base <= |source| && base <= n
    ensures Since(source[base..], n) == if n < |source| then source[n..] else []
  {
    var tail := source[base..];
    if n <= |source| {
      SinceIsSuffix(tail, n, base);
      assert tail[n - base..] == source[n..];
    } else {
      SinceNothing(tail, n);
    }
  }

  lemma SuffixOfCut(target: seq<Event>, source: seq<Event>, held: set<string>, b: Bundle)
    requires HonestCut(source, held, b) && b.manifest.baseSeq <= |target|
    ensures Suffix(target, b) == if |target| < |source| then source[|target|..] else []
  {
    SequenceNumbers(source);
    SinceTail(source, b.manifest.baseSeq, |target|);
  }

  lemma {:induction false} SinceNothing(events: seq<Event>, base: int)
    requires forall i :: 0 <= i < |events| ==> events[i].seqNo <= base
    ensures Since(events, base) == []
  {
    if events != [] { SinceNothing(events[1..], base); }
  }

  /** An honest bundle that the target cannot connect to is refused, and says why. */
  lemma ImportWithoutBase(target: seq<Event>, source: seq<Event>, held: set<string>, b: Bundle)
    requires ValidLog(target) && HonestCut(source, held, b)
    requires !(b.manifest.baseSeq <= |target| && Agree(target, source, b.manifest.baseSeq))
    ensures ImportOutcome(target, b) == (if |target| < b.manifest.baseSeq then MissingBase else WrongBase)
  {
    var base := b.manifest.baseSeq;
    CutVerifies(source, held, base, b);
    if base <= |target| { HashesAgree(target, source, base); }
  }

  /** What connecting to the base leaves to be decided by the overlap and the store. */
  lemma ImportWithBase(target: seq<Event>, source: seq<Event>, held: set<string>, b: Bundle)
    requires ValidLog(target) && HonestCut(source, held, b)
    requires b.manifest.baseSeq <= |target| && Agree(target, source, b.manifest.baseSeq)
    ensures ImportOutcome(target, b) ==
            if !Agree(target, source, Min(|target|, |source|)) then DivergedOverlap
            else if !ValidLog(target + Suffix(target, b)) then StoreRefused
            else if Suffix(target, b) == [] then DuplicateDelta
            else Applied(|Suffix(target, b)|)
  {
    var base := b.manifest.baseSeq;
    CutVerifies(source, held, base, b);
    HashesAgree(target, source, base);
    OverlapExact(target, source, base);
  }

  lemma AgreeShorter(a: seq<Event>, b: seq<Event>, n: nat, m: nat)
    requires Agree(a, b, n) && m <= n
    ensures Agree(a, b, m)
  {
    assert a[..m] == a[..n][..m] && b[..m] == b[..n][..m];
  }

  lemma SuffixCompletes(target: seq<Event>, source: seq<Event>, held: set<string>, b: Bundle)
    requires HonestCut(source, held, b) && b.manifest.baseSeq <= |target|
             && Agree(target, source, Min(|target|, |source|))
    ensures |Suffix(target, b)| == if |target| < |source| then |source| - |target| else 0
    ensures target + Suffix(target, b) == if |target| < |source| then source else target
  {
    SuffixOfCut(target, source, held, b);
    if |target| < |source| {
      assert target == target[..|target|] == source[..|target|];
      assert source == source[..|target|] + source[|target|..];
    }
  }

  /** Where the whole common history is shared, the missing suffix makes the target the source. */
  lemma ImportOfShared(target: seq<Event>, source: seq<Event>, held: set<string>, b: Bundle)
    requires ValidLog(target) && HonestCut(source, held, b)
    requires b.manifest.baseSeq <= |target| && Agree(target, source, Min(|target|, |source|))
    ensures ImportOutcome(target, b) == (if |target| < |source| then Applied(|source| - |target|) else DuplicateDelta)
    ensures AfterImport(target, b) == (if |target| < |source| then source else target)
  {
    AgreeShorter(target, source, Min(|target|, |source|), b.manifest.baseSeq);
    ImportWithBase(target, source, held, b);
    SuffixCompletes(target, source, held, b);
  }

  /**
   * The receipt tells the truth: an honest bundle is taken (applied or recognised as a duplicate) exactly when
   * the target reaches its base and shares the whole common history, and then the target ends at the longer of
   * the two histories; each conflict names its own cause and leaves the log as it was.
   */
  lemma ImportIsExact(target: seq<Event>, source: seq<Event>, held: set<string>, b: Bundle)
    requires ValidLog(target) && HonestCut(source, held, b)
    ensures var base, m := b.manifest.baseSeq, Min(|target|, |source|);
            var outcome := ImportOutcome(target, b);
            && (outcome.MissingBase? <==> |target| < base)
            && (outcome.WrongBase? <==> base <= |target| && !Agree(target, source, base))
            && (outcome.DivergedOverlap? <==>
              base <= |target| && Agree(target, source, base) && !Agree(target, source, m))
            && (outcome.DuplicateDelta? <==> base <= |target| && Agree(target, source, m) && |source| <= |target|)
            && (outcome.Applied? <==> base <= |target| && Agree(target, source, m) && |target| < |source|)
            && AfterImport(target, b) == (if outcome.Applied? then source else target)
  {
    var base, m := b.manifest.baseSeq, Min(|target|, |source|);
    if base <= |target| && Agree(target, source, m) {
      AgreeShorter(target, source, m, base);
      ImportOfShared(target, source, held, b);
    } else if base <= |target| && Agree(target, source, base) {
      ImportWithBase(target, source, held, b);
    } else {
      ImportWithoutBase(target, source, held, b);
    }
  }

  // ---------------------------------------------------------------- any verified bundle, trusted or not

  lemma NumbersFromBase(events: seq<Event>, base: nat, prev: Hash)
    requires Chained(base, prev, events)
    ensures forall i :: 0 <= i < |events| ==> events[i].seqNo == base + 1 + i
  {
    forall i | 0 <= i < |events| ensures events[i].seqNo == base + 1 + i { assert LinkedAt(base, prev, events, i); }
  }

  lemma SinceFromBase(events: seq<Event>, base: nat, prev: Hash, n: nat)
    requires Chained(base, prev, events) && base <= n
    ensures Since(events, n) == if n < base + |events| then events[n - base..] else []
  {
    NumbersFromBase(events, base, prev);
    if n < base + |events| { SinceIsSuffix(events, n, base); } else { SinceNothing(events, n); }
  }

  lemma JoinAt(target: seq<Event>, events: seq<Event>, base: nat, i: nat)
    requires base <= |target| <= i < base + |events| && Chained(base, HashAt(target, base), events)
    requires forall k :: 0 <= k < |events| ==> OverlapAgrees(target, events, k)
    ensures LinkedAt(0, Genesis, target + events[|target| - base..], i)
  {
    var prev, j := HashAt(target, base), i - base;
    assert LinkedAt(base, prev, events, j);
    if i == |target| && j > 0 {
      assert LinkedAt(base, prev, events, j - 1);
      assert OverlapAgrees(target, events, j - 1);
    }
  }

  /** Two chains that meet where the first one ends, or before, run on as one. */
  lemma ChainsJoin(target: seq<Event>, events: seq<Event>, base: nat)
    requires Chained(0, Genesis, target) && base <= |target| && Chained(base, HashAt(target, base), events)
    requires forall i :: 0 <= i < |events| ==> OverlapAgrees(target, events, i)
    ensures Chained(0, Genesis, target + Since(events, |target|))
  {
    var log := target + Since(events, |target|);
    SinceFromBase(events, base, HashAt(target, base), |target|);
    forall i | 0 <= i < |log| ensures LinkedAt(0, Genesis, log, i) {
      if i < |target| {
        assert LinkedAt(0, Genesis, target, i);
      } else {
        JoinAt(target, events, base, i);
      }
    }
  }

  /** A bundle that connects to the target's history chains on to it: only times or versions can still refuse it. */
  lemma SuffixChains(target: seq<Event>, b: Bundle)
    requires ValidLog(target) && Verified(b) && b.manifest.baseSeq <= |target|
    requires HashAt(target, b.manifest.baseSeq) == b.manifest.baseHash
    requires forall i :: 0 <= i < |b.events| ==> OverlapAgrees(target, b.events, i)
    ensures Chained(0, Genesis, target + Suffix(target, b))
    ensures Suffix(target, b) == if |target| < b.manifest.endSeq then b.events[|target| - b.manifest.baseSeq..] else []
  {
    ChainsJoin(target, b.events, b.manifest.baseSeq);
    SinceFromBase(b.events, b.manifest.baseSeq, b.manifest.baseHash, |target|);
  }

  /** Once the suffix is appended, every event of the bundle is in the log at its own position. */
  lemma AfterCovers(target: seq<Event>, events: seq<Event>, base: nat)
    requires base <= |target| && Chained(base, HashAt(target, base), events)
    requires forall i :: 0 <= i < |events| ==> OverlapAgrees(target, events, i)
    ensures var after := target + Since(events, |target|);
            && HashAt(after, base) == HashAt(target, base)
            && (forall i :: 0 <= i < |events| ==> OverlapAgrees(after, events, i))
            && Since(events, |after|) == []
  {
    var n, after, prev := |target|, target + Since(events, |target|), HashAt(target, base);
    SinceFromBase(events, base, prev, n);
    NumbersFromBase(events, base, prev);
    forall i | 0 <= i < |events| ensures OverlapAgrees(after, events, i) {
      assert OverlapAgrees(target, events, i);
      if base + i >= n { assert after[base + i] == events[i]; }
    }
    SinceNothing(events, |after|);
  }

  /** Importing the same bundle a second time never appends anything, whoever cut it. */
  lemma ReimportIsDuplicate(target: seq<Event>, b: Bundle)
    requires ImportOutcome(target, b).Applied? || ImportOutcome(target, b).DuplicateDelta?
    ensures ImportOutcome(AfterImport(target, b), b) == DuplicateDelta
    ensures AfterImport(AfterImport(target, b), b) == AfterImport(target, b)
  {
    AfterCovers(target, b.events, b.manifest.baseSeq);
    var after := AfterImport(target, b);
    assert after + [] == after;
  }

  /** Whatever the bundle, a target keeps a valid log, never loses an event, and holds every declared payload. */
  lemma ImportKeepsTheStore(target: seq<Event>, held: set<string>, b: Bundle)
    requires ValidLog(target) && DeclaredBy(target) <= held
    ensures ValidLog(AfterImport(target, b)) && target <= AfterImport(target, b)
    ensures held <= HeldAfter(target, held, b)
    ensures DeclaredBy(AfterImport(target, b)) <= HeldAfter(target, held, b)
  {
    if ImportOutcome(target, b).Applied? {
      var suffix := Suffix(target, b);
      SinceIsPart(b.events, |target|);
      forall ref | ref in DeclaredBy(target + suffix) ensures ref in HeldAfter(target, held, b) {
        var e :| e in target + suffix && ref in Declared(e.record);
        if e in target {
          assert ref in DeclaredBy(target);
        } else {
          assert ref in DeclaredBy(suffix);
          DeclaredIsMentioned(suffix);
          assert e in b.events && ref in DeclaredBy(b.events);
        }
      }
    }
  }

  lemma {:induction false} SinceIsPart(events: seq<Event>, base: int)
    ensures forall e :: e in Since(events, base) ==> e in events
  {
    if events != [] { SinceIsPart(events[1..], base); }
  }

  // ---------------------------------------------------------------- delivery schedules

  datatype World = World(
    source: seq<Event>, sourceHeld: set<string>, target: seq<Event>, targetHeld: set<string>, sent: seq<Bundle>)

  /** The source appends or stores a payload, the source cuts a bundle, or the network delivers any bundle again. */
  datatype Step = Grow(e: Event) | Hold(payload: string) | Send(b: Bundle) | Deliver(i: nat)

  predicate Enabled(w: World, step: Step) {
    match step
    case Grow(e) => ValidLog(w.source + [e])
    case Hold(payload) => IsDigest(payload)
    case Send(b) => HonestCut(w.source, w.sourceHeld, b)
    case Deliver(i) => i < |w.sent|
  }

  function Next(w: World, step: Step): World
    requires Enabled(w, step)
  {
    match step
    case Grow(e) => w.(source := w.source + [e])
    case Hold(payload) => w.(sourceHeld := w.sourceHeld + {payload})
    case Send(b) => w.(sent := w.sent + [b])
    case Deliver(i) => w.(target := AfterImport(w.target, w.sent[i]),
      targetHeld := HeldAfter(w.target, w.targetHeld, w.sent[i]))
  }

  predicate Schedule(w: World, steps: seq<Step>)
    decreases |steps|
  {
    steps != [] ==> Enabled(w, steps[0]) && Schedule(Next(w, steps[0]), steps[1..])
  }

  function Run(w: World, steps: seq<Step>): World
    requires Schedule(w, steps)
    decreases |steps|
  {
    if steps == [] then w else Run(Next(w, steps[0]), steps[1..])
  }

  /** A sent bundle is a cut the source made at some earlier length. */
  ghost predicate SentEarlier(w: World, b: Bundle) {
    && 0 <= b.manifest.baseSeq <= b.manifest.endSeq <= |w.source|
    && exists held :: HonestCut(w.source[..b.manifest.endSeq], held, b)
  }

  ghost predicate SentAt(w: World, i: nat)
    requires i < |w.sent|
  {
    SentEarlier(w, w.sent[i])
  }

  ghost predicate Replicating(w: World) {
    && ValidLog(w.source)
    && (forall p :: p in w.sourceHeld ==> IsDigest(p))
    && w.target <= w.source
    && DeclaredBy(w.target) <= w.targetHeld
    && (forall i :: 0 <= i < |w.sent| ==>
          0 <= w.sent[i].manifest.baseSeq <= w.sent[i].manifest.endSeq <= |w.source|)
    && (forall i :: 0 <= i < |w.sent| ==> SentAt(w, i))
  }

  /** Importing an earlier cut into a prefix of the source extends it to the cut's end, if it reaches the cut's base. */
  lemma PrefixTakesCut(target: seq<Event>, source: seq<Event>, end: nat, held: set<string>, b: Bundle)
    requires ValidLog(source) && target <= source && end <= |source| && HonestCut(source[..end], held, b)
    ensures AfterImport(target, b) == if b.manifest.baseSeq <= |target| < end then source[..end] else target
    ensures ImportOutcome(target, b) in {MissingBase, DuplicateDelta} || ImportOutcome(target, b).Applied?
    ensures ImportOutcome(target, b).Applied? <==> b.manifest.baseSeq <= |target| < end
  {
    var cut, n := source[..end], |target|;
    ValidPrefix(source, n);
    assert target == source[..n];
    var m := Min(n, end);
    assert target[..m] == source[..m] == cut[..m];
    ImportIsExact(target, cut, held, b);
  }

  /** A delivery to a target that is a prefix of the source extends it to the bundle's end if it reaches its base. */
  lemma DeliveryExtends(w: World, i: nat)
    requires Replicating(w) && i < |w.sent|
    ensures var b := w.sent[i];
            && AfterImport(w.target, b) ==
                 (if b.manifest.baseSeq <= |w.target| < b.manifest.endSeq then w.source[..b.manifest.endSeq]
                   else w.target)
            && (ImportOutcome(w.target, b) in {MissingBase, DuplicateDelta} || ImportOutcome(w.target, b).Applied?)
            && (ImportOutcome(w.target, b).Applied? <==> b.manifest.baseSeq <= |w.target| < b.manifest.endSeq)
  {
    var b := w.sent[i];
    assert SentAt(w, i);
    var held :| HonestCut(w.source[..b.manifest.endSeq], held, b);
    PrefixTakesCut(w.target, w.source, b.manifest.endSeq, held, b);
  }

  lemma SentStays(w: World, later: World, i: nat)
    requires i < |w.sent| && SentAt(w, i) && w.sent <= later.sent && w.source <= later.source
    ensures SentAt(later, i)
  {
    var b := w.sent[i];
    assert later.sent[i] == b;
    assert later.source[..b.manifest.endSeq] == w.source[..b.manifest.endSeq];
  }

  lemma NewCutIsSent(w: World, b: Bundle)
    requires Enabled(w, Send(b))
    ensures var later := Next(w, Send(b)); SentAt(later, |w.sent|)
    ensures 0 <= b.manifest.baseSeq <= b.manifest.endSeq <= |w.source|
  {
    assert w.source[..|w.source|] == w.source;
  }

  lemma DeliverKeepsTarget(w: World, i: nat)
    requires Replicating(w) && i < |w.sent|
    ensures var later := Next(w, Deliver(i));
            && w.target <= later.target <= w.source && w.targetHeld <= later.targetHeld
            && DeclaredBy(later.target) <= later.targetHeld
  {
    DeliveryExtends(w, i);
    ValidPrefix(w.source, |w.target|);
    assert w.target == w.source[..|w.target|];
    ImportKeepsTheStore(w.target, w.targetHeld, w.sent[i]);
  }

  lemma SentAllStay(w: World, later: World)
    requires Replicating(w) && w.sent <= later.sent && w.source <= later.source
    ensures forall i :: 0 <= i < |w.sent| ==> SentAt(later, i)
  {
    forall i | 0 <= i < |w.sent| ensures SentAt(later, i) {
      assert SentAt(w, i);
      SentStays(w, later, i);
    }
  }

  lemma GrowKeeps(w: World, step: Step)
    requires Replicating(w) && Enabled(w, step) && (step.Grow? || step.Hold?)
    ensures Replicating(Next(w, step))
  {
    SentAllStay(w, Next(w, step));
  }

  lemma SendKeeps(w: World, later: World, b: Bundle)
    requires Replicating(w) && later == w.(sent := w.sent + [b]) && SentAt(later, |w.sent|)
    requires 0 <= b.manifest.baseSeq <= b.manifest.endSeq <= |w.source|
    ensures Replicating(later)
  {
    SentAllStay(w, later);
    forall i | 0 <= i < |later.sent| ensures SentAt(later, i) { }
  }

  lemma DeliverKeeps(w: World, i: nat)
    requires Replicating(w) && i < |w.sent|
    ensures Replicating(Next(w, Deliver(i)))
  {
    SentAllStay(w, Next(w, Deliver(i)));
    DeliverKeepsTarget(w, i);
  }

  lemma StepKeepsReplicating(w: World, step: Step)
    requires Replicating(w) && Enabled(w, step)
    ensures var w' := Next(w, step);
            Replicating(w') && w.source <= w'.source && w.target <= w'.target && w.targetHeld <= w'.targetHeld
  {
    match step
    case Grow(_) => GrowKeeps(w, step);
    case Hold(_) => GrowKeeps(w, step);
    case Send(b) =>
      NewCutIsSent(w, b);
      SendKeeps(w, Next(w, step), b);
    case Deliver(i) =>
      DeliverKeeps(w, i);
      DeliverKeepsTarget(w, i);
  }

  /**
   * Replication safety: under every schedule of growth, cutting, reordering, duplication and overlap, the target
   * stays a prefix of the source, never shrinks, and holds every payload its events declare.
   */
  lemma {:induction false} ReplicationIsSafe(w: World, steps: seq<Step>)
    requires Replicating(w) && Schedule(w, steps)
    ensures var w' := Run(w, steps);
            && Replicating(w')
            && w.source <= w'.source
            && w.target <= w'.target <= w'.source
            && DeclaredBy(w'.target) <= w'.targetHeld
    decreases |steps|
  {
    if steps != [] {
      StepKeepsReplicating(w, steps[0]);
      ReplicationIsSafe(Next(w, steps[0]), steps[1..]);
    }
  }

  // ---------------------------------------------------------------- what is sent arrives

  /** The cut of a bundle and its delivery. */
  function Dispatch(w: World, b: Bundle): seq<Step> {
    [Send(b), Deliver(|w.sent|)]
  }

  lemma OneStep(w: World, step: Step, rest: seq<Step>)
    requires Enabled(w, step) && Schedule(Next(w, step), rest)
    ensures Schedule(w, [step] + rest) && Run(w, [step] + rest) == Run(Next(w, step), rest)
  {
    assert ([step] + rest)[1..] == rest;
  }

  lemma DispatchDelivers(w: World, b: Bundle)
    requires HonestCut(w.source, w.sourceHeld, b)
    ensures Schedule(w, Dispatch(w, b))
    ensures Run(w, Dispatch(w, b)).target == AfterImport(w.target, b)
    ensures Run(w, Dispatch(w, b)).targetHeld == HeldAfter(w.target, w.targetHeld, b)
  {
    var sent := Next(w, Send(b));
    OneStep(sent, Deliver(|w.sent|), []);
    assert [Deliver(|w.sent|)] + [] == [Deliver(|w.sent|)];
    OneStep(w, Send(b), [Deliver(|w.sent|)]);
    assert [Send(b)] + [Deliver(|w.sent|)] == Dispatch(w, b);
  }

  lemma WholeCutApplies(w: World, b: Bundle)
    requires Replicating(w) && HonestCut(w.source, w.sourceHeld, b) && b.manifest.baseSeq <= |w.target|
    ensures AfterImport(w.target, b) == w.source
    ensures |w.target| < |w.source| ==> ImportOutcome(w.target, b).Applied?
  {
    assert w.source[..|w.source|] == w.source;
    PrefixTakesCut(w.target, w.source, |w.source|, w.sourceHeld, b);
  }

  /** A target that a whole cut reaches holds the source's log as soon as it is delivered. */
  lemma DispatchCatchesUp(w: World, b: Bundle)
    requires Replicating(w) && HonestCut(w.source, w.sourceHeld, b) && b.manifest.baseSeq <= |w.target|
    ensures Schedule(w, Dispatch(w, b)) && Run(w, Dispatch(w, b)).target == w.source
  {
    DispatchDelivers(w, b);
    WholeCutApplies(w, b);
  }

  lemma LastIsNew(source: seq<Event>, held: set<string>, n: nat, b: Bundle)
    requires HonestCut(source, held, b) && b.manifest.baseSeq <= n < |source|
    ensures source[|source| - 1] in b.events && source[|source| - 1].seqNo > n
  {
    SequenceNumbers(source);
    assert b.events[|b.events| - 1] == source[|source| - 1];
  }

  lemma CutCarries(source: seq<Event>, held: set<string>, b: Bundle, e: Event, payload: string,
        path: seq<JsonRecords.Step>)
    requires HonestCut(source, held, b) && e in b.events && payload in held && SaysAt(Obj(e.record), path, payload)
    ensures payload in b.manifest.payloads
  {
    MentionedAreSaid(b.events, payload);
    assert payload in NameSet(b.manifest.payloads);
  }

  /** A payload that the last event mentions, anywhere in its record, goes with it. */
  lemma MentionedPayloadTravels(w: World, payload: string, path: seq<JsonRecords.Step>, b: Bundle)
    requires Replicating(w) && HonestCut(w.source, w.sourceHeld, b) && b.manifest.baseSeq <= |w.target| < |w.source|
    requires payload in w.sourceHeld && SaysAt(Obj(w.source[|w.source| - 1].record), path, payload)
    ensures Schedule(w, Dispatch(w, b)) && payload in Run(w, Dispatch(w, b)).targetHeld
  {
    DispatchDelivers(w, b);
    WholeCutApplies(w, b);
    LastIsNew(w.source, w.sourceHeld, |w.target|, b);
    CutCarries(w.source, w.sourceHeld, b, w.source[|w.source| - 1], payload, path);
    Installed(w.target, w.targetHeld, b);
  }

  /** What the source appends and stores is there to be sent. */
  lemma GrownAndHeld(w: World, payload: string, e: Event)
    requires IsDigest(payload) && ValidLog(w.source + [e])
    ensures Schedule(w, [Hold(payload), Grow(e)])
    ensures Run(w, [Hold(payload), Grow(e)]) ==
            World(w.source + [e], w.sourceHeld + {payload}, w.target, w.targetHeld, w.sent)
  {
    var held := Next(w, Hold(payload));
    OneStep(held, Grow(e), []);
    assert [Grow(e)] + [] == [Grow(e)];
    OneStep(w, Hold(payload), [Grow(e)]);
    assert [Hold(payload)] + [Grow(e)] == [Hold(payload), Grow(e)];
  }

  // ---------------------------------------------------------------- convergence

  function DeliverAll(w: World, order: seq<nat>): World
    requires forall k :: 0 <= k < |order| ==> order[k] < |w.sent|
    decreases |order|
  {
    if order == [] then w else DeliverAll(Next(w, Deliver(order[0])), order[1..])
  }

  /** No bundle named in `order` would still move the target. */
  predicate Saturated(w: World, order: seq<nat>)
    requires forall k :: 0 <= k < |order| ==> order[k] < |w.sent|
  {
    forall k :: 0 <= k < |order| ==> !ImportOutcome(w.target, w.sent[order[k]]).Applied?
  }

  lemma {:induction false} DeliverAllStays(w: World, order: seq<nat>)
    requires Replicating(w) && forall k :: 0 <= k < |order| ==> order[k] < |w.sent|
    ensures var w' := DeliverAll(w, order);
            Replicating(w') && w'.source == w.source && w'.sent == w.sent && w.target <= w'.target
    decreases |order|
  {
    if order != [] {
      StepKeepsReplicating(w, Deliver(order[0]));
      DeliverAllStays(Next(w, Deliver(order[0])), order[1..]);
    }
  }

  lemma SaturatedMeans(w: World, i: nat)
    requires Replicating(w) && i < |w.sent| && !ImportOutcome(w.target, w.sent[i]).Applied?
    ensures w.sent[i].manifest.baseSeq <= |w.target| ==> w.sent[i].manifest.endSeq <= |w.target|
  {
    DeliveryExtends(w, i);
  }

  /** Any delivery order stays within a target that those bundles can no longer move. */
  lemma {:induction false} NothingPassesASaturatedTarget(w: World, order: seq<nat>, done: World)
    requires Replicating(w) && Replicating(done) && w.source == done.source && w.sent == done.sent
    requires forall k :: 0 <= k < |order| ==> order[k] < |w.sent|
    requires Saturated(done, order) && |w.target| <= |done.target|
    ensures |DeliverAll(w, order).target| <= |done.target|
    decreases |order|
  {
    if order != [] {
      DeliveryExtends(w, order[0]);
      SaturatedMeans(done, order[0]);
      StepKeepsReplicating(w, Deliver(order[0]));
      forall k | 0 <= k < |order[1..]| ensures !ImportOutcome(done.target, done.sent[order[1..][k]]).Applied? {
        assert order[1..][k] == order[k + 1];
      }
      NothingPassesASaturatedTarget(Next(w, Deliver(order[0])), order[1..], done);
    }
  }

  /**
   * Convergence: two replicas of one starting point that have each taken all they can from the same bundles hold
   * the same log, whatever the order, the repeats and the overlaps of the two deliveries.
   */
  lemma DeliveryOrderDoesNotMatter(w: World, first: seq<nat>, second: seq<nat>)
    requires Replicating(w)
    requires forall k :: 0 <= k < |first| ==> first[k] < |w.sent|
    requires forall k :: 0 <= k < |second| ==> second[k] < |w.sent|
    requires forall i :: i in first <==> i in second
    requires Saturated(DeliverAllSame(w, first), first) && Saturated(DeliverAllSame(w, second), second)
    ensures DeliverAll(w, first).target == DeliverAll(w, second).target
  {
    DeliverAllStays(w, first);
    DeliverAllStays(w, second);
    var a, b := DeliverAll(w, first), DeliverAll(w, second);
    forall k | 0 <= k < |second| ensures !ImportOutcome(a.target, a.sent[second[k]]).Applied? {
      assert second[k] in first;
    }
    forall k | 0 <= k < |first| ensures !ImportOutcome(b.target, b.sent[first[k]]).Applied? {
      assert first[k] in second;
    }
    NothingPassesASaturatedTarget(w, second, a);
    NothingPassesASaturatedTarget(w, first, b);
  }

  /** `DeliverAll`, with the facts that let its result be indexed by the same bundle numbers. */
  ghost function DeliverAllSame(w: World, order: seq<nat>): (r: World)
    requires Replicating(w) && forall k :: 0 <= k < |order| ==> order[k] < |w.sent|
    ensures r.sent == w.sent
  {
    DeliverAllStays(w, order);
    DeliverAll(w, order)
  }

  /** What a delivery does, in terms of positions alone. */
  lemma DeliveryTo(w: World, i: nat, w': World)
    requires Replicating(w) && i < |w.sent| && w' == Next(w, Deliver(i))
    ensures Replicating(w') && w'.source == w.source && w'.sent == w.sent
    ensures 0 <= w.sent[i].manifest.baseSeq <= w.sent[i].manifest.endSeq <= |w.source|
    ensures w'.target == w.source[..if w.sent[i].manifest.baseSeq <= |w.target| < w.sent[i].manifest.endSeq
                                    then w.sent[i].manifest.endSeq else |w.target|]
  {
    DeliveryExtends(w, i);
    StepKeepsReplicating(w, Deliver(i));
  }

  /** Whatever else is delivered, and in whatever order, a bundle that the target could take takes it to its end. */
  lemma {:induction false} DeliveriesReachTheEnd(w: World, order: seq<nat>, k: nat)
    requires Replicating(w) && k < |order| && forall j :: 0 <= j < |order| ==> order[j] < |w.sent|
    requires w.sent[order[k]].manifest.baseSeq <= |w.target|
    ensures w.sent[order[k]].manifest.endSeq <= |DeliverAll(w, order).target|
    decreases |order|
  {
    var next := Next(w, Deliver(order[0]));
    DeliveryTo(w, order[0], next);
    DeliverAllStays(next, order[1..]);
    if k > 0 {
      assert order[1..][k - 1] == order[k];
      DeliverKeepsTarget(w, order[0]);
      DeliveriesReachTheEnd(next, order[1..], k - 1);
    }
  }

  /** Two hops over adjoining ranges and one hop over the whole range leave the same log. */
  lemma TwoHopsEqualOne(w: World, near: nat, far: nat, whole: nat, w1: World, w2: World, direct: World)
    requires Replicating(w) && near < |w.sent| && far < |w.sent| && whole < |w.sent|
    requires w.sent[near].manifest.baseSeq == w.sent[whole].manifest.baseSeq <= |w.target|
    requires w.sent[near].manifest.endSeq == w.sent[far].manifest.baseSeq
    requires w.sent[far].manifest.endSeq == w.sent[whole].manifest.endSeq
    requires w1 == Next(w, Deliver(near)) && w2 == Next(w1, Deliver(far)) && direct == Next(w, Deliver(whole))
    ensures w2.target == direct.target
  {
    DeliveryTo(w, near, w1);
    DeliveryTo(w1, far, w2);
    DeliveryTo(w, whole, direct);
  }
}
