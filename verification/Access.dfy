/** Markings, who can view them, and the join a derived record must carry. */
module Access {
  import opened Options

  type Label = int

  /** The compartment no context may hold. */
  const SEAL: Label := 0

  /** A role field: stated and known, stated but unknown, or left out. */
  datatype Role = OBSERVER | ANALYST | SUPERVISOR | Unrecognised(text: int) | Unstated

  datatype Authority = NoAuthority | Org(name: int)

  /** Compartments and releasability are kept as sorted tuples: equal exactly when equal as multisets. */
  datatype Marking = Marking(
    authority: Authority, compartments: multiset<Label>, releasability: multiset<Label>, role: Role,
    caveats: seq<Label>)

  datatype RawContext = Context(rank: int, compartments: set<Label>, releasability: set<Label>, organisation: Authority)

  /** The reserved compartment cannot be granted. */
  type Context = c: RawContext | SEAL !in c.compartments witness Context(-1, {}, {}, NoAuthority)

  /** What the record type itself guarantees of a marking. */
  predicate Constructed(m: Marking) {
    m.authority.Org? && (m.role == OBSERVER || m.role == ANALYST || m.role == SUPERVISOR)
  }

  /** An unknown role outranks every known one; a missing one counts as the highest. */
  function Rank(r: Role): int {
    match r
    case OBSERVER => 0
    case ANALYST => 1
    case SUPERVISOR => 2
    case Unrecognised(_) => 3
    case Unstated => 2
  }

  function Compartments(m: Marking): set<Label> {
    set c | c in m.compartments
  }

  function Released(m: Marking): set<Label> {
    set l | l in m.releasability
  }

  predicate CanView(marking: Option<Marking>, context: Context) {
    && marking.Some?
    && var m := marking.value;
       && !m.role.Unrecognised? && !m.role.Unstated? && Rank(m.role) <= context.rank
       && Compartments(m) <= context.compartments
       && if Released(m) != {} then Released(m) * context.releasability != {}
          else m.authority.Org? && context.organisation == m.authority
  }

  predicate Views(m: Marking, context: Context) {
    CanView(Some(m), context)
  }

  // ---------------------------------------------------------------- the join

  function AllCompartments(ms: seq<Marking>): set<Label> {
    set i, c | 0 <= i < |ms| && c in ms[i].compartments :: c
  }

  predicate AllDeclare(ms: seq<Marking>) {
    forall m :: m in ms ==> Released(m) != {}
  }

  predicate AnyDeclares(ms: seq<Marking>) {
    exists m :: m in ms && Released(m) != {}
  }

  /** The labels every marking releases to, when every one declares any. */
  function SharedRelease(ms: seq<Marking>): set<Label> {
    if ms == [] || !AllDeclare(ms) then {} else set l | l in Released(ms[0]) && ReleasedByAll(ms, l)
  }

  function StatedRole(r: Role): Role {
    if r.Unstated? then SUPERVISOR else r
  }

  /** The first of the highest-ranking roles. */
  function HighestRole(ms: seq<Marking>): (r: Role)
    requires ms != []
    ensures !r.Unstated?
  {
    var last := StatedRole(ms[|ms| - 1].role);
    if |ms| == 1 then last
    else
      var best := HighestRole(ms[..|ms| - 1]);
      if Rank(last) > Rank(best) then last else best
  }

  function AllCaveats(ms: seq<Marking>): seq<Label> {
    if ms == [] then [] else AllCaveats(ms[..|ms| - 1]) + ms[|ms| - 1].caveats
  }

  /** First occurrences only. */
  function Distinct(s: seq<Label>): (r: seq<Label>)
    ensures forall x :: x in r <==> x in s
  {
    if s == [] then []
    else
      var front := Distinct(s[..|s| - 1]);
      assert s == s[..|s| - 1] + [s[|s| - 1]];
      if s[|s| - 1] in front then front else front + [s[|s| - 1]]
  }

  predicate OneAuthority(ms: seq<Marking>) {
    forall m, n :: m in ms && n in ms ==> m.authority == n.authority
  }

  /** A join that would be locked to one organisation although an input was not, or although the inputs disagree. */
  predicate Unjoinable(ms: seq<Marking>) {
    SharedRelease(ms) == {} && (!OneAuthority(ms) || AnyDeclares(ms))
  }

  /** What every record derived from several must carry, if one marking can say it. */
  function Join(ms: seq<Marking>): Option<Marking> {
    if ms == [] || Unjoinable(ms) || HighestRole(ms).Unrecognised? || ms[0].authority.NoAuthority? then None
    else Some(Marking(ms[0].authority, multiset(AllCompartments(ms)), multiset(SharedRelease(ms)), HighestRole(ms),
                      Distinct(AllCaveats(ms))))
  }

  const SEALED_CAVEAT: Label := -1

  function DenyAllSeal(ms: seq<Marking>): Marking
    requires ms != []
  {
    Marking(ms[0].authority, multiset({SEAL} + AllCompartments(ms)), multiset{}, SUPERVISOR,
            Distinct(AllCaveats(ms) + [SEALED_CAVEAT]))
  }

  function Present(refs: seq<Option<Marking>>): seq<Marking> {
    if refs == [] then []
    else Present(refs[..|refs| - 1]) + (if refs[|refs| - 1].Some? then [refs[|refs| - 1].value] else [])
  }

  /** A marking read from its record: a role left out is read as the highest. */
  function Stated(m: Marking): Marking {
    m.(role := StatedRole(m.role))
  }

  function StatedAll(ms: seq<Marking>): seq<Marking> {
    seq(|ms|, i requires 0 <= i < |ms| => Stated(ms[i]))
  }

  /** Reading it succeeds: an unknown role or a missing authority is an error. */
  predicate Readable(m: Marking) {
    Constructed(Stated(m))
  }

  predicate AllReadable(ms: seq<Marking>) {
    forall m :: m in ms ==> Readable(m)
  }

  /** The join of markings that were read, or the seal where no marking is safe. */
  function JoinOrSeal(ms: seq<Marking>): Marking
    requires ms != []
  {
    if Join(ms).Some? then Join(ms).value else DenyAllSeal(ms)
  }

  /** The join for a background derivation; an input that cannot be read is an error and not sealed. */
  function Inherited(base: Marking, refs: seq<Option<Marking>>): Option<Marking> {
    var ms := [base] + Present(refs);
    if AllReadable(ms) then Some(JoinOrSeal(StatedAll(ms))) else None
  }

  // ---------------------------------------------------------------- the join, as it is accumulated

  lemma CompartmentsGrow(ms: seq<Marking>, m: Marking)
    ensures AllCompartments(ms + [m]) == AllCompartments(ms) + Compartments(m)
  {
    var all := ms + [m];
    forall c | c in AllCompartments(ms) ensures c in AllCompartments(all) {
      var i :| 0 <= i < |ms| && c in ms[i].compartments;
      assert all[i] == ms[i];
    }
    forall c | c in Compartments(m) ensures c in AllCompartments(all) {
      assert all[|ms|] == m;
    }
  }

  /** What the loop has gathered from the markings seen so far. */
  datatype Tally = Tally(
    compartments: set<Label>, shared: set<Label>, undeclared: bool, declared: bool, oneAuthority: bool, role: Role,
    caveats: seq<Label>)

  function Start(first: Marking): Tally {
    Tally({}, Released(first), false, false, true, StatedRole(first.role), [])
  }

  function Step(t: Tally, first: Marking, m: Marking): Tally {
    Tally(t.compartments + Compartments(m), t.shared * Released(m), t.undeclared || Released(m) == {},
          t.declared || Released(m) != {}, t.oneAuthority && m.authority == first.authority,
          if Rank(StatedRole(m.role)) > Rank(t.role) then StatedRole(m.role) else t.role, t.caveats + m.caveats)
  }

  function TallyOf(ms: seq<Marking>, first: Marking): Tally {
    if ms == [] then Start(first) else Step(TallyOf(ms[..|ms| - 1], first), first, ms[|ms| - 1])
  }

  lemma {:induction false} TallyMeans(ms: seq<Marking>, first: Marking)
    requires ms != [] ==> ms[0] == first
    ensures var t := TallyOf(ms, first);
            && t.compartments == AllCompartments(ms) && t.caveats == AllCaveats(ms)
            && t.role == (if ms == [] then StatedRole(first.role) else HighestRole(ms))
  {
    if ms != [] {
      var front, m := ms[..|ms| - 1], ms[|ms| - 1];
      TallyMeans(front, first);
      assert ms == front + [m];
      CompartmentsGrow(front, m);
    }
  }

  /** A label every one of them releases to. */
  predicate ReleasedByAll(ms: seq<Marking>, l: Label) {
    forall m :: m in ms ==> l in Released(m)
  }

  predicate AllOwnedBy(ms: seq<Marking>, authority: Authority) {
    forall m :: m in ms ==> m.authority == authority
  }

  lemma {:induction false} TallyFlags(ms: seq<Marking>, first: Marking)
    ensures var t := TallyOf(ms, first);
            && (t.undeclared <==> !AllDeclare(ms)) && (t.declared <==> AnyDeclares(ms))
            && (t.oneAuthority <==> AllOwnedBy(ms, first.authority))
  {
    if ms != [] {
      var front, m := ms[..|ms| - 1], ms[|ms| - 1];
      TallyFlags(front, first);
      assert forall x :: x in ms <==> x in front || x == m by { assert ms == front + [m]; }
    }
  }

  lemma {:induction false} TallyShares(ms: seq<Marking>, first: Marking, l: Label)
    ensures l in TallyOf(ms, first).shared <==> l in Released(first) && ReleasedByAll(ms, l)
  {
    if ms != [] {
      var front, m := ms[..|ms| - 1], ms[|ms| - 1];
      TallyShares(front, first, l);
      assert forall x :: x in ms <==> x in front || x == m by { assert ms == front + [m]; }
    }
  }

  lemma TallyJoins(ms: seq<Marking>)
    requires ms != []
    ensures var t := TallyOf(ms, ms[0]);
            && SharedRelease(ms) == (if t.undeclared then {} else t.shared)
            && (Unjoinable(ms) <==> SharedRelease(ms) == {} && (!t.oneAuthority || t.declared))
  {
    TallyFlags(ms, ms[0]);
    assert ms[0] in ms;
    forall l ensures l in TallyOf(ms, ms[0]).shared <==> l in Released(ms[0]) && ReleasedByAll(ms, l) {
      TallyShares(ms, ms[0], l);
    }
    assert OneAuthority(ms) <==> AllOwnedBy(ms, ms[0].authority);
  }

  method MostRestrictive(ms: seq<Marking>) returns (r: Option<Marking>)
    ensures r == Join(ms)
  {
    if ms == [] { return None; }
    var first := ms[0];
    var compartments: set<Label>, shared, undeclared, declared := {}, Released(first), false, false;
    var oneAuthority, role, caveats: seq<Label> := true, StatedRole(first.role), [];
    for i := 0 to |ms|
      invariant Tally(compartments, shared, undeclared, declared, oneAuthority, role, caveats) ==
                TallyOf(ms[..i], first)
    {
      var m := ms[i];
      assert ms[..i + 1][..i] == ms[..i];
      compartments := compartments + Compartments(m);
      shared := shared * Released(m);
      if Released(m) == {} { undeclared := true; } else { declared := true; }
      oneAuthority := oneAuthority && m.authority == first.authority;
      if Rank(StatedRole(m.role)) > Rank(role) { role := StatedRole(m.role); }
      caveats := caveats + m.caveats;
    }
    assert ms[..|ms|] == ms;
    TallyMeans(ms, first);
    TallyJoins(ms);
    var releasability := if undeclared then {} else shared;
    if releasability == {} && (!oneAuthority || declared) { return None; }
    if role.Unrecognised? || first.authority.NoAuthority? { return None; }
    return Some(Marking(first.authority, multiset(compartments), multiset(releasability), role, Distinct(caveats)));
  }

  /** The seal keeps every compartment and caveat, and opens to nobody. */
  method Seal(ms: seq<Marking>) returns (r: Marking)
    requires ms != []
    ensures r == DenyAllSeal(ms)
  {
    var compartments: set<Label>, caveats: seq<Label> := {SEAL}, [];
    for i := 0 to |ms|
      invariant compartments == {SEAL} + AllCompartments(ms[..i]) && caveats == AllCaveats(ms[..i])
    {
      assert ms[..i + 1] == ms[..i] + [ms[i]] && ms[..i + 1][..i] == ms[..i];
      CompartmentsGrow(ms[..i], ms[i]);
      compartments := compartments + Compartments(ms[i]);
      caveats := caveats + ms[i].caveats;
    }
    assert ms[..|ms|] == ms;
    return Marking(ms[0].authority, multiset(compartments), multiset{}, SUPERVISOR,
        Distinct(caveats + [SEALED_CAVEAT]));
  }

  /** The derivation fails exactly on a record with an unknown role or without an authority. */
  lemma UnreadableIff(base: Marking, refs: seq<Option<Marking>>)
    ensures Inherited(base, refs).None? <==>
              exists m :: (m == base || Some(m) in refs) && (m.role.Unrecognised? || m.authority.NoAuthority?)
  {
    PresentIs(refs);
    assert forall m :: m in [base] + Present(refs) <==> m == base || Some(m) in refs;
    if m :| m in [base] + Present(refs) && !Readable(m) {
      assert m == base || Some(m) in refs;
    }
    if m :| (m == base || Some(m) in refs) && (m.role.Unrecognised? || m.authority.NoAuthority?) {
      assert m in [base] + Present(refs) && !Readable(m);
    }
  }

  method InheritedMarking(base: Marking, refs: seq<Option<Marking>>) returns (r: Option<Marking>)
    ensures r == Inherited(base, refs)
  {
    if !Readable(base) {
      assert ([base] + Present(refs))[0] == base;
      return None;
    }
    var ms := [Stated(base)];
    for i := 0 to |refs|
      invariant AllReadable([base] + Present(refs[..i])) && ms == StatedAll([base] + Present(refs[..i]))
    {
      assert refs[..i + 1][..i] == refs[..i];
      if refs[i].Some? {
        var m := refs[i].value;
        assert [base] + Present(refs[..i + 1]) == ([base] + Present(refs[..i])) + [m];
        if !Readable(m) {
          PresentOfPart(refs, i);
          return None;
        }
        ms := ms + [Stated(m)];
      }
    }
    assert refs[..|refs|] == refs;
    var joined := MostRestrictive(ms);
    if joined.Some? { return joined; }
    var sealed := Seal(ms);
    return Some(sealed);
  }

  lemma {:induction false} PresentIs(refs: seq<Option<Marking>>)
    ensures forall m :: m in Present(refs) <==> Some(m) in refs
  {
    if refs != [] {
      var front, last := refs[..|refs| - 1], refs[|refs| - 1];
      PresentIs(front);
      assert refs == front + [last];
    }
  }

  lemma {:induction false} PresentOfPart(refs: seq<Option<Marking>>, i: nat)
    requires i < |refs| && refs[i].Some?
    ensures refs[i].value in Present(refs)
  {
    var n := |refs| - 1;
    if i < n { PresentOfPart(refs[..n], i); }
  }
}
