/** No write-down: who may view a derived record, and what may leave for a provider. */
module Viewing {
  import opened FiniteSets
  import opened Options
  import opened Access

  /** The highest role held counts 0, 1 or 2, and -1 for none; OBSERVER asks for 0, ANALYST for 1, SUPERVISOR for 2. */
  predicate RoleSuffices(role: Role, rank: int) {
    || (role == OBSERVER && 0 <= rank)
    || (role == ANALYST && 1 <= rank)
    || (role == SUPERVISOR && 2 <= rank)
  }

  lemma ReleaseMeans(m: Marking, c: Context)
    ensures Released(m) == {} <==> m.releasability == multiset{}
    ensures Released(m) * c.releasability != {} <==> exists l :: l in m.releasability && l in c.releasability
  {
    assert forall l :: l in Released(m) <==> l in m.releasability;
    if forall l :: l !in m.releasability {
      assert m.releasability == multiset{};
    }
    if l :| l in m.releasability && l in c.releasability {
      assert l in Released(m) * c.releasability;
    }
    if Released(m) * c.releasability != {} {
      var l := SomeElement(Released(m) * c.releasability);
      assert l in m.releasability && l in c.releasability;
    }
  }

  /**
   * A record is viewed with a role it is open to, every one of its compartments, and one of the labels it is released
   * to, or, when it is released to none, in the organisation it belongs to.
   */
  lemma ViewsMeans(m: Marking, c: Context)
    ensures Views(m, c) <==>
              && RoleSuffices(m.role, c.rank)
              && (forall l :: l in m.compartments ==> l in c.compartments)
              && if m.releasability != multiset{} then exists l :: l in m.releasability && l in c.releasability
                 else m.authority.Org? && c.organisation == m.authority
  {
    ReleaseMeans(m, c);
    CompartmentsMean(m, c);
    assert RoleSuffices(m.role, c.rank) <==>
             !m.role.Unrecognised? && !m.role.Unstated? && Rank(m.role) <= c.rank;
  }

  lemma CompartmentsMean(m: Marking, c: Context)
    ensures Compartments(m) <= c.compartments <==> forall l :: l in m.compartments ==> l in c.compartments
  {
    if Compartments(m) <= c.compartments {
      forall l | l in m.compartments ensures l in c.compartments { assert l in Compartments(m); }
    }
    if forall l :: l in m.compartments ==> l in c.compartments {
      forall l | l in Compartments(m) ensures l in c.compartments { assert l in m.compartments; }
    }
  }

  // ---------------------------------------------------------------- joint visibility

  /** One single reason a marking may be open to a context: a release label it holds, or its organisation. */
  datatype Ground = ByRelease(label_: Label) | ByOrganisation

  predicate HasGround(c: Context, g: Ground) {
    g.ByRelease? ==> g.label_ in c.releasability
  }

  /** The context with nothing but that one ground. */
  function Narrow(c: Context, g: Ground): Context {
    match g
    case ByRelease(l) => Context(c.rank, c.compartments, {l}, NoAuthority)
    case ByOrganisation => Context(c.rank, c.compartments, {}, c.organisation)
  }

  predicate AdmitsAll(ms: seq<Marking>, c: Context, g: Ground) {
    HasGround(c, g) && forall m :: m in ms ==> Views(m, Narrow(c, g))
  }

  /** One and the same ground opens every one of them: what a record derived from all of them may require. */
  ghost predicate JointlyVisible(ms: seq<Marking>, c: Context) {
    exists g :: AdmitsAll(ms, c, g)
  }

  predicate AllConstructed(ms: seq<Marking>) {
    forall m :: m in ms ==> Constructed(m)
  }

  /** Every one of them states its role, be it a known one or not. */
  predicate AllStateRoles(ms: seq<Marking>) {
    forall m :: m in ms ==> !m.role.Unstated?
  }

  /** Role and compartments, without regard to release. */
  predicate Cleared(m: Marking, c: Context) {
    !m.role.Unrecognised? && Rank(m.role) <= c.rank && Compartments(m) <= c.compartments
  }

  /** What one ground has to say to open one marking. */
  predicate Opens(m: Marking, c: Context, g: Ground) {
    match g
    case ByRelease(l) => l in Released(m)
    case ByOrganisation => Released(m) == {} && m.authority.Org? && c.organisation == m.authority
  }

  lemma GroundsOf(m: Marking, c: Context, g: Ground)
    requires !m.role.Unstated?
    ensures Views(m, Narrow(c, g)) <==> Cleared(m, c) && Opens(m, c, g)
  {
    if g.ByRelease? {
      assert g.label_ in Released(m) <==> Released(m) * {g.label_} != {} by {
        assert Released(m) * {g.label_} == if g.label_ in Released(m) then {g.label_} else {};
      }
    }
  }

  lemma {:induction false} HighestRoleRanks(ms: seq<Marking>)
    requires ms != [] && AllStateRoles(ms)
    ensures exists m :: m in ms && HighestRole(ms) == m.role
    ensures forall m :: m in ms ==> Rank(m.role) <= Rank(HighestRole(ms))
  {
    var front, last := ms[..|ms| - 1], ms[|ms| - 1];
    assert last in ms;
    if |ms| > 1 {
      assert forall x :: x in front ==> x in ms;
      HighestRoleRanks(front);
      assert ms == front + [last];
    }
  }

  /** What the join's role and compartments ask of a context. */
  predicate ClearedForJoin(ms: seq<Marking>, c: Context)
    requires ms != []
  {
    !HighestRole(ms).Unrecognised? && Rank(HighestRole(ms)) <= c.rank && AllCompartments(ms) <= c.compartments
  }

  lemma ClearedForAll(ms: seq<Marking>, c: Context)
    requires ms != [] && AllStateRoles(ms)
    ensures (forall m :: m in ms ==> Cleared(m, c)) <==> ClearedForJoin(ms, c)
  {
    HighestRoleRanks(ms);
    forall m, l | m in ms && l in m.compartments ensures l in AllCompartments(ms) {
      var i :| 0 <= i < |ms| && ms[i] == m;
      assert l in ms[i].compartments;
    }
    if forall m :: m in ms ==> Cleared(m, c) {
      forall l | l in AllCompartments(ms) ensures l in c.compartments {
        var i :| 0 <= i < |ms| && l in ms[i].compartments;
        assert Cleared(ms[i], c) && l in Compartments(ms[i]);
      }
    } else {
      var m :| m in ms && !Cleared(m, c);
      if !m.role.Unrecognised? && Rank(m.role) <= c.rank {
        var l := NotContained(Compartments(m), c.compartments);
        assert l in AllCompartments(ms);
      }
    }
  }

  /** The ground on which all of them are open is a label released by all, or the one organisation that owns all. */
  predicate OpenBy(ms: seq<Marking>, c: Context, g: Ground) {
    match g
    case ByRelease(l) => l in c.releasability && ReleasedByAll(ms, l)
    case ByOrganisation => !AnyDeclares(ms) && c.organisation.Org? && AllOwnedBy(ms, c.organisation)
  }

  lemma JointGround(ms: seq<Marking>, c: Context, g: Ground)
    requires ms != [] && AllStateRoles(ms)
    ensures AdmitsAll(ms, c, g) <==> OpenBy(ms, c, g) && forall m :: m in ms ==> Cleared(m, c)
  {
    assert ms[0] in ms;
    forall m | m in ms ensures Views(m, Narrow(c, g)) <==> Cleared(m, c) && Opens(m, c, g) { GroundsOf(m, c, g); }
  }

  /** What the join's own release says, ground by ground. */
  lemma JoinIsOpenBy(ms: seq<Marking>, c: Context)
    requires ms != []
    ensures (exists g :: OpenBy(ms, c, g)) <==>
              && !Unjoinable(ms)
              && if SharedRelease(ms) != {} then SharedRelease(ms) * c.releasability != {}
                 else ms[0].authority.Org? && c.organisation == ms[0].authority
  {
    assert ms[0] in ms;
    var shared := SharedRelease(ms);
    if g: Ground :| OpenBy(ms, c, g) {
      if g.ByRelease? {
        assert forall m :: m in ms ==> g.label_ in Released(m);
        assert g.label_ in shared * c.releasability;
      } else {
        assert shared == {};
      }
    } else {
      if shared * c.releasability != {} {
        var l :| l in shared * c.releasability;
        assert OpenBy(ms, c, ByRelease(l));
      } else if shared == {} && OneAuthority(ms) && !AnyDeclares(ms) && c.organisation == ms[0].authority
                && ms[0].authority.Org? {
        assert OpenBy(ms, c, ByOrganisation);
      }
    }
  }

  lemma StatedJoinViewers(ms: seq<Marking>, c: Context)
    requires ms != [] && AllStateRoles(ms)
    ensures Join(ms).Some? && Views(Join(ms).value, c) <==> ms[0].authority.Org? && JointlyVisible(ms, c)
  {
    assert ms[0] in ms;
    HighestRoleRanks(ms);
    ClearedForAll(ms, c);
    JoinIsOpenBy(ms, c);
    forall g ensures AdmitsAll(ms, c, g) <==> OpenBy(ms, c, g) && forall m :: m in ms ==> Cleared(m, c) {
      JointGround(ms, c, g);
    }
    if Join(ms).Some? {
      assert Released(Join(ms).value) == SharedRelease(ms) && Compartments(Join(ms).value) == AllCompartments(ms);
    }
  }

  // ---------------------------------------------------------------- roles left out

  lemma {:induction false} HighestOfStated(ms: seq<Marking>)
    requires ms != []
    ensures HighestRole(StatedAll(ms)) == HighestRole(ms)
  {
    var front := ms[..|ms| - 1];
    assert StatedAll(ms)[..|ms| - 1] == StatedAll(front);
    if front != [] { HighestOfStated(front); }
  }

  lemma {:induction false} CaveatsOfStated(ms: seq<Marking>)
    ensures AllCaveats(StatedAll(ms)) == AllCaveats(ms)
  {
    if ms != [] {
      assert StatedAll(ms)[..|ms| - 1] == StatedAll(ms[..|ms| - 1]);
      CaveatsOfStated(ms[..|ms| - 1]);
    }
  }

  lemma StatedIs(ms: seq<Marking>)
    ensures forall m :: m in ms ==> Stated(m) in StatedAll(ms)
    ensures forall n :: n in StatedAll(ms) ==> exists m :: m in ms && n == Stated(m)
  {
    forall m | m in ms ensures Stated(m) in StatedAll(ms) {
      var i :| 0 <= i < |ms| && ms[i] == m;
      assert StatedAll(ms)[i] == Stated(m);
    }
    forall n | n in StatedAll(ms) ensures exists m :: m in ms && n == Stated(m) {
      var i :| 0 <= i < |ms| && StatedAll(ms)[i] == n;
      assert ms[i] in ms;
    }
  }

  lemma ReleaseOfStated(ms: seq<Marking>)
    requires ms != []
    ensures SharedRelease(StatedAll(ms)) == SharedRelease(ms) && (Unjoinable(StatedAll(ms)) <==> Unjoinable(ms))
  {
    var ns := StatedAll(ms);
    StatedIs(ms);
    assert ns[0] == Stated(ms[0]);
    assert AllDeclare(ns) <==> AllDeclare(ms);
    assert AnyDeclares(ns) <==> AnyDeclares(ms) by {
      if m :| m in ms && Released(m) != {} { assert Stated(m) in ns; }
    }
    forall l ensures ReleasedByAll(ns, l) <==> ReleasedByAll(ms, l) { }
    forall x, y | x in ms && y in ms && OneAuthority(ns) ensures x.authority == y.authority {
      assert Stated(x) in ns && Stated(y) in ns;
    }
  }

  /** The join reads a missing role as the highest: it is the join of the markings that say so. */
  lemma JoinOfStated(ms: seq<Marking>)
    requires ms != []
    ensures Join(StatedAll(ms)) == Join(ms)
  {
    var ns := StatedAll(ms);
    HighestOfStated(ms);
    CaveatsOfStated(ms);
    ReleaseOfStated(ms);
    assert forall i, l :: 0 <= i < |ms| ==> (l in ns[i].compartments <==> l in ms[i].compartments);
    assert AllCompartments(ns) == AllCompartments(ms);
  }

  /** For any records at all: the join is viewed by those to whom one ground opens them all, read with their roles. */
  lemma JoinViewers(ms: seq<Marking>, c: Context)
    requires ms != []
    ensures Join(ms).Some? && Views(Join(ms).value, c) <==> ms[0].authority.Org? && JointlyVisible(StatedAll(ms), c)
  {
    StatedIs(ms);
    JoinOfStated(ms);
    StatedJoinViewers(StatedAll(ms), c);
  }

  lemma SealIsViewedByNobody(ms: seq<Marking>, c: Context)
    requires ms != []
    ensures !Views(DenyAllSeal(ms), c)
  {
    assert SEAL in Compartments(DenyAllSeal(ms));
  }

  lemma JoinOrSealViewers(ms: seq<Marking>, c: Context)
    requires ms != [] && AllConstructed(ms)
    ensures Views(JoinOrSeal(ms), c) <==> JointlyVisible(ms, c)
  {
    assert ms[0] in ms;
    StatedJoinViewers(ms, c);
    SealIsViewedByNobody(ms, c);
  }

  /**
   * A derived record is visible exactly where one ground opens every record it was derived from, read with its role.
   */
  lemma InheritedViewers(base: Marking, refs: seq<Option<Marking>>, c: Context)
    requires Inherited(base, refs).Some?
    ensures Views(Inherited(base, refs).value, c) <==> JointlyVisible(StatedAll([base] + Present(refs)), c)
  {
    var ms := [base] + Present(refs);
    StatedIs(ms);
    JoinOrSealViewers(StatedAll(ms), c);
  }

  lemma JoinOrSealIsConstructed(ms: seq<Marking>)
    requires ms != [] && AllConstructed(ms)
    ensures Constructed(JoinOrSeal(ms))
  {
    assert ms[0] in ms;
    HighestRoleRanks(ms);
  }

  /** A marking that can be constructed is closed to everyone exactly if it holds the reserved compartment. */
  lemma ViewedByNobodyIff(m: Marking)
    requires Constructed(m)
    ensures (forall c: Context :: !Views(m, c)) <==> SEAL in m.compartments
  {
    if SEAL in m.compartments {
      assert SEAL in Compartments(m);
    } else {
      var c: Context := Context(2, Compartments(m), Released(m), m.authority);
      assert Released(m) * c.releasability == Released(m);
      assert Views(m, c);
    }
  }

  /** Whoever can view the derived marking can view every one of these. */
  ghost predicate NothingWrittenDown(derived: Marking, ms: seq<Marking>) {
    forall c: Context, m :: m in ms && Views(derived, c) ==> Views(m, c)
  }

  lemma MissingRoleNeedsNobody(derived: Marking, ms: seq<Marking>, m: Marking)
    requires m in ms && m.role.Unstated?
    ensures NothingWrittenDown(derived, ms) <==> forall c: Context :: !Views(derived, c)
  {
    assert forall c: Context :: !Views(m, c);
  }

  /**
   * No write-down holds exactly when no input leaves its role out, or the derived record is sealed. A record without
   * a role is viewed by nobody, and the join reads it as asking for the highest role.
   */
  lemma NoWriteDown(base: Marking, refs: seq<Option<Marking>>)
    requires Inherited(base, refs).Some?
    ensures var ms, derived := [base] + Present(refs), Inherited(base, refs).value;
            NothingWrittenDown(derived, ms) <==> AllStateRoles(ms) || SEAL in derived.compartments
  {
    var ms, derived := [base] + Present(refs), Inherited(base, refs).value;
    StatedIs(ms);
    JoinOrSealIsConstructed(StatedAll(ms));
    ViewedByNobodyIff(derived);
    if AllStateRoles(ms) {
      assert forall m :: m in ms ==> Stated(m) == m;
      forall c: Context, m | m in ms && Views(derived, c) ensures Views(m, c) { ConstructedInputIsCovered(ms, c, m); }
    } else {
      var m :| m in ms && m.role.Unstated?;
      MissingRoleNeedsNobody(derived, ms, m);
    }
  }

  lemma CompartmentOfSome(ms: seq<Marking>, l: Label)
    ensures l in AllCompartments(StatedAll(ms)) <==> exists m :: m in ms && l in m.compartments
  {
    if l in AllCompartments(StatedAll(ms)) {
      var i :| 0 <= i < |ms| && l in StatedAll(ms)[i].compartments;
      assert ms[i] in ms;
    }
    if m :| m in ms && l in m.compartments {
      var i :| 0 <= i < |ms| && ms[i] == m;
      assert l in StatedAll(ms)[i].compartments;
    }
  }

  /** When the derived record is sealed, in terms of the inputs alone. */
  lemma SealedIff(base: Marking, refs: seq<Option<Marking>>)
    requires Inherited(base, refs).Some?
    ensures var ms := [base] + Present(refs);
            SEAL in Inherited(base, refs).value.compartments
            <==> Unjoinable(ms) || exists m :: m in ms && SEAL in m.compartments
  {
    var ms := [base] + Present(refs);
    StatedIs(ms);
    ReleaseOfStated(ms);
    HighestRoleRanks(StatedAll(ms));
    assert StatedAll(ms)[0] in StatedAll(ms);
    CompartmentOfSome(ms, SEAL);
  }

  lemma ConstructedInputIsCovered(ms: seq<Marking>, c: Context, m: Marking)
    requires AllReadable(ms) && AllStateRoles(ms) && m in ms && Views(JoinOrSeal(StatedAll(ms)), c)
    ensures Views(m, c)
  {
    StatedIs(ms);
    assert forall i :: 0 <= i < |ms| ==> ms[i] in ms && Stated(ms[i]) == ms[i];
    assert StatedAll(ms) == ms;
    assert AllConstructed(ms);
    JoinOrSealViewers(ms, c);
    var g :| AdmitsAll(ms, c, g);
    assert Views(m, Narrow(c, g));
  }

  const OPEN_RECORD := Marking(Org(1), multiset{}, multiset{}, OBSERVER, [])
  const NO_ROLE := OPEN_RECORD.(role := Unstated)

  /** A reference without a role: a supervisor sees what was derived from it and not the reference. */
  lemma MissingRoleIsWrittenDown()
    ensures var derived := Inherited(OPEN_RECORD, [Some(NO_ROLE)]);
            && derived.Some?
            && var supervisor := Context(2, {}, {}, Org(1));
               Views(derived.value, supervisor) && !Views(NO_ROLE, supervisor)
  {
    var ms: seq<Marking> := [OPEN_RECORD, NO_ROLE];
    OneReference(OPEN_RECORD, NO_ROLE);
    assert forall m :: m in ms ==> m == OPEN_RECORD || m == NO_ROLE;
    assert AllReadable(ms);
    var supervisor: Context := Context(2, {}, {}, Org(1));
    var ns := StatedAll(ms);
    assert ns == [OPEN_RECORD, Stated(NO_ROLE)];
    assert forall n :: n in ns ==> Views(n, Narrow(supervisor, ByOrganisation));
    assert AdmitsAll(ns, supervisor, ByOrganisation);
    InheritedViewers(OPEN_RECORD, [Some(NO_ROLE)], supervisor);
  }

  /** Of markings that were constructed, the derived one is their join, or else the seal. */
  lemma InheritedOfConstructed(base: Marking, refs: seq<Option<Marking>>)
    requires AllConstructed([base] + Present(refs))
    ensures Inherited(base, refs) == Some(JoinOrSeal([base] + Present(refs)))
  {
    var ms := [base] + Present(refs);
    assert forall i :: 0 <= i < |ms| ==> ms[i] in ms && Stated(ms[i]) == ms[i];
    assert StatedAll(ms) == ms;
  }

  // ---------------------------------------------------------------- any order, any grouping

  /** Markings joined two at a time, in some grouping. */
  datatype JoinTree = Leaf(m: Marking) | Node(left: JoinTree, right: JoinTree)

  function Leaves(t: JoinTree): (r: seq<Marking>)
    ensures r != []
  {
    match t
    case Leaf(m) => [m]
    case Node(l, r) => Leaves(l) + Leaves(r)
  }

  function Joined(t: JoinTree): Marking {
    match t
    case Leaf(m) => m
    case Node(l, r) => JoinOrSeal([Joined(l), Joined(r)])
  }

  lemma {:induction false} JoinedIsConstructed(t: JoinTree)
    requires AllConstructed(Leaves(t))
    ensures Constructed(Joined(t))
  {
    match t
    case Leaf(m) => assert m in Leaves(t);
    case Node(l, r) =>
      assert forall m :: m in Leaves(l) ==> m in Leaves(t);
      assert forall m :: m in Leaves(r) ==> m in Leaves(t);
      JoinedIsConstructed(l);
      JoinedIsConstructed(r);
      JoinOrSealIsConstructed([Joined(l), Joined(r)]);
  }

  lemma OneReference(a: Marking, b: Marking)
    ensures [a] + Present([Some(b)]) == [a, b]
  {
    assert [Some(b)][..0] == [];
    assert Present([Some(b)]) == [b];
  }

  /** A context with one ground has no other that opens anything. */
  lemma NarrowHasOneGround(ms: seq<Marking>, c: Context, g: Ground)
    requires ms != [] && AllConstructed(ms)
    ensures JointlyVisible(ms, Narrow(c, g)) <==> forall m :: m in ms ==> Views(m, Narrow(c, g))
  {
    var n := Narrow(c, g);
    assert ms[0] in ms;
    forall h ensures AdmitsAll(ms, n, h) <==>
      OpenBy(ms, n, h) && forall m :: m in ms ==> Cleared(m, n) { JointGround(ms, n, h); }
    if h :| AdmitsAll(ms, n, h) {
      forall m | m in ms ensures Views(m, n) { }
    } else if forall m :: m in ms ==> Views(m, n) {
      forall m | m in ms ensures Views(m, Narrow(n, g)) { assert Narrow(n, g) == n; }
      assert AdmitsAll(ms, n, g);
    }
  }

  /** Whatever the grouping, the viewers are those to whom one ground opens every leaf. */
  lemma {:induction false} TreeViewers(t: JoinTree, c: Context)
    requires AllConstructed(Leaves(t))
    ensures Views(Joined(t), c) <==> JointlyVisible(Leaves(t), c)
  {
    match t
    case Leaf(m) =>
      assert m in Leaves(t);
      LeafViewers(m, c);
    case Node(l, r) =>
      assert forall m :: m in Leaves(t) <==> m in Leaves(l) || m in Leaves(r);
      var a, b := Joined(l), Joined(r);
      JoinedIsConstructed(l);
      JoinedIsConstructed(r);
      JoinOrSealViewers([a, b], c);
      forall g ensures AdmitsAll([a, b], c, g) <==> AdmitsAll(Leaves(t), c, g) {
        TreeViewers(l, Narrow(c, g));
        TreeViewers(r, Narrow(c, g));
        NarrowHasOneGround(Leaves(l), c, g);
        NarrowHasOneGround(Leaves(r), c, g);
        assert forall m :: m in [a, b] <==> m == a || m == b;
      }
  }

  lemma LeafViewers(m: Marking, c: Context)
    requires Constructed(m)
    ensures Views(m, c) <==> JointlyVisible([m], c)
  {
    if Views(m, c) {
      if Released(m) != {} {
        var l := SomeElement(Released(m) * c.releasability);
        GroundsOf(m, c, ByRelease(l));
        assert AdmitsAll([m], c, ByRelease(l));
      } else {
        GroundsOf(m, c, ByOrganisation);
        assert AdmitsAll([m], c, ByOrganisation);
      }
    }
    if g :| AdmitsAll([m], c, g) {
      assert m in [m];
    }
  }

  /** The viewers depend on which markings were joined, not on order, grouping or repetition. */
  lemma OrderAndGroupingDoNotMatter(s: JoinTree, t: JoinTree, c: Context)
    requires AllConstructed(Leaves(s)) && AllConstructed(Leaves(t))
    requires forall m :: m in Leaves(s) <==> m in Leaves(t)
    ensures Views(Joined(s), c) <==> Views(Joined(t), c)
  {
    TreeViewers(s, c);
    TreeViewers(t, c);
    forall g ensures AdmitsAll(Leaves(s), c, g) <==> AdmitsAll(Leaves(t), c, g) { }
  }

  // ---------------------------------------------------------------- egress

  const PUBLIC: Label := 1

  /** May input so marked be sent to a provider with this declared ceiling, or with none? */
  predicate EgressAdmitted(ceiling: Option<Marking>, effective: Marking) {
    match ceiling
    case None => Compartments(effective) == {} && effective.role == OBSERVER && PUBLIC in Released(effective)
    case Some(m) => Inherited(m, [Some(effective)]) == Some(m)
  }

  /** Input under a declared ceiling is open to everyone to whom the ceiling is. */
  lemma CeilingCoversInput(ceiling: Marking, effective: Marking, c: Context)
    requires Constructed(ceiling) && Constructed(effective) && EgressAdmitted(Some(ceiling), effective)
             && Views(ceiling, c)
    ensures Views(effective, c)
  {
    OneReference(ceiling, effective);
    var ms := [ceiling, effective];
    assert effective in ms && forall m :: m in ms ==> m == ceiling || m == effective;
    ConstructedInputIsCovered(ms, c, effective);
  }

  /** The least anyone cleared for public material holds. */
  const PUBLIC_READER: Context := Context(0, {}, {PUBLIC}, NoAuthority)

  /** Without a declared ceiling, exactly what every reader of public material may see is sent. */
  lemma NoPolicyMeansPublic(effective: Marking)
    requires Constructed(effective)
    ensures EgressAdmitted(None, effective) <==>
              forall c: Context :: 0 <= c.rank && PUBLIC in c.releasability ==> Views(effective, c)
  {
    if EgressAdmitted(None, effective) {
      forall c: Context | 0 <= c.rank && PUBLIC in c.releasability ensures Views(effective, c) {
        assert PUBLIC in Released(effective) * c.releasability;
      }
    }
    PublicReaderSees(effective);
    assert 0 <= PUBLIC_READER.rank && PUBLIC in PUBLIC_READER.releasability;
  }

  lemma PublicReaderSees(m: Marking)
    requires Constructed(m)
    ensures Views(m, PUBLIC_READER) <==> EgressAdmitted(None, m)
  {
    assert Released(m) * {PUBLIC} == if PUBLIC in Released(m) then {PUBLIC} else {};
  }

  /** A marking as the join itself writes one: no label twice. */
  predicate Canonical(m: Marking) {
    m.compartments == multiset(Compartments(m)) && m.releasability == multiset(Released(m))
      && Distinct(m.caveats) == m.caveats
  }

  /** Adding the input would change nothing about the ceiling. */
  predicate Under(effective: Marking, ceiling: Marking) {
    && Compartments(effective) <= Compartments(ceiling) && Rank(effective.role) <= Rank(ceiling.role)
    && (forall x :: x in effective.caveats ==> x in ceiling.caveats)
    && if Released(ceiling) != {} then Released(ceiling) <= Released(effective)
       else Released(effective) == {} && effective.authority == ceiling.authority
  }

  lemma {:induction false} DistinctAbsorbs(s: seq<Label>, t: seq<Label>)
    ensures Distinct(s) <= Distinct(s + t)
    ensures Distinct(s + t) == Distinct(s) <==> forall x :: x in t ==> x in s
  {
    if t == [] {
      assert s + t == s;
    } else {
      var front, last := t[..|t| - 1], t[|t| - 1];
      DistinctAbsorbs(s, front);
      assert s + t == (s + front) + [last] && (s + t)[..|s + t| - 1] == s + front;
      assert t == front + [last];
    }
  }

  lemma TwoMarkings(a: Marking, b: Marking)
    requires Constructed(a) && Constructed(b)
    ensures var ms := [a, b];
            && AllCompartments(ms) == Compartments(a) + Compartments(b)
            && SharedRelease(ms) == (if Released(a) != {} && Released(b) != {} then Released(a) * Released(b) else {})
            && HighestRole(ms) == (if Rank(b.role) > Rank(a.role) then b.role else a.role)
            && AllCaveats(ms) == a.caveats + b.caveats
            && (Unjoinable(ms) <==>
              SharedRelease(ms) == {} && (a.authority != b.authority || Released(a) != {} || Released(b) != {}))
  {
    var ms := [a, b];
    assert ms[..1] == [a] && [a][..0] == [];
    assert HighestRole([a]) == a.role && AllCaveats([]) == [] && AllCaveats([a]) == a.caveats;
    assert forall m :: m in ms <==> m == a || m == b;
    CompartmentsGrow([], a);
    CompartmentsGrow([a], b);
    assert [a] + [b] == ms && [] + [a] == [a];
    assert AllCompartments([]) == {};
  }

  /** A declared ceiling that is not itself sealed admits exactly the input that adds nothing to it. */
  lemma CeilingAdmitsIff(ceiling: Marking, effective: Marking)
    requires Constructed(ceiling) && Constructed(effective) && SEAL !in ceiling.compartments
    ensures EgressAdmitted(Some(ceiling), effective) <==> Canonical(ceiling) && Under(effective, ceiling)
  {
    var ms := [ceiling, effective];
    OneReference(ceiling, effective);
    InheritedOfConstructed(ceiling, [Some(effective)]);
    TwoMarkings(ceiling, effective);
    DistinctAbsorbs(ceiling.caveats, effective.caveats);
    if Join(ms).None? {
      assert SEAL in DenyAllSeal(ms).compartments;
    } else {
      JoinIsCeilingIff(ceiling, effective);
    }
  }

  lemma JoinIsCeilingIff(ceiling: Marking, effective: Marking)
    requires Constructed(ceiling) && Constructed(effective) && Join([ceiling, effective]).Some?
    ensures Join([ceiling, effective]).value == ceiling <==> Canonical(ceiling) && Under(effective, ceiling)
  {
    var ms := [ceiling, effective];
    TwoMarkings(ceiling, effective);
    DistinctAbsorbs(ceiling.caveats, effective.caveats);
    var j := Join(ms).value;
    if j == ceiling {
      assert Compartments(j) == AllCompartments(ms) && Released(j) == SharedRelease(ms);
      DistinctIsFixed(AllCaveats(ms));
    }
    if Canonical(ceiling) && Under(effective, ceiling) {
      assert AllCompartments(ms) == Compartments(ceiling);
      assert SharedRelease(ms) == Released(ceiling);
    }
  }

  lemma {:induction false} DistinctIsFixed(s: seq<Label>)
    ensures Distinct(Distinct(s)) == Distinct(s)
  {
    if s != [] {
      var front, last := s[..|s| - 1], s[|s| - 1];
      DistinctIsFixed(front);
      if last !in Distinct(front) { assert (Distinct(front) + [last])[..|Distinct(front)|] == Distinct(front); }
    }
  }
}
