/** rellic's rule-based statement simplification: per node kind, a visit
    decides whether to record a substitution for the node it is given. The
    traversal that calls the visits, and the base class that applies the
    recorded substitutions, are represented by a sequence of `Visit` events. */
module StmtCombine {
  import opened Ast
  import opened Util

  // ---------------------------------------------------------------------
  // DerefAddrOfRule
  // ---------------------------------------------------------------------

  /** The rule's pattern, clang's `unaryOperator()` matcher */
  predicate IsUnaryOperator(s: Stmt) {
    s.UnaryOperator?
  }

  /** The dereference-of-address-of inference rule. `captured` is the node the
      last match captured (`None` when nothing is captured). */
  class DerefAddrOfRule {
    var captured: StmtPtr

    constructor ()
      ensures captured == None
    {
      captured := None;
    }

    /** `operator bool`: a match is active */
    predicate Matched()
      reads this
    {
      captured.Some?
    }

    /** The matcher callback for a node satisfying the pattern. Whatever a
        rule captures is that node; this rule's callback only logs. */
    method Run(matched: Stmt)
      requires IsUnaryOperator(matched) && captured == None
      modifies this
      ensures captured == None || captured == Some(matched)
    {
    }

    /** May only be asked about the captured node; declines to substitute */
    method GetOrCreateSubstitution(loop: Stmt) returns (sub: StmtPtr)
      requires captured == Some(loop)
      ensures sub == None
    {
      sub := None;
    }
  }

  // ---------------------------------------------------------------------
  // The if-statement policy
  // ---------------------------------------------------------------------

  /** The condition is an integer constant whose value is zero */
  predicate CondIsFalseConstant(ctx: AstContext, ifstmt: Stmt)
    requires ifstmt.IfStmt?
  {
    var val := ctx.IntegerConstantExpr(ifstmt.cond);
    val.Some? && val.value == 0
  }

  /** The then-branch is a compound statement with no statement in it */
  predicate ThenIsEmpty(ifstmt: Stmt)
    requires ifstmt.IfStmt?
  {
    if ifstmt.thenStmt.CompoundStmt? then ifstmt.thenStmt.body == [] else false
  }

  /** VisitIfStmt records the if-statement for deletion */
  predicate RemovesIf(ctx: AstContext, ifstmt: Stmt)
    requires ifstmt.IfStmt?
  {
    CondIsFalseConstant(ctx, ifstmt) || ThenIsEmpty(ifstmt)
  }

  /** The policy in terms of the if-statement's parts: the else-branch is never consulted */
  lemma RemovesIfExactly(ctx: AstContext, cond: Stmt, thenStmt: Stmt, elseStmt: Option<Stmt>)
    ensures RemovesIf(ctx, IfStmt(cond, thenStmt, elseStmt))
        <==> ctx.IntegerConstantExpr(cond) == Some(0) || thenStmt == CompoundStmt([])
    ensures RemovesIf(ctx, IfStmt(cond, thenStmt, elseStmt)) == RemovesIf(ctx, IfStmt(cond, thenStmt, None))
  {
  }

  /** `if (0) ...` is removed whatever its branches hold */
  lemma FalseConstantRemoves(ctx: AstContext, cond: Stmt, thenStmt: Stmt, elseStmt: Option<Stmt>)
    requires ctx.IntegerConstantExpr(cond) == Some(0)
    ensures RemovesIf(ctx, IfStmt(cond, thenStmt, elseStmt))
  {
  }

  /** `if (c) {} else ...` is removed whatever the condition and the else-branch */
  lemma EmptyThenRemoves(ctx: AstContext, cond: Stmt, elseStmt: Option<Stmt>)
    ensures RemovesIf(ctx, IfStmt(cond, CompoundStmt([]), elseStmt))
  {
  }

  /** A non-constant or nonzero condition with a then-branch that is not an
      empty compound keeps the if-statement; a then-branch that is not a
      compound never counts as empty. */
  lemma OtherIfsKept(ctx: AstContext, cond: Stmt, thenStmt: Stmt, elseStmt: Option<Stmt>)
    requires ctx.IntegerConstantExpr(cond).None? || ctx.IntegerConstantExpr(cond).value != 0
    requires !thenStmt.CompoundStmt? || thenStmt.body != []
    ensures !RemovesIf(ctx, IfStmt(cond, thenStmt, elseStmt))
  {
  }

  // ---------------------------------------------------------------------
  // The compound-statement policy
  // ---------------------------------------------------------------------

  /** A body slot survives: it is not null, and it is not an expression or
      it is an expression with side effects. */
  predicate Keeps(ctx: AstContext, s: StmtPtr) {
    s.Some? && (!s.value.IsExpr() || ctx.HasSideEffects(s.value))
  }

  /** The rebuilt body, accumulated left to right */
  function KeptBody(ctx: AstContext, body: seq<StmtPtr>): seq<StmtPtr> {
    if body == [] then []
    else
      var last := body[|body| - 1];
      KeptBody(ctx, body[..|body| - 1]) + (if Keeps(ctx, last) then [last] else [])
  }

  /** VisitCompoundStmt records the rebuilt block */
  predicate RecordsCompound(changed: bool, body: seq<StmtPtr>, kept: seq<StmtPtr>) {
    changed || |kept| < |body|
  }

  /** `a` is `b` with some elements left out, the rest in their order */
  predicate IsSubsequence<T(==)>(a: seq<T>, b: seq<T>)
    decreases |b|
  {
    if a == [] then true
    else if b == [] then false
    else (a[|a| - 1] == b[|b| - 1] && IsSubsequence(a[..|a| - 1], b[..|b| - 1]))
         || IsSubsequence(a, b[..|b| - 1])
  }

  lemma {:induction false} KeptBodyIsSubsequence(ctx: AstContext, body: seq<StmtPtr>)
    ensures IsSubsequence(KeptBody(ctx, body), body)
  {
    if body != [] {
      var init, last := body[..|body| - 1], body[|body| - 1];
      KeptBodyIsSubsequence(ctx, init);
      var k := KeptBody(ctx, init);
      if Keeps(ctx, last) {
        assert (k + [last])[..|k|] == k;
      } else if k != [] {
        assert KeptBody(ctx, body) == k;
        assert IsSubsequence(k, body[..|body| - 1]);
      }
    }
  }

  /** Each statement occurs in the new body exactly as often as in the old
      one when it is kept, and not at all otherwise. */
  lemma {:induction false} KeptBodyCounts(ctx: AstContext, body: seq<StmtPtr>)
    ensures forall s :: multiset(KeptBody(ctx, body))[s] == if Keeps(ctx, s) then multiset(body)[s] else 0
  {
    if body != [] {
      var init, last := body[..|body| - 1], body[|body| - 1];
      KeptBodyCounts(ctx, init);
      assert body == init + [last];
      assert multiset(body) == multiset(init) + multiset{last};
    }
  }

  /** Membership: the new body holds exactly the kept statements of the old one */
  lemma KeptBodyMembers(ctx: AstContext, body: seq<StmtPtr>)
    ensures forall s :: s in KeptBody(ctx, body) <==> s in body && Keeps(ctx, s)
  {
    KeptBodyCounts(ctx, body);
    forall s
      ensures s in KeptBody(ctx, body) <==> s in body && Keeps(ctx, s)
    {
      assert s in KeptBody(ctx, body) <==> multiset(KeptBody(ctx, body))[s] > 0;
      assert s in body <==> multiset(body)[s] > 0;
    }
  }

  /** The new body is never longer, and is shorter exactly when some slot is dropped */
  lemma {:induction false} KeptBodyLength(ctx: AstContext, body: seq<StmtPtr>)
    ensures |KeptBody(ctx, body)| <= |body|
    ensures |KeptBody(ctx, body)| < |body| <==> exists i :: 0 <= i < |body| && !Keeps(ctx, body[i])
  {
    if body != [] {
      var init := body[..|body| - 1];
      KeptBodyLength(ctx, init);
      if exists i :: 0 <= i < |init| && !Keeps(ctx, init[i]) {
        var i :| 0 <= i < |init| && !Keeps(ctx, init[i]);
        assert body[i] == init[i];
      }
      if exists i :: 0 <= i < |body| && !Keeps(ctx, body[i]) {
        var i :| 0 <= i < |body| && !Keeps(ctx, body[i]);
        if i < |init| {
          assert init[i] == body[i];
        }
      }
    }
  }

  // ---------------------------------------------------------------------
  // Pass state and the abstract traversal
  // ---------------------------------------------------------------------

  /** One event of the traversal: a visit of one node, or the base visitor
      replacing, from the map recorded so far, the child slots `children` of
      some node. */
  datatype Visit =
    | UnaryOperatorVisit(op: Stmt)
    | IfStmtVisit(ifstmt: Stmt)
    | CompoundStmtVisit(compound: Stmt)
    | ChildrenReplaced(children: seq<StmtPtr>)

  /** The traversal calls each visit on a node of its kind */
  predicate WellDispatched(v: Visit) {
    match v
    case UnaryOperatorVisit(op) => op.UnaryOperator?
    case IfStmtVisit(s) => s.IfStmt?
    case CompoundStmtVisit(c) => c.CompoundStmt?
    case ChildrenReplaced(_) => true
  }

  predicate AllDispatched(visits: seq<Visit>) {
    forall i :: 0 <= i < |visits| ==> WellDispatched(visits[i])
  }

  datatype PassState = PassState(substitutions: StmtMap, changed: bool)

  /** The map key an event may write */
  function Written(v: Visit): set<StmtPtr> {
    match v
    case IfStmtVisit(s) => {Some(s)}
    case CompoundStmtVisit(c) => {Some(c)}
    case _ => {}
  }

  /** The pass state after one event */
  function Step(ctx: AstContext, st: PassState, v: Visit): PassState
    requires WellDispatched(v)
  {
    match v
    case UnaryOperatorVisit(_) => st
    case IfStmtVisit(s) =>
      if RemovesIf(ctx, s) then st.(substitutions := st.substitutions[Some(s) := None]) else st
    case CompoundStmtVisit(c) =>
      var kept := KeptBody(ctx, c.body);
      if RecordsCompound(st.changed, c.body, kept)
      then st.(substitutions := st.substitutions[Some(c) := Some(CompoundStmt(kept))])
      else st
    case ChildrenReplaced(children) => st.(changed := st.changed || AnyKey(children, st.substitutions))
  }

  /** The pass state after `Initialize` and the events of `visits` in order */
  function Run(ctx: AstContext, visits: seq<Visit>): PassState
    requires AllDispatched(visits)
  {
    if visits == [] then PassState(map[], false)
    else Step(ctx, Run(ctx, visits[..|visits| - 1]), visits[|visits| - 1])
  }

  /** One event writes at most the key of the node it visits, and keeps every other entry */
  lemma StepWritesOnlyVisitedKey(ctx: AstContext, st: PassState, v: Visit)
    requires WellDispatched(v)
    ensures st.substitutions.Keys <= Step(ctx, st, v).substitutions.Keys
    ensures forall k :: k in st.substitutions && k !in Written(v) ==>
              Step(ctx, st, v).substitutions[k] == st.substitutions[k]
    ensures forall k :: k in Step(ctx, st, v).substitutions && k !in st.substitutions ==> k in Written(v)
    ensures !v.ChildrenReplaced? ==> Step(ctx, st, v).changed == st.changed
  {
  }

  /** A compound visit writes its key exactly when `changed` is set or a slot is dropped */
  lemma CompoundStepRecordsIff(ctx: AstContext, st: PassState, c: Stmt)
    requires c.CompoundStmt?
    ensures (st.changed || exists i :: 0 <= i < |c.body| && !Keeps(ctx, c.body[i])) ==>
              Step(ctx, st, CompoundStmtVisit(c)).substitutions
                == st.substitutions[Some(c) := Some(CompoundStmt(KeptBody(ctx, c.body)))]
    ensures !(st.changed || exists i :: 0 <= i < |c.body| && !Keeps(ctx, c.body[i])) ==>
              Step(ctx, st, CompoundStmtVisit(c)) == st
  {
    KeptBodyLength(ctx, c.body);
  }

  /** Every key of the final map is the node of some if- or compound-statement visit */
  lemma {:induction false} RunKeysVisited(ctx: AstContext, visits: seq<Visit>)
    requires AllDispatched(visits)
    ensures forall k :: k in Run(ctx, visits).substitutions ==>
              exists i :: 0 <= i < |visits| && k in Written(visits[i])
  {
    if visits != [] {
      var init := visits[..|visits| - 1];
      RunKeysVisited(ctx, init);
      StepWritesOnlyVisitedKey(ctx, Run(ctx, init), visits[|visits| - 1]);
      forall k | k in Run(ctx, visits).substitutions
        ensures exists i :: 0 <= i < |visits| && k in Written(visits[i])
      {
        if k in Run(ctx, init).substitutions {
          var i :| 0 <= i < |init| && k in Written(init[i]);
          assert visits[i] == init[i];
        } else {
          assert k in Written(visits[|visits| - 1]);
        }
      }
    }
  }

  /** Event `i` replaces children, and one of its slots is a key of the map
      recorded by the events before it */
  predicate ReplacementHits(ctx: AstContext, visits: seq<Visit>, i: int)
    requires AllDispatched(visits) && 0 <= i < |visits|
  {
    visits[i].ChildrenReplaced? && AnyKey(visits[i].children, Run(ctx, visits[..i]).substitutions)
  }

  /** The pass reports a change exactly when the base visitor replaced some child */
  lemma {:induction false} RunChangedIff(ctx: AstContext, visits: seq<Visit>)
    requires AllDispatched(visits)
    ensures Run(ctx, visits).changed <==> exists i :: 0 <= i < |visits| && ReplacementHits(ctx, visits, i)
  {
    if visits != [] {
      var init := visits[..|visits| - 1];
      RunChangedIff(ctx, init);
      var last := visits[|init|];
      assert visits[..|init|] == init;
      assert ReplacementHits(ctx, visits, |init|)
          <==> last.ChildrenReplaced? && AnyKey(last.children, Run(ctx, init).substitutions);
      forall i | 0 <= i < |init|
        ensures ReplacementHits(ctx, init, i) == ReplacementHits(ctx, visits, i)
      {
        assert init[..i] == visits[..i];
      }
      if exists i :: 0 <= i < |init| && ReplacementHits(ctx, init, i) {
        var i :| 0 <= i < |init| && ReplacementHits(ctx, init, i);
        assert ReplacementHits(ctx, visits, i);
      }
      if exists i :: 0 <= i < |visits| && ReplacementHits(ctx, visits, i) {
        var i :| 0 <= i < |visits| && ReplacementHits(ctx, visits, i);
        if i < |init| {
          assert ReplacementHits(ctx, init, i);
        }
      }
    }
  }

  /** A change is reported only once some substitution has been recorded */
  lemma {:induction false} ChangedOnlyAfterSubstitution(ctx: AstContext, visits: seq<Visit>)
    requires AllDispatched(visits)
    ensures Run(ctx, visits).changed ==> Run(ctx, visits).substitutions != map[]
  {
    if visits != [] {
      var init, last := visits[..|visits| - 1], visits[|visits| - 1];
      ChangedOnlyAfterSubstitution(ctx, init);
      var st := Run(ctx, init);
      StepWritesOnlyVisitedKey(ctx, st, last);
      if st.changed {
        var k :| k in st.substitutions;
        assert k in Run(ctx, visits).substitutions;
      } else if last.ChildrenReplaced? && AnyKey(last.children, st.substitutions) {
        AnyKeyExists(last.children, st.substitutions);
        var i :| 0 <= i < |last.children| && last.children[i] in st.substitutions;
        assert last.children[i] in Run(ctx, visits).substitutions;
      }
    }
  }

  /** The traversal with its unary-operator visits left out */
  function WithoutUnaryVisits(visits: seq<Visit>): (r: seq<Visit>)
    ensures |r| <= |visits|
    ensures forall j :: 0 <= j < |r| ==> !r[j].UnaryOperatorVisit?
    ensures AllDispatched(visits) ==> AllDispatched(r)
  {
    if visits == [] then []
    else
      var last := visits[|visits| - 1];
      WithoutUnaryVisits(visits[..|visits| - 1]) + (if last.UnaryOperatorVisit? then [] else [last])
  }

  /** Unary-operator visits never affect the pass */
  lemma {:induction false} UnaryVisitsHaveNoEffect(ctx: AstContext, visits: seq<Visit>)
    requires AllDispatched(visits)
    ensures Run(ctx, WithoutUnaryVisits(visits)) == Run(ctx, visits)
  {
    if visits != [] {
      var init, last := visits[..|visits| - 1], visits[|visits| - 1];
      UnaryVisitsHaveNoEffect(ctx, init);
      var w := WithoutUnaryVisits(init);
      if last.UnaryOperatorVisit? {
        assert WithoutUnaryVisits(visits) == w;
        assert Run(ctx, visits) == Run(ctx, init);
      } else {
        var ws := w + [last];
        assert WithoutUnaryVisits(visits) == ws;
        assert ws[..|w|] == w;
        assert ws[|ws| - 1] == last;
        assert Run(ctx, ws) == Step(ctx, Run(ctx, w), last);
      }
    }
  }

  /** Every if-statement a visit records for deletion is still recorded for deletion at the end */
  lemma {:induction false} RunKeepsRemovedIfs(ctx: AstContext, visits: seq<Visit>)
    requires AllDispatched(visits)
    ensures forall i :: 0 <= i < |visits| && visits[i].IfStmtVisit? && RemovesIf(ctx, visits[i].ifstmt) ==>
              Some(visits[i].ifstmt) in Run(ctx, visits).substitutions
              && Run(ctx, visits).substitutions[Some(visits[i].ifstmt)] == None
  {
    if visits != [] {
      var init, last := visits[..|visits| - 1], visits[|visits| - 1];
      RunKeepsRemovedIfs(ctx, init);
      forall i | 0 <= i < |visits| && visits[i].IfStmtVisit? && RemovesIf(ctx, visits[i].ifstmt)
        ensures Some(visits[i].ifstmt) in Run(ctx, visits).substitutions
        ensures Run(ctx, visits).substitutions[Some(visits[i].ifstmt)] == None
      {
        var s := visits[i].ifstmt;
        if i < |init| {
          assert init[i] == visits[i];
          assert Some(s) in Run(ctx, init).substitutions && Run(ctx, init).substitutions[Some(s)] == None;
          assert WellDispatched(last);
          StepWritesOnlyVisitedKey(ctx, Run(ctx, init), last);
          if last.CompoundStmtVisit? {
            assert Some(s) !in Written(last);
          }
        }
      }
    }
  }

  // ---------------------------------------------------------------------
  // The pass
  // ---------------------------------------------------------------------

  /** The statement-combination pass: the substitutions recorded so far and
      whether the traversal has changed the tree. */
  class StmtCombine {
    const ctx: AstContext
    var substitutions: StmtMap
    var changed: bool

    constructor (ctx: AstContext)
      ensures this.ctx == ctx && substitutions == map[] && !changed
    {
      this.ctx := ctx;
      substitutions := map[];
      changed := false;
    }

    function State(): PassState
      reads this
    {
      PassState(substitutions, changed)
    }

    method Initialize()
      modifies this
      ensures substitutions == map[] && !changed
    {
      substitutions := map[];
      changed := false;
    }

    method VisitUnaryOperator(op: Stmt) returns (r: bool)
      requires op.UnaryOperator?
      modifies this
      ensures r
      ensures substitutions == old(substitutions) && changed == old(changed)
    {
      var rule := new DerefAddrOfRule();
      if IsUnaryOperator(op) {
        rule.Run(op);
      }
      var sub: StmtPtr := None;
      if rule.Matched() {
        sub := rule.GetOrCreateSubstitution(op);
      }
      substitutions := if sub.Some? then substitutions[Some(op) := sub] else substitutions;
      r := true;
    }

    method VisitIfStmt(ifstmt: Stmt) returns (r: bool)
      requires ifstmt.IfStmt?
      modifies this
      ensures r
      ensures changed == old(changed)
      ensures substitutions == if RemovesIf(ctx, ifstmt)
                               then old(substitutions)[Some(ifstmt) := None]
                               else old(substitutions)
    {
      var val := ctx.IntegerConstantExpr(ifstmt.cond);
      var isConst := val.Some?;
      var isEmpty := if ifstmt.thenStmt.CompoundStmt? then ifstmt.thenStmt.body == [] else false;
      if (isConst && val.value == 0) || isEmpty {
        substitutions := substitutions[Some(ifstmt) := None];
      }
      r := true;
    }

    method VisitCompoundStmt(compound: Stmt) returns (r: bool)
      requires compound.CompoundStmt?
      modifies this
      ensures r
      ensures changed == old(changed)
      ensures substitutions == if RecordsCompound(changed, compound.body, KeptBody(ctx, compound.body))
                               then old(substitutions)[Some(compound) := Some(CompoundStmt(KeptBody(ctx, compound.body)))]
                               else old(substitutions)
    {
      var body := compound.body;
      var newBody: seq<StmtPtr> := [];
      for i := 0 to |body|
        invariant newBody == KeptBody(ctx, body[..i])
      {
        assert body[..i + 1][..i] == body[..i];
        var stmt := body[i];
        if stmt.None? {
          continue;
        }
        if stmt.value.IsExpr() {
          if ctx.HasSideEffects(stmt.value) {
            newBody := newBody + [stmt];
          }
        } else {
          newBody := newBody + [stmt];
        }
      }
      assert body[..|body|] == body;
      if changed || |newBody| < |body| {
        substitutions := substitutions[Some(compound) := Some(CompoundStmt(newBody))];
      }
      r := true;
    }

    /** Resets the pass, runs the traversal's events in order and reports `changed` */
    method RunOnModule(visits: seq<Visit>) returns (r: bool)
      requires AllDispatched(visits)
      modifies this
      ensures State() == Run(ctx, visits)
      ensures r == changed
    {
      Initialize();
      for i := 0 to |visits|
        invariant State() == Run(ctx, visits[..i])
      {
        assert visits[..i + 1][..i] == visits[..i];
        // Every visit returns true, so the traversal is never cut short
        var ok: bool;
        match visits[i]
        case UnaryOperatorVisit(op) =>
          ok := VisitUnaryOperator(op);
        case IfStmtVisit(s) =>
          ok := VisitIfStmt(s);
        case CompoundStmtVisit(c) =>
          ok := VisitCompoundStmt(c);
        case ChildrenReplaced(children) =>
          var slots := new StmtPtr[|children|](j requires 0 <= j < |children| => children[j]);
          assert slots[..] == children;
          var hit := ReplaceChildren(slots, substitutions);
          changed := changed || hit;
      }
      assert visits[..|visits|] == visits;
      r := changed;
    }
  }
}
