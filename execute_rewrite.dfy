/**
 * `changeAsyncTaskExecuteToRx` as a function of the member list: four passes
 * over the references to the task class, each a fold whose step is one PSI
 * edit, and what the whole rewrite keeps and removes.
 */
module ExecuteRewrite {
  import opened Psi
  import opened PsiEdits
  import opened RefactorText
  import opened Wrappers

  /** The search result is not the type of a declaration (those are skipped). */
  predicate Collected(r: Reference) {
    r.parent != TypeElementParent
  }

  /** `new Task()` initialises a local variable: its uses are the execute calls. */
  predicate IsLocalVariableRef(r: Reference) {
    Collected(r) && r.grandparent == LocalVariableGrandparent
  }

  /** `new Task().execute(...)`: the reference's great-grandparent is the call. */
  predicate IsDirectCallRef(r: Reference) {
    Collected(r) && r.grandparent != LocalVariableGrandparent && r.call.Some?
  }

  /** `initializeBehaviorSubject` on the method holding the reference, when the task reports progress. */
  function Wire(ms: seq<Member>, r: Reference, progress: bool): seq<Member> {
    if Collected(r) && progress then AttachToFirstInMembers(ms, r.stmt, ProgressWiring) else ms
  }

  function WireAll(ms: seq<Member>, refs: seq<Reference>, progress: bool): seq<Member> {
    if refs == [] then ms
    else Wire(WireAll(ms, refs[..|refs| - 1], progress), refs[|refs| - 1], progress)
  }

  /** `executeReference`: the uses of every task-typed local variable, in search order. */
  function VariableUses(refs: seq<Reference>): seq<CallSite> {
    if refs == [] then []
    else
      var r := refs[|refs| - 1];
      VariableUses(refs[..|refs| - 1]) + (if IsLocalVariableRef(r) then r.variableUses else [])
  }

  /** `localVariables`: the declaration statements of those variables. */
  function LocalVariables(refs: seq<Reference>): seq<StmtId> {
    if refs == [] then []
    else
      var r := refs[|refs| - 1];
      LocalVariables(refs[..|refs| - 1]) + (if IsLocalVariableRef(r) then [r.stmt] else [])
  }

  /** `executeDirectCalls` */
  function DirectCalls(refs: seq<Reference>): seq<CallSite> {
    if refs == [] then []
    else
      var r := refs[|refs| - 1];
      DirectCalls(refs[..|refs| - 1]) + (if IsDirectCallRef(r) then [r.call.value] else [])
  }

  function PreStmts(pre: bool): seq<Stmt> {
    if pre then [PreExecuteCall] else []
  }

  /**
   * `addOnPreExecute` then `generateRxCode` on one call: the pre-execute call
   * goes before the call's statement, which is replaced by the pipeline
   * statement followed by the registration of its subscription.
   */
  function RewriteCall(ms: seq<Member>, c: CallSite, pre: bool): seq<Member> {
    SpliceMembers(ms, c.stmt, PreStmts(pre), false, [RxStatement(c.args), AddSubscription])
  }

  function RewriteCalls(ms: seq<Member>, cs: seq<CallSite>, pre: bool): seq<Member> {
    if cs == [] then ms
    else RewriteCall(RewriteCalls(ms, cs[..|cs| - 1], pre), cs[|cs| - 1], pre)
  }

  function DeleteAll(ms: seq<Member>, ids: seq<StmtId>): seq<Member> {
    if ids == [] then ms
    else SpliceMembers(DeleteAll(ms, ids[..|ids| - 1]), ids[|ids| - 1], [], false, [])
  }

  /**
   * The direct-call pass hands `addOnPreExecute` the call's own
   * `getReference()`, which a method call expression does not have: on a
   * task with the pre-execute hook the first direct call throws before any
   * edit of its own.
   */
  predicate DirectPreExecuteThrows(refs: seq<Reference>, pre: bool) {
    pre && DirectCalls(refs) != []
  }

  /**
   * The four passes in the order the source runs them; when the direct-call
   * pass throws, the members as the first three passes left them.
   */
  function ExecuteToRx(ms: seq<Member>, refs: seq<Reference>, progress: bool, pre: bool): seq<Member> {
    var wired := WireAll(ms, refs, progress);
    var viaVariables := RewriteCalls(wired, VariableUses(refs), pre);
    var declarationsGone := DeleteAll(viaVariables, LocalVariables(refs));
    if DirectPreExecuteThrows(refs, pre) then declarationsGone
    else RewriteCalls(declarationsGone, DirectCalls(refs), pre)
  }

  function CallStmts(cs: seq<CallSite>): set<StmtId> {
    set c | c in cs :: c.stmt
  }

  /** The statements the passes over task variables take out: their execute calls and their declarations. */
  function VariableIds(refs: seq<Reference>): set<StmtId> {
    CallStmts(VariableUses(refs)) + (set id | id in LocalVariables(refs))
  }

  /** The statements the rewrite takes out: every execute call and every task variable's declaration. */
  function RemovedIds(refs: seq<Reference>): set<StmtId> {
    VariableIds(refs) + CallStmts(DirectCalls(refs))
  }

  /** Some method of the member list holds the source statement `x`. */
  predicate MentionsId(ms: seq<Member>, x: StmtId) {
    exists i :: 0 <= i < |ms| && ms[i].MethodMember? && ContainsId(ms[i].decl.body, x)
  }

  /** Only method bodies differ: same members in the same places, methods with the same signature. */
  predicate SameShape(a: seq<Member>, b: seq<Member>) {
    && |a| == |b|
    && (forall i :: 0 <= i < |a| ==> (a[i].MethodMember? <==> b[i].MethodMember?))
    && (forall i :: 0 <= i < |a| && !a[i].MethodMember? ==> a[i] == b[i])
    && (forall i :: 0 <= i < |a| && a[i].MethodMember? ==> a[i].decl.(body := []) == b[i].decl.(body := []))
  }

  lemma SpliceMembersEffect(ms: seq<Member>, id: StmtId, before: seq<Stmt>, keep: bool, after: seq<Stmt>, x: StmtId)
    requires NoSource(before) && NoSource(after)
    ensures SameShape(ms, SpliceMembers(ms, id, before, keep, after))
    ensures MentionsId(SpliceMembers(ms, id, before, keep, after), x) <==> MentionsId(ms, x) && (x != id || keep)
  {
    var r := SpliceMembers(ms, id, before, keep, after);
    forall i | 0 <= i < |ms| && ms[i].MethodMember?
      ensures ContainsId(r[i].decl.body, x) <==> ContainsId(ms[i].decl.body, x) && (x != id || keep)
    {
      SpliceContains(ms[i].decl.body, id, before, keep, after, x);
    }
  }

  lemma AttachToFirstInMembersEffect(ms: seq<Member>, id: StmtId, child: Stmt, x: StmtId)
    ensures SameShape(ms, AttachToFirstInMembers(ms, id, child))
    ensures MentionsId(AttachToFirstInMembers(ms, id, child), x) <==> MentionsId(ms, x)
  {
    var r := AttachToFirstInMembers(ms, id, child);
    forall i | 0 <= i < |ms| && ms[i].MethodMember?
      ensures ContainsId(r[i].decl.body, x) <==> ContainsId(ms[i].decl.body, x)
    {
      var body := ms[i].decl.body;
      if ContainsId(body, id) {
        var body' := r[i].decl.body;
        assert |body'| == |body|;
        assert forall j :: 0 <= j < |body| ==> (HasId(body'[j], x) <==> HasId(body[j], x));
      }
    }
  }

  lemma SameShapeTrans(a: seq<Member>, b: seq<Member>, c: seq<Member>)
    requires SameShape(a, b) && SameShape(b, c)
    ensures SameShape(a, c)
  {
  }

  lemma {:induction false} WireAllEffect(ms: seq<Member>, refs: seq<Reference>, progress: bool, x: StmtId)
    ensures SameShape(ms, WireAll(ms, refs, progress))
    ensures MentionsId(WireAll(ms, refs, progress), x) <==> MentionsId(ms, x)
  {
    if refs != [] {
      var init := refs[..|refs| - 1];
      var r := refs[|refs| - 1];
      WireAllEffect(ms, init, progress, x);
      if Collected(r) && progress {
        AttachToFirstInMembersEffect(WireAll(ms, init, progress), r.stmt, ProgressWiring, x);
        SameShapeTrans(ms, WireAll(ms, init, progress), WireAll(ms, refs, progress));
      }
    }
  }

  /**
   * Wiring leaves every method body as long as it was, with the same
   * statements in the same places; only what is attached inside a method's
   * first statement grows.
   */
  lemma {:induction false} WireAllGrows(ms: seq<Member>, refs: seq<Reference>, progress: bool, i: nat)
    requires i < |ms| && ms[i].MethodMember?
    ensures var w := WireAll(ms, refs, progress);
      var b := ms[i].decl.body;
      && |w| == |ms| && w[i].MethodMember?
      && |w[i].decl.body| == |b|
      && (forall j :: 0 <= j < |b| ==>
            w[i].decl.body[j].Source? == b[j].Source? && (b[j].Source? ==> w[i].decl.body[j].id == b[j].id))
      && (b != [] ==> b[0].attached <= w[i].decl.body[0].attached)
  {
    if refs != [] {
      var init := refs[..|refs| - 1];
      WireAllGrows(ms, init, progress, i);
    }
  }

  /**
   * `initializeBehaviorSubject`: once some reference sits in a method, the
   * progress wiring is inside that method's first statement.
   */
  lemma {:induction false} WireAllAttaches(ms: seq<Member>, refs: seq<Reference>, i: nat, k: nat)
    requires i < |ms| && ms[i].MethodMember? && k < |refs|
    requires Collected(refs[k]) && ContainsId(ms[i].decl.body, refs[k].stmt)
    ensures var w := WireAll(ms, refs, true);
      && |w| == |ms| && w[i].MethodMember? && w[i].decl.body != []
      && ProgressWiring in w[i].decl.body[0].attached
  {
    var init := refs[..|refs| - 1];
    var last := refs[|refs| - 1];
    var b := ms[i].decl.body;
    WireAllGrows(ms, init, true, i);
    var wi := WireAll(ms, init, true);
    var b' := wi[i].decl.body;
    if k == |refs| - 1 {
      var j :| 0 <= j < |b| && HasId(b[j], last.stmt);
      assert HasId(b'[j], last.stmt);
      assert WireAll(ms, refs, true)[i].decl.body[0] == Attach(b'[0], ProgressWiring);
    } else {
      assert init[k] == refs[k];
      WireAllAttaches(ms, init, i, k);
      if Collected(last) && ContainsId(b', last.stmt) {
        assert WireAll(ms, refs, true)[i].decl.body[0] == Attach(b'[0], ProgressWiring);
      }
    }
  }

  /** `Download d = new Download();`, statement 1 of the example below. */
  const ExampleDecl: Stmt := Source(1, [New("new Download()", [])], [])

  /** `d.execute(url);`, statement 2. */
  const ExampleCall: Stmt := Source(2, [Call(Select(Ref("d"), "execute"), [Ref("url")])], [])

  const ExampleStart: Method := Method("start", {}, [], [], [ExampleDecl, ExampleCall])

  /** The search result for `new Download()`: held by the local variable `d`, used once by `d.execute(url)`. */
  const ExampleRef: Reference :=
    Reference(0, NewExpressionParent, LocalVariableGrandparent, "d = new Download()", 1, None, [CallSite(2, ["url"])])

  const ExampleWired: Method := ExampleStart.(body := [Attach(ExampleDecl, ProgressWiring), ExampleCall])

  /** What is left of the body at the end. */
  const ExampleAfter: seq<Stmt> := [RxStatement(["url"]), AddSubscription]

  lemma ExampleWiring()
    ensures WireAll([MethodMember(ExampleStart)], [ExampleRef], true) == [MethodMember(ExampleWired)]
  {
    assert [ExampleRef][..0] == [];
    assert HasId(ExampleStart.body[0], 1);
    assert AttachToFirstIn(MethodMember(ExampleStart), 1, ProgressWiring) == MethodMember(ExampleWired);
  }

  /** Replacing the second of two statements. */
  lemma ReplaceSecond(a: Stmt, b: Stmt, id: StmtId, after: seq<Stmt>)
    requires HasId(b, id) && !HasId(a, id)
    ensures Splice([a, b], id, [], false, after) == [a] + after
  {
    assert [a, b] == [a] + [b] + [];
    assert !ContainsId([a], id) by { assert [a][0] == a; }
    SpliceAt([a], b, [], id, [], false, after);
    assert [a] + [] + [] + after + [] == [a] + after;
  }

  /** Deleting the first statement when no other one carries its id. */
  lemma DeleteFirst(a: Stmt, rest: seq<Stmt>, id: StmtId)
    requires HasId(a, id) && NoSource(rest)
    ensures Splice([a] + rest, id, [], false, []) == rest
  {
    assert [a] + rest == [] + [a] + rest;
    assert !ContainsId(rest, id);
    SpliceAt([], a, rest, id, [], false, []);
    assert [] + [] + [] + [] + rest == rest;
  }

  lemma ExampleCallRewritten()
    ensures RewriteCalls([MethodMember(ExampleWired)], VariableUses([ExampleRef]), false)
      == [MethodMember(ExampleWired.(body := [Attach(ExampleDecl, ProgressWiring)] + ExampleAfter))]
  {
    var ms := [MethodMember(ExampleWired)];
    var c := CallSite(2, ["url"]);
    var a := Attach(ExampleDecl, ProgressWiring);
    assert VariableUses([ExampleRef]) == [c];
    assert [c][..0] == [];
    assert RewriteCalls(ms, [c], false) == SpliceMembers(ms, 2, [], false, ExampleAfter);
    ReplaceSecond(a, ExampleCall, 2, ExampleAfter);
    assert SpliceMember(ms[0], 2, [], false, ExampleAfter) == MethodMember(ExampleWired.(body := [a] + ExampleAfter));
  }

  lemma ExampleDeclarationDeleted()
    ensures DeleteAll([MethodMember(ExampleWired.(body := [Attach(ExampleDecl, ProgressWiring)] + ExampleAfter))], LocalVariables([ExampleRef]))
      == [MethodMember(ExampleStart.(body := ExampleAfter))]
  {
    var a := Attach(ExampleDecl, ProgressWiring);
    var ms := [MethodMember(ExampleWired.(body := [a] + ExampleAfter))];
    assert LocalVariables([ExampleRef]) == [1];
    assert [1][..0] == [];
    assert DeleteAll(ms, [1]) == SpliceMembers(ms, 1, [], false, []);
    DeleteFirst(a, ExampleAfter, 1);
    assert SpliceMember(ms[0], 1, [], false, []) == MethodMember(ExampleStart.(body := ExampleAfter));
  }

  /**
   * `void start() { Download d = new Download(); d.execute(url); }` on a task
   * with a progress hook: the wiring sits inside the declaration, so deleting
   * the declaration takes it along, and the pipeline that passes
   * `progressSubject` is left with no declaration of it.
   */
  lemma WiringGoesWithDeclaration()
    ensures WireAll([MethodMember(ExampleStart)], [ExampleRef], true) == [MethodMember(ExampleWired)]
    ensures ProgressWiring in ExampleWired.body[0].attached
    ensures ExecuteToRx([MethodMember(ExampleStart)], [ExampleRef], true, false) == [MethodMember(ExampleStart.(body := ExampleAfter))]
  {
    ExampleWiring();
    assert DirectCalls([ExampleRef]) == [];
    ExampleCallRewritten();
    ExampleDeclarationDeleted();
  }

  /** Without an `onProgressUpdate` hook no method is wired to a progress subject. */
  lemma {:induction false} WireAllWithoutProgress(ms: seq<Member>, refs: seq<Reference>)
    ensures WireAll(ms, refs, false) == ms
  {
    if refs != [] {
      WireAllWithoutProgress(ms, refs[..|refs| - 1]);
    }
  }

  lemma {:induction false} RewriteCallsEffect(ms: seq<Member>, cs: seq<CallSite>, pre: bool, x: StmtId)
    ensures SameShape(ms, RewriteCalls(ms, cs, pre))
    ensures MentionsId(RewriteCalls(ms, cs, pre), x) <==> MentionsId(ms, x) && x !in CallStmts(cs)
  {
    if cs != [] {
      var init := cs[..|cs| - 1];
      var c := cs[|cs| - 1];
      RewriteCallsEffect(ms, init, pre, x);
      SpliceMembersEffect(RewriteCalls(ms, init, pre), c.stmt, PreStmts(pre), false, [RxStatement(c.args), AddSubscription], x);
      SameShapeTrans(ms, RewriteCalls(ms, init, pre), RewriteCalls(ms, cs, pre));
      assert cs == init + [c];
      assert CallStmts(cs) == CallStmts(init) + {c.stmt};
    }
  }

  lemma {:induction false} DeleteAllEffect(ms: seq<Member>, ids: seq<StmtId>, x: StmtId)
    ensures SameShape(ms, DeleteAll(ms, ids))
    ensures MentionsId(DeleteAll(ms, ids), x) <==> MentionsId(ms, x) && x !in ids
  {
    if ids != [] {
      var init := ids[..|ids| - 1];
      var id := ids[|ids| - 1];
      DeleteAllEffect(ms, init, x);
      SpliceMembersEffect(DeleteAll(ms, init), id, [], false, [], x);
      SameShapeTrans(ms, DeleteAll(ms, init), DeleteAll(ms, ids));
      assert ids == init + [id];
    }
  }

  /**
   * The rewrite changes only method bodies, takes out exactly the execute
   * calls and the task variables' declarations, and keeps every other
   * statement of the class.
   */
  lemma ExecuteToRxEffect(ms: seq<Member>, refs: seq<Reference>, progress: bool, pre: bool, x: StmtId)
    ensures SameShape(ms, ExecuteToRx(ms, refs, progress, pre))
    ensures !DirectPreExecuteThrows(refs, pre) ==>
      (MentionsId(ExecuteToRx(ms, refs, progress, pre), x) <==> MentionsId(ms, x) && x !in RemovedIds(refs))
    ensures DirectPreExecuteThrows(refs, pre) ==>
      (MentionsId(ExecuteToRx(ms, refs, progress, pre), x) <==> MentionsId(ms, x) && x !in VariableIds(refs))
  {
    var wired := WireAll(ms, refs, progress);
    var viaVariables := RewriteCalls(wired, VariableUses(refs), pre);
    var declarationsGone := DeleteAll(viaVariables, LocalVariables(refs));
    WireAllEffect(ms, refs, progress, x);
    RewriteCallsEffect(wired, VariableUses(refs), pre, x);
    DeleteAllEffect(viaVariables, LocalVariables(refs), x);
    RewriteCallsEffect(declarationsGone, DirectCalls(refs), pre, x);
    SameShapeTrans(ms, wired, viaVariables);
    SameShapeTrans(ms, viaVariables, declarationsGone);
    if !DirectPreExecuteThrows(refs, pre) {
      SameShapeTrans(ms, declarationsGone, ExecuteToRx(ms, refs, progress, pre));
    }
  }

  /**
   * One call, where its statement sits once in a method: the statements
   * around it are kept, and in its place come the pre-execute call (when the
   * task has that hook), the pipeline statement and the registration.
   */
  lemma RewriteCallAt(ms: seq<Member>, j: nat, p: seq<Stmt>, s: Stmt, q: seq<Stmt>, c: CallSite, pre: bool)
    requires j < |ms| && ms[j].MethodMember? && ms[j].decl.body == p + [s] + q
    requires HasId(s, c.stmt) && !ContainsId(p, c.stmt) && !ContainsId(q, c.stmt)
    ensures RewriteCall(ms, c, pre)[j].MethodMember?
    ensures RewriteCall(ms, c, pre)[j].decl.body == p + PreStmts(pre) + [RxStatement(c.args), AddSubscription] + q
  {
    SpliceAt(p, s, q, c.stmt, PreStmts(pre), false, [RxStatement(c.args), AddSubscription]);
  }
}
