/**
 * `AsyncTaskRefactor`: rewrites an inner `AsyncTask` subclass of a class into
 * reactive code in that class, step by step on the class's member list.
 */
module AsyncTaskRefactor {
  import opened Wrappers
  import opened Psi
  import opened PsiEdits
  import opened ReactivenessUtils
  import opened RefactorText
  import opened ExecuteRewrite
  import opened ProgressObserver
  import AsyncTaskInstance

  const OnProgressUpdate := AsyncTaskInstance.OnProgressUpdate
  const OnPreExecute := AsyncTaskInstance.OnPreExecute
  const OnDestroy := "onDestroy"
  const RxDoInBackground := "rxDoInBackground"

  /** Lines 74-75: some method of the task, inherited ones included, is `onProgressUpdate`. */
  function ProgressHookExists(task: ClassDecl): (r: bool)
    ensures r <==> exists i :: 0 <= i < |task.AllMethods()| && task.AllMethods()[i].name == OnProgressUpdate
  {
    AnyMethodNamed(task.AllMethods(), OnProgressUpdate)
  }

  /** Lines 76-77: some method of the task, inherited ones included, is `onPreExecute`. */
  function PreExecuteHookExists(task: ClassDecl): (r: bool)
    ensures r <==> exists i :: 0 <= i < |task.AllMethods()| && task.AllMethods()[i].name == OnPreExecute
  {
    AnyMethodNamed(task.AllMethods(), OnPreExecute)
  }

  /**
   * The task of `AsyncTaskInstance.PreExecuteFlagMissesOnPreExecute`, whose
   * only hook is `onPreExecute`: the flag computed here finds it, where the
   * snapshot's flag does not.
   */
  lemma PreExecuteHookFindsOnPreExecute()
    ensures var m := Method(OnPreExecute, {Protected}, ["Override"], [], []);
            var c := ClassDecl("Download", 0, Some(["AsyncTask"]), [MethodMember(m)], [], [], 0);
            PreExecuteHookExists(c) && !AsyncTaskInstance.Create(Some(c)).onPreExecuteExist
  {
    var m := Method(OnPreExecute, {Protected}, ["Override"], [], []);
    var c := ClassDecl("Download", 0, Some(["AsyncTask"]), [MethodMember(m)], [], [], 0);
    assert c.AllMethods() == [m] by {
      assert [MethodMember(m)][1..] == [];
    }
    assert c.AllMethods()[0].name == OnPreExecute;
  }

  /** The class has a method called `n`. */
  ghost predicate HasMethodNamed(ms: seq<Member>, n: string) {
    exists m :: MethodMember(m) in ms && m.name == n
  }

  /** Every field of `a` and every method name of `a` is still in `b`. */
  ghost predicate Keeps(a: seq<Member>, b: seq<Member>) {
    && (forall f :: FieldMember(f) in a ==> FieldMember(f) in b)
    && (forall n :: HasMethodNamed(a, n) ==> HasMethodNamed(b, n))
  }

  lemma KeepsTrans(a: seq<Member>, b: seq<Member>, c: seq<Member>)
    requires Keeps(a, b) && Keeps(b, c)
    ensures Keeps(a, c)
  {
  }

  lemma SupersetKeeps(a: seq<Member>, b: seq<Member>)
    requires forall m :: m in a && !m.ClassMember? ==> m in b
    ensures Keeps(a, b)
  {
    forall n | HasMethodNamed(a, n) ensures HasMethodNamed(b, n) {
      var m :| MethodMember(m) in a && m.name == n;
      assert MethodMember(m) in b;
    }
  }

  lemma SameShapeKeeps(a: seq<Member>, b: seq<Member>)
    requires SameShape(a, b)
    ensures Keeps(a, b)
  {
    forall f | FieldMember(f) in a ensures FieldMember(f) in b {
      var i :| 0 <= i < |a| && a[i] == FieldMember(f);
      assert b[i] == a[i];
    }
    forall n | HasMethodNamed(a, n) ensures HasMethodNamed(b, n) {
      var m :| MethodMember(m) in a && m.name == n;
      var i :| 0 <= i < |a| && a[i] == MethodMember(m);
      assert a[i].decl.(body := []).name == b[i].decl.(body := []).name;
      assert MethodMember(b[i].decl) in b;
    }
  }

  /** A member that is not a method stays where it is when only method bodies change. */
  lemma SameShapeMembers(a: seq<Member>, b: seq<Member>, m: Member)
    requires SameShape(a, b) && !m.MethodMember? && m in a
    ensures m in b
  {
    var i :| 0 <= i < |a| && a[i] == m;
    assert b[i] == m;
  }

  /** Replacing one method by one of the same name keeps the class's fields and method names. */
  lemma ReplaceMethodKeeps(ms: seq<Member>, k: nat, m: Method)
    requires k < |ms| && ms[k].MethodMember? && m.name == ms[k].decl.name
    ensures Keeps(ms, ms[k := MethodMember(m)])
  {
    var r := ms[k := MethodMember(m)];
    forall f | FieldMember(f) in ms ensures FieldMember(f) in r {
      var i :| 0 <= i < |ms| && ms[i] == FieldMember(f);
      assert r[i] == ms[i];
    }
    forall n | HasMethodNamed(ms, n) ensures HasMethodNamed(r, n) {
      var d :| MethodMember(d) in ms && d.name == n;
      var i :| 0 <= i < |ms| && ms[i] == MethodMember(d);
      if i == k { assert r[k] == MethodMember(m); } else { assert r[i] == ms[i]; }
    }
  }

  /** Every method of `a`, body and all, is a method of `b`: the statements of `a` are in `b`. */
  lemma MentionsIdSubset(a: seq<Member>, b: seq<Member>, x: StmtId)
    requires forall m :: MethodMember(m) in a ==> MethodMember(m) in b
    ensures MentionsId(a, x) ==> MentionsId(b, x)
  {
    if MentionsId(a, x) {
      var i :| 0 <= i < |a| && a[i].MethodMember? && ContainsId(a[i].decl.body, x);
      assert MethodMember(a[i].decl) in b;
      var j :| 0 <= j < |b| && b[j] == MethodMember(a[i].decl);
    }
  }

  /** Replacing one method by one holding the same statements leaves the statements of the class as they were. */
  lemma ReplaceMethodMentions(ms: seq<Member>, k: nat, m: Method, x: StmtId)
    requires k < |ms| && ms[k].MethodMember?
    requires ContainsId(m.body, x) <==> ContainsId(ms[k].decl.body, x)
    ensures MentionsId(ms[k := MethodMember(m)], x) <==> MentionsId(ms, x)
  {
    var r := ms[k := MethodMember(m)];
    if MentionsId(ms, x) {
      var i :| 0 <= i < |ms| && ms[i].MethodMember? && ContainsId(ms[i].decl.body, x);
      if i != k { assert r[i] == ms[i]; } else { assert r[k].decl == m; }
    }
    if MentionsId(r, x) {
      var i :| 0 <= i < |r| && r[i].MethodMember? && ContainsId(r[i].decl.body, x);
      if i != k { assert r[i] == ms[i]; } else { assert ms[k].MethodMember?; }
    }
  }

  // ---------------------------------------------------------------- step 0

  /**
   * `createCompositeDisposable` on the member list: the new field goes just
   * ahead of the class's first field; a class without fields makes
   * `allFields[0]` fail, given here as `None`.
   */
  function WithCompositeDisposable(ms: seq<Member>): (r: Option<seq<Member>>)
    ensures r.None? <==> FirstFieldIndex(ms).None?
    ensures r.Some? ==>
      var k := FirstFieldIndex(ms).value;
      && |r.value| == |ms| + 1 && r.value[k] == FieldMember(CompositeDisposableField)
      && r.value[..k] == ms[..k] && r.value[k + 1..] == ms[k..]
    ensures r.Some? ==> forall m :: m in r.value <==> m in ms || m == FieldMember(CompositeDisposableField)
  {
    match FirstFieldIndex(ms)
    case None => None
    case Some(k) =>
      InsertAtMembership(ms, k, [FieldMember(CompositeDisposableField)]);
      Some(ms[..k] + [FieldMember(CompositeDisposableField)] + ms[k..])
  }

  /** The generated field becomes the class's first field, and nothing else moves. */
  lemma CompositeDisposableFirst(ms: seq<Member>)
    requires WithCompositeDisposable(ms).Some?
    ensures var r := WithCompositeDisposable(ms).value;
            exists k :: 0 <= k < |r| && r[k] == FieldMember(CompositeDisposableField)
                        && (forall i :: 0 <= i < k ==> !r[i].FieldMember?)
                        && r[..k] + r[k + 1..] == ms
  {
    var r := WithCompositeDisposable(ms).value;
    var k := FirstFieldIndex(ms).value;
    assert r[..k] + r[k + 1..] == ms by {
      assert ms == ms[..k] + ms[k..];
    }
    assert forall i :: 0 <= i < k ==> r[i] == ms[i];
  }

  method CreateCompositeDisposable(p: ClassNode) returns (ok: bool)
    modifies p, p.file
    ensures p.file.imports == WithImport(old(p.file.imports), CompositeDisposableImport, p.file.isJava, p.file.hasImportList)
    ensures ok == WithCompositeDisposable(old(p.members)).Some?
    ensures ok ==> p.members == WithCompositeDisposable(old(p.members)).value
    ensures !ok ==> p.members == old(p.members)
  {
    AddImport(p.file, CompositeDisposableImport);
    var first := FirstFieldIndex(p.members);
    if first.None? {
      return false;
    }
    var k := first.value;
    p.members := p.members[..k] + [FieldMember(CompositeDisposableField)] + p.members[k..];
    ok := true;
  }

  // ---------------------------------------------------------------- step 1

  /**
   * `moveAsyncTaskFieldsToParentClass`: copies of the task's fields, inherited
   * ones included, in order, immediately before the inner class.
   */
  function WithFieldsBefore(ms: seq<Member>, name: string, fs: seq<Field>): (r: seq<Member>)
    requires ClassMember(name) in ms
  {
    var k := ClassIndex(ms, name).value;
    ms[..k] + FieldMembers(fs) + ms[k..]
  }

  /** The copies sit, in order, right in front of the inner class, and nothing else is added. */
  lemma WithFieldsBeforeEffect(ms: seq<Member>, name: string, fs: seq<Field>)
    requires ClassMember(name) in ms
    ensures var k := ClassIndex(ms, name).value;
            var r := WithFieldsBefore(ms, name, fs);
            && |r| == |ms| + |fs|
            && ClassIndex(r, name) == Some(k + |fs|)
            && r[k..k + |fs|] == FieldMembers(fs)
            && forall m :: m in r <==> m in ms || m in FieldMembers(fs)
  {
    var k := ClassIndex(ms, name).value;
    var xs := FieldMembers(fs);
    var r := WithFieldsBefore(ms, name, fs);
    assert r == ms[..k] + xs + ms[k..];
    InsertAtMembership(ms, k, xs);
    FieldsBeforeClassIndex(ms, k, name, xs, r);
  }

  lemma FieldsBeforeClassIndex(ms: seq<Member>, k: nat, name: string, xs: seq<Member>, r: seq<Member>)
    requires ClassIndex(ms, name) == Some(k)
    requires forall i :: 0 <= i < |xs| ==> xs[i].FieldMember?
    requires r == ms[..k] + xs + ms[k..]
    ensures ClassIndex(r, name) == Some(k + |xs|)
  {
    forall i | 0 <= i < k + |xs| ensures r[i] != ClassMember(name) {
      if i < k {
        assert r[i] == ms[i];
      } else {
        assert r[i] == xs[i - k];
      }
    }
    assert r[k + |xs|] == ms[k];
    ClassIndexFirst(r, name, k + |xs|);
  }

  lemma OneMoreField(ms: seq<Member>, k: nat, fs: seq<Field>, i: nat)
    requires k <= |ms| && i < |fs|
    ensures var before := ms[..k] + FieldMembers(fs[..i]) + ms[k..];
            before[..k + i] + [FieldMember(fs[i])] + before[k + i..] == ms[..k] + FieldMembers(fs[..i + 1]) + ms[k..]
  {
    var before := ms[..k] + FieldMembers(fs[..i]) + ms[k..];
    assert before[..k + i] == ms[..k] + FieldMembers(fs[..i]);
    assert before[k + i..] == ms[k..];
    assert FieldMembers(fs[..i + 1]) == FieldMembers(fs[..i]) + [FieldMember(fs[i])];
  }

  method MoveAsyncTaskFieldsToParentClass(p: ClassNode, task: ClassDecl)
    requires ClassMember(task.name) in p.members
    modifies p
    ensures p.members == WithFieldsBefore(old(p.members), task.name, task.AllFields())
  {
    var fs := task.AllFields();
    ghost var ms := p.members;
    var k := ClassIndex(p.members, task.name).value;
    var i := 0;
    while i < |fs|
      invariant 0 <= i <= |fs|
      invariant p.members == ms[..k] + FieldMembers(fs[..i]) + ms[k..]
    {
      FieldsBeforeClassIndex(ms, k, task.name, FieldMembers(fs[..i]), p.members);
      var at := ClassIndex(p.members, task.name).value;
      OneMoreField(ms, k, fs, i);
      p.members := p.members[..at] + [FieldMember(fs[i])] + p.members[at..];
      i := i + 1;
    }
    assert fs[..i] == fs;
    assert p.members == ms[..k] + FieldMembers(fs) + ms[k..];
  }

  // ---------------------------------------------------------------- step 2

  /**
   * `extractMethods`: each of the task's methods, inherited ones included,
   * made private, stripped of `@Override`, renamed with the `rx` prefix, and
   * added at the end of the class, in order.
   */
  method ExtractMethods(p: ClassNode, task: ClassDecl)
    requires NamesNonEmpty(task.AllMethods())
    modifies p
    ensures p.members == old(p.members) + MethodMembers(MigrateAll(task.AllMethods()))
  {
    var ms := task.AllMethods();
    var i := 0;
    while i < |ms|
      invariant 0 <= i <= |ms|
      invariant p.members == old(p.members) + MethodMembers(MigrateAll(ms[..i]))
    {
      p.members := p.members + [MethodMember(Migrate(ms[i]))];
      assert MethodMembers(MigrateAll(ms[..i + 1])) == MethodMembers(MigrateAll(ms[..i])) + [MethodMember(Migrate(ms[i]))];
      i := i + 1;
    }
    assert ms[..i] == ms;
  }

  /** After extraction the class has a method `rxX` for every method `x` of the task. */
  lemma ExtractedNames(ms: seq<Member>, task: ClassDecl)
    requires NamesNonEmpty(task.AllMethods())
    ensures forall m :: m in task.AllMethods() ==>
      HasMethodNamed(ms + MethodMembers(MigrateAll(task.AllMethods())), RxName(m.name))
  {
    var all := task.AllMethods();
    var r := ms + MethodMembers(MigrateAll(all));
    forall m | m in all ensures HasMethodNamed(r, RxName(m.name)) {
      var i :| 0 <= i < |all| && all[i] == m;
      assert r[|ms| + i] == MethodMember(Migrate(m));
    }
  }

  // ---------------------------------------------------------------- step 3

  /** `initializeBehaviorSubject` in the method that holds statement `id`. */
  method InitializeBehaviorSubject(p: ClassNode, id: StmtId)
    modifies p
    ensures p.members == AttachToFirstInMembers(old(p.members), id, ProgressWiring)
  {
    p.members := AttachToFirstInMembers(p.members, id, ProgressWiring);
  }

  /** `addOnPreExecute`: the call to the migrated pre-execute hook, before the call's statement. */
  method AddOnPreExecute(p: ClassNode, id: StmtId)
    modifies p
    ensures p.members == SpliceMembers(old(p.members), id, [PreExecuteCall], true, [])
  {
    p.members := SpliceMembers(p.members, id, [PreExecuteCall], true, []);
  }

  /** `generateRxCode`: the call's statement becomes the pipeline statement and the registration after it. */
  method GenerateRxCode(p: ClassNode, c: CallSite)
    modifies p
    ensures p.members == SpliceMembers(old(p.members), c.stmt, [], false, [RxStatement(c.args), AddSubscription])
  {
    var arguments := JoinArguments(c.args);
    var rxStatement := Generated(RxHead + arguments + RxTail, []);
    p.members := SpliceMembers(p.members, c.stmt, [], false, [rxStatement, AddSubscription]);
  }

  method RewriteExecuteCall(p: ClassNode, c: CallSite, pre: bool)
    modifies p
    ensures p.members == RewriteCall(old(p.members), c, pre)
  {
    if pre {
      AddOnPreExecute(p, c.stmt);
    }
    GenerateRxCode(p, c);
    if pre {
      var ms := old(p.members);
      var after := [RxStatement(c.args), AddSubscription];
      forall i | 0 <= i < |ms|
        ensures p.members[i] == RewriteCall(ms, c, pre)[i]
      {
        if ms[i].MethodMember? {
          SpliceTwice(ms[i].decl.body, c.stmt, [PreExecuteCall], after);
        }
      }
    }
  }

  /**
   * The pass over the search results: skips declaration types, collects the
   * variable uses, the variable declarations and the direct calls, and wires
   * the progress subject into the method of every other reference.
   */
  method CollectAndWire(p: ClassNode, refs: seq<Reference>, progress: bool)
      returns (uses: seq<CallSite>, locals: seq<StmtId>, direct: seq<CallSite>)
    modifies p
    ensures p.members == WireAll(old(p.members), refs, progress)
    ensures uses == VariableUses(refs) && locals == LocalVariables(refs) && direct == DirectCalls(refs)
  {
    uses, locals, direct := [], [], [];
    var i := 0;
    while i < |refs|
      invariant 0 <= i <= |refs|
      invariant p.members == WireAll(old(p.members), refs[..i], progress)
      invariant uses == VariableUses(refs[..i]) && locals == LocalVariables(refs[..i])
      invariant direct == DirectCalls(refs[..i])
    {
      var r := refs[i];
      assert refs[..i + 1][..i] == refs[..i];
      if r.parent != TypeElementParent {
        if r.grandparent == LocalVariableGrandparent {
          uses := uses + r.variableUses;
          locals := locals + [r.stmt];
        } else if r.call.Some? {
          direct := direct + [r.call.value];
        }
        if progress {
          InitializeBehaviorSubject(p, r.stmt);
        }
      }
      i := i + 1;
    }
    assert refs[..i] == refs;
  }

  /** Rewrites every call of the list, in order. */
  method RewriteExecuteCalls(p: ClassNode, cs: seq<CallSite>, pre: bool)
    modifies p
    ensures p.members == RewriteCalls(old(p.members), cs, pre)
  {
    var j := 0;
    while j < |cs|
      invariant 0 <= j <= |cs|
      invariant p.members == RewriteCalls(old(p.members), cs[..j], pre)
    {
      assert cs[..j + 1][..j] == cs[..j];
      RewriteExecuteCall(p, cs[j], pre);
      j := j + 1;
    }
    assert cs[..j] == cs;
  }

  /** `localVariables.forEach(PsiLocalVariable::delete)` */
  method DeleteLocalVariables(p: ClassNode, ids: seq<StmtId>)
    modifies p
    ensures p.members == DeleteAll(old(p.members), ids)
  {
    var j := 0;
    while j < |ids|
      invariant 0 <= j <= |ids|
      invariant p.members == DeleteAll(old(p.members), ids[..j])
    {
      assert ids[..j + 1][..j] == ids[..j];
      p.members := SpliceMembers(p.members, ids[j], [], false, []);
      j := j + 1;
    }
    assert ids[..j] == ids;
  }

  /**
   * `changeAsyncTaskExecuteToRx`; `completed` is false when the direct-call
   * pass throws on its first call.
   */
  method ChangeAsyncTaskExecuteToRx(p: ClassNode, refs: seq<Reference>, progress: bool, pre: bool)
      returns (completed: bool)
    modifies p
    ensures completed == !DirectPreExecuteThrows(refs, pre)
    ensures p.members == ExecuteToRx(old(p.members), refs, progress, pre)
  {
    var uses, locals, direct := CollectAndWire(p, refs, progress);
    RewriteExecuteCalls(p, uses, pre);
    DeleteLocalVariables(p, locals);
    if pre && direct != [] {
      return false;
    }
    RewriteExecuteCalls(p, direct, pre);
    completed := true;
  }

  // ---------------------------------------------------------------- step 4

  /** Index of the first method called `name`, as `stream().filter(..).findFirst()` finds it. */
  function FirstMethodNamed(ms: seq<Member>, name: string): (r: Option<nat>)
    ensures r.None? <==> !HasMethodNamed(ms, name)
    ensures r.Some? ==> r.value < |ms| && ms[r.value].MethodMember? && ms[r.value].decl.name == name
                        && forall i :: 0 <= i < r.value ==> !(ms[i].MethodMember? && ms[i].decl.name == name)
  {
    if ms == [] then None
    else if ms[0].MethodMember? && ms[0].decl.name == name then Some(0)
    else match FirstMethodNamed(ms[1..], name)
      case None =>
        assert forall m :: MethodMember(m) in ms ==> MethodMember(m) == ms[0] || MethodMember(m) in ms[1..] by {
          assert ms == [ms[0]] + ms[1..];
        }
        None
      case Some(k) =>
        assert MethodMember(ms[k + 1].decl) in ms;
        Some(k + 1)
  }

  /** `onDestroy` as generated for an activity without one. */
  const GeneratedOnDestroy := Method(OnDestroy, {Protected}, [OverrideAnnotation], [], [SuperOnDestroy, DisposeGuard])

  /**
   * `generateOrUpdateOnDestroy`: the first `onDestroy` disposes of the
   * subscriptions before its last statement; an activity without one gets a
   * generated `onDestroy` at the end; any other class is left as it was.
   */
  function WithOnDestroy(c: ClassDecl): (r: seq<Member>)
    ensures FirstMethodNamed(c.members, OnDestroy).Some? ==>
      var k := FirstMethodNamed(c.members, OnDestroy).value;
      var m := c.members[k].decl;
      r == c.members[k := MethodMember(m.(body := InsertBeforeLast(m.body, DisposeGuard)))]
    ensures !HasMethodNamed(c.members, OnDestroy) && FindIfExtendsActivity(c) ==>
      r == c.members + [MethodMember(GeneratedOnDestroy)]
    ensures !HasMethodNamed(c.members, OnDestroy) && !FindIfExtendsActivity(c) ==> r == c.members
  {
    match FirstMethodNamed(c.members, OnDestroy)
    case Some(k) =>
      var m := c.members[k].decl;
      c.members[k := MethodMember(m.(body := InsertBeforeLast(m.body, DisposeGuard)))]
    case None =>
      if FindIfExtendsActivity(c) then c.members + [MethodMember(GeneratedOnDestroy)] else c.members
  }

  method GenerateOrUpdateOnDestroy(p: ClassNode)
    modifies p
    ensures p.members == WithOnDestroy(old(p.Decl()))
  {
    var found := FirstMethodNamed(p.members, OnDestroy);
    if found.Some? {
      var k := found.value;
      var m := p.members[k].decl;
      p.members := p.members[k := MethodMember(m.(body := InsertBeforeLast(m.body, DisposeGuard)))];
    } else if FindIfExtendsActivity(p.Decl()) {
      p.members := p.members + [MethodMember(GeneratedOnDestroy)];
    }
  }

  /**
   * Whenever the class had an `onDestroy` or is an activity, afterwards an
   * `onDestroy` disposes of the subscriptions; the method names and fields
   * of the class, and its source statements, are all kept.
   */
  lemma OnDestroyDisposes(c: ClassDecl)
    ensures HasMethodNamed(c.members, OnDestroy) || FindIfExtendsActivity(c) ==>
      exists m :: MethodMember(m) in WithOnDestroy(c) && m.name == OnDestroy && DisposeGuard in m.body
    ensures Keeps(c.members, WithOnDestroy(c))
    ensures forall x :: MentionsId(WithOnDestroy(c), x) <==> MentionsId(c.members, x)
  {
    var r := WithOnDestroy(c);
    match FirstMethodNamed(c.members, OnDestroy)
    case Some(k) =>
      var m := c.members[k].decl;
      var m' := m.(body := InsertBeforeLast(m.body, DisposeGuard));
      assert DisposeGuard in m'.body by {
        if m.body == [] {
          assert m'.body[0] == DisposeGuard;
        } else {
          assert m'.body[|m'.body| - 2] == DisposeGuard;
        }
      }
      assert MethodMember(m') in r by { assert r[k] == MethodMember(m'); }
      ReplaceMethodKeeps(c.members, k, m');
      forall x ensures MentionsId(r, x) <==> MentionsId(c.members, x) {
        InsertBeforeLastIds(m.body, DisposeGuard, x);
        ReplaceMethodMentions(c.members, k, m', x);
      }
    case None =>
      if FindIfExtendsActivity(c) {
        assert r[|c.members|] == MethodMember(GeneratedOnDestroy);
        SupersetKeeps(c.members, r);
        forall x ensures MentionsId(r, x) <==> MentionsId(c.members, x) {
          MentionsIdSubset(c.members, r, x);
          assert !ContainsId(GeneratedOnDestroy.body, x) by {
            assert GeneratedOnDestroy.body == [SuperOnDestroy, DisposeGuard];
          }
          if MentionsId(r, x) {
            var i :| 0 <= i < |r| && r[i].MethodMember? && ContainsId(r[i].decl.body, x);
            assert i != |c.members|;
            assert r[i] == c.members[i];
          }
        }
      }
  }

  lemma InsertBeforeLastIds(body: seq<Stmt>, s: Stmt, x: StmtId)
    requires s.Generated?
    ensures ContainsId(InsertBeforeLast(body, s), x) <==> ContainsId(body, x)
  {
    if body != [] {
      var n := |body|;
      assert body == body[..n - 1] + [body[n - 1]];
      ContainsIdAppend(body[..n - 1], [body[n - 1]], x);
      ContainsIdAppend(body[..n - 1], [s, body[n - 1]], x);
      ContainsIdAppend([s], [body[n - 1]], x);
      assert [s, body[n - 1]] == [s] + [body[n - 1]];
    }
  }

  // ---------------------------------------------------------------- step 6

  /**
   * `changeDoInBackgroundOnProgressUpdate`: the first `rxDoInBackground` takes
   * the progress observer as its new last parameter and emits progress on it.
   */
  function WithProgressObserver(ms: seq<Member>): (r: seq<Member>)
    ensures FirstMethodNamed(ms, RxDoInBackground).None? ==> r == ms
    ensures FirstMethodNamed(ms, RxDoInBackground).Some? ==>
      var k := FirstMethodNamed(ms, RxDoInBackground).value;
      var m := ms[k].decl;
      && |r| == |ms| && (forall i :: 0 <= i < |ms| && i != k ==> r[i] == ms[i])
      && r[k].MethodMember?
      && r[k].decl.name == m.name && r[k].decl.modifiers == m.modifiers && r[k].decl.annotations == m.annotations
      && r[k].decl.params == m.params + [PublishProgressParam]
      && r[k].decl.body == SubstBody(m.body) && RestoreBody(r[k].decl.body) == m.body
  {
    match FirstMethodNamed(ms, RxDoInBackground)
    case None => ms
    case Some(k) =>
      var m := ms[k].decl;
      RestoreSubstBody(m.body);
      ms[k := MethodMember(m.(params := m.params + [PublishProgressParam], body := SubstBody(m.body)))]
  }

  /**
   * After the rewrite the first `rxDoInBackground` emits progress only
   * through the observer's `onNext`, and its statements that never named
   * `publishProgress` are as they were.
   */
  lemma ProgressObserverEmits(ms: seq<Member>)
    requires FirstMethodNamed(ms, RxDoInBackground).Some?
    ensures var k := FirstMethodNamed(ms, RxDoInBackground).value;
      var body := ms[k].decl.body;
      var body' := WithProgressObserver(ms)[k].decl.body;
      && |body'| == |body|
      && (forall i :: 0 <= i < |body| && body[i].Source? ==> body'[i].Source? && AllObserved(body'[i].exprs))
      && (forall i :: 0 <= i < |body| && (body[i].Generated? || !MentionsAny(body[i].exprs)) ==> body'[i] == body[i])
  {
    var k := FirstMethodNamed(ms, RxDoInBackground).value;
    SubstBodyObserved(ms[k].decl.body);
  }

  method ChangeDoInBackgroundOnProgressUpdate(p: ClassNode)
    modifies p
    ensures p.members == WithProgressObserver(old(p.members))
  {
    var found := FirstMethodNamed(p.members, RxDoInBackground);
    if found.Some? {
      var k := found.value;
      var m := p.members[k].decl;
      p.members := p.members[k := MethodMember(m.(params := m.params + [PublishProgressParam], body := SubstBody(m.body)))];
    }
  }

  /** The observer rewrite adds no nested class. */
  lemma ProgressObserverClassless(ms: seq<Member>, name: string)
    requires ClassMember(name) !in ms
    ensures ClassMember(name) !in WithProgressObserver(ms)
  {
    match FirstMethodNamed(ms, RxDoInBackground)
    case None =>
    case Some(k) =>
      forall i | 0 <= i < |ms| ensures WithProgressObserver(ms)[i] != ClassMember(name) {
        if i != k { assert ms[i] != ClassMember(name); }
      }
  }

  lemma ProgressObserverKeeps(ms: seq<Member>)
    ensures Keeps(ms, WithProgressObserver(ms))
    ensures forall x :: MentionsId(WithProgressObserver(ms), x) <==> MentionsId(ms, x)
  {
    match FirstMethodNamed(ms, RxDoInBackground)
    case None =>
    case Some(k) =>
      var m := ms[k].decl;
      var m' := m.(params := m.params + [PublishProgressParam], body := SubstBody(m.body));
      ReplaceMethodKeeps(ms, k, m');
      forall x ensures MentionsId(WithProgressObserver(ms), x) <==> MentionsId(ms, x) {
        SubstBodyKeepsIds(m.body, x);
        ReplaceMethodMentions(ms, k, m', x);
      }
  }

  // ---------------------------------------------------------------- the whole run

  /** What a run leaves: whether it ran to the end, and the members of the class. */
  datatype Outcome = Outcome(completed: bool, members: seq<Member>)

  /**
   * `refactorInnerAsyncTask` for one enclosing class and its inner task, as
   * a function of the class before the run. A run that throws keeps the
   * edits made so far: at step 0 when the class has no field, and in step 3
   * when a direct call meets the pre-execute hook.
   */
  function Refactored(c: ClassDecl, task: ClassDecl, refs: seq<Reference>): Outcome
    requires ClassMember(task.name) in c.members && NamesNonEmpty(task.AllMethods())
  {
    match WithCompositeDisposable(c.members)
    case None => Outcome(false, c.members)
    case Some(withDisposable) =>
      var progress := ProgressHookExists(task);
      var pre := PreExecuteHookExists(task);
      var withFields := WithFieldsBefore(withDisposable, task.name, task.AllFields());
      var withMethods := withFields + MethodMembers(MigrateAll(task.AllMethods()));
      var reactive := ExecuteToRx(withMethods, refs, progress, pre);
      if DirectPreExecuteThrows(refs, pre) then Outcome(false, reactive)
      else
        var withOnDestroy := WithOnDestroy(c.(members := reactive));
        var withoutTask := RemoveClass(withOnDestroy, task.name);
        Outcome(true, if progress then WithProgressObserver(withoutTask) else withoutTask)
  }

  method RefactorInnerAsyncTask(p: ClassNode, task: ClassDecl, refs: seq<Reference>) returns (completed: bool)
    requires ClassMember(task.name) in p.members && NamesNonEmpty(task.AllMethods())
    modifies p, p.file
    ensures p.file.imports == WithImport(old(p.file.imports), CompositeDisposableImport, p.file.isJava, p.file.hasImportList)
    ensures completed == Refactored(old(p.Decl()), task, refs).completed
    ensures p.members == Refactored(old(p.Decl()), task, refs).members
  {
    completed := CreateCompositeDisposable(p);
    if !completed {
      return;
    }
    var progress := AnyMethodNamed(task.AllMethods(), OnProgressUpdate);
    var pre := AnyMethodNamed(task.AllMethods(), OnPreExecute);
    MoveAsyncTaskFieldsToParentClass(p, task);
    ExtractMethods(p, task);
    completed := ChangeAsyncTaskExecuteToRx(p, refs, progress, pre);
    if !completed {
      return;
    }
    GenerateOrUpdateOnDestroy(p);
    p.members := RemoveClass(p.members, task.name);
    if progress {
      ChangeDoInBackgroundOnProgressUpdate(p);
    }
  }

  /**
   * The run completes exactly when the class has a field and no direct call
   * meets the pre-execute hook.
   */
  lemma RefactoredCompletes(c: ClassDecl, task: ClassDecl, refs: seq<Reference>)
    requires ClassMember(task.name) in c.members && NamesNonEmpty(task.AllMethods())
    ensures Refactored(c, task, refs).completed <==>
      && (exists i :: 0 <= i < |c.members| && c.members[i].FieldMember?)
      && !DirectPreExecuteThrows(refs, PreExecuteHookExists(task))
  {
  }

  /**
   * A run that throws at a direct call keeps the inner class and the copies
   * made so far: the task variables' calls and declarations are gone, the
   * direct calls and every other statement of the class are still there.
   */
  lemma RefactoredThrowsAtDirectCall(c: ClassDecl, task: ClassDecl, refs: seq<Reference>, x: StmtId)
    requires ClassMember(task.name) in c.members && NamesNonEmpty(task.AllMethods())
    requires WithCompositeDisposable(c.members).Some?
    requires DirectPreExecuteThrows(refs, PreExecuteHookExists(task))
    ensures var r := Refactored(c, task, refs);
      && !r.completed
      && ClassMember(task.name) in r.members
      && FieldMember(CompositeDisposableField) in r.members
      && (x in VariableIds(refs) ==> !MentionsId(r.members, x))
      && (MentionsId(c.members, x) && x !in VariableIds(refs) ==> MentionsId(r.members, x))
  {
    var withDisposable := WithCompositeDisposable(c.members).value;
    var progress := ProgressHookExists(task);
    var pre := PreExecuteHookExists(task);
    var withFields := WithFieldsBefore(withDisposable, task.name, task.AllFields());
    var withMethods := withFields + MethodMembers(MigrateAll(task.AllMethods()));
    var reactive := ExecuteToRx(withMethods, refs, progress, pre);
    assert Refactored(c, task, refs).members == reactive;
    WithFieldsBeforeEffect(withDisposable, task.name, task.AllFields());
    assert ClassMember(task.name) in withMethods && FieldMember(CompositeDisposableField) in withMethods;
    ExecuteToRxEffect(withMethods, refs, progress, pre, x);
    SameShapeMembers(withMethods, reactive, ClassMember(task.name));
    SameShapeMembers(withMethods, reactive, FieldMember(CompositeDisposableField));
    MentionsIdSubset(c.members, withDisposable, x);
    MentionsIdSubset(withDisposable, withFields, x);
    MentionsIdSubset(withFields, withMethods, x);
  }

  /**
   * A completed run leaves the class without the inner class, with the
   * composite-disposable field, a copy of every field of the task, an `rx`
   * method for every method of the task, and all its own fields and method
   * names.
   */
  lemma RefactoredMembers(c: ClassDecl, task: ClassDecl, refs: seq<Reference>)
    requires ClassMember(task.name) in c.members && NamesNonEmpty(task.AllMethods())
    requires Refactored(c, task, refs).completed
    ensures var r := Refactored(c, task, refs).members;
      && ClassMember(task.name) !in r
      && FieldMember(CompositeDisposableField) in r
      && (forall f :: f in task.AllFields() ==> FieldMember(f) in r)
      && (forall m :: m in task.AllMethods() ==> HasMethodNamed(r, RxName(m.name)))
      && Keeps(c.members, r)
  {
    var withDisposable := WithCompositeDisposable(c.members).value;
    var progress := ProgressHookExists(task);
    var pre := PreExecuteHookExists(task);
    var fs := task.AllFields();
    var withFields := WithFieldsBefore(withDisposable, task.name, fs);
    var withMethods := withFields + MethodMembers(MigrateAll(task.AllMethods()));
    var reactive := ExecuteToRx(withMethods, refs, progress, pre);
    var withOnDestroy := WithOnDestroy(c.(members := reactive));
    var withoutTask := RemoveClass(withOnDestroy, task.name);
    var r := Refactored(c, task, refs).members;
    assert r == if progress then WithProgressObserver(withoutTask) else withoutTask;

    SupersetKeeps(c.members, withDisposable);
    SupersetKeeps(withDisposable, withFields);
    SupersetKeeps(withFields, withMethods);
    ExecuteToRxEffect(withMethods, refs, progress, pre, 0);
    SameShapeKeeps(withMethods, reactive);
    OnDestroyDisposes(c.(members := reactive));
    SupersetKeeps(withOnDestroy, withoutTask);
    ProgressObserverKeeps(withoutTask);
    assert Keeps(withoutTask, r);
    KeepsTrans(c.members, withDisposable, withFields);
    KeepsTrans(c.members, withFields, withMethods);
    KeepsTrans(withMethods, reactive, withOnDestroy);
    KeepsTrans(withMethods, withOnDestroy, withoutTask);
    KeepsTrans(withMethods, withoutTask, r);
    KeepsTrans(c.members, withMethods, r);

    assert FieldMember(CompositeDisposableField) in withMethods;
    forall f | f in fs ensures FieldMember(f) in r {
      var i :| 0 <= i < |fs| && fs[i] == f;
      assert FieldMembers(fs)[i] == FieldMember(f);
      assert FieldMember(f) in withMethods;
    }
    ExtractedNames(withFields, task);
    if progress {
      ProgressObserverClassless(withoutTask, task.name);
    }
  }

  /**
   * A completed run takes out every execute call and every declaration of a
   * task variable, and keeps every other statement of the class.
   */
  lemma RefactoredStatements(c: ClassDecl, task: ClassDecl, refs: seq<Reference>, x: StmtId)
    requires ClassMember(task.name) in c.members && NamesNonEmpty(task.AllMethods())
    requires Refactored(c, task, refs).completed
    ensures x in RemovedIds(refs) ==> !MentionsId(Refactored(c, task, refs).members, x)
    ensures MentionsId(c.members, x) && x !in RemovedIds(refs) ==> MentionsId(Refactored(c, task, refs).members, x)
  {
    var withDisposable := WithCompositeDisposable(c.members).value;
    var progress := ProgressHookExists(task);
    var pre := PreExecuteHookExists(task);
    var withFields := WithFieldsBefore(withDisposable, task.name, task.AllFields());
    var withMethods := withFields + MethodMembers(MigrateAll(task.AllMethods()));
    var reactive := ExecuteToRx(withMethods, refs, progress, pre);
    var withOnDestroy := WithOnDestroy(c.(members := reactive));
    var withoutTask := RemoveClass(withOnDestroy, task.name);
    assert Refactored(c, task, refs).members == if progress then WithProgressObserver(withoutTask) else withoutTask;
    MentionsIdSubset(c.members, withDisposable, x);
    MentionsIdSubset(withDisposable, withFields, x);
    MentionsIdSubset(withFields, withMethods, x);
    ExecuteToRxEffect(withMethods, refs, progress, pre, x);
    OnDestroyDisposes(c.(members := reactive));
    MentionsIdSubset(withOnDestroy, withoutTask, x);
    MentionsIdSubset(withoutTask, withOnDestroy, x);
    ProgressObserverKeeps(withoutTask);
  }
}
