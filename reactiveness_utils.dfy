/**
 * Recognition of AsyncTask candidates and of the classes around them
 * (`ReactivenessUtils`, with the constants of `Commons`).
 */
module ReactivenessUtils {
  import opened Wrappers
  import opened Strings
  import opened Psi

  const AsyncTask := "AsyncTask"
  const DoInBackground := "doInBackground"
  const ActivityClass := "Activity"
  const NewAsyncTask := "new AsyncTask"
  const CompositeDisposableName := "CompositeDisposable"

  /**
   * `findIfExtendsAsyncTask`: walks the extends list and answers as soon as
   * one type's class name is exactly `AsyncTask`. The source dereferences the
   * extends list through `Objects.requireNonNull`.
   */
  method FindIfExtendsAsyncTask(c: ClassDecl) returns (b: bool)
    requires c.extendsList.Some?
    ensures b <==> AsyncTask in c.extendsList.value
  {
    var types := c.extendsList.value;
    var i := 0;
    while i < |types|
      invariant 0 <= i <= |types|
      invariant AsyncTask !in types[..i]
    {
      if types[i] == AsyncTask {
        return true;
      }
      i := i + 1;
    }
    assert types[..i] == types;
    return false;
  }

  /** The stream filter of `findIfDoInBackgroundExist`, as it walks the methods. */
  function AnyMethodNamedIgnoreCase(ms: seq<Method>, name: string): (r: bool)
    ensures r <==> exists i :: 0 <= i < |ms| && EqualsIgnoreCase(ms[i].name, name)
  {
    if ms == [] then false
    else EqualsIgnoreCase(ms[0].name, name) || AnyMethodNamedIgnoreCase(ms[1..], name)
  }

  /**
   * `findIfDoInBackgroundExist`: some method, inherited ones included, is
   * named `doInBackground` up to letter case.
   */
  function FindIfDoInBackgroundExist(c: ClassDecl): (r: bool)
    ensures r <==> exists i :: 0 <= i < |c.AllMethods()|
                     && EqualsIgnoreCase(c.AllMethods()[i].name, DoInBackground)
  {
    AnyMethodNamedIgnoreCase(c.AllMethods(), DoInBackground)
  }

  /** A method inherited but not declared still makes the class a candidate. */
  lemma InheritedDoInBackgroundCounts(c: ClassDecl, m: Method)
    requires m in c.inheritedMethods && m.name == DoInBackground
    ensures FindIfDoInBackgroundExist(c)
  {
    var k :| 0 <= k < |c.inheritedMethods| && c.inheritedMethods[k] == m;
    assert c.AllMethods()[|MethodsOf(c.members)| + k] == m;
  }

  /** `findIfExtendsActivity`: only the first extended type is looked at. */
  function FindIfExtendsActivity(c: ClassDecl): bool {
    match c.extendsList
    case None => false
    case Some(types) => types != [] && Contains(types[0], ActivityClass)
  }

  /**
   * `findIfExtendsActivity` holds exactly when there is a first extended type
   * and `Activity` occurs at some position of its name.
   */
  lemma ExtendsActivityIffOccurs(c: ClassDecl)
    ensures FindIfExtendsActivity(c) <==>
      c.extendsList.Some? && c.extendsList.value != []
      && exists i: nat :: OccursAt(c.extendsList.value[0], ActivityClass, i)
  {
    if c.extendsList.Some? && c.extendsList.value != [] {
      ContainsIffOccurs(c.extendsList.value[0], ActivityClass);
    }
  }

  /** Types after the first one never change the answer. */
  lemma ExtendsActivityIgnoresLaterTypes(c: ClassDecl, first: string, rest1: seq<string>, rest2: seq<string>)
    ensures FindIfExtendsActivity(c.(extendsList := Some([first] + rest1)))
         == FindIfExtendsActivity(c.(extendsList := Some([first] + rest2)))
  {
  }

  /** Whether `fqn` is already among the imports' qualified names. */
  predicate Imported(imports: seq<Import>, fqn: string) {
    exists i :: 0 <= i < |imports| && imports[i].qualifiedName == fqn
  }

  /** The import list `addImport` leaves behind. */
  function WithImport(imports: seq<Import>, fqn: string, isJava: bool, hasImportList: bool): seq<Import> {
    if !isJava || !hasImportList || Imported(imports, fqn) then imports
    else imports + [Import(fqn, true)]
  }

  /**
   * `addImport`: in a Java file with an import list, append one on-demand
   * import of `fqn` unless some import already has that qualified name.
   */
  method AddImport(file: SourceFile, fqn: string)
    modifies file
    ensures file.imports == WithImport(old(file.imports), fqn, file.isJava, file.hasImportList)
  {
    if !file.isJava {
      return;
    }
    if !file.hasImportList {
      return;
    }
    var i := 0;
    while i < |file.imports|
      invariant 0 <= i <= |file.imports|
      invariant file.imports == old(file.imports)
      invariant forall j :: 0 <= j < i ==> file.imports[j].qualifiedName != fqn
    {
      if fqn == file.imports[i].qualifiedName {
        return;
      }
      i := i + 1;
    }
    file.imports := file.imports + [Import(fqn, true)];
  }

  /** Adding an import twice is adding it once. */
  lemma WithImportIdempotent(imports: seq<Import>, fqn: string, isJava: bool, hasImportList: bool)
    ensures var once := WithImport(imports, fqn, isJava, hasImportList);
            WithImport(once, fqn, isJava, hasImportList) == once
  {
    var once := WithImport(imports, fqn, isJava, hasImportList);
    if isJava && hasImportList && !Imported(imports, fqn) {
      assert once[|imports|].qualifiedName == fqn;
    }
  }

  /**
   * The old imports stay, in order, and at most one is added; in a Java file
   * with an import list the name is imported afterwards.
   */
  lemma WithImportEffect(imports: seq<Import>, fqn: string, isJava: bool, hasImportList: bool)
    ensures var r := WithImport(imports, fqn, isJava, hasImportList);
            imports <= r && |r| <= |imports| + 1
            && (isJava && hasImportList ==> Imported(r, fqn))
            && (!isJava || !hasImportList ==> r == imports)
  {
    var r := WithImport(imports, fqn, isJava, hasImportList);
    if isJava && hasImportList && !Imported(imports, fqn) {
      assert r[|imports|].qualifiedName == fqn;
    }
  }

  /** A new-expression, as the visitor hands it over. */
  type NewExpr = e: Expr | e.New? witness New("", [])

  /**
   * The new-expressions a recursive walking visitor meets in `e`, in the
   * order it meets them: a new-expression is visited before the
   * expressions inside it.
   */
  function NewExprsOf(e: Expr): seq<NewExpr>
    decreases e, 1
  {
    match e
    case Ref(_) => []
    case Select(q, _) => NewExprsOf(q)
    case Call(c, args) => NewExprsOf(c) + NewExprsIn(args)
    case New(_, parts) => [e] + NewExprsIn(parts)
    case Lit(_) => []
  }

  function NewExprsIn(es: seq<Expr>): seq<NewExpr>
    decreases es, 0
  {
    if es == [] then [] else NewExprsOf(es[0]) + NewExprsIn(es[1..])
  }

  /** What `method.accept(visitor)` meets: the new-expressions of the body, statement after statement. */
  function NewExprsOfBody(body: seq<Stmt>): seq<NewExpr> {
    if body == [] then []
    else (if body[0].Source? then NewExprsIn(body[0].exprs) else []) + NewExprsOfBody(body[1..])
  }

  /** The new-expressions of a list of methods, method after method. */
  function NewExprsOfMethods(ms: seq<Method>): seq<NewExpr> {
    if ms == [] then []
    else NewExprsOfMethods(ms[..|ms| - 1]) + NewExprsOfBody(ms[|ms| - 1].body)
  }

  /** Some new-expression's text contains `new AsyncTask`. */
  predicate AnyContainsNewAsyncTask(xs: seq<NewExpr>) {
    exists i :: 0 <= i < |xs| && Contains(xs[i].text, NewAsyncTask)
  }

  /**
   * The visitor of `findAnonymousAsyncTaskExist` on one method: the shared
   * flag is set on the first new-expression whose text contains
   * `new AsyncTask`, and never cleared.
   */
  method VisitContains(visited: seq<NewExpr>, flag: bool) returns (flag': bool)
    ensures flag' <==> flag || AnyContainsNewAsyncTask(visited)
  {
    flag' := flag;
    var t := 0;
    while t < |visited|
      invariant 0 <= t <= |visited|
      invariant flag' <==> flag || AnyContainsNewAsyncTask(visited[..t])
    {
      if !flag' && Contains(visited[t].text, NewAsyncTask) {
        flag' := true;
      }
      AnyContainsAppend(visited[..t], [visited[t]]);
      assert visited[..t + 1] == visited[..t] + [visited[t]];
      t := t + 1;
    }
    assert visited[..t] == visited;
  }

  /**
   * `findAnonymousAsyncTaskExist`: visits each own method in turn and returns
   * as soon as the flag is set after a method.
   */
  method FindAnonymousAsyncTaskExist(c: ClassDecl) returns (b: bool)
    ensures b <==> AnyContainsNewAsyncTask(NewExprsOfMethods(c.OwnMethods()))
  {
    var methods := c.OwnMethods();
    var anonymousExists := false;
    var k := 0;
    while k < |methods|
      invariant 0 <= k <= |methods|
      invariant !anonymousExists
      invariant !AnyContainsNewAsyncTask(NewExprsOfMethods(methods[..k]))
    {
      var visited := NewExprsOfBody(methods[k].body);
      anonymousExists := VisitContains(visited, anonymousExists);
      NewExprsOfMethodsStep(methods, k);
      AnyContainsAppend(NewExprsOfMethods(methods[..k]), visited);
      if anonymousExists {
        NewExprsOfMethodsPrefix(methods, k + 1);
        AnyContainsPrefix(NewExprsOfMethods(methods[..k + 1]), NewExprsOfMethods(methods));
        return true;
      }
      k := k + 1;
    }
    assert methods[..k] == methods;
    return anonymousExists;
  }

  lemma NewExprsOfMethodsStep(ms: seq<Method>, k: nat)
    requires k < |ms|
    ensures NewExprsOfMethods(ms[..k + 1]) == NewExprsOfMethods(ms[..k]) + NewExprsOfBody(ms[k].body)
  {
    assert ms[..k + 1][..k] == ms[..k];
  }

  lemma AnyContainsAppend(a: seq<NewExpr>, b: seq<NewExpr>)
    ensures AnyContainsNewAsyncTask(a + b) <==> AnyContainsNewAsyncTask(a) || AnyContainsNewAsyncTask(b)
  {
    if AnyContainsNewAsyncTask(a + b) {
      var i :| 0 <= i < |a + b| && Contains((a + b)[i].text, NewAsyncTask);
      if i < |a| { assert (a + b)[i] == a[i]; } else { assert (a + b)[i] == b[i - |a|]; }
    }
    if AnyContainsNewAsyncTask(a) {
      var i :| 0 <= i < |a| && Contains(a[i].text, NewAsyncTask);
      assert (a + b)[i] == a[i];
    }
    if AnyContainsNewAsyncTask(b) {
      var i :| 0 <= i < |b| && Contains(b[i].text, NewAsyncTask);
      assert (a + b)[|a| + i] == b[i];
    }
  }

  lemma AnyContainsPrefix(a: seq<NewExpr>, b: seq<NewExpr>)
    requires a <= b && AnyContainsNewAsyncTask(a)
    ensures AnyContainsNewAsyncTask(b)
  {
    var i :| 0 <= i < |a| && Contains(a[i].text, NewAsyncTask);
    assert b[i] == a[i];
  }

  /** The new-expressions of a prefix of the methods are a prefix of theirs. */
  lemma {:induction false} NewExprsOfMethodsPrefix(ms: seq<Method>, k: nat)
    requires k <= |ms|
    ensures NewExprsOfMethods(ms[..k]) <= NewExprsOfMethods(ms)
    decreases |ms| - k
  {
    if k < |ms| {
      NewExprsOfMethodsPrefix(ms, k + 1);
      assert ms[..k + 1][..k] == ms[..k];
    } else {
      assert ms[..k] == ms;
    }
  }

  /** The new-expressions whose text starts with `new AsyncTask`, in order. */
  function StartingWithNewAsyncTask(xs: seq<NewExpr>): (r: seq<NewExpr>)
    ensures forall x :: x in r ==> x in xs && StartsWith(x.text, NewAsyncTask)
    ensures forall x :: x in xs && StartsWith(x.text, NewAsyncTask) ==> x in r
  {
    if xs == [] then []
    else
      var init := xs[..|xs| - 1];
      var last := xs[|xs| - 1];
      assert xs == init + [last];
      StartingWithNewAsyncTask(init) + (if StartsWith(last.text, NewAsyncTask) then [last] else [])
  }

  lemma {:induction false} StartingWithAppend(a: seq<NewExpr>, b: seq<NewExpr>)
    ensures StartingWithNewAsyncTask(a + b) == StartingWithNewAsyncTask(a) + StartingWithNewAsyncTask(b)
    decreases |b|
  {
    if b == [] {
      assert a + b == a;
    } else {
      var init := b[..|b| - 1];
      assert (a + b)[..|a + b| - 1] == a + init;
      StartingWithAppend(a, init);
    }
  }

  /** The visitor of `findAnonymousAsyncTaskExpression` on one method: appends each match to the list. */
  method VisitStartsWith(visited: seq<NewExpr>, found: seq<NewExpr>) returns (found': seq<NewExpr>)
    ensures found' == found + StartingWithNewAsyncTask(visited)
  {
    found' := found;
    var t := 0;
    while t < |visited|
      invariant 0 <= t <= |visited|
      invariant found' == found + StartingWithNewAsyncTask(visited[..t])
    {
      if StartsWith(visited[t].text, NewAsyncTask) {
        found' := found' + [visited[t]];
      }
      assert visited[..t + 1][..t] == visited[..t];
      t := t + 1;
    }
    assert visited[..t] == visited;
  }

  /**
   * `findAnonymousAsyncTaskExpression`: every new-expression whose text
   * starts with `new AsyncTask`, in method order and then visit order.
   */
  method FindAnonymousAsyncTaskExpression(c: ClassDecl) returns (found: seq<NewExpr>)
    ensures found == StartingWithNewAsyncTask(NewExprsOfMethods(c.OwnMethods()))
  {
    var methods := c.OwnMethods();
    found := [];
    var k := 0;
    while k < |methods|
      invariant 0 <= k <= |methods|
      invariant found == StartingWithNewAsyncTask(NewExprsOfMethods(methods[..k]))
    {
      var visited := NewExprsOfBody(methods[k].body);
      found := VisitStartsWith(visited, found);
      NewExprsOfMethodsStep(methods, k);
      StartingWithAppend(NewExprsOfMethods(methods[..k]), visited);
      k := k + 1;
    }
    assert methods[..k] == methods;
  }

  /** Whatever `findAnonymousAsyncTaskExpression` finds, `findAnonymousAsyncTaskExist` sees. */
  lemma FoundExpressionImpliesExist(xs: seq<NewExpr>)
    requires StartingWithNewAsyncTask(xs) != []
    ensures AnyContainsNewAsyncTask(xs)
  {
    var x := StartingWithNewAsyncTask(xs)[0];
    assert x in StartingWithNewAsyncTask(xs);
    var i :| 0 <= i < |xs| && xs[i] == x;
    StartsWithImpliesContains(x.text, NewAsyncTask);
  }

  /**
   * `searchIfCompositeDisposableExists`: some field, inherited ones included,
   * has the name `CompositeDisposable`, letter case included.
   */
  method SearchIfCompositeDisposableExists(c: ClassDecl) returns (b: bool)
    ensures b <==> exists f :: f in c.AllFields() && f.name == CompositeDisposableName
  {
    var fields := c.AllFields();
    var i := 0;
    while i < |fields|
      invariant 0 <= i <= |fields|
      invariant forall j :: 0 <= j < i ==> fields[j].name != CompositeDisposableName
    {
      if CompositeDisposableName == fields[i].name {
        return true;
      }
      i := i + 1;
    }
    return false;
  }
}
