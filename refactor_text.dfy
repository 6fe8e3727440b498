/**
 * What `AsyncTaskRefactor` writes into the enclosing class: the renamed
 * methods, the fields and statements it generates, and the text of the
 * reactive pipeline that replaces an `execute` call.
 */
module RefactorText {
  import opened Wrappers
  import opened Strings
  import opened Psi

  const CompositeDisposableImport := "io.reactivex.rxjava3.disposables"
  const OverrideAnnotation := "Override"

  /** `private CompositeDisposable compositeDisposable = new CompositeDisposable();` */
  const CompositeDisposableField := Field({Private}, "CompositeDisposable", "compositeDisposable", "new CompositeDisposable()")

  const PreExecuteCall := Generated("rxOnPreExecute();", [])
  const AddSubscription := Generated("compositeDisposable.add(d2);", [])
  const DisposeGuard := Generated("if(compositeDisposable != null && !compositeDisposable.isDisposed()){\ncompositeDisposable.dispose();\n}", [])
  const SuperOnDestroy := Generated("super.onDestroy();", [])

  /**
   * `initializeBehaviorSubject`: the subject's declaration, holding the
   * subscription's declaration, which holds the subscription's registration;
   * each is added inside the one before it.
   */
  const ProgressWiring: Stmt :=
    Generated("BehaviorSubject<String> progressSubject = BehaviorSubject.create();", [
      Generated("Disposable disposal = progressSubject\n.observeOn(AndroidSchedulers.mainThread())\n.subscribe(s -> rxProgressUpdate(s));", [
        Generated("compositeDisposable.add(disposal);", [])])])

  const PublishProgress := "publishProgress"
  const OnNext := "onNext"
  const PublishProgressParam := Param("Observer<String>", "publishProgress")

  /** `"rx"` followed by the name with its first character upper-cased. */
  function RxName(name: string): (r: string)
    requires |name| > 0
    ensures |r| == |name| + 2
    ensures r[..2] == "rx" && r[2] == ToUpper(name[0]) && r[3..] == name[1..]
  {
    "rx" + Capitalize(name)
  }

  /** Two names are renamed alike exactly when they differ at most in the case of their first letter. */
  lemma RxNameCollides(a: string, b: string)
    requires |a| > 0 && |b| > 0
    ensures RxName(a) == RxName(b) <==> ToUpper(a[0]) == ToUpper(b[0]) && a[1..] == b[1..]
  {
    if RxName(a) == RxName(b) {
      assert RxName(a)[2] == RxName(b)[2];
      assert RxName(a)[3..] == RxName(b)[3..];
    }
    if ToUpper(a[0]) == ToUpper(b[0]) && a[1..] == b[1..] {
      assert Capitalize(a) == Capitalize(b);
    }
  }

  /** No renamed method is called `doInBackground`, the name the pipeline text calls. */
  lemma RxNameIsNeverDoInBackground(name: string)
    requires |name| > 0
    ensures RxName(name) != "doInBackground"
  {
    assert RxName(name)[0] == 'r';
  }

  /** `setModifierProperty(PRIVATE, true)`: the access level becomes private, other modifiers stay. */
  function MakePrivate(mods: set<Modifier>): (r: set<Modifier>)
    ensures Private in r && Public !in r && Protected !in r
    ensures forall x :: !IsAccess(x) ==> (x in r <==> x in mods)
  {
    mods - {Public, Protected} + {Private}
  }

  /**
   * `removePhysicalAnnotations(m, "Override")` as its comment intends: the
   * annotation named `name` is dropped and every other one is kept, in order.
   */
  function WithoutAnnotation(anns: seq<string>, name: string): (r: seq<string>)
    ensures forall a :: a in r <==> a in anns && a != name
    ensures |r| <= |anns|
  {
    if anns == [] then []
    else (if anns[0] == name then [] else [anns[0]]) + WithoutAnnotation(anns[1..], name)
  }

  /** A method as `extractMethods` leaves it: private, no `@Override`, renamed; parameters and body kept. */
  function Migrate(m: Method): (r: Method)
    requires |m.name| > 0
  {
    m.(name := RxName(m.name),
       modifiers := MakePrivate(m.modifiers),
       annotations := WithoutAnnotation(m.annotations, OverrideAnnotation))
  }

  /** What migrating a method changes, and that nothing else changes. */
  lemma MigrateEffect(m: Method)
    requires |m.name| > 0
    ensures var r := Migrate(m);
            && r.name == RxName(m.name)
            && Private in r.modifiers && Public !in r.modifiers && Protected !in r.modifiers
            && (forall x :: !IsAccess(x) ==> (x in r.modifiers <==> x in m.modifiers))
            && (forall a :: a in r.annotations <==> a in m.annotations && a != OverrideAnnotation)
            && r.params == m.params && r.body == m.body
  {
  }

  predicate NamesNonEmpty(ms: seq<Method>) {
    forall i :: 0 <= i < |ms| ==> |ms[i].name| > 0
  }

  /** The migrated methods, in the order they are inserted. */
  function MigrateAll(ms: seq<Method>): (r: seq<Method>)
    requires NamesNonEmpty(ms)
    ensures |r| == |ms| && forall i :: 0 <= i < |ms| ==> r[i] == Migrate(ms[i])
  {
    seq(|ms|, i requires 0 <= i < |ms| => Migrate(ms[i]))
  }

  function MethodMembers(ms: seq<Method>): (r: seq<Member>)
    ensures |r| == |ms| && forall i :: 0 <= i < |ms| ==> r[i] == MethodMember(ms[i])
  {
    seq(|ms|, i requires 0 <= i < |ms| => MethodMember(ms[i]))
  }

  function FieldMembers(fs: seq<Field>): (r: seq<Member>)
    ensures |r| == |fs| && forall i :: 0 <= i < |fs| ==> r[i] == FieldMember(fs[i])
  {
    seq(|fs|, i requires 0 <= i < |fs| => FieldMember(fs[i]))
  }

  /** The argument text `generateRxCode` accumulates: each argument followed by a comma. */
  function ArgumentText(args: seq<string>): string {
    if args == [] then "" else args[0] + "," + ArgumentText(args[1..])
  }

  lemma {:induction false} ArgumentTextAppend(args: seq<string>, a: string)
    ensures ArgumentText(args + [a]) == ArgumentText(args) + a + ","
  {
    if args == [] {
      assert args + [a] == [a];
      assert [a][1..] == [];
    } else {
      assert (args + [a])[1..] == args[1..] + [a];
      ArgumentTextAppend(args[1..], a);
    }
  }

  /** The accumulation of lines 310-311: `s[0] = s[0] + arg.getText() + ','` for every argument. */
  method JoinArguments(args: seq<string>) returns (s: string)
    ensures s == ArgumentText(args)
  {
    s := "";
    var i := 0;
    while i < |args|
      invariant 0 <= i <= |args|
      invariant s == ArgumentText(args[..i])
    {
      ArgumentTextAppend(args[..i], args[i]);
      assert args[..i + 1] == args[..i] + [args[i]];
      s := s + args[i] + ",";
      i := i + 1;
    }
    assert args[..i] == args;
  }

  const RxHead := "Disposable d2 = Single.fromCallable(() -> doInBackground("
  const RxTail := " progressSubject))\n.subscribeOn(Schedulers.io())\n.observeOn(AndroidSchedulers.mainThread())\n.subscribe(s -> rxOnPostExecute(s));"

  /** `rxStatements`: the pipeline statement for a call with these arguments. */
  function RxStatementText(args: seq<string>): string {
    RxHead + ArgumentText(args) + RxTail
  }

  function RxStatement(args: seq<string>): Stmt {
    Generated(RxStatementText(args), [])
  }

  /** Position of the first comma in `t`, if any. */
  function CommaIndex(t: string): (r: Option<nat>)
    ensures r.Some? ==> r.value < |t| && t[r.value] == ',' && ',' !in t[..r.value]
    ensures r.None? ==> ',' !in t
  {
    if t == [] then None
    else if t[0] == ',' then Some(0)
    else match CommaIndex(t[1..])
      case None => None
      case Some(k) => assert t[..k + 1] == [t[0]] + t[1..][..k]; Some(k + 1)
  }

  /** Reads a comma-terminated argument text back into its arguments. */
  function SplitArguments(t: string): seq<string>
    decreases |t|
  {
    match CommaIndex(t)
    case None => if t == [] then [] else [t]
    case Some(k) => [t[..k]] + SplitArguments(t[k + 1..])
  }

  /** The argument text reads back into the arguments, when no argument holds a comma. */
  lemma {:induction false} SplitArgumentText(args: seq<string>)
    requires forall i :: 0 <= i < |args| ==> ',' !in args[i]
    ensures SplitArguments(ArgumentText(args)) == args
  {
    if args != [] {
      var t := ArgumentText(args);
      var rest := ArgumentText(args[1..]);
      assert t == args[0] + [','] + rest;
      assert t[..|args[0]|] == args[0];
      assert CommaIndex(t) == Some(|args[0]|) by {
        assert t[|args[0]|] == ',';
      }
      assert t[|args[0]| + 1..] == rest;
      SplitArgumentText(args[1..]);
    }
  }

  /** The arguments a generated pipeline statement passes before `progressSubject`, if it is one. */
  function PipelineArguments(text: string): Option<seq<string>> {
    if |RxHead| + |RxTail| <= |text| && StartsWith(text, RxHead) && EndsWith(text, RxTail)
    then Some(SplitArguments(text[|RxHead|..|text| - |RxTail|]))
    else None
  }

  /**
   * The pipeline text has the fixed head that calls `doInBackground(`, the
   * original arguments each followed by a comma, then ` progressSubject` and
   * the fixed scheduling tail; the arguments read back out of it.
   */
  lemma PipelineArgumentsRoundTrip(args: seq<string>)
    requires forall i :: 0 <= i < |args| ==> ',' !in args[i]
    ensures StartsWith(RxStatementText(args), RxHead) && EndsWith(RxStatementText(args), RxTail)
    ensures PipelineArguments(RxStatementText(args)) == Some(args)
  {
    var text := RxStatementText(args);
    assert text[..|RxHead|] == RxHead;
    assert text[|text| - |RxTail|..] == RxTail;
    assert text[|RxHead|..|text| - |RxTail|] == ArgumentText(args);
    SplitArgumentText(args);
  }
}
