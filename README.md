# Reactiveness: AsyncTask to RxJava, modelled in Dafny

Reactiveness is an IntelliJ plugin that rewrites Android `AsyncTask`
subclasses into RxJava code. This project models its core in Dafny:

- recognising candidate classes and the classes around them (`ReactivenessUtils`);
- deciding whether a candidate is safe to rewrite (`AnalyseAsyncTask.isInvalidToRefactor`);
- the snapshot a candidate is stored in (`AsyncTaskInstance`);
- the rewrite of an inner task class into its enclosing class
  (`AsyncTaskRefactor.refactorInnerAsyncTask` and its steps).

The IDE's syntax tree (PSI) is modelled in `psi.dfy`. Classes, methods,
statements and expressions are values. The class being rewritten is a
`ClassNode` object, and the rewrite updates its member list in place. A
source statement carries an id that stands for the IDE's handle on it.
Statements the rewrite creates from text are `Generated`. Each PSI edit
(`addBefore`, `addAfter`, `replace`, `delete`, member insertion) is a
function in `psi_edits.dfy`. Each step of the rewrite is a method on the
`ClassNode`, proved against such a function. Lemmas then prove what the
source promises about those functions.

Modules:

- `Wrappers` and `Strings`: `Option` and the ASCII string operations.
- `Psi` and `PsiEdits`: the tree and the tree edits.
- `ReactivenessUtils`, `AnalyseAsyncTask` and `AsyncTaskInstance`.
- `AsyncTaskRefactor`: the steps and the whole run.
- `RefactorText`: the names and texts the rewrite writes.
- `ExecuteRewrite`: the four passes of `changeAsyncTaskExecuteToRx`.
- `ProgressObserver`: the `publishProgress` rewrite.

How the IDE places an inserted member was read from the calls the code
makes:

- `createCompositeDisposable` inserts at the first field's offset, so the
  new field goes just before the first field.
- `moveAsyncTaskFieldsToParentClass` inserts one character before the inner
  class's name. Each field therefore goes just before the inner class, and
  the fields keep their order.
- `extractMethods` inserts at the enclosing class's name offset. That offset
  lies outside the class body, so no anchor is found and the method is
  added at the end of the class.

Where the code does something other than what its names and comments
suggest, the model follows the code. The one exception is the removal of
`@Override` from migrated methods, where the model follows the comment
(see "Left out"):

- Every migrated method is renamed to `"rx"` plus its capitalised name,
  hooks included.
- The progress observer is appended as the last parameter of
  `rxDoInBackground`. The generated pipeline calls `doInBackground(` with
  the original arguments followed by `progressSubject`, whether or not the
  task has a progress hook.
- The progress subject's declaration, its subscription and the
  subscription's registration are added inside the first statement of the
  method that holds the reference, after that statement's last child. They
  are part of that statement from then on. When the statement is later
  replaced by the pipeline or deleted as a task-variable declaration, the
  wiring goes with it. Nothing declares the subject at the start of the
  background method.
- The code never checks for an existing composite-disposable field before
  it inserts one. The model always adds one; how the IDE merges a member
  whose name is already taken is left out (see below). A class with no
  field makes the run fail with an exception after the import was added.
  Nothing is rolled back.
- A direct call `new Task().execute(...)` in a run where the task has an
  `onPreExecute` hook makes the run fail with an exception. The code hands
  `directCalls.getReference()` to `addOnPreExecute`, and a method call
  expression has no reference, so that value is null. The edits made up to
  then stay: the wiring, the rewritten variable calls and the deleted
  declarations. The inner class is not deleted.
- The steps run in the order the code runs them: onDestroy handling, then
  deletion of the inner class, then the progress rewrite.

## Model

| member | source | states |
|---|---|---|
| `ReactivenessUtils.FindIfExtendsAsyncTask` | src/main/java/gr/aueb/reactiveness/utils/ReactivenessUtils.java:40-48 | true exactly when some extended type's name is exactly `AsyncTask` |
| `ReactivenessUtils.FindIfDoInBackgroundExist` | src/main/java/gr/aueb/reactiveness/utils/ReactivenessUtils.java:56-61 | true exactly when some method, inherited ones included, is named `doInBackground` ignoring case |
| `ReactivenessUtils.InheritedDoInBackgroundCounts` | src/main/java/gr/aueb/reactiveness/utils/ReactivenessUtils.java:56-61 | an inherited `doInBackground` alone is enough to make a class a candidate |
| `ReactivenessUtils.ExtendsActivityIffOccurs` | src/main/java/gr/aueb/reactiveness/utils/ReactivenessUtils.java:69-74 | the class counts as an activity exactly when there is a first extended type and `Activity` occurs somewhere in its name |
| `ReactivenessUtils.ExtendsActivityIgnoresLaterTypes` | src/main/java/gr/aueb/reactiveness/utils/ReactivenessUtils.java:69-74 | types after the first extended one never change the answer |
| `ReactivenessUtils.AddImport` | src/main/java/gr/aueb/reactiveness/utils/ReactivenessUtils.java:83-102 | the import list becomes the old list plus one on-demand import, unless the file is not Java, has no import list, or already imports that name; the rewrite calls an identical private copy, AsyncTaskRefactor.java lines 101-122 |
| `ReactivenessUtils.WithImportIdempotent` | src/main/java/gr/aueb/reactiveness/utils/ReactivenessUtils.java:83-102 | adding the same import twice is adding it once |
| `ReactivenessUtils.WithImportEffect` | src/main/java/gr/aueb/reactiveness/utils/ReactivenessUtils.java:83-102 | old imports kept in order, at most one added, and the name imported afterwards in a Java file with an import list |
| `ReactivenessUtils.FindAnonymousAsyncTaskExist` | src/main/java/gr/aueb/reactiveness/utils/ReactivenessUtils.java:110-127 | true exactly when some new-expression in the class's own methods has text containing `new AsyncTask` |
| `ReactivenessUtils.FindAnonymousAsyncTaskExpression` | src/main/java/gr/aueb/reactiveness/utils/ReactivenessUtils.java:135-149 | the list holds exactly the new-expressions, in visiting order, whose text starts with `new AsyncTask` |
| `ReactivenessUtils.FoundExpressionImpliesExist` | src/main/java/gr/aueb/reactiveness/utils/ReactivenessUtils.java:110-149 | an expression the second search finds makes the first search succeed |
| `ReactivenessUtils.SearchIfCompositeDisposableExists` | src/main/java/gr/aueb/reactiveness/utils/ReactivenessUtils.java:157-165 | true exactly when some field, inherited ones included, is named `CompositeDisposable` |
| `Strings.ContainsIffOccurs` | src/main/java/gr/aueb/reactiveness/utils/ReactivenessUtils.java:73 | `String.contains` holds exactly when the text occurs at some position |
| `AnalyseAsyncTask.IsInvalidToRefactor` | src/main/java/gr/aueb/reactiveness/analysis/AnalyseAsyncTask.java:34-60 | invalid exactly when a constructor has parameters or some reference is cross-file, held by a field, or ends in a call to `isCancelled` or `getStatus` where that check applies |
| `AnalyseAsyncTask.OrderIrrelevant` | src/main/java/gr/aueb/reactiveness/analysis/AnalyseAsyncTask.java:43-58 | the verdict depends only on which references there are, not on their order |
| `AnalyseAsyncTask.ParameterisedConstructorDecides` | src/main/java/gr/aueb/reactiveness/analysis/AnalyseAsyncTask.java:37-41 | a constructor with parameters makes the class invalid whatever its references |
| `AnalyseAsyncTask.ParameterlessConstructorIsValid` | src/main/java/gr/aueb/reactiveness/analysis/AnalyseAsyncTask.java:34-60 | with no parameterised constructor and no disqualifying reference the class is valid |
| `AnalyseAsyncTask.CrossFileOrFieldUseInvalid` | src/main/java/gr/aueb/reactiveness/analysis/AnalyseAsyncTask.java:44-48 | a reference from another file, or one held by a field, makes the class invalid |
| `AnalyseAsyncTask.LocalVariableNewIsSafe` | src/main/java/gr/aueb/reactiveness/analysis/AnalyseAsyncTask.java:50-53 | `new Task()` held directly by a local variable in the same file never disqualifies |
| `AnalyseAsyncTask.SuffixDecides` | src/main/java/gr/aueb/reactiveness/analysis/AnalyseAsyncTask.java:50-53 | where the suffix check applies, the reference disqualifies exactly when its grandparent text ends in `isCancelled` or `getStatus` |
| `AsyncTaskInstance.OnProgressUpdateExist` | src/main/java/gr/aueb/reactiveness/utils/AsyncTaskInstance.java:92-98 | true exactly when there is a class and some method, inherited ones included, is `onProgressUpdate` |
| `AsyncTaskInstance.Create` | src/main/java/gr/aueb/reactiveness/utils/AsyncTaskInstance.java:17-36 | the snapshot holds the class, its methods, fields and offset, or empty values when there is no class, and the progress flag |
| `AsyncTaskInstance.PreExecuteFlagIsProgressFlag` | src/main/java/gr/aueb/reactiveness/utils/AsyncTaskInstance.java:100-106 | the pre-execute flag as written always equals the progress flag |
| `AsyncTaskInstance.PreExecuteFlagMissesOnPreExecute` | src/main/java/gr/aueb/reactiveness/utils/AsyncTaskInstance.java:100-106 | a task whose only hook is `onPreExecute` gets a false pre-execute flag |
| `AsyncTaskRefactor.ProgressHookExists` | src/main/java/gr/aueb/reactiveness/refactor/AsyncTaskRefactor.java:74-75 | true exactly when some method of the task, inherited ones included, is `onProgressUpdate` |
| `AsyncTaskRefactor.PreExecuteHookExists` | src/main/java/gr/aueb/reactiveness/refactor/AsyncTaskRefactor.java:76-77 | true exactly when some method of the task, inherited ones included, is `onPreExecute` |
| `AsyncTaskRefactor.PreExecuteHookFindsOnPreExecute` | src/main/java/gr/aueb/reactiveness/refactor/AsyncTaskRefactor.java:76-77 | on the task whose only hook is `onPreExecute`, this flag is true while the snapshot's flag is false |
| `AsyncTaskRefactor.WithCompositeDisposable` | src/main/java/gr/aueb/reactiveness/refactor/AsyncTaskRefactor.java:124-134 | fails exactly when the class has no field; otherwise the new field sits just before the first field, everything else is unchanged, and the members are the old ones plus the new field |
| `AsyncTaskRefactor.CompositeDisposableFirst` | src/main/java/gr/aueb/reactiveness/refactor/AsyncTaskRefactor.java:129-133 | the generated field becomes the first field, and removing it gives back the old member list |
| `AsyncTaskRefactor.CreateCompositeDisposable` | src/main/java/gr/aueb/reactiveness/refactor/AsyncTaskRefactor.java:124-134 | the import is added first; then the field is inserted, or, for a class without fields, the members are unchanged and the step reports failure |
| `AsyncTaskRefactor.WithFieldsBeforeEffect` | src/main/java/gr/aueb/reactiveness/refactor/AsyncTaskRefactor.java:136-144 | the task's fields, in order, end up immediately before the inner class, which keeps its place after them; nothing is lost |
| `AsyncTaskRefactor.MoveAsyncTaskFieldsToParentClass` | src/main/java/gr/aueb/reactiveness/refactor/AsyncTaskRefactor.java:136-144 | inserting each field in turn before the inner class gives that member list |
| `AsyncTaskRefactor.ExtractMethods` | src/main/java/gr/aueb/reactiveness/refactor/AsyncTaskRefactor.java:146-162 | every method of the task, inherited ones included, is appended in order, migrated |
| `AsyncTaskRefactor.ExtractedNames` | src/main/java/gr/aueb/reactiveness/refactor/AsyncTaskRefactor.java:146-162 | after extraction there is a method `rxX` for every method `x` of the task |
| `AsyncTaskRefactor.InitializeBehaviorSubject` | src/main/java/gr/aueb/reactiveness/refactor/AsyncTaskRefactor.java:164-185 | the subject declaration, with its subscription and the subscription's registration nested inside it, is attached inside the first statement of the method holding the reference, after its last child; nothing else changes |
| `AsyncTaskRefactor.AddOnPreExecute` | src/main/java/gr/aueb/reactiveness/refactor/AsyncTaskRefactor.java:329-336 | `rxOnPreExecute();` is inserted just before the call's statement |
| `AsyncTaskRefactor.GenerateRxCode` | src/main/java/gr/aueb/reactiveness/refactor/AsyncTaskRefactor.java:307-327 | the call's statement is replaced by the pipeline statement for its arguments, followed by `compositeDisposable.add(d2);` |
| `AsyncTaskRefactor.RewriteExecuteCall` | src/main/java/gr/aueb/reactiveness/refactor/AsyncTaskRefactor.java:288-291 | the pre-execute insertion followed by the replacement is the single edit the model uses for one call |
| `AsyncTaskRefactor.ChangeAsyncTaskExecuteToRx` | src/main/java/gr/aueb/reactiveness/refactor/AsyncTaskRefactor.java:252-305 | the four passes over the references (wiring, calls through variables, declaration deletion, direct calls) produce the rewritten member list; the step fails, after the deletions, exactly when a direct call meets an `onPreExecute` hook |
| `AsyncTaskRefactor.FirstMethodNamed` | src/main/java/gr/aueb/reactiveness/refactor/AsyncTaskRefactor.java:188-190 | finds the first own method with the name, and finds none exactly when there is none |
| `AsyncTaskRefactor.WithOnDestroy` | src/main/java/gr/aueb/reactiveness/refactor/AsyncTaskRefactor.java:187-225 | an existing `onDestroy` gets the dispose guard before its last statement; otherwise an activity gets a protected `@Override onDestroy` that calls super and then disposes; any other class is unchanged |
| `AsyncTaskRefactor.GenerateOrUpdateOnDestroy` | src/main/java/gr/aueb/reactiveness/refactor/AsyncTaskRefactor.java:187-225 | the method leaves the members that function gives |
| `AsyncTaskRefactor.OnDestroyDisposes` | src/main/java/gr/aueb/reactiveness/refactor/AsyncTaskRefactor.java:187-225 | if the class had an `onDestroy` or is an activity, some `onDestroy` now disposes; all fields, method names and source statements are kept |
| `AsyncTaskRefactor.WithProgressObserver` | src/main/java/gr/aueb/reactiveness/refactor/AsyncTaskRefactor.java:227-250 | only the first `rxDoInBackground` changes: same name and modifiers, the observer appended as last parameter, and its body is the `.onNext` rewrite of the old one, which maps back to it |
| `AsyncTaskRefactor.ProgressObserverEmits` | src/main/java/gr/aueb/reactiveness/refactor/AsyncTaskRefactor.java:227-250 | in the rewritten `rxDoInBackground` every source statement calls `publishProgress` only through `.onNext`, and statements that never named it are unchanged |
| `AsyncTaskRefactor.ChangeDoInBackgroundOnProgressUpdate` | src/main/java/gr/aueb/reactiveness/refactor/AsyncTaskRefactor.java:227-250 | the method leaves the members that function gives |
| `AsyncTaskRefactor.ProgressObserverKeeps` | src/main/java/gr/aueb/reactiveness/refactor/AsyncTaskRefactor.java:227-250 | the progress rewrite keeps every field, method name and source statement |
| `AsyncTaskRefactor.RefactorInnerAsyncTask` | src/main/java/gr/aueb/reactiveness/refactor/AsyncTaskRefactor.java:66-99 | the import is always added to the import list as it stands after line 93, before `optimizeImports` may drop or rewrite it; the run reports completion and leaves the members exactly as the whole rewrite gives them, including the partial edits of a run that fails |
| `AsyncTaskRefactor.RefactoredCompletes` | src/main/java/gr/aueb/reactiveness/refactor/AsyncTaskRefactor.java:124-134 | the run completes exactly when the enclosing class has a field (lines 124-134) and no direct call meets an `onPreExecute` hook, whose null reference throws at line 334 when passed at lines 296-302 |
| `AsyncTaskRefactor.RefactoredThrowsAtDirectCall` | src/main/java/gr/aueb/reactiveness/refactor/AsyncTaskRefactor.java:296-302 | a run that fails at a direct call keeps the inner class and the new composite-disposable field, has removed every task-variable statement and keeps every other statement |
| `AsyncTaskRefactor.RefactoredMembers` | src/main/java/gr/aueb/reactiveness/refactor/AsyncTaskRefactor.java:66-99 | after a completed run: the inner class is gone, and the composite-disposable field, every task field, an `rx` method for every task method, and all the class's own fields and method names are present |
| `AsyncTaskRefactor.RefactoredStatements` | src/main/java/gr/aueb/reactiveness/refactor/AsyncTaskRefactor.java:252-305 | after a completed run every execute call and every task-variable declaration is gone, and every other statement of the class is still there |
| `RefactorText.RxName` | src/main/java/gr/aueb/reactiveness/refactor/AsyncTaskRefactor.java:154-156 | the new name is `rx`, then the first character upper-cased, then the rest of the name unchanged |
| `RefactorText.RxNameCollides` | src/main/java/gr/aueb/reactiveness/refactor/AsyncTaskRefactor.java:154-156 | two names get the same new name exactly when they differ at most in the case of their first letter |
| `RefactorText.RxNameIsNeverDoInBackground` | src/main/java/gr/aueb/reactiveness/refactor/AsyncTaskRefactor.java:156 | no migrated method is named `doInBackground`, the name the generated pipeline calls |
| `RefactorText.MakePrivate` | src/main/java/gr/aueb/reactiveness/refactor/AsyncTaskRefactor.java:150 | the method becomes private and neither public nor protected; other modifiers are kept |
| `RefactorText.WithoutAnnotation` | src/main/java/gr/aueb/reactiveness/refactor/AsyncTaskRefactor.java:152 | exactly the annotations other than `Override` are kept, as the comment at line 151 intends (see "Left out" on the qualified-name lookup) |
| `RefactorText.MigrateEffect` | src/main/java/gr/aueb/reactiveness/refactor/AsyncTaskRefactor.java:148-156 | a migrated method is renamed, private, without `@Override`, with its parameters and body unchanged |
| `RefactorText.JoinArguments` | src/main/java/gr/aueb/reactiveness/refactor/AsyncTaskRefactor.java:309-311 | the accumulated text is every argument followed by a comma, in order |
| `RefactorText.SplitArgumentText` | src/main/java/gr/aueb/reactiveness/refactor/AsyncTaskRefactor.java:309-311 | for arguments without commas, splitting the accumulated text gives back the arguments |
| `RefactorText.PipelineArgumentsRoundTrip` | src/main/java/gr/aueb/reactiveness/refactor/AsyncTaskRefactor.java:321-327 | the pipeline text has the fixed head and tail, and the call's arguments can be read back from it |
| `ExecuteRewrite.WireAllEffect` | src/main/java/gr/aueb/reactiveness/refactor/AsyncTaskRefactor.java:270-279 | the wiring pass changes only method bodies and keeps every source statement |
| `ExecuteRewrite.WireAllWithoutProgress` | src/main/java/gr/aueb/reactiveness/refactor/AsyncTaskRefactor.java:275-279 | without an `onProgressUpdate` hook the wiring pass changes nothing |
| `ExecuteRewrite.RewriteCallsEffect` | src/main/java/gr/aueb/reactiveness/refactor/AsyncTaskRefactor.java:282-304 | the call passes change only method bodies and remove exactly the statements of the calls |
| `ExecuteRewrite.DeleteAllEffect` | src/main/java/gr/aueb/reactiveness/refactor/AsyncTaskRefactor.java:293 | the deletion pass changes only method bodies and removes exactly the listed declarations |
| `ExecuteRewrite.ExecuteToRxEffect` | src/main/java/gr/aueb/reactiveness/refactor/AsyncTaskRefactor.java:252-305 | the whole rewrite changes only method bodies, and a statement survives exactly when it is neither an execute call nor a task-variable declaration; when a direct call meets an `onPreExecute` hook, exactly the calls through variables and the declarations are gone |
| `ExecuteRewrite.WireAllAttaches` | src/main/java/gr/aueb/reactiveness/refactor/AsyncTaskRefactor.java:164-185 | with a progress hook, every method holding a collected reference gets the wiring inside its first statement |
| `ExecuteRewrite.WiringGoesWithDeclaration` | src/main/java/gr/aueb/reactiveness/refactor/AsyncTaskRefactor.java:169-170 | for `Download d = new Download(); d.execute(url);` the wiring is attached to the declaration, and the whole rewrite leaves only the pipeline and its registration: the wiring is deleted with the declaration |
| `ExecuteRewrite.RewriteCallAt` | src/main/java/gr/aueb/reactiveness/refactor/AsyncTaskRefactor.java:307-336 | for a statement that occurs once, the statements around it stay, and in its place come the pre-execute call (if the hook exists), the pipeline and the registration |
| `ProgressObserver.RestoreSubstExpr` | src/main/java/gr/aueb/reactiveness/refactor/AsyncTaskRefactor.java:237-248 | rewriting `publishProgress` to `publishProgress.onNext` and mapping it back gives the original expression |
| `ProgressObserver.RestoreSubstBody` | src/main/java/gr/aueb/reactiveness/refactor/AsyncTaskRefactor.java:237-248 | the same round trip holds for a whole method body |
| `ProgressObserver.SubstUnmentioned` | src/main/java/gr/aueb/reactiveness/refactor/AsyncTaskRefactor.java:238-246 | an expression that never names `publishProgress` is left unchanged |
| `ProgressObserver.SubstObserved` | src/main/java/gr/aueb/reactiveness/refactor/AsyncTaskRefactor.java:247-248 | after the rewrite every `publishProgress` is the qualifier of `.onNext` |
| `ProgressObserver.SubstBodyKeepsIds` | src/main/java/gr/aueb/reactiveness/refactor/AsyncTaskRefactor.java:248 | the rewrite keeps every statement of the body |
| `ProgressObserver.SubstBodyObserved` | src/main/java/gr/aueb/reactiveness/refactor/AsyncTaskRefactor.java:237-248 | in a rewritten body every source statement names `publishProgress` only as the qualifier of `.onNext`, and a statement that never named it is unchanged |
| `PsiEdits.SpliceAt` | src/main/java/gr/aueb/reactiveness/refactor/AsyncTaskRefactor.java:315-318 | an edit around a statement that occurs once changes only that place |
| `PsiEdits.SpliceContains` | src/main/java/gr/aueb/reactiveness/refactor/AsyncTaskRefactor.java:315-318 | an edit that adds only generated statements keeps every other statement, and keeps the edited one only when it is not replaced |
| `PsiEdits.SpliceTwice` | src/main/java/gr/aueb/reactiveness/refactor/AsyncTaskRefactor.java:329-336 | inserting before a statement and then replacing it equals one edit that puts the insertion in its place |
| `PsiEdits.ClassIndexAfter` | src/main/java/gr/aueb/reactiveness/refactor/AsyncTaskRefactor.java:139-141 | members placed in front of the inner class shift its position by their number |

## Left out

- The outer loop of `refactorInnerAsyncTask` over the map of classes is not modelled. `RefactorInnerAsyncTask` is one iteration. An exception in one iteration also stops the iterations after it; the model leaves that out.
- `WriteCommandAction` only groups the edits into one undoable command and changes nothing in the file. `ReformatCodeProcessor` (AsyncTaskRefactor.java line 94) changes only layout. `optimizeImports` (line 95) rebuilds the import list: it drops unused imports, reorders them and, depending on the code style, may turn the added on-demand import into single-class imports. None of the three is modelled, so the import list the model gives is the one before line 94.
- The IDE services are inputs, not models. The reference search results are the `Reference` values. The inherited methods and fields are fields of the class. Parsing text into PSI is not modelled: a generated statement is its text.
- `RxJavaAction` is not part of this model. It walks the project's Java files and their inner classes, and for each class whose extends list names `AsyncTask` it prints the class's references and adds a private `boolean myTest()` prototype method to it in a write command. It calls neither the analysis nor the rewrite. `Commons` is kept only as constants.
- `FindIfExtendsAsyncTask`: requires the class to have an extends list. The source passes the list to `Objects.requireNonNull` (ReactivenessUtils.java line 42), which throws on a missing list; that exception is not modelled.
- `RefactorInnerAsyncTask`: edits reach only the enclosing class. Call sites in other classes of the same file are left unchanged.
- `RefactorInnerAsyncTask`: each call's parent is taken to be its expression statement. A use of a task variable is taken to be an `execute` call.
- `RefactorInnerAsyncTask` and `ExecuteToRx`: a method body is a flat list of statements. Statements inside nested blocks, lambdas and anonymous classes (a call in a listener's `onClick`, say) are not represented, so the edits the source makes there, and the exceptions it may throw there, are not modelled.
- `WithCompositeDisposable`, `WithFieldsBeforeEffect` and `ExtractMethods`: the IDE's member insertion may merge a new member with an existing one of the same name or signature. The model always inserts. A class that already has a `compositeDisposable` field, a task field named like an enclosing field, or an `rx` method that already exists is not modelled faithfully.
- `AddOnPreExecute` and `GenerateRxCode`: the source calls `addBefore` and `addAfter` on the method with an anchor inside its body. The model inserts next to the statement.
- `WithOnDestroy`: the model puts the guard before the last statement. The source adds it before `getLastBodyElement()`, which is normally the whitespace before the closing brace, so there the guard normally follows the last statement. Both keep every statement.
- `WithOnDestroy`: the `void` return type of the generated `onDestroy` is not modelled, because methods carry no return type.
- `WithProgressObserver`: the stored text of a new-expression is not refreshed after the rewrite. Generated statements are not rewritten, because they are text.
- `ExtractMethods`: method names are required to be non-empty, as Java identifiers are. The source indexes `methodName[0]`.
- `ExtractMethods` and `RefactoredCompletes`: `getAllMethods()` (AsyncTaskRefactor.java line 147) also returns the compiled methods the task inherits from `AsyncTask` and `Object`. The model copies, renames and makes private each of them like a source method. In the IDE, changing the modifiers of a compiled method's copy probably throws an `IncorrectOperationException`, which would stop the run inside `extractMethods` after the methods before it were added. `RefactoredCompletes` does not count that exit; it is not modelled because it depends on library behaviour this model does not include.
- `WithoutAnnotation` and `MigrateEffect`: the model removes `@Override` from every migrated method, as the comment at AsyncTaskRefactor.java line 151 says the code does. The call at line 152 passes the short name `"Override"` to `removePhysicalAnnotations`, which looks annotations up by fully qualified name. Where `@Override` resolves to `java.lang.Override` the lookup probably finds nothing, so the private `rx` method keeps `@Override` and does not compile. That library lookup is not part of this model, so here the model follows the comment rather than the code.
- Character case is ASCII only: `toUpperCase` and `equalsIgnoreCase` are not modelled for other scripts.

## Findings

| source | as written | input that shows it | evidently intended | confidence | as-written member | corrected member |
|---|---|---|---|---|---|---|
| src/main/java/gr/aueb/reactiveness/utils/AsyncTaskInstance.java:100-106 | `onPreExecuteExist` tests for a method named `onProgressUpdate` | a task `Download` whose only method is `onPreExecute` gets a false flag | test for `onPreExecute`, as the rewrite itself does at AsyncTaskRefactor.java lines 76-77 | high, not executed | `AsyncTaskInstance.PreExecuteFlagMissesOnPreExecute` | `AsyncTaskRefactor.PreExecuteHookExists` |
